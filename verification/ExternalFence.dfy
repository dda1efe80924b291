// Calls to an external MCP connection racing with its revocation
// (src/folio_lattice/external_mcp.py, the registry in src/folio_lattice/service.py).
// Every call is a sequence of atomic steps; the database write lock taken by
// BEGIN IMMEDIATE is the one thing they exclude each other with.
module ExternalFence {
  import opened Common
  import opened ConcurrencyLimiter

  datatype Kind = ToolCall | ResourceRead

  datatype Status = Active | Revoked

  datatype Connection = Connection(status: Status, tools: set<string>, resources: set<string>)

  // What a caller asks the broker for: a tool call or resource read, a health probe
  // of the upstream, a revocation. `Other` is an operation that is admitted and
  // released but never contacts an upstream or changes a connection.
  datatype Operation =
    | Use(kind: Kind, connection: nat, target: string)
    | Probe(connection: nat)
    | Revoke(connection: nat)
    | Other

  // Sends a credential to the upstream of the connection.
  predicate Contacts(op: Operation) {
    op.Use? || op.Probe?
  }

  datatype Outcome = Allowed | Denied | Failed | RevokedOutcome | AlreadyRevoked | Healthy | Unhealthy

  // What an exception inside the call is audited as.
  datatype Fault = PolicyDenied | CallFailed

  function FaultOutcome(f: Fault): Outcome {
    match f
    case PolicyDenied => Denied
    case CallFailed => Failed
  }

  datatype Phase =
    | Arrived
    | Admitted                    // rate limiter passed, slot taken
    | Authorized                  // registry row read: active, and the target of a use approved
    | Prepared                    // pre-validator passed, credential issued
    | Locked                      // BEGIN IMMEDIATE succeeded
    | InFlight                    // row read again and active; upstream running
    | Checked                     // result passed the bounds, credential and adapter checks
    | Committed                   // fence released, result in hand
    | Failing(fault: Fault)     // exception caught, fence released
    | Unwinding(answered: bool)   // `finally` still to release the slot; with the upstream's result, or not
    | Done(returned: bool)

  datatype Call = Call(operation: Operation, key: string, phase: Phase)

  // `call` says which call wrote the row; the table itself has no such column.
  datatype AuditRow = AuditRow(call: nat, connection: nat, outcome: Outcome)

  datatype State = State(
    connections: map<nat, Connection>,
    lock: Option<nat>,
    calls: seq<Call>,
    slots: Slots,
    audit: seq<AuditRow>)

  const Fresh := State(map[], None, [], Slots(map[], 0), [])

  datatype Event =
    | Register(id: nat, tools: set<string>, resources: set<string>)
    | Arrive(operation: Operation, key: string)
    | Admit(i: nat, rateAllows: bool)
    | Authorize(i: nat, argumentsValid: bool, denialRecorded: bool)
    | Inspect(i: nat)
    | Prepare(i: nat, fault: Option<Fault>)
    | TakeLock(i: nat, timedOut: bool)
    | StartUpstream(i: nat)
    | FinishUpstream(i: nat, fault: Option<Fault>)
    | CommitFence(i: nat, ok: bool)
    | RecordAllowed(i: nat, ok: bool)
    | RecordFailure(i: nat, ok: bool)
    | RecordHealth(i: nat, ok: bool, healthy: bool)
    | CommitRevoke(i: nat, ok: bool)
    | FinishOther(i: nat)
    | ReleaseSlot(i: nat)

  predicate Approved(c: Connection, kind: Kind, target: string) {
    match kind
    case ToolCall => target in c.tools
    case ResourceRead => target in c.resources
  }

  function Moved(s: State, i: nat, phase: Phase): State
    requires i < |s.calls|
  {
    s.(calls := s.calls[i := s.calls[i].(phase := phase)])
  }

  function Logged(s: State, i: nat, connection: nat, outcome: Outcome): State {
    s.(audit := s.audit + [AuditRow(i, connection, outcome)])
  }

  predicate At(s: State, i: nat, phase: Phase) {
    i < |s.calls| && s.calls[i].phase == phase
  }

  /** A write to the audit table needs the lock, and is given up on when it cannot have it. */
  predicate CanWrite(s: State) {
    s.lock.None?
  }

  /** One atomic step of one call; None when the step is not possible. */
  function Apply(b: SlotBounds, s: State, e: Event): Option<State> {
    match e
    case Register(id, tools, resources) =>
      if CanWrite(s) && id !in s.connections then
        Some(s.(connections := s.connections[id := Connection(Active, tools, resources)]))
      else None
    case Arrive(operation, key) => Some(s.(calls := s.calls + [Call(operation, key, Arrived)]))
    case Admit(i, rateAllows) =>
      if !At(s, i, Arrived) then None
      else if rateAllows && HasSlot(b, s.slots, s.calls[i].key) then
        Some(Moved(s, i, Admitted).(slots := Acquired(s.slots, s.calls[i].key)))
      else Some(Moved(s, i, Done(false)))
    case Authorize(i, argumentsValid, denialRecorded) =>
      if !At(s, i, Admitted) || !s.calls[i].operation.Use? then None
      else
        var op := s.calls[i].operation;
        if op.connection in s.connections
           && s.connections[op.connection].status.Active?
           && Approved(s.connections[op.connection], op.kind, op.target) then
          Some(Moved(s, i, if argumentsValid then Authorized else Unwinding(false)))
        else if denialRecorded then
          if CanWrite(s) then Some(Logged(Moved(s, i, Unwinding(false)), i, op.connection, Denied)) else None
        else Some(Moved(s, i, Unwinding(false)))
    case Inspect(i) =>
      if !At(s, i, Admitted) || !s.calls[i].operation.Probe? then None
      else
        var c := s.calls[i].operation.connection;
        var active := c in s.connections && s.connections[c].status.Active?;
        Some(Moved(s, i, if active then Authorized else Unwinding(false)))
    case Prepare(i, fault) =>
      if !At(s, i, Authorized) then None
      else Some(Moved(s, i, if fault.Some? then Failing(fault.value) else Prepared))
    case TakeLock(i, timedOut) =>
      if At(s, i, Prepared) then
        if timedOut then Some(Moved(s, i, Failing(CallFailed)))
        else if CanWrite(s) then Some(Moved(s, i, Locked).(lock := Some(i)))
        else None
      else if At(s, i, Admitted) && s.calls[i].operation.Revoke? then
        if timedOut then Some(Moved(s, i, Unwinding(false)))
        else if CanWrite(s) then Some(Moved(s, i, Locked).(lock := Some(i)))
        else None
      else None
    case StartUpstream(i) =>
      if !At(s, i, Locked) || !Contacts(s.calls[i].operation) then None
      else
        var c := s.calls[i].operation.connection;
        if c in s.connections && s.connections[c].status.Active? then Some(Moved(s, i, InFlight))
        else Some(Moved(s, i, Failing(CallFailed)).(lock := None))
    case FinishUpstream(i, fault) =>
      if !At(s, i, InFlight) then None
      else if fault.Some? then Some(Moved(s, i, Failing(fault.value)).(lock := None))
      else Some(Moved(s, i, Checked))
    case CommitFence(i, ok) =>
      if !At(s, i, Checked) then None
      else Some(Moved(s, i, if ok then Committed else Failing(CallFailed)).(lock := None))
    case RecordAllowed(i, ok) =>
      if !At(s, i, Committed) || !s.calls[i].operation.Use? then None
      else if !ok then Some(Moved(s, i, Unwinding(false)))
      else if CanWrite(s) then
        Some(Logged(Moved(s, i, Unwinding(true)), i, s.calls[i].operation.connection, Allowed))
      else None
    case RecordFailure(i, ok) =>
      if i >= |s.calls| || !s.calls[i].phase.Failing? || !s.calls[i].operation.Use? then None
      else if !ok then Some(Moved(s, i, Unwinding(false)))
      else if CanWrite(s) then
        var outcome := FaultOutcome(s.calls[i].phase.fault);
        Some(Logged(Moved(s, i, Unwinding(false)), i, s.calls[i].operation.connection, outcome))
      else None
    case RecordHealth(i, ok, healthy) =>
      if i >= |s.calls| || !s.calls[i].operation.Probe? || !(s.calls[i].phase.Committed? || s.calls[i].phase.Failing?) then None
      else if !ok then Some(Moved(s, i, Unwinding(false)))
      else if CanWrite(s) then
        var c := s.calls[i].operation.connection;
        if c in s.connections && s.connections[c].status.Active? then
          var outcome := if s.calls[i].phase.Committed? && healthy then Healthy else Unhealthy;
          Some(Logged(Moved(s, i, Unwinding(false)), i, c, outcome))
        else Some(Moved(s, i, Unwinding(false)))
      else None
    case CommitRevoke(i, ok) =>
      if !At(s, i, Locked) || !s.calls[i].operation.Revoke? then None
      else
        var c := s.calls[i].operation.connection;
        var unlocked := Moved(s, i, Unwinding(false)).(lock := None);
        if !ok || c !in s.connections then Some(unlocked)
        else
          var outcome := if s.connections[c].status.Active? then RevokedOutcome else AlreadyRevoked;
          Some(Logged(unlocked, i, c, outcome)
               .(connections := s.connections[c := s.connections[c].(status := Revoked)]))
    case FinishOther(i) =>
      if At(s, i, Admitted) && s.calls[i].operation.Other? then Some(Moved(s, i, Unwinding(false))) else None
    case ReleaseSlot(i) =>
      if i < |s.calls| && s.calls[i].phase.Unwinding? then
        Some(Moved(s, i, Done(s.calls[i].phase.answered)).(slots := Released(s.slots, s.calls[i].key)))
      else None
  }

  /** An interleaving: any sequence of possible steps. */
  ghost predicate Reaches(b: SlotBounds, s: State, events: seq<Event>, s': State)
    decreases |events|
  {
    if events == [] then s' == s
    else
      var next := Apply(b, s, events[0]);
      next.Some? && Reaches(b, next.value, events[1..], s')
  }

  // -------------------------------------------------------------- invariants

  predicate HoldsLock(p: Phase) {
    p.Locked? || p.InFlight? || p.Checked?
  }

  predicate HoldsSlot(p: Phase) {
    !p.Arrived? && !p.Done?
  }

  // The upstream is being used, or may still be, on the strength of the check in `Authorize`.
  predicate PastAuthorize(c: Call) {
    c.operation.Use? && !c.phase.Arrived? && !c.phase.Admitted? && !c.phase.Unwinding? && !c.phase.Done?
  }

  predicate Returns(p: Phase) {
    p == Unwinding(true) || p == Done(true)
  }

  ghost predicate LockInv(s: State) {
    && (s.lock.Some? ==> s.lock.value < |s.calls| && HoldsLock(s.calls[s.lock.value].phase))
    && (forall i :: 0 <= i < |s.calls| && HoldsLock(s.calls[i].phase) ==> s.lock == Some(i))
  }

  ghost predicate FenceInv(s: State) {
    && (forall i :: 0 <= i < |s.calls| && PastAuthorize(s.calls[i]) ==>
          var op := s.calls[i].operation;
          op.connection in s.connections && Approved(s.connections[op.connection], op.kind, op.target))
    && (forall i :: 0 <= i < |s.calls| && (s.calls[i].phase.InFlight? || s.calls[i].phase.Checked?) ==>
          var op := s.calls[i].operation;
          Contacts(op) && op.connection in s.connections && s.connections[op.connection].status.Active?)
  }

  function AllowedRows(audit: seq<AuditRow>, i: nat): nat {
    if audit == [] then 0
    else
      var last := audit[|audit| - 1];
      AllowedRows(audit[..|audit| - 1], i) + if last.call == i && last.outcome.Allowed? then 1 else 0
  }

  ghost predicate AuditInv(s: State) {
    && (forall i :: 0 <= i < |s.calls| ==>
          AllowedRows(s.audit, i) == if Returns(s.calls[i].phase) then 1 else 0)
    && (forall i :: i >= |s.calls| ==> AllowedRows(s.audit, i) == 0)
  }

  ghost function Held(c: Call): multiset<string> {
    if HoldsSlot(c.phase) then multiset{c.key} else multiset{}
  }

  /** The keys of the admitted calls that have not released their slot. */
  ghost function HeldKeys(calls: seq<Call>): multiset<string> {
    if calls == [] then multiset{}
    else HeldKeys(calls[..|calls| - 1]) + Held(calls[|calls| - 1])
  }

  ghost predicate Inv(b: SlotBounds, s: State) {
    && LockInv(s)
    && FenceInv(s)
    && AuditInv(s)
    && Represents(b, s.slots, HeldKeys(s.calls))
  }

  // What every step of a call does to the shared state, whichever step it is.
  ghost predicate Shape(s: State, i: nat, s': State, row: seq<AuditRow>) {
    && i < |s.calls| == |s'.calls|
    && var c, c' := s.calls[i], s'.calls[i];
    && s'.calls == s.calls[i := c.(phase := c'.phase)]
    // the lock is taken when it is free, and given back by its holder
    && (HoldsLock(c.phase) == HoldsLock(c'.phase) ==> s'.lock == s.lock)
    && (!HoldsLock(c.phase) && HoldsLock(c'.phase) ==> s.lock == None && s'.lock == Some(i))
    && (HoldsLock(c.phase) && !HoldsLock(c'.phase) ==> s'.lock == None)
    // the slot is taken when there is room, and given back once
    && (HoldsSlot(c.phase) == HoldsSlot(c'.phase) ==> s'.slots == s.slots)
    && (!HoldsSlot(c.phase) && HoldsSlot(c'.phase) ==> s'.slots == Acquired(s.slots, c.key))
    && (HoldsSlot(c.phase) && !HoldsSlot(c'.phase) ==> s'.slots == Released(s.slots, c.key))
    // one row at most, "allowed" exactly when the call starts to return
    && s'.audit == s.audit + row
    && |row| <= 1
    && (Returns(c.phase) ==> Returns(c'.phase))
    && (row != [] ==> row[0].call == i)
    && (row != [] && row[0].outcome.Allowed? <==> !Returns(c.phase) && Returns(c'.phase))
    // only a revoker holding the lock changes a connection, and only its status
    && (s'.connections == s.connections
        || (&& HoldsLock(c.phase) && c.operation.Revoke? && c.operation.connection in s.connections
            && var k := c.operation.connection;
               s'.connections == s.connections[k := s.connections[k].(status := Status.Revoked)]))
    // what the checks of `Authorize` and `StartUpstream` establish
    && (PastAuthorize(c') && !PastAuthorize(c) ==>
          var op := c.operation;
          op.connection in s.connections && Approved(s.connections[op.connection], op.kind, op.target))
    && (c'.phase.InFlight? && !c.phase.InFlight? ==>
          && Contacts(c.operation)
          && c.operation.connection in s.connections
          && s.connections[c.operation.connection].status.Active?)
    && (c'.phase.Checked? ==> c.phase.InFlight? || c.phase.Checked?)
  }

  ghost predicate StepHasShape(b: SlotBounds, s: State, e: Event)
    requires !e.Register? && !e.Arrive? && Apply(b, s, e).Some?
  {
    var s' := Apply(b, s, e).value;
    |s'.audit| >= |s.audit| && Shape(s, e.i, s', s'.audit[|s.audit|..])
  }

  lemma SlotShape(b: SlotBounds, s: State, e: Event)
    requires e.Admit? || e.FinishOther? || e.ReleaseSlot?
    requires Apply(b, s, e).Some?
    ensures StepHasShape(b, s, e)
  {
  }

  lemma AuthorizeShape(b: SlotBounds, s: State, e: Event)
    requires e.Authorize? || e.Inspect? || e.Prepare?
    requires Apply(b, s, e).Some?
    ensures StepHasShape(b, s, e)
  {
  }

  lemma LockShape(b: SlotBounds, s: State, e: Event)
    requires e.TakeLock? || e.CommitFence?
    requires Apply(b, s, e).Some?
    ensures StepHasShape(b, s, e)
  {
  }

  lemma RevokeShape(b: SlotBounds, s: State, e: Event)
    requires e.CommitRevoke?
    requires Apply(b, s, e).Some?
    ensures StepHasShape(b, s, e)
  {
  }

  lemma UpstreamShape(b: SlotBounds, s: State, e: Event)
    requires e.StartUpstream? || e.FinishUpstream?
    requires Apply(b, s, e).Some?
    ensures StepHasShape(b, s, e)
  {
  }

  lemma RecordShape(b: SlotBounds, s: State, e: Event)
    requires e.RecordAllowed? || e.RecordFailure? || e.RecordHealth?
    requires Apply(b, s, e).Some?
    ensures StepHasShape(b, s, e)
  {
  }

  lemma StepShape(b: SlotBounds, s: State, e: Event)
    requires !e.Register? && !e.Arrive? && Apply(b, s, e).Some?
    ensures StepHasShape(b, s, e)
  {
    hide Apply, StepHasShape;
    match e
    case Admit(_, _) | FinishOther(_) | ReleaseSlot(_) => SlotShape(b, s, e);
    case Authorize(_, _, _) | Inspect(_) | Prepare(_, _) => AuthorizeShape(b, s, e);
    case TakeLock(_, _) | CommitFence(_, _) => LockShape(b, s, e);
    case CommitRevoke(_, _) => RevokeShape(b, s, e);
    case StartUpstream(_) | FinishUpstream(_, _) => UpstreamShape(b, s, e);
    case RecordAllowed(_, _) | RecordFailure(_, _) | RecordHealth(_, _, _) => RecordShape(b, s, e);
  }

  lemma Cancel(a: multiset<string>, b: multiset<string>, m: multiset<string>)
    requires a + m == b + m
    ensures a == b
  {
    forall k ensures a[k] == b[k] {
      assert (a + m)[k] == (b + m)[k];
    }
  }

  lemma AddBoth(a: multiset<string>, b: multiset<string>, x: multiset<string>, y: multiset<string>, m: multiset<string>)
    requires a + x == b + y
    ensures (a + m) + x == (b + m) + y
  {
    forall k ensures ((a + m) + x)[k] == ((b + m) + y)[k] {
      assert (a + x)[k] == (b + y)[k];
    }
  }

  lemma UnderLast(a: multiset<string>, a': multiset<string>, init: multiset<string>, init': multiset<string>,
                  last: multiset<string>, x: multiset<string>, y: multiset<string>)
    requires a == init + last && a' == init' + last && init' + x == init + y
    ensures a' + x == a + y
  {
    AddBoth(init', init, x, y, last);
  }

  lemma LastMoved(a: multiset<string>, a': multiset<string>, init: multiset<string>, x: multiset<string>, y: multiset<string>)
    requires a == init + x && a' == init + y
    ensures a' + x == a + y
  {
  }

  // The calls but the last, and the last, when one of them has moved.
  lemma HeldKeysSplit(calls: seq<Call>, i: nat, c: Call)
    requires i < |calls|
    ensures var n := |calls| - 1;
            && HeldKeys(calls) == HeldKeys(calls[..n]) + Held(calls[n])
            && (i < n ==> HeldKeys(calls[i := c]) == HeldKeys(calls[..n][i := c]) + Held(calls[n]))
            && (i == n ==> HeldKeys(calls[i := c]) == HeldKeys(calls[..n]) + Held(c))
  {
    var n := |calls| - 1;
    hide Held;
    if i < n {
      assert calls[i := c][..n] == calls[..n][i := c];
    } else {
      assert calls[i := c][..n] == calls[..n];
    }
  }

  lemma {:induction false} HeldKeysMoved(calls: seq<Call>, i: nat, c: Call)
    requires i < |calls|
    ensures HeldKeys(calls[i := c]) + Held(calls[i]) == HeldKeys(calls) + Held(c)
  {
    var init, last := calls[..|calls| - 1], calls[|calls| - 1];
    HeldKeysSplit(calls, i, c);
    if i < |init| {
      HeldKeysMoved(init, i, c);
      hide *;
      UnderLast(HeldKeys(calls), HeldKeys(calls[i := c]), HeldKeys(init), HeldKeys(init[i := c]), Held(last), Held(calls[i]), Held(c));
    } else {
      hide *;
      LastMoved(HeldKeys(calls), HeldKeys(calls[i := c]), HeldKeys(init), Held(last), Held(c));
    }
  }

  lemma AllowedRowsLogged(audit: seq<AuditRow>, row: AuditRow, i: nat)
    ensures AllowedRows(audit + [row], i) ==
            AllowedRows(audit, i) + if row.call == i && row.outcome.Allowed? then 1 else 0
  {
    assert (audit + [row])[..|audit|] == audit;
  }

  lemma ShapeKeepsLock(s: State, i: nat, s': State, row: seq<AuditRow>)
    requires LockInv(s) && Shape(s, i, s', row)
    ensures LockInv(s')
  {
    assert forall j :: 0 <= j < |s.calls| && j != i ==> s'.calls[j] == s.calls[j];
  }

  lemma ShapeKeepsFence(s: State, i: nat, s': State, row: seq<AuditRow>)
    requires LockInv(s) && FenceInv(s) && Shape(s, i, s', row)
    ensures FenceInv(s')
  {
    assert forall j :: 0 <= j < |s.calls| && j != i ==> s'.calls[j] == s.calls[j];
  }

  lemma AllowedRowsGrow(audit: seq<AuditRow>, row: seq<AuditRow>, j: nat)
    requires |row| <= 1
    ensures AllowedRows(audit + row, j) ==
            AllowedRows(audit, j) + if row != [] && row[0].call == j && row[0].outcome.Allowed? then 1 else 0
  {
    if row != [] {
      assert row == [row[0]];
      AllowedRowsLogged(audit, row[0], j);
    } else {
      assert audit + row == audit;
    }
  }

  lemma ShapeKeepsAudit(s: State, i: nat, s': State, row: seq<AuditRow>)
    requires AuditInv(s) && Shape(s, i, s', row)
    ensures AuditInv(s')
  {
    hide AllowedRows, Returns, HoldsLock, HoldsSlot, PastAuthorize;
    forall j: nat
      ensures AllowedRows(s'.audit, j) ==
              AllowedRows(s.audit, j) + if row != [] && row[0].call == j && row[0].outcome.Allowed? then 1 else 0
    {
      AllowedRowsGrow(s.audit, row, j);
    }
  }

  lemma ShapeKeepsSlots(b: SlotBounds, s: State, i: nat, s': State, row: seq<AuditRow>)
    requires Represents(b, s.slots, HeldKeys(s.calls)) && Shape(s, i, s', row)
    requires !HoldsSlot(s.calls[i].phase) && HoldsSlot(s'.calls[i].phase) ==> HasSlot(b, s.slots, s.calls[i].key)
    ensures Represents(b, s'.slots, HeldKeys(s'.calls))
  {
    HeldKeysMoved(s.calls, i, s'.calls[i]);
    SlotsFollow(b, s.slots, s'.slots, HeldKeys(s.calls), HeldKeys(s'.calls), s.calls[i], s'.calls[i]);
  }

  lemma SlotsFollow(b: SlotBounds, slots: Slots, slots': Slots, held: multiset<string>, held': multiset<string>,
                    c: Call, c': Call)
    requires Represents(b, slots, held) && c'.key == c.key
    requires held' + Held(c) == held + Held(c')
    requires HoldsSlot(c.phase) == HoldsSlot(c'.phase) ==> slots' == slots
    requires !HoldsSlot(c.phase) && HoldsSlot(c'.phase) ==> HasSlot(b, slots, c.key) && slots' == Acquired(slots, c.key)
    requires HoldsSlot(c.phase) && !HoldsSlot(c'.phase) ==> slots' == Released(slots, c.key)
    ensures Represents(b, slots', held')
  {
    if HoldsSlot(c.phase) == HoldsSlot(c'.phase) {
      Cancel(held', held, Held(c));
    } else if HoldsSlot(c'.phase) {
      assert held' == held' + Held(c) == held + multiset{c.key};
      AcquireRepresents(b, slots, held, c.key);
    } else {
      assert held' + multiset{c.key} == held + Held(c') == held;
      assert held[c.key] == held'[c.key] + 1;
      assert held' == held - multiset{c.key};
      ReleaseRepresents(b, slots, held, c.key);
    }
  }

  lemma AdmitNeedsSlot(b: SlotBounds, s: State, e: Event)
    requires !e.Register? && !e.Arrive? && Apply(b, s, e).Some? && e.i < |s.calls|
    ensures !HoldsSlot(s.calls[e.i].phase) && HoldsSlot(Apply(b, s, e).value.calls[e.i].phase) ==>
              HasSlot(b, s.slots, s.calls[e.i].key)
  {
  }

  lemma ShapeKeepsInv(b: SlotBounds, s: State, i: nat, s': State, row: seq<AuditRow>)
    requires Inv(b, s) && Shape(s, i, s', row)
    requires !HoldsSlot(s.calls[i].phase) && HoldsSlot(s'.calls[i].phase) ==> HasSlot(b, s.slots, s.calls[i].key)
    ensures Inv(b, s')
  {
    ShapeKeepsLock(s, i, s', row);
    ShapeKeepsFence(s, i, s', row);
    ShapeKeepsAudit(s, i, s', row);
    ShapeKeepsSlots(b, s, i, s', row);
    hide LockInv, FenceInv, AuditInv, Represents, Shape;
  }

  lemma ArrivalKeepsLock(s: State, c: Call)
    requires LockInv(s) && c.phase.Arrived?
    ensures LockInv(s.(calls := s.calls + [c]))
  {
  }

  lemma ArrivalKeepsFence(s: State, c: Call)
    requires FenceInv(s) && c.phase.Arrived?
    ensures FenceInv(s.(calls := s.calls + [c]))
  {
    hide Approved;
  }

  lemma ArrivalKeepsAudit(s: State, c: Call)
    requires AuditInv(s) && c.phase.Arrived?
    ensures AuditInv(s.(calls := s.calls + [c]))
  {
    hide AllowedRows;
  }

  lemma ArrivalKeepsInv(b: SlotBounds, s: State, c: Call)
    requires Inv(b, s) && c.phase.Arrived?
    ensures Inv(b, s.(calls := s.calls + [c]))
  {
    ArrivalKeepsLock(s, c);
    ArrivalKeepsFence(s, c);
    ArrivalKeepsAudit(s, c);
    assert (s.calls + [c])[..|s.calls|] == s.calls;
    hide Represents, LockInv, FenceInv, AuditInv;
  }

  lemma RegistrationKeepsInv(b: SlotBounds, s: State, id: nat, c: Connection)
    requires Inv(b, s) && id !in s.connections
    ensures Inv(b, s.(connections := s.connections[id := c]))
  {
    hide Represents, HeldKeys, AllowedRows, Approved, HoldsLock, Returns;
  }

  lemma StepKeepsInv(b: SlotBounds, s: State, e: Event)
    requires Inv(b, s) && Apply(b, s, e).Some?
    ensures Inv(b, Apply(b, s, e).value)
  {
    if e.Register? {
      hide Inv;
      RegistrationKeepsInv(b, s, e.id, Connection(Active, e.tools, e.resources));
    } else if e.Arrive? {
      hide Inv;
      ArrivalKeepsInv(b, s, Call(e.operation, e.key, Arrived));
    } else {
      var s' := Apply(b, s, e).value;
      StepShape(b, s, e);
      AdmitNeedsSlot(b, s, e);
      hide Apply, Inv;
      ShapeKeepsInv(b, s, e.i, s', s'.audit[|s.audit|..]);
    }
  }

  // -------------------------------------------------- every interleaving

  lemma {:induction false} RunKeepsInv(b: SlotBounds, s: State, events: seq<Event>, s': State)
    requires Inv(b, s) && Reaches(b, s, events, s')
    ensures Inv(b, s')
    decreases |events|
  {
    if events != [] {
      StepKeepsInv(b, s, events[0]);
      RunKeepsInv(b, Apply(b, s, events[0]).value, events[1..], s');
    }
  }

  lemma ReachableInv(b: SlotBounds, events: seq<Event>, s: State)
    requires b.Accepted() && Reaches(b, Fresh, events, s)
    ensures Inv(b, s)
  {
    assert Represents(b, Fresh.slots, HeldKeys(Fresh.calls));
    RunKeepsInv(b, Fresh, events, s);
  }

  /** An upstream is contacted only while its connection is active and the target of a use approved. */
  lemma InFlightOnlyWhileActive(b: SlotBounds, events: seq<Event>, s: State, i: nat)
    requires b.Accepted() && Reaches(b, Fresh, events, s)
    requires At(s, i, InFlight)
    ensures var op := s.calls[i].operation;
            && Contacts(op)
            && op.connection in s.connections
            && s.connections[op.connection].status.Active?
            && (op.Use? ==> Approved(s.connections[op.connection], op.kind, op.target))
  {
    ReachableInv(b, events, s);
  }

  /** The fence is one database lock: two upstream calls, probes included, never overlap, on any connections. */
  lemma AtMostOneUpstream(b: SlotBounds, events: seq<Event>, s: State, i: nat, j: nat)
    requires b.Accepted() && Reaches(b, Fresh, events, s)
    requires At(s, i, InFlight) && At(s, j, InFlight)
    ensures i == j
  {
    ReachableInv(b, events, s);
  }

  /** Once a revocation has committed no call is in flight on the connection, nor ever starts. */
  lemma {:induction false} RevokedStaysQuiet(b: SlotBounds, s: State, events: seq<Event>, s': State, c: nat)
    requires Inv(b, s) && c in s.connections && s.connections[c].status == Status.Revoked
    requires Reaches(b, s, events, s')
    ensures c in s'.connections && s'.connections[c].status == Status.Revoked
    ensures forall i: nat :: At(s', i, InFlight) ==>
              Contacts(s'.calls[i].operation) && s'.calls[i].operation.connection != c
    decreases |events|
  {
    if events != [] {
      var next := Apply(b, s, events[0]).value;
      StepKeepsInv(b, s, events[0]);
      StatusOnlyFalls(b, s, events[0], c);
      RevokedStaysQuiet(b, next, events[1..], s', c);
    }
  }

  lemma StatusOnlyFalls(b: SlotBounds, s: State, e: Event, c: nat)
    requires c in s.connections && s.connections[c].status == Status.Revoked
    requires Apply(b, s, e).Some?
    ensures c in Apply(b, s, e).value.connections && Apply(b, s, e).value.connections[c] == s.connections[c]
  {
  }

  // ------------------------------------------------- what a revocation does

  lemma RevocationTakesEffect(b: SlotBounds, s: State, i: nat)
    requires At(s, i, Locked) && s.calls[i].operation.Revoke? && s.calls[i].operation.connection in s.connections
    ensures Apply(b, s, CommitRevoke(i, true)).Some?
    ensures var c, s' := s.calls[i].operation.connection, Apply(b, s, CommitRevoke(i, true)).value;
            && c in s'.connections && s'.connections[c].status == Status.Revoked
            && forall other :: other != c && other in s.connections ==>
                                 other in s'.connections && s'.connections[other] == s.connections[other]
  {
  }

  /**
   * Once a revocation has committed, whatever steps anyone takes then, nothing on its
   * connection is in flight or has its upstream contacted again.
   */
  lemma CommittedRevocationIsFinal(b: SlotBounds, s: State, i: nat, events: seq<Event>, s': State)
    requires Inv(b, s) && At(s, i, Locked) && s.calls[i].operation.Revoke?
    requires s.calls[i].operation.connection in s.connections
    requires Apply(b, s, CommitRevoke(i, true)).Some? && Reaches(b, Apply(b, s, CommitRevoke(i, true)).value, events, s')
    ensures forall j: nat :: At(s', j, InFlight) ==>
              Contacts(s'.calls[j].operation) && s'.calls[j].operation.connection != s.calls[i].operation.connection
  {
    RevocationTakesEffect(b, s, i);
    StepKeepsInv(b, s, CommitRevoke(i, true));
    hide Apply, Inv;
    RevokedStaysQuiet(b, Apply(b, s, CommitRevoke(i, true)).value, events, s', s.calls[i].operation.connection);
  }

  function RevocationRows(audit: seq<AuditRow>, c: nat): nat {
    if audit == [] then 0
    else
      var last := audit[|audit| - 1];
      RevocationRows(audit[..|audit| - 1], c) + if last.connection == c && last.outcome.RevokedOutcome? then 1 else 0
  }

  lemma RevocationRowsLogged(audit: seq<AuditRow>, row: AuditRow, c: nat)
    ensures RevocationRows(audit + [row], c) ==
            RevocationRows(audit, c) + if row.connection == c && row.outcome.RevokedOutcome? then 1 else 0
  {
    assert (audit + [row])[..|audit|] == audit;
  }

  ghost predicate RevocationsLogged(s: State) {
    forall c: nat ::
      RevocationRows(s.audit, c) == if c in s.connections && s.connections[c].status == Status.Revoked then 1 else 0
  }

  // Every step but a registration and a revocation leaves the connections alone.
  lemma OthersKeepConnections(b: SlotBounds, s: State, e: Event)
    requires !e.Register? && !e.CommitRevoke? && Apply(b, s, e).Some?
    ensures var s' := Apply(b, s, e).value;
            && s'.connections == s.connections
            && (s'.audit == s.audit
                || (|s'.audit| == |s.audit| + 1 && s'.audit == s.audit + [s'.audit[|s.audit|]]
                    && !s'.audit[|s.audit|].outcome.RevokedOutcome?))
  {
  }

  lemma RevokeStepLogs(b: SlotBounds, s: State, e: Event)
    requires e.CommitRevoke? && Apply(b, s, e).Some?
    ensures var s', c := Apply(b, s, e).value, s.calls[e.i].operation.connection;
            || (s'.connections == s.connections && s'.audit == s.audit)
            || (&& c in s.connections
                && s'.connections == s.connections[c := s.connections[c].(status := Status.Revoked)]
                && exists row :: s'.audit == s.audit + [row] && row.connection == c
                     && (row.outcome.RevokedOutcome? <==> s.connections[c].status.Active?))
  {
    var s', c := Apply(b, s, e).value, s.calls[e.i].operation.connection;
    if s'.audit != s.audit {
      var row := s'.audit[|s.audit|];
      assert s'.audit == s.audit + [row];
    }
  }

  lemma StepKeepsRevocations(b: SlotBounds, s: State, e: Event)
    requires RevocationsLogged(s) && Apply(b, s, e).Some?
    ensures RevocationsLogged(Apply(b, s, e).value)
  {
    var s' := Apply(b, s, e).value;
    if e.Register? {
      hide RevocationRows;
    } else if e.CommitRevoke? {
      RevokeStepLogs(b, s, e);
      hide Apply, RevocationRows;
      if s'.audit != s.audit {
        var row :| s'.audit == s.audit + [row];
        forall c: nat ensures RevocationRows(s'.audit, c) ==
                RevocationRows(s.audit, c) + if row.connection == c && row.outcome.RevokedOutcome? then 1 else 0 {
          RevocationRowsLogged(s.audit, row, c);
        }
        assert s.audit[..] + [row] == s'.audit && row == s'.audit[|s.audit|];
      }
    } else {
      OthersKeepConnections(b, s, e);
      hide Apply, RevocationRows;
      if s'.audit != s.audit {
        var row := s'.audit[|s.audit|];
        forall c: nat ensures RevocationRows(s'.audit, c) == RevocationRows(s.audit, c) {
          RevocationRowsLogged(s.audit, row, c);
        }
      }
    }
  }

  lemma {:induction false} RunKeepsRevocations(b: SlotBounds, s: State, events: seq<Event>, s': State)
    requires RevocationsLogged(s) && Reaches(b, s, events, s')
    ensures RevocationsLogged(s')
    decreases |events|
  {
    if events != [] {
      StepKeepsRevocations(b, s, events[0]);
      hide Apply, RevocationsLogged;
      RunKeepsRevocations(b, Apply(b, s, events[0]).value, events[1..], s');
    }
  }

  /** In every interleaving a connection is revoked exactly when one "revoked" row, and only one, is persisted for it. */
  lemma RevokedIffOneRevokedRow(b: SlotBounds, events: seq<Event>, s: State, c: nat)
    requires Reaches(b, Fresh, events, s) && c in s.connections
    ensures RevocationRows(s.audit, c) == if s.connections[c].status == Status.Revoked then 1 else 0
  {
    RunKeepsRevocations(b, Fresh, events, s);
  }

  // -------------------------------------------------- what is not approved

  predicate Ended(p: Phase) {
    p.Unwinding? || p.Done?
  }

  lemma StepKeepsEnded(b: SlotBounds, s: State, e: Event, i: nat)
    requires i < |s.calls| && Ended(s.calls[i].phase) && Apply(b, s, e).Some?
    ensures var s' := Apply(b, s, e).value;
            i < |s'.calls| && Ended(s'.calls[i].phase) && s'.calls[i].operation == s.calls[i].operation
  {
  }

  lemma {:induction false} EndedStays(b: SlotBounds, s: State, events: seq<Event>, s': State, i: nat)
    requires i < |s.calls| && Ended(s.calls[i].phase) && Reaches(b, s, events, s')
    ensures i < |s'.calls| && Ended(s'.calls[i].phase)
    decreases |events|
  {
    if events != [] {
      StepKeepsEnded(b, s, events[0], i);
      hide Apply, Ended;
      EndedStays(b, Apply(b, s, events[0]).value, events[1..], s', i);
    }
  }

  /** A call is admitted exactly when the rate limiter allows it and the calls that hold a slot leave room; otherwise it
      ends at once, and it alone changes. */
  lemma AdmittedIffRoom(b: SlotBounds, events: seq<Event>, s: State, i: nat, rateAllows: bool, s': State)
    requires b.Accepted() && Reaches(b, Fresh, events, s)
    requires At(s, i, Arrived) && Apply(b, s, Admit(i, rateAllows)) == Some(s')
    ensures var held, key := HeldKeys(s.calls), s.calls[i].key;
            At(s', i, Admitted) <==>
              && rateAllows && |held| < b.limit && held[key] < b.perKey
              && (key in held || |set k | k in held| < b.maxKeys)
    ensures !At(s', i, Admitted) ==> s' == s.(calls := s.calls[i := s.calls[i].(phase := Done(false))])
  {
    ReachableInv(b, events, s);
    SlotIffRoom(b, s.slots, HeldKeys(s.calls), s.calls[i].key);
  }

  /** A call that is not admitted never contacts an upstream and returns nothing. */
  lemma TurnedAwayForGood(b: SlotBounds, s: State, i: nat, rateAllows: bool, events: seq<Event>, s': State)
    requires At(s, i, Arrived) && (rateAllows ==> !HasSlot(b, s.slots, s.calls[i].key))
    requires Reaches(b, Apply(b, s, Admit(i, rateAllows)).value, events, s')
    ensures !At(s', i, InFlight) && i < |s'.calls| && !Returns(s'.calls[i].phase)
  {
    var next := Apply(b, s, Admit(i, rateAllows)).value;
    hide Apply;
    EndedStays(b, next, events, s', i);
    LostStays(b, next, events, s', i);
  }

  /** A call whose connection is not active, or whose target is not approved, is denied, and never contacts the upstream. */
  lemma UnapprovedIsDenied(b: SlotBounds, s: State, i: nat, argumentsValid: bool, denialRecorded: bool,
                           events: seq<Event>, s': State)
    requires At(s, i, Admitted) && s.calls[i].operation.Use?
    requires var op := s.calls[i].operation;
             op.connection in s.connections && s.connections[op.connection].status.Active? ==>
               match op.kind
               case ToolCall => op.target !in s.connections[op.connection].tools
               case ResourceRead => op.target !in s.connections[op.connection].resources
    requires Apply(b, s, Authorize(i, argumentsValid, denialRecorded)).Some?
    requires Reaches(b, Apply(b, s, Authorize(i, argumentsValid, denialRecorded)).value, events, s')
    ensures !At(s', i, InFlight)
    ensures var next := Apply(b, s, Authorize(i, argumentsValid, denialRecorded)).value;
            next.audit == if denialRecorded then s.audit + [AuditRow(i, s.calls[i].operation.connection, Denied)] else s.audit
  {
    var next := Apply(b, s, Authorize(i, argumentsValid, denialRecorded)).value;
    assert Ended(next.calls[i].phase);
    hide Apply;
    EndedStays(b, next, events, s', i);
  }

  // The call will hand out no result of an upstream.
  predicate Lost(p: Phase) {
    p.Failing? || p == Unwinding(false) || p == Done(false)
  }

  lemma StepKeepsLost(b: SlotBounds, s: State, e: Event, i: nat)
    requires i < |s.calls| && Lost(s.calls[i].phase) && Apply(b, s, e).Some?
    ensures i < |Apply(b, s, e).value.calls| && Lost(Apply(b, s, e).value.calls[i].phase)
  {
  }

  lemma {:induction false} LostStays(b: SlotBounds, s: State, events: seq<Event>, s': State, i: nat)
    requires i < |s.calls| && Lost(s.calls[i].phase) && Reaches(b, s, events, s')
    ensures i < |s'.calls| && Lost(s'.calls[i].phase)
    decreases |events|
  {
    if events != [] {
      StepKeepsLost(b, s, events[0], i);
      hide Apply, Lost;
      LostStays(b, Apply(b, s, events[0]).value, events[1..], s', i);
    }
  }

  // A step of call `i` in which something goes wrong: bad arguments, a failing validator
  // or credential, a busy lock, an upstream or a result that fails its checks, a commit or
  // an audit row that cannot be written.
  predicate GoesWrong(e: Event, i: nat) {
    match e
    case Authorize(j, argumentsValid, _) => j == i && !argumentsValid
    case Prepare(j, fault) => j == i && fault.Some?
    case TakeLock(j, timedOut) => j == i && timedOut
    case FinishUpstream(j, fault) => j == i && fault.Some?
    case CommitFence(j, ok) => j == i && !ok
    case RecordAllowed(j, ok) => j == i && !ok
    case _ => false
  }

  lemma WrongStepLoses(b: SlotBounds, s: State, e: Event, i: nat)
    requires GoesWrong(e, i) && Apply(b, s, e).Some?
    ensures i < |Apply(b, s, e).value.calls| && Lost(Apply(b, s, e).value.calls[i].phase)
  {
  }

  /** Once something has gone wrong in a call, whatever follows, it returns nothing of its upstream. */
  lemma WrongCallReturnsNothing(b: SlotBounds, s: State, e: Event, i: nat, events: seq<Event>, s': State)
    requires GoesWrong(e, i) && Apply(b, s, e).Some? && Reaches(b, Apply(b, s, e).value, events, s')
    ensures i < |s'.calls| && !Returns(s'.calls[i].phase)
  {
    WrongStepLoses(b, s, e, i);
    LostStays(b, Apply(b, s, e).value, events, s', i);
    hide Apply;
  }

  /** A probe of a connection that is not active ends without contacting its upstream. */
  lemma InactiveIsNotProbed(b: SlotBounds, s: State, i: nat, events: seq<Event>, s': State)
    requires At(s, i, Admitted) && s.calls[i].operation.Probe?
    requires s.calls[i].operation.connection !in s.connections || !s.connections[s.calls[i].operation.connection].status.Active?
    requires Apply(b, s, Inspect(i)).Some? && Reaches(b, Apply(b, s, Inspect(i)).value, events, s')
    ensures !At(s', i, InFlight) && Apply(b, s, Inspect(i)).value.audit == s.audit
  {
    var next := Apply(b, s, Inspect(i)).value;
    assert Ended(next.calls[i].phase);
    hide Apply;
    EndedStays(b, next, events, s', i);
  }

  /** What a failed call, or a probe, leaves in the audit table. */
  lemma FailureIsLogged(b: SlotBounds, s: State, i: nat, healthy: bool)
    requires i < |s.calls| && Contacts(s.calls[i].operation) && s.lock.None?
    ensures At(s, i, Failing(PolicyDenied)) && s.calls[i].operation.Use? ==>
              Apply(b, s, RecordFailure(i, true)).value.audit == s.audit + [AuditRow(i, s.calls[i].operation.connection, Denied)]
    ensures At(s, i, Failing(CallFailed)) && s.calls[i].operation.Use? ==>
              Apply(b, s, RecordFailure(i, true)).value.audit == s.audit + [AuditRow(i, s.calls[i].operation.connection, Failed)]
    ensures s.calls[i].phase.Committed? && s.calls[i].operation.Probe?
            && s.calls[i].operation.connection in s.connections && s.connections[s.calls[i].operation.connection].status.Active? ==>
              Apply(b, s, RecordHealth(i, true, healthy)).value.audit
              == s.audit + [AuditRow(i, s.calls[i].operation.connection, if healthy then Healthy else Unhealthy)]
    ensures s.calls[i].phase.Failing? && s.calls[i].operation.Probe?
            && s.calls[i].operation.connection in s.connections && s.connections[s.calls[i].operation.connection].status.Active? ==>
              Apply(b, s, RecordHealth(i, true, healthy)).value.audit
              == s.audit + [AuditRow(i, s.calls[i].operation.connection, Unhealthy)]
  {
  }

  /** The upstream's result is returned exactly when one "allowed" row, and only one, is persisted for it. */
  lemma ReturnedIffOneAllowedRow(b: SlotBounds, events: seq<Event>, s: State, i: nat)
    requires b.Accepted() && Reaches(b, Fresh, events, s) && i < |s.calls| && s.calls[i].phase.Done?
    ensures AllowedRows(s.audit, i) == if s.calls[i].phase.returned then 1 else 0
  {
    ReachableInv(b, events, s);
  }

  /** In every interleaving the limiter counts exactly the calls that hold a slot, within its bounds. */
  lemma SlotsMatchCalls(b: SlotBounds, events: seq<Event>, s: State)
    requires b.Accepted() && Reaches(b, Fresh, events, s)
    ensures s.slots.total == |HeldKeys(s.calls)| == Sum(s.slots.active) <= b.limit
    ensures forall k :: ActiveOf(s.slots, k) == HeldKeys(s.calls)[k] <= b.perKey
    ensures |s.slots.active| <= b.maxKeys
  {
    ReachableInv(b, events, s);
  }

  /** When every call has ended, returned or failed, no slot is left taken. */
  lemma NoSlotLeaks(b: SlotBounds, events: seq<Event>, s: State)
    requires b.Accepted() && Reaches(b, Fresh, events, s)
    requires forall i :: 0 <= i < |s.calls| ==> s.calls[i].phase.Done?
    ensures s.slots == Slots(map[], 0)
  {
    ReachableInv(b, events, s);
    NothingHeld(s.calls);
    assert forall k :: k in s.slots.active ==> ActiveOf(s.slots, k) >= 1;
    assert s.slots.active == map[];
  }

  lemma {:induction false} NothingHeld(calls: seq<Call>)
    requires forall i :: 0 <= i < |calls| ==> !HoldsSlot(calls[i].phase)
    ensures HeldKeys(calls) == multiset{}
  {
    if calls != [] {
      NothingHeld(calls[..|calls| - 1]);
    }
  }

  /** The fault-free steps of an admitted call, in the order the broker takes them. */
  function CallScript(i: nat): seq<Event> {
    [Authorize(i, true, false), Prepare(i, None), TakeLock(i, false), StartUpstream(i),
     FinishUpstream(i, None), CommitFence(i, true), RecordAllowed(i, true), ReleaseSlot(i)]
  }

  ghost predicate Callable(s: State, i: nat) {
    && At(s, i, Admitted)
    && s.lock.None?
    && s.calls[i].operation.Use?
    && var op := s.calls[i].operation;
       && op.connection in s.connections
       && s.connections[op.connection].status.Active?
       && Approved(s.connections[op.connection], op.kind, op.target)
  }

  /** An admitted call that nobody disturbs runs to its result: the protocol cannot get stuck on its own. */
  lemma UndisturbedCallReturns(b: SlotBounds, s: State, i: nat, s': State)
    requires Callable(s, i)
    requires s' == Logged(Moved(s, i, Done(true)), i, s.calls[i].operation.connection, Allowed)
                   .(slots := Released(s.slots, s.calls[i].key))
    ensures Reaches(b, s, CallScript(i), s')
  {
    var script := CallScript(i);
    MovedTwice(s, i, Authorized, Prepared, None);
    MovedTwice(s, i, Prepared, Locked, None);
    MovedTwice(s, i, Locked, InFlight, Some(i));
    MovedTwice(s, i, InFlight, Checked, Some(i));
    MovedTwice(s, i, Checked, Committed, Some(i));
    MovedTwice(s, i, Committed, Unwinding(true), None);
    MovedTwice(s, i, Unwinding(true), Done(true), None);
    var s6 := Placed(s, i, Committed, None);
    var s7 := Logged(Placed(s, i, Unwinding(true), None), i, s.calls[i].operation.connection, Allowed);
    RunOneStep(b, s, script, Placed(s, i, Authorized, None), s');
    RunOneStep(b, Placed(s, i, Authorized, None), script[1..], Placed(s, i, Prepared, None), s');
    RunOneStep(b, Placed(s, i, Prepared, None), script[2..], Placed(s, i, Locked, Some(i)), s');
    RunOneStep(b, Placed(s, i, Locked, Some(i)), script[3..], Placed(s, i, InFlight, Some(i)), s');
    RunOneStep(b, Placed(s, i, InFlight, Some(i)), script[4..], Placed(s, i, Checked, Some(i)), s');
    RunOneStep(b, Placed(s, i, Checked, Some(i)), script[5..], s6, s');
    RunOneStep(b, s6, script[6..], s7, s');
    RunOneStep(b, s7, script[7..], s', s');
  }

  ghost function Placed(s: State, i: nat, phase: Phase, lock: Option<nat>): State
    requires i < |s.calls|
  {
    Moved(s, i, phase).(lock := lock)
  }

  lemma MovedTwice(s: State, i: nat, p: Phase, q: Phase, lock: Option<nat>)
    requires i < |s.calls|
    ensures Moved(Placed(s, i, p, lock), i, q) == Placed(s, i, q, lock)
  {
    assert Moved(Placed(s, i, p, lock), i, q).calls == Placed(s, i, q, lock).calls;
  }

  lemma RunOneStep(b: SlotBounds, s: State, events: seq<Event>, next: State, s': State)
    requires events != [] && Apply(b, s, events[0]) == Some(next)
    ensures Reaches(b, next, events[1..], s') <==> Reaches(b, s, events, s')
  {
  }
}
