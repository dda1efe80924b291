// Browser sessions and sign-in transactions (src/folio_lattice/sessions.py) on top
// of the membership table (src/folio_lattice/auth.py). The tables are kept by the
// random texts themselves, since their hashes are injective, and the clock reading
// is an argument. Every operation is one step, but for `resolve`, which reads its row
// and updates it later: runs in which nothing comes between the two are treated
// first, and what changes when something does under "slow requests".
module Sessions {
  import opened Common

  const MAX_SCOPES := 128
  const MAX_ID := 256

  datatype Status = Active | Disabled | Revoked

  datatype Membership = Membership(tenant: string, actor: string, status: Status, scopes: set<string>)

  // The identity a membership maps: an issuer and a subject.
  type Identity = (string, string)

  type Members = map<Identity, Membership>

  datatype Error = InvalidText | InvalidScopes | AlreadyThere | MappingFixed | NotThere | NotActive | Collision

  // ------------------------------------------------------------- memberships

  predicate RequiredText(s: string) {
    s != "" && !IsSpace(s[0]) && !IsSpace(s[|s| - 1])
  }

  predicate ScopeChar(c: char) {
    0x21 as char <= c <= 0x7E as char && c != '"' && c != '\\'
  }

  predicate ValidScopes(scopes: set<string>) {
    |scopes| <= MAX_SCOPES && forall s :: s in scopes ==> s != "" && forall i :: 0 <= i < |s| ==> ScopeChar(s[i])
  }

  function AddEffect(members: Members, who: Identity, m: Membership): Result<Members, Error> {
    if !RequiredText(who.0) || !RequiredText(who.1) || !RequiredText(m.tenant) || !RequiredText(m.actor) then Err(InvalidText)
    else if !ValidScopes(m.scopes) then Err(InvalidScopes)
    else if who in members then
      if (members[who].tenant, members[who].actor) != (m.tenant, m.actor) then Err(MappingFixed) else Err(AlreadyThere)
    else Ok(members[who := m])
  }

  function StatusEffect(members: Members, who: Identity, status: Status): Result<Members, Error> {
    if !RequiredText(who.0) || !RequiredText(who.1) then Err(InvalidText)
    else if who !in members then Err(NotThere)
    else Ok(members[who := members[who].(status := status)])
  }

  function ScopesEffect(members: Members, who: Identity, scopes: set<string>): Result<Members, Error> {
    if !RequiredText(who.0) || !RequiredText(who.1) then Err(InvalidText)
    else if !ValidScopes(scopes) then Err(InvalidScopes)
    else if who !in members then Err(NotThere)
    else Ok(members[who := members[who].(scopes := scopes)])
  }

  datatype Record = Record(who: Identity, membership: Membership)

  // One record of the seed file.
  function SeedOne(members: Members, r: Record): Result<Members, Error> {
    if !RequiredText(r.who.0) || !RequiredText(r.who.1) then Err(InvalidText)
    else if r.who !in members then AddEffect(members, r.who, r.membership)
    else if (members[r.who].tenant, members[r.who].actor) != (r.membership.tenant, r.membership.actor) then Err(MappingFixed)
    else if !ValidScopes(r.membership.scopes) then Err(InvalidScopes)
    else Ok(members[r.who := r.membership])
  }

  // The table after the file, or after the records before the first that is refused.
  function Seeded(members: Members, records: seq<Record>): (Members, Option<Error>)
    decreases |records|
  {
    if records == [] then (members, None)
    else
      match SeedOne(members, records[0])
      case Ok(next) => Seeded(next, records[1..])
      case Err(e) => (AfterRefusal(members, records[0]), Some(e))
  }

  // The status is written before the scopes of a record are looked at.
  function AfterRefusal(members: Members, r: Record): Members {
    if RequiredText(r.who.0) && RequiredText(r.who.1) && r.who in members
       && (members[r.who].tenant, members[r.who].actor) == (r.membership.tenant, r.membership.actor)
       && !ValidScopes(r.membership.scopes)
    then members[r.who := members[r.who].(status := r.membership.status)]
    else members
  }

  class MembershipStore {
    var members: Members

    constructor ()
      ensures members == map[]
    {
      members := map[];
    }

    method Add(who: Identity, m: Membership) returns (error: Option<Error>)
      modifies this
      ensures match AddEffect(old(members), who, m)
              case Ok(after) => error.None? && members == after
              case Err(e) => error == Some(e) && members == old(members)
    {
      if !RequiredText(who.0) || !RequiredText(who.1) || !RequiredText(m.tenant) || !RequiredText(m.actor) {
        return Some(InvalidText);
      }
      if !ValidScopes(m.scopes) {
        return Some(InvalidScopes);
      }
      if who in members {
        var existing := members[who];
        return Some(if existing.tenant != m.tenant || existing.actor != m.actor then MappingFixed else AlreadyThere);
      }
      members := members[who := m];
      error := None;
    }

    method SetStatus(who: Identity, status: Status) returns (error: Option<Error>)
      modifies this
      ensures match StatusEffect(old(members), who, status)
              case Ok(after) => error.None? && members == after
              case Err(e) => error == Some(e) && members == old(members)
    {
      if !RequiredText(who.0) || !RequiredText(who.1) {
        return Some(InvalidText);
      }
      if who !in members {
        return Some(NotThere);
      }
      members := members[who := members[who].(status := status)];
      error := None;
    }

    method SetScopes(who: Identity, scopes: set<string>) returns (error: Option<Error>)
      modifies this
      ensures match ScopesEffect(old(members), who, scopes)
              case Ok(after) => error.None? && members == after
              case Err(e) => error == Some(e) && members == old(members)
    {
      if !RequiredText(who.0) || !RequiredText(who.1) {
        return Some(InvalidText);
      }
      if !ValidScopes(scopes) {
        return Some(InvalidScopes);
      }
      if who !in members {
        return Some(NotThere);
      }
      members := members[who := members[who].(scopes := scopes)];
      error := None;
    }

    /** The loop over the records of a membership file. */
    method SeedFile(records: seq<Record>) returns (error: Option<Error>)
      modifies this
      ensures (members, error) == Seeded(old(members), records)
    {
      for i := 0 to |records|
        invariant Seeded(members, records[i..]) == Seeded(old(members), records)
      {
        assert records[i..][1..] == records[i + 1..];
        var r := records[i];
        if !RequiredText(r.who.0) || !RequiredText(r.who.1) {
          return Some(InvalidText);
        }
        if r.who !in members {
          error := Add(r.who, r.membership);
          if error.Some? {
            return;
          }
        } else {
          var existing := members[r.who];
          if existing.tenant != r.membership.tenant || existing.actor != r.membership.actor {
            return Some(MappingFixed);
          }
          ghost var before := members;
          if existing.status != r.membership.status {
            error := SetStatus(r.who, r.membership.status);
          }
          assert members == before[r.who := existing.(status := r.membership.status)];
          if !ValidScopes(r.membership.scopes) {
            return Some(InvalidScopes);
          }
          if existing.scopes != r.membership.scopes {
            error := SetScopes(r.who, r.membership.scopes);
          }
          assert members == before[r.who := r.membership];
        }
      }
      assert records[|records|..] == [];
      error := None;
    }
  }

  // Who an identity is can be added but never changes.
  ghost predicate MappingKept(members: Members, members': Members) {
    forall who :: who in members ==>
      who in members' && members'[who].tenant == members[who].tenant && members'[who].actor == members[who].actor
  }

  lemma {:induction false} SeedKeepsMapping(members: Members, records: seq<Record>)
    ensures MappingKept(members, Seeded(members, records).0)
    decreases |records|
  {
    if records != [] && SeedOne(members, records[0]).Ok? {
      SeedKeepsMapping(SeedOne(members, records[0]).value, records[1..]);
    }
  }

  function LastRecord(records: seq<Record>, who: Identity): Option<Membership> {
    if records == [] then None
    else if records[|records| - 1].who == who then Some(records[|records| - 1].membership)
    else LastRecord(records[..|records| - 1], who)
  }

  lemma LastOfRest(records: seq<Record>, who: Identity)
    requires records != []
    ensures LastRecord(records, who) ==
            if LastRecord(records[1..], who).Some? then LastRecord(records[1..], who)
            else if records[0].who == who then Some(records[0].membership) else None
  {
    if |records| > 1 {
      assert records[1..][..|records| - 2] == records[..|records| - 1][1..];
      LastOfRest(records[..|records| - 1], who);
    }
  }

  /** A file that is accepted leaves every identity it names exactly as its last record says. */
  lemma {:induction false} SeedGives(members: Members, records: seq<Record>, who: Identity)
    requires Seeded(members, records).1.None?
    ensures var after := Seeded(members, records).0;
            match LastRecord(records, who)
            case Some(m) => who in after && after[who] == m
            case None => (who in after <==> who in members) && (who in members ==> after[who] == members[who])
    decreases |records|
  {
    if records != [] {
      SeedGives(SeedOne(members, records[0]).value, records[1..], who);
      LastOfRest(records, who);
    }
  }

  /** Who is not named by a seed file is left alone, even if the file is refused halfway. */
  lemma {:induction false} SeedLeavesOthers(members: Members, records: seq<Record>, who: Identity)
    requires forall r :: r in records ==> r.who != who
    ensures who in Seeded(members, records).0 <==> who in members
    ensures who in members ==> Seeded(members, records).0[who] == members[who]
    decreases |records|
  {
    if records != [] {
      assert records[0].who != who;
      hide ValidScopes, RequiredText;
      if SeedOne(members, records[0]).Ok? {
        SeedLeavesOthers(SeedOne(members, records[0]).value, records[1..], who);
      }
    }
  }

  // Texts neither empty nor padded, and few scopes of printable characters but quotes and backslashes.
  ghost predicate Presentable(texts: seq<string>, scopes: set<string>) {
    && (forall t :: t in texts ==> t != "" && !IsSpace(t[0]) && !IsSpace(t[|t| - 1]))
    && |scopes| <= 128
    && forall s :: s in scopes ==> s != "" && forall i :: 0 <= i < |s| ==> '!' <= s[i] <= '~' && s[i] != '"' && s[i] != '\\'
  }

  /** An accepted change is there afterwards, touches one identity, and of its membership only what it says. */
  lemma ChangesAreThere(members: Members, who: Identity, m: Membership, status: Status, scopes: set<string>)
    ensures AddEffect(members, who, m).Ok? ==>
              Presentable([who.0, who.1, m.tenant, m.actor], m.scopes)
    ensures ScopesEffect(members, who, scopes).Ok? ==> Presentable([who.0, who.1], scopes)
    ensures AddEffect(members, who, m).Ok? ==>
              who !in members && var after := AddEffect(members, who, m).value;
              who in after && after[who] == m && after - {who} == members
    ensures StatusEffect(members, who, status).Ok? ==>
              who in members && var after := StatusEffect(members, who, status).value;
              who in after && after - {who} == members - {who} && after[who].status == status
              && after[who] == Membership(members[who].tenant, members[who].actor, status, members[who].scopes)
    ensures ScopesEffect(members, who, scopes).Ok? ==>
              who in members && var after := ScopesEffect(members, who, scopes).value;
              who in after && after - {who} == members - {who}
              && after[who] == Membership(members[who].tenant, members[who].actor, members[who].status, scopes)
  {
    if AddEffect(members, who, m).Ok? {
      assert AddEffect(members, who, m).value - {who} == members;
    }
  }

  // ---------------------------------------------------------------- sessions

  datatype Session = Session(
    who: Identity, tenant: string, actor: string, scopes: set<string>,
    createdAt: real, lastSeen: real, expires: real, revokedAt: Option<real>)

  datatype Principal = Principal(tenant: string, actor: string, who: Identity, scopes: set<string>)

  datatype SessionRecord = SessionRecord(principal: Principal, createdAt: real, lastSeen: real, expires: real)

  datatype Limits = Limits(absoluteTtl: real, idleTtl: real)

  type SessionTable = map<string, Session>

  predicate ValidId(id: string) {
    id != "" && |id| <= MAX_ID
  }

  predicate Over(l: Limits, row: Session, now: real) {
    row.revokedAt.Some? || row.expires <= now || row.lastSeen + l.idleTtl <= now
  }

  // The membership still says what it said when the session was made.
  predicate StillMember(members: Members, row: Session) {
    && row.who in members
    && members[row.who].status.Active?
    && members[row.who].tenant == row.tenant && members[row.who].actor == row.actor
    && members[row.who].scopes == row.scopes
  }

  function NewSession(l: Limits, who: Identity, m: Membership, now: real): Session {
    Session(who, m.tenant, m.actor, m.scopes, now, now, now + l.absoluteTtl, None)
  }

  function CreateEffect(l: Limits, members: Members, rows: SessionTable, who: Identity, id: string, now: real): Result<SessionTable, Error> {
    if who !in members || !members[who].status.Active? then Err(NotActive)
    else if id in rows then Err(Collision)
    else Ok(rows[id := NewSession(l, who, members[who], now)])
  }

  function ResolveEffect(l: Limits, members: Members, rows: SessionTable, id: string, now: real): SessionTable {
    if !ValidId(id) || id !in rows || Over(l, rows[id], now) then rows
    else if !StillMember(members, rows[id]) then rows[id := rows[id].(revokedAt := Some(now))]
    else rows[id := rows[id].(lastSeen := now)]
  }

  /** What `resolve` answers. */
  function Resolved(l: Limits, members: Members, rows: SessionTable, id: string, now: real): Option<SessionRecord> {
    if !ValidId(id) || id !in rows || Over(l, rows[id], now) || !StillMember(members, rows[id]) then None
    else
      var row := rows[id];
      Some(SessionRecord(Principal(row.tenant, row.actor, row.who, members[row.who].scopes), row.createdAt, now, row.expires))
  }

  function RevokeEffect(rows: SessionTable, id: string, now: real): SessionTable {
    if ValidId(id) && id in rows && rows[id].revokedAt.None? then rows[id := rows[id].(revokedAt := Some(now))] else rows
  }

  // ----------------------------------------------------------------- sign-in

  // One sign-in transaction: nonce, PKCE verifier and where to return.
  datatype Transaction = Transaction(nonce: string, verifier: string, returnTo: string, redirectUri: string)

  datatype Pending = Pending(transaction: Transaction, expires: real)

  type PendingTable = map<string, Pending>

  function BeginEffect(rows: PendingTable, state: string, t: Transaction, now: real, ttl: real): PendingTable {
    (map k | k in rows && rows[k].expires > now :: rows[k])[state := Pending(t, now + ttl)]
  }

  function Consumed(rows: PendingTable, state: string, now: real): Option<Transaction> {
    if ValidId(state) && state in rows && rows[state].expires > now then Some(rows[state].transaction) else None
  }

  function ConsumeEffect(rows: PendingTable, state: string, now: real): PendingTable {
    if Consumed(rows, state, now).Some? then rows - {state} else rows
  }

  class SessionStore {
    const limits: Limits
    const membership: MembershipStore
    var rows: SessionTable
    var pending: PendingTable

    constructor (limits: Limits, membership: MembershipStore)
      requires limits.absoluteTtl > 0.0 && limits.idleTtl > 0.0
      ensures this.limits == limits && this.membership == membership && rows == map[] && pending == map[]
    {
      this.limits, this.membership := limits, membership;
      rows, pending := map[], map[];
    }

    /** `id` is the random text drawn for the session. */
    method Create(who: Identity, id: string, now: real) returns (error: Option<Error>)
      modifies this`rows
      ensures match CreateEffect(limits, membership.members, old(rows), who, id, now)
              case Ok(after) => error.None? && rows == after
              case Err(e) => error == Some(e) && rows == old(rows)
    {
      var members := membership.members;
      if who !in members || !members[who].status.Active? {
        return Some(NotActive);
      }
      if id in rows {
        return Some(Collision);
      }
      var m := members[who];
      rows := rows[id := Session(who, m.tenant, m.actor, m.scopes, now, now, now + limits.absoluteTtl, None)];
      error := None;
    }

    method Resolve(id: string, now: real) returns (r: Option<SessionRecord>)
      modifies this`rows
      ensures r == Resolved(limits, membership.members, old(rows), id, now)
      ensures rows == ResolveEffect(limits, membership.members, old(rows), id, now)
    {
      if id == "" || |id| > MAX_ID || id !in rows {
        return None;
      }
      var row := rows[id];
      if row.revokedAt.Some? || row.expires <= now || row.lastSeen + limits.idleTtl <= now {
        return None;
      }
      var members := membership.members;
      if row.who !in members || !members[row.who].status.Active?
         || members[row.who].tenant != row.tenant || members[row.who].actor != row.actor
         || members[row.who].scopes != row.scopes {
        rows := rows[id := row.(revokedAt := Some(now))];
        return None;
      }
      rows := rows[id := row.(lastSeen := now)];
      var principal := Principal(row.tenant, row.actor, row.who, members[row.who].scopes);
      r := Some(SessionRecord(principal, row.createdAt, now, row.expires));
    }

    method Revoke(id: string, now: real) returns (revoked: bool)
      modifies this`rows
      ensures rows == RevokeEffect(old(rows), id, now)
      ensures revoked <==> rows != old(rows)
    {
      if id == "" || |id| > MAX_ID || id !in rows || rows[id].revokedAt.Some? {
        return false;
      }
      rows := rows[id := rows[id].(revokedAt := Some(now))];
      assert rows[id] != old(rows)[id];
      revoked := true;
    }

    method BeginAuth(state: string, t: Transaction, now: real, ttl: real)
      requires ttl > 0.0
      modifies this`pending
      ensures pending == BeginEffect(old(pending), state, t, now, ttl)
    {
      pending := map k | k in pending && pending[k].expires > now :: pending[k];
      pending := pending[state := Pending(t, now + ttl)];
    }

    method ConsumeAuth(state: string, now: real) returns (r: Option<Transaction>)
      modifies this`pending
      ensures r == Consumed(old(pending), state, now)
      ensures pending == ConsumeEffect(old(pending), state, now)
    {
      if state == "" || |state| > MAX_ID || state !in pending || pending[state].expires <= now {
        return None;
      }
      r := Some(pending[state].transaction);
      pending := pending - {state};
    }

    method DiscardAuth(state: string)
      modifies this`pending
      ensures pending == old(pending) - {state}
    {
      pending := pending - {state};
    }
  }

  // -------------------------------------------------------------------- runs

  datatype State = State(members: Members, rows: SessionTable, pending: PendingTable)

  datatype Op =
    | AddMember(who: Identity, membership: Membership)
    | SetStatus(who: Identity, status: Status)
    | SetScopes(who: Identity, scopes: set<string>)
    | Seed(records: seq<Record>)
    | Create(who: Identity, id: string)
    | Resolve(id: string)
    | Revoke(id: string)
    | Begin(state: string, transaction: Transaction, ttl: real)
    | Consume(state: string)
    | Discard(state: string)

  // An operation at a clock reading.
  datatype Event = Event(op: Op, now: real)

  function OrKept<T>(r: Result<T, Error>, kept: T): T {
    if r.Ok? then r.value else kept
  }

  function Perform(l: Limits, s: State, e: Event): State {
    match e.op
    case AddMember(who, m) => s.(members := OrKept(AddEffect(s.members, who, m), s.members))
    case SetStatus(who, status) => s.(members := OrKept(StatusEffect(s.members, who, status), s.members))
    case SetScopes(who, scopes) => s.(members := OrKept(ScopesEffect(s.members, who, scopes), s.members))
    case Seed(records) => s.(members := Seeded(s.members, records).0)
    case Create(who, id) => s.(rows := OrKept(CreateEffect(l, s.members, s.rows, who, id, e.now), s.rows))
    case Resolve(id) => s.(rows := ResolveEffect(l, s.members, s.rows, id, e.now))
    case Revoke(id) => s.(rows := RevokeEffect(s.rows, id, e.now))
    case Begin(state, t, ttl) => s.(pending := BeginEffect(s.pending, state, t, e.now, ttl))
    case Consume(state) => s.(pending := ConsumeEffect(s.pending, state, e.now))
    case Discard(state) => s.(pending := s.pending - {state})
  }

  function After(l: Limits, s: State, events: seq<Event>): State
    decreases |events|
  {
    if events == [] then s else After(l, Perform(l, s, events[0]), events[1..])
  }

  // The clock never runs backwards, and starts at `from`.
  ghost predicate Clocked(events: seq<Event>, from: real) {
    && (events != [] ==> from <= events[0].now)
    && (forall i, j :: 0 <= i < j < |events| ==> events[i].now <= events[j].now)
  }

  function Answer(l: Limits, s: State, id: string, now: real): Option<SessionRecord> {
    Resolved(l, s.members, s.rows, id, now)
  }

  // ------------------------------------------------------- refused for ever

  ghost predicate Dead(l: Limits, s: State, id: string, now: real) {
    id in s.rows && Over(l, s.rows[id], now)
  }

  lemma StepKeepsDead(l: Limits, s: State, e: Event, id: string, now: real)
    requires Dead(l, s, id, now) && now <= e.now
    ensures Dead(l, Perform(l, s, e), id, e.now)
  {
  }

  lemma {:induction false} DeadStays(l: Limits, s: State, events: seq<Event>, id: string, now: real, later: real)
    requires Dead(l, s, id, now) && Clocked(events, now) && now <= later
    requires forall i :: 0 <= i < |events| ==> events[i].now <= later
    ensures Dead(l, After(l, s, events), id, later)
    decreases |events|
  {
    if events != [] {
      StepKeepsDead(l, s, events[0], id, now);
      hide Dead, Perform;
      DeadStays(l, Perform(l, s, events[0]), events[1..], id, events[0].now, later);
    }
  }

  /** Once a session has been refused it is refused for ever, whatever becomes of the membership. */
  lemma RefusedForEver(l: Limits, s: State, id: string, now: real, events: seq<Event>, later: real)
    requires id in s.rows && ValidId(id) && Answer(l, s, id, now).None?
    requires Clocked(events, now) && now <= later && forall i :: 0 <= i < |events| ==> events[i].now <= later
    ensures Answer(l, After(l, Perform(l, s, Event(Resolve(id), now)), events), id, later).None?
  {
    var s1 := Perform(l, s, Event(Resolve(id), now));
    assert Dead(l, s1, id, now);
    DeadStays(l, s1, events, id, now, later);
  }

  /** A session that was revoked is refused from then on. */
  lemma RevokedIsRefused(l: Limits, s: State, id: string, now: real, events: seq<Event>, later: real)
    requires ValidId(id) && id in s.rows
    requires Clocked(events, now) && now <= later && forall i :: 0 <= i < |events| ==> events[i].now <= later
    ensures Answer(l, After(l, Perform(l, s, Event(Revoke(id), now)), events), id, later).None?
  {
    var s1 := Perform(l, s, Event(Revoke(id), now));
    assert Dead(l, s1, id, now);
    DeadStays(l, s1, events, id, now, later);
  }

  /** A session whose member is no longer active, or has other scopes, is refused, and for ever once it was asked for. */
  lemma SuspendedIsRefused(l: Limits, s: State, id: string, now: real, events: seq<Event>, later: real)
    requires ValidId(id) && id in s.rows && s.rows[id].who in s.members
    requires s.members[s.rows[id].who].status != Active || s.members[s.rows[id].who].scopes != s.rows[id].scopes
    requires Clocked(events, now) && now <= later && forall i :: 0 <= i < |events| ==> events[i].now <= later
    ensures Answer(l, s, id, now).None?
    ensures Answer(l, After(l, Perform(l, s, Event(Resolve(id), now)), events), id, later).None?
  {
    RefusedForEver(l, s, id, now, events, later);
  }

  // The event is none that ends, extends or concerns the session or its member.
  ghost predicate LeavesSession(e: Event, id: string, who: Identity) {
    && e.op != Resolve(id) && e.op != Revoke(id)
    && (e.op.AddMember? || e.op.SetStatus? || e.op.SetScopes? ==> e.op.who != who)
    && (e.op.Seed? ==> forall r :: r in e.op.records ==> r.who != who)
  }

  lemma StepLeavesSession(l: Limits, s: State, e: Event, id: string)
    requires id in s.rows && s.rows[id].who in s.members && LeavesSession(e, id, s.rows[id].who)
    ensures var s' := Perform(l, s, e);
            && id in s'.rows && s'.rows[id] == s.rows[id]
            && s.rows[id].who in s'.members && s'.members[s.rows[id].who] == s.members[s.rows[id].who]
  {
    if e.op.Seed? {
      SeedLeavesOthers(s.members, e.op.records, s.rows[id].who);
    }
    hide RequiredText, ValidScopes, Seeded, StillMember;
  }

  lemma {:induction false} SessionLeft(l: Limits, s: State, events: seq<Event>, id: string)
    requires id in s.rows && s.rows[id].who in s.members
    requires forall i :: 0 <= i < |events| ==> LeavesSession(events[i], id, s.rows[id].who)
    ensures var s' := After(l, s, events);
            && id in s'.rows && s'.rows[id] == s.rows[id]
            && s.rows[id].who in s'.members && s'.members[s.rows[id].who] == s.members[s.rows[id].who]
    decreases |events|
  {
    if events != [] {
      StepLeavesSession(l, s, events[0], id);
      hide Perform, LeavesSession;
      SessionLeft(l, Perform(l, s, events[0]), events[1..], id);
    }
  }

  /** A session of an active member that nobody disturbs resolves until one of its two limits is reached, and not after. */
  lemma UndisturbedSessionResolves(l: Limits, s: State, who: Identity, id: string, now: real, events: seq<Event>, later: real)
    requires ValidId(id) && CreateEffect(l, s.members, s.rows, who, id, now).Ok? && now <= later
    requires forall i :: 0 <= i < |events| ==> LeavesSession(events[i], id, who)
    ensures who in s.members && s.members[who].status == Active && id !in s.rows
    ensures Answer(l, After(l, Perform(l, s, Event(Create(who, id), now)), events), id, later).Some?
            <==> later < now + l.absoluteTtl && later < now + l.idleTtl
  {
    var s1 := Perform(l, s, Event(Create(who, id), now));
    SessionLeft(l, s1, events, id);
    hide After, Perform, LeavesSession;
  }

  // ------------------------------------------------------- slow requests

  // A `resolve` between reading its row and updating it: the clock reading it took,
  // and whether it found the membership as the session has it.
  datatype Slow = Slow(id: string, now: real, fits: bool)

  // `clock` is the latest reading anyone has taken.
  datatype Racing = Racing(state: State, clock: real, slow: map<nat, Slow>)

  datatype Step =
    | Whole(op: Op, now: real)
    | Read(q: nat, id: string, now: real)
    | Update(q: nat)

  /** One step of an interleaving; None when it is not possible. */
  function Race(l: Limits, s: Racing, step: Step): Option<Racing> {
    match step
    case Whole(op, now) =>
      if op.Resolve? || now < s.clock then None
      else Some(s.(state := Perform(l, s.state, Event(op, now)), clock := now))
    case Read(q, id, now) =>
      if q in s.slow || now < s.clock then None
      else if !ValidId(id) || id !in s.state.rows || Over(l, s.state.rows[id], now) then Some(s.(clock := now))
      else
        var fits := StillMember(s.state.members, s.state.rows[id]);
        Some(s.(slow := s.slow[q := Slow(id, now, fits)], clock := now))
    case Update(q) =>
      if q !in s.slow || s.slow[q].id !in s.state.rows then None
      else
        var r := s.slow[q];
        var row := s.state.rows[r.id];
        var updated := if r.fits then row.(lastSeen := r.now) else row.(revokedAt := Some(r.now));
        Some(s.(state := s.state.(rows := s.state.rows[r.id := updated]), slow := s.slow - {q}))
  }

  ghost predicate Races(l: Limits, s: Racing, steps: seq<Step>, s': Racing)
    decreases |steps|
  {
    if steps == [] then s' == s
    else
      var next := Race(l, s, steps[0]);
      next.Some? && Races(l, next.value, steps[1..], s')
  }

  /** With nothing in between, the two steps are `resolve`, with its effect and its answer. */
  lemma TwoStepsResolve(l: Limits, s: Racing, q: nat, id: string, now: real)
    requires q !in s.slow && s.clock <= now
    ensures var read := Race(l, s, Read(q, id, now)).value;
            var answered := q !in read.slow;
            var after := if answered then read else Race(l, read, Update(q)).value;
            && (!answered ==> Race(l, read, Update(q)).Some?)
            && after == Racing(Perform(l, s.state, Event(Resolve(id), now)), now, s.slow)
            && (Answer(l, s.state, id, now).Some? <==> !answered && read.slow[q].fits)
  {
    var read := Race(l, s, Read(q, id, now)).value;
    if q in read.slow {
      assert read.slow - {q} == s.slow;
    }
  }

  // A request is under way that read the session in time, late enough to bring it back.
  ghost predicate Revivable(l: Limits, s: Racing, id: string)
    requires id in s.state.rows
  {
    var row := s.state.rows[id];
    && row.revokedAt.None? && row.expires > s.clock
    && exists q :: q in s.slow && s.slow[q].id == id && s.slow[q].fits && s.slow[q].now + l.idleTtl > s.clock
  }

  // A request that reads the session now gets past its limits.
  ghost predicate IsBack(l: Limits, s: Racing, id: string) {
    id in s.state.rows && !Over(l, s.state.rows[id], s.clock)
  }

  ghost predicate ComesBack(l: Limits, s: Racing, id: string) {
    exists steps: seq<Step>, s': Racing :: Races(l, s, steps, s') && IsBack(l, s', id)
  }

  // Over at `c`, with nothing under way that could change it.
  ghost predicate Gone(l: Limits, s: Racing, id: string, c: real) {
    && id in s.state.rows && c <= s.clock
    && var row := s.state.rows[id];
       || row.revokedAt.Some?
       || row.expires <= c
       || (row.lastSeen + l.idleTtl <= c
           && forall q :: q in s.slow && s.slow[q].id == id && s.slow[q].fits ==> s.slow[q].now + l.idleTtl <= c)
  }

  lemma WholeStepsKeepRow(l: Limits, s: State, e: Event, id: string)
    requires id in s.rows && !e.op.Resolve?
    ensures id in Perform(l, s, e).rows
    ensures var row, row' := s.rows[id], Perform(l, s, e).rows[id];
            row' == row.(revokedAt := row'.revokedAt) && (row.revokedAt.Some? ==> row'.revokedAt.Some?)
  {
  }

  lemma StepKeepsGone(l: Limits, s: Racing, step: Step, id: string, c: real)
    requires Gone(l, s, id, c) && Race(l, s, step).Some?
    ensures Gone(l, Race(l, s, step).value, id, c)
  {
    if step.Whole? {
      WholeStepsKeepRow(l, s.state, Event(step.op, step.now), id);
    }
    hide Perform, StillMember;
  }

  lemma {:induction false} GoneForGood(l: Limits, s: Racing, steps: seq<Step>, s': Racing, id: string, c: real)
    requires Gone(l, s, id, c) && Races(l, s, steps, s')
    ensures Gone(l, s', id, c)
    decreases |steps|
  {
    if steps != [] {
      StepKeepsGone(l, s, steps[0], id, c);
      hide Gone, Race;
      GoneForGood(l, Race(l, s, steps[0]).value, steps[1..], s', id, c);
    }
  }

  /**
   * With requests that overlap, a session that is over comes back exactly when it is
   * over for being idle alone and a request is under way that read it in time.
   */
  lemma ComesBackIffRevivable(l: Limits, s: Racing, id: string)
    requires id in s.state.rows && Over(l, s.state.rows[id], s.clock)
    ensures ComesBack(l, s, id) <==> Revivable(l, s, id)
  {
    if Revivable(l, s, id) {
      var q :| q in s.slow && s.slow[q].id == id && s.slow[q].fits && s.slow[q].now + l.idleTtl > s.clock;
      var s', steps := Race(l, s, Update(q)).value, [Update(q)];
      assert Races(l, s', steps[1..], s');
      assert Races(l, s, steps, s') && IsBack(l, s', id);
    } else {
      assert Gone(l, s, id, s.clock);
      forall steps: seq<Step>, s': Racing | Races(l, s, steps, s') ensures !IsBack(l, s', id) {
        GoneForGood(l, s, steps, s', id, s.clock);
      }
    }
  }

  /**
   * The interleaving itself: a request reads the session one second before it becomes
   * idle, another is refused, the first one updates, and a third is let in.
   */
  lemma RefusedComesBack(l: Limits, s: Racing, id: string, a: nat, b: nat, c: nat)
    requires l.idleTtl >= 2.0 && s.slow == map[] && a != b && a != c && b != c
    requires ValidId(id) && id in s.state.rows && StillMember(s.state.members, s.state.rows[id])
    requires var row := s.state.rows[id];
             && row.revokedAt.None? && s.clock <= row.lastSeen + l.idleTtl - 1.0
             && row.expires > row.lastSeen + l.idleTtl
    ensures var idle := s.state.rows[id].lastSeen + l.idleTtl;
            var s1 := Race(l, s, Read(a, id, idle - 1.0)).value;
            var s2 := Race(l, s1, Read(b, id, idle)).value;
            var s3 := Race(l, s2, Update(a)).value;
            var s4 := Race(l, s3, Read(c, id, idle)).value;
            && Races(l, s, [Read(a, id, idle - 1.0), Read(b, id, idle), Update(a), Read(c, id, idle)], s4)
            && b !in s2.slow                              // refused
            && c in s4.slow && s4.slow[c].fits           // let in
  {
    var idle := s.state.rows[id].lastSeen + l.idleTtl;
    var s1 := Race(l, s, Read(a, id, idle - 1.0)).value;
    var s2 := Race(l, s1, Read(b, id, idle)).value;
    var s3 := Race(l, s2, Update(a)).value;
    var s4 := Race(l, s3, Read(c, id, idle)).value;
    var steps := [Read(a, id, idle - 1.0), Read(b, id, idle), Update(a), Read(c, id, idle)];
    assert steps[1..][1..][1..][1..] == [] && steps[1..][0] == steps[1] && steps[1..][1..][0] == steps[2]
           && steps[1..][1..][1..][0] == steps[3];
    assert Races(l, s3, steps[1..][1..][1..], s4);
    assert Races(l, s2, steps[1..][1..], s4);
    assert Races(l, s1, steps[1..], s4);
  }

  // ------------------------------------------------------ what is fixed

  // The part of a row that nothing changes.
  ghost predicate SameOrigin(a: Session, b: Session) {
    && a.who == b.who && a.tenant == b.tenant && a.actor == b.actor && a.scopes == b.scopes
    && a.createdAt == b.createdAt && a.expires == b.expires
  }

  lemma StepKeepsOrigin(l: Limits, s: State, e: Event, id: string)
    requires id in s.rows
    ensures id in Perform(l, s, e).rows && SameOrigin(Perform(l, s, e).rows[id], s.rows[id])
  {
  }

  /** Nor does any step of an interleaving. */
  lemma {:induction false} OriginStaysRacing(l: Limits, s: Racing, steps: seq<Step>, s': Racing, id: string)
    requires id in s.state.rows && Races(l, s, steps, s')
    ensures id in s'.state.rows && SameOrigin(s'.state.rows[id], s.state.rows[id])
    decreases |steps|
  {
    if steps != [] {
      var next := Race(l, s, steps[0]).value;
      if steps[0].Whole? {
        StepKeepsOrigin(l, s.state, Event(steps[0].op, steps[0].now), id);
      }
      hide Perform, StillMember, Over;
      assert id in next.state.rows && SameOrigin(next.state.rows[id], s.state.rows[id]);
      hide Race;
      OriginStaysRacing(l, next, steps[1..], s', id);
    }
  }

  lemma {:induction false} OriginStays(l: Limits, s: State, events: seq<Event>, id: string)
    requires id in s.rows
    ensures id in After(l, s, events).rows && SameOrigin(After(l, s, events).rows[id], s.rows[id])
    decreases |events|
  {
    if events != [] {
      StepKeepsOrigin(l, s, events[0], id);
      OriginStays(l, Perform(l, s, events[0]), events[1..], id);
      hide Perform;
    }
  }

  /**
   * Every success gives the tenant, the actor and the scopes the identity had when
   * the session was made, and lies before the deadline set then.
   */
  lemma SuccessIsAsCreated(l: Limits, s: State, who: Identity, id: string, now: real, events: seq<Event>, later: real)
    requires CreateEffect(l, s.members, s.rows, who, id, now).Ok?
    requires Answer(l, After(l, Perform(l, s, Event(Create(who, id), now)), events), id, later).Some?
    ensures var m := s.members[who];
            var record := Answer(l, After(l, Perform(l, s, Event(Create(who, id), now)), events), id, later).value;
            && record.principal == Principal(m.tenant, m.actor, who, m.scopes)
            && record.createdAt == now && record.lastSeen == later && record.expires == now + l.absoluteTtl
            && later < now + l.absoluteTtl
  {
    OriginStays(l, Perform(l, s, Event(Create(who, id), now)), events, id);
  }

  ghost predicate NoSuccess(l: Limits, s: State, events: seq<Event>, id: string)
    decreases |events|
  {
    events == [] ||
    (!(events[0].op == Resolve(id) && Answer(l, s, id, events[0].now).Some?)
     && NoSuccess(l, Perform(l, s, events[0]), events[1..], id))
  }

  lemma StepKeepsLastSeen(l: Limits, s: State, e: Event, id: string)
    requires id in s.rows && !(e.op == Resolve(id) && Answer(l, s, id, e.now).Some?)
    ensures id in Perform(l, s, e).rows && Perform(l, s, e).rows[id].lastSeen == s.rows[id].lastSeen
  {
  }

  lemma {:induction false} LastSeenStays(l: Limits, s: State, events: seq<Event>, id: string)
    requires id in s.rows && NoSuccess(l, s, events, id)
    ensures id in After(l, s, events).rows && After(l, s, events).rows[id].lastSeen == s.rows[id].lastSeen
    decreases |events|
  {
    if events != [] {
      StepKeepsLastSeen(l, s, events[0], id);
      LastSeenStays(l, Perform(l, s, events[0]), events[1..], id);
      hide Perform, Answer;
    }
  }

  /** Two successes with none in between are closer than the idle limit. */
  lemma SuccessWithinIdleLimit(l: Limits, s: State, id: string, now: real, between: seq<Event>, later: real)
    requires Answer(l, s, id, now).Some?
    requires var s1 := Perform(l, s, Event(Resolve(id), now));
             NoSuccess(l, s1, between, id) && Answer(l, After(l, s1, between), id, later).Some?
    ensures later < now + l.idleTtl
  {
    LastSeenStays(l, Perform(l, s, Event(Resolve(id), now)), between, id);
  }

  // ------------------------------------------------ the mapping is immutable

  lemma StepKeepsMapping(l: Limits, s: State, e: Event)
    ensures MappingKept(s.members, Perform(l, s, e).members)
  {
    if e.op.Seed? {
      SeedKeepsMapping(s.members, e.op.records);
    }
  }

  // Every session belongs to the tenant and actor its identity maps to.
  ghost predicate MappingAgrees(s: State) {
    forall id :: id in s.rows ==>
      var row := s.rows[id];
      row.who in s.members && s.members[row.who].tenant == row.tenant && s.members[row.who].actor == row.actor
  }

  lemma StepKeepsAgreement(l: Limits, s: State, e: Event)
    requires MappingAgrees(s)
    ensures MappingAgrees(Perform(l, s, e))
  {
    StepKeepsMapping(l, s, e);
    var s' := Perform(l, s, e);
    forall id | id in s'.rows
      ensures var row := s'.rows[id];
              row.who in s'.members && s'.members[row.who].tenant == row.tenant && s'.members[row.who].actor == row.actor
    {
      if id in s.rows {
        StepKeepsOrigin(l, s, e, id);
      }
    }
  }

  lemma {:induction false} AgreementStays(l: Limits, s: State, events: seq<Event>)
    requires MappingAgrees(s)
    ensures MappingAgrees(After(l, s, events))
    decreases |events|
  {
    if events != [] {
      StepKeepsAgreement(l, s, events[0]);
      AgreementStays(l, Perform(l, s, events[0]), events[1..]);
      hide Perform, MappingAgrees;
    }
  }

  const Empty := State(map[], map[], map[])

  /** In no run does `resolve` find another tenant or actor: only status and scopes can end a session. */
  lemma MismatchNeverFires(l: Limits, events: seq<Event>, id: string)
    requires id in After(l, Empty, events).rows
    ensures var s := After(l, Empty, events);
            var row := s.rows[id];
            && row.who in s.members && s.members[row.who].tenant == row.tenant && s.members[row.who].actor == row.actor
            && (StillMember(s.members, row) <==> s.members[row.who].status.Active? && s.members[row.who].scopes == row.scopes)
  {
    AgreementStays(l, Empty, events);
  }

  // --------------------------------------------------------- sign-in, once

  ghost predicate NeverBegun(events: seq<Event>, state: string) {
    forall i :: 0 <= i < |events| && events[i].op.Begin? ==> events[i].op.state != state
  }

  lemma {:induction false} GoneStays(l: Limits, s: State, events: seq<Event>, state: string)
    requires state !in s.pending && NeverBegun(events, state)
    ensures state !in After(l, s, events).pending
    decreases |events|
  {
    if events != [] {
      assert state !in Perform(l, s, events[0]).pending;
      hide Perform;
      GoneStays(l, Perform(l, s, events[0]), events[1..], state);
    }
  }

  /** A sign-in transaction is consumed at most once. */
  lemma ConsumedAtMostOnce(l: Limits, s: State, state: string, now: real, events: seq<Event>, later: real)
    requires Consumed(s.pending, state, now).Some? && NeverBegun(events, state)
    ensures Consumed(After(l, Perform(l, s, Event(Consume(state), now)), events).pending, state, later).None?
  {
    GoneStays(l, Perform(l, s, Event(Consume(state), now)), events, state);
  }

  /** A transaction that was discarded is not handed out. */
  lemma DiscardedIsGone(l: Limits, s: State, state: string, now: real, events: seq<Event>, later: real)
    requires NeverBegun(events, state)
    ensures Consumed(After(l, Perform(l, s, Event(Discard(state), now)), events).pending, state, later).None?
  {
    GoneStays(l, Perform(l, s, Event(Discard(state), now)), events, state);
  }

  // Nobody takes, discards or replaces the transaction, and no purge comes after it expired.
  ghost predicate LeavesAlone(events: seq<Event>, state: string, until: real) {
    NeverBegun(events, state)
    && forall i :: 0 <= i < |events| ==>
         events[i].now < until && events[i].op != Consume(state) && events[i].op != Discard(state)
  }

  lemma {:induction false} PendingStays(l: Limits, s: State, events: seq<Event>, state: string)
    requires state in s.pending && LeavesAlone(events, state, s.pending[state].expires)
    ensures state in After(l, s, events).pending && After(l, s, events).pending[state] == s.pending[state]
    decreases |events|
  {
    if events != [] {
      var next := Perform(l, s, events[0]);
      assert state in next.pending && next.pending[state] == s.pending[state];
      hide Perform;
      PendingStays(l, next, events[1..], state);
    }
  }

  /** Left alone, it is there until it expires, exactly as it was begun. */
  lemma ConsumeGivesWhatBegan(l: Limits, s: State, state: string, t: Transaction, now: real, ttl: real,
                              events: seq<Event>, later: real)
    requires ValidId(state) && LeavesAlone(events, state, now + ttl)
    ensures var s1 := Perform(l, s, Event(Begin(state, t, ttl), now));
            Consumed(After(l, s1, events).pending, state, later) == if later < now + ttl then Some(t) else None
  {
    PendingStays(l, Perform(l, s, Event(Begin(state, t, ttl), now)), events, state);
  }
}
