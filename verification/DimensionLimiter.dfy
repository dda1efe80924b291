// The limiter that charges several dimensions (tenant, actor, connection, ...)
// for one request, all or none (src/folio_lattice/resource_limits.py).
module DimensionLimiter {
  import opened Common
  import opened RateLimiters

  type Key = (string, string)  // dimension name, value

  datatype DimensionBounds = DimensionBounds(limits: map<string, nat>, span: real, maxKeys: nat) {
    ghost predicate Accepted() {
      && limits != map[]
      && (forall name :: name in limits ==> limits[name] >= 1)
      && span > 0.0
      && maxKeys >= 1
    }
  }

  // A mapping's items, in its iteration order: no name occurs twice.
  ghost predicate IsMapping(items: seq<Key>) {
    forall i, j :: 0 <= i < j < |items| ==> items[i].0 != items[j].0
  }

  /** The items of a configured dimension with a non-empty value, in order. */
  function Candidates(limits: map<string, nat>, items: seq<Key>): (r: seq<Key>)
    ensures forall k :: k in r <==> k in items && k.0 in limits && k.1 != ""
  {
    if items == [] then []
    else if items[0].0 in limits && items[0].1 != "" then [items[0]] + Candidates(limits, items[1..])
    else Candidates(limits, items[1..])
  }

  lemma {:induction false} CandidatesAreMapping(limits: map<string, nat>, items: seq<Key>)
    requires IsMapping(items)
    ensures IsMapping(Candidates(limits, items))
  {
    if items != [] {
      CandidatesAreMapping(limits, items[1..]);
      var rest := Candidates(limits, items[1..]);
      forall j | 0 <= j < |rest| ensures rest[j].0 != items[0].0 {
        var i :| 0 <= i < |items[1..]| && items[1..][i] == rest[j];
        assert items[i + 1] == rest[j];
      }
    }
  }

  function KeysNamed(windows: Windows<Key>, name: string): set<Key> {
    set k | k in windows && k.0 == name
  }

  function Refusal(b: DimensionBounds, live: Windows<Key>, key: Key, now: real): Option<int>
    requires key.0 in b.limits
  {
    if key in live then
      if live[key].count >= b.limits[key.0] then Some(RestOfWindow(live[key], now, b.span)) else None
    else if |KeysNamed(live, key.0)| >= b.maxKeys then Some(FullWindow(b.span))
    else None
  }

  function FirstRefusal(b: DimensionBounds, live: Windows<Key>, keys: seq<Key>, now: real): Option<int>
    requires forall k :: k in keys ==> k.0 in b.limits
  {
    if keys == [] then None
    else
      var refusal := Refusal(b, live, keys[0], now);
      if refusal.Some? then refusal else FirstRefusal(b, live, keys[1..], now)
  }

  lemma {:induction false} AdmittedIffAllHaveRoom(b: DimensionBounds, live: Windows<Key>, keys: seq<Key>, now: real)
    requires forall k :: k in keys ==> k.0 in b.limits
    ensures FirstRefusal(b, live, keys, now).None? <==> forall k :: k in keys ==> Refusal(b, live, k, now).None?
  {
    if keys != [] {
      AdmittedIffAllHaveRoom(b, live, keys[1..], now);
      assert forall k :: k in keys <==> k == keys[0] || k in keys[1..];
    }
  }

  ghost function ChargedAll(windows: Windows<Key>, keys: seq<Key>, now: real): Windows<Key> {
    if keys == [] then windows
    else Charged(ChargedAll(windows, keys[..|keys| - 1], now), keys[|keys| - 1], now)
  }

  lemma {:induction false} ChargedAllOnce(windows: Windows<Key>, keys: seq<Key>, now: real)
    requires IsMapping(keys)
    ensures var after := ChargedAll(windows, keys, now);
            forall k :: Lookup(after, k) == if k in keys then Lookup(Charged(windows, k, now), k) else Lookup(windows, k)
  {
    if keys != [] {
      var init := keys[..|keys| - 1];
      ChargedAllOnce(windows, init, now);
      assert keys == init + [keys[|keys| - 1]];
      assert keys[|keys| - 1] !in init;
      var last := keys[|keys| - 1];
      assert Lookup(ChargedAll(windows, init, now), last) == Lookup(windows, last);
    }
  }

  ghost function AfterAllow(b: DimensionBounds, windows: Windows<Key>, items: seq<Key>, now: real): Windows<Key> {
    var keys := Candidates(b.limits, items);
    var live := Live(windows, now, b.span);
    if keys == [] then windows
    else if FirstRefusal(b, live, keys, now).Some? then live
    else ChargedAll(live, keys, now)
  }

  function VerdictOf(b: DimensionBounds, live: Windows<Key>, items: seq<Key>, now: real): Verdict {
    var keys := Candidates(b.limits, items);
    if keys == [] then Deny(FullWindow(b.span))
    else
      var refusal := FirstRefusal(b, live, keys, now);
      if refusal.Some? then Deny(refusal.value) else Admit
  }

  /** The loop that charges every candidate once all have room. */
  method ChargeKeys(windows: Windows<Key>, keys: seq<Key>, now: real) returns (charged: Windows<Key>)
    ensures charged == ChargedAll(windows, keys, now)
  {
    charged := windows;
    for i := 0 to |keys|
      invariant charged == ChargedAll(windows, keys[..i], now)
    {
      assert keys[..i + 1][..i] == keys[..i];
      var w := if keys[i] in charged then charged[keys[i]] else Window(now, 0);
      charged := charged[keys[i] := Window(w.start, w.count + 1)];
    }
    assert keys[..|keys|] == keys;
  }

  class DimensionRateLimiter {
    const bounds: DimensionBounds
    var windows: Windows<Key>

    constructor (bounds: DimensionBounds)
      requires bounds.Accepted()
      ensures this.bounds == bounds && windows == map[]
    {
      this.bounds := bounds;
      windows := map[];
    }

    method Allow(items: seq<Key>, now: real) returns (verdict: Verdict)
      modifies this
      ensures verdict == VerdictOf(bounds, Live(old(windows), now, bounds.span), items, now)
      ensures windows == AfterAllow(bounds, old(windows), items, now)
    {
      var keys := Candidates(bounds.limits, items);
      if keys == [] {
        return Deny(Max(1, Ceil(bounds.span)));
      }
      windows := PurgeExpired(windows, now, bounds.span);
      ghost var live := windows;
      for i := 0 to |keys|
        invariant windows == live
        invariant FirstRefusal(bounds, live, keys[i..], now) == FirstRefusal(bounds, live, keys, now)
      {
        var key := keys[i];
        assert key in keys && keys[i..][1..] == keys[i + 1..];
        if key in windows {
          var w := windows[key];
          if w.count >= bounds.limits[key.0] {
            return Deny(Max(1, Ceil(bounds.span - (now - w.start))));
          }
        } else if |KeysNamed(windows, key.0)| >= bounds.maxKeys {
          return Deny(Max(1, Ceil(bounds.span)));
        }
      }
      assert keys[|keys|..] == [];
      windows := ChargeKeys(windows, keys, now);
      verdict := Admit;
    }
  }

  // ------------------------------------------------------------------- runs

  datatype Call = Call(items: seq<Key>, now: real)

  ghost predicate WellFormed(calls: seq<Call>) {
    && (forall i :: 0 <= i < |calls| ==> IsMapping(calls[i].items))
    && (forall i, j :: 0 <= i < j < |calls| ==> calls[i].now <= calls[j].now)
  }

  ghost function StateAfter(b: DimensionBounds, calls: seq<Call>): Windows<Key> {
    if |calls| == 0 then map[]
    else
      var last := calls[|calls| - 1];
      AfterAllow(b, StateAfter(b, calls[..|calls| - 1]), last.items, last.now)
  }

  ghost predicate Charges(b: DimensionBounds, windows: Windows<Key>, call: Call, key: Key) {
    && VerdictOf(b, Live(windows, call.now, b.span), call.items, call.now).Admit?
    && key in Candidates(b.limits, call.items)
  }

  ghost function VisitsTo(b: DimensionBounds, calls: seq<Call>, key: Key): seq<Visit>
    ensures |VisitsTo(b, calls, key)| == |calls|
  {
    if |calls| == 0 then []
    else
      var init, last := calls[..|calls| - 1], calls[|calls| - 1];
      VisitsTo(b, init, key) + [Visit(last.now, Charges(b, StateAfter(b, init), last, key))]
  }

  ghost function WindowsOf(b: DimensionBounds, calls: seq<Call>, key: Key): seq<Option<Window>>
    ensures |WindowsOf(b, calls, key)| == |calls| + 1
  {
    if |calls| == 0 then [None]
    else WindowsOf(b, calls[..|calls| - 1], key) + [Lookup(StateAfter(b, calls), key)]
  }

  lemma CallLookup(b: DimensionBounds, windows: Windows<Key>, call: Call, key: Key)
    requires IsMapping(call.items) && key.0 in b.limits
    ensures var live, after := Live(windows, call.now, b.span), Lookup(AfterAllow(b, windows, call.items, call.now), key);
            if Charges(b, windows, call, key)
            then Refusal(b, live, key, call.now).None? && after == Lookup(Charged(live, key, call.now), key)
            else after == Lookup(live, key) || after == Lookup(windows, key)
  {
    var keys := Candidates(b.limits, call.items);
    var live := Live(windows, call.now, b.span);
    CandidatesAreMapping(b.limits, call.items);
    AdmittedIffAllHaveRoom(b, live, keys, call.now);
    ChargedAllOnce(live, keys, call.now);
    hide Live, Refusal, FirstRefusal, ChargedAll, Charged, Candidates, Lookup;
  }

  /** One call, seen by one key: charged with every other candidate, or left alone. */
  lemma CallStep(b: DimensionBounds, windows: Windows<Key>, call: Call, key: Key)
    requires b.Accepted() && IsMapping(call.items) && key.0 in b.limits
    ensures VisitStep(Lookup(windows, key), Visit(call.now, Charges(b, windows, call, key)),
                      Lookup(AfterAllow(b, windows, call.items, call.now), key), b.limits[key.0], b.span)
  {
    CallLookup(b, windows, call, key);
    hide AfterAllow, Charges, KeysNamed;
    var live := Live(windows, call.now, b.span);
    assert Lookup(live, key) == AfterPurge(Lookup(windows, key), call.now, b.span);
  }

  lemma {:induction false} VisitTimes(b: DimensionBounds, calls: seq<Call>, key: Key)
    ensures forall i :: 0 <= i < |calls| ==> VisitsTo(b, calls, key)[i].now == calls[i].now
  {
    if |calls| > 0 {
      VisitTimes(b, calls[..|calls| - 1], key);
      hide Charges;
    }
  }

  lemma {:induction false} DimensionHistory(b: DimensionBounds, calls: seq<Call>, key: Key)
    requires b.Accepted() && WellFormed(calls) && key.0 in b.limits
    ensures KeyHistory(WindowsOf(b, calls, key), VisitsTo(b, calls, key), b.limits[key.0], b.span)
    ensures WindowsOf(b, calls, key)[|calls|] == Lookup(StateAfter(b, calls), key)
    ensures forall i :: 0 <= i < |calls| ==> VisitsTo(b, calls, key)[i].now == calls[i].now
  {
    if |calls| > 0 {
      var init, last := calls[..|calls| - 1], calls[|calls| - 1];
      hide AfterAllow, Charges, Lookup, VisitStep, KeyHistory;
      VisitTimes(b, calls, key);
      DimensionHistory(b, init, key);
      CallStep(b, StateAfter(b, init), last, key);
      var visit := Visit(last.now, Charges(b, StateAfter(b, init), last, key));
      HistoryGrows(WindowsOf(b, init, key), VisitsTo(b, init, key), Lookup(StateAfter(b, calls), key), visit,
                   b.limits[key.0], b.span);
    }
  }

  /** Every value of every dimension keeps the sliding-interval bound of its own limit. */
  lemma DimensionRateBound(b: DimensionBounds, calls: seq<Call>, key: Key, from: real)
    requires b.Accepted() && WellFormed(calls) && key.0 in b.limits
    ensures Admitted(VisitsTo(b, calls, key), from, b.span) <= 2 * b.limits[key.0] - 1
  {
    DimensionHistory(b, calls, key);
    SlidingIntervalBound(WindowsOf(b, calls, key), VisitsTo(b, calls, key), b.limits[key.0], b.span, from);
  }

  // Requests of one key as calls that name that one dimension.
  ghost function AsCalls(requests: seq<Request<Key>>): seq<Call> {
    seq(|requests|, i requires 0 <= i < |requests| => Call([requests[i].key], requests[i].now))
  }

  // The limiter of a dimension on its own.
  ghost function Alone(b: DimensionBounds, name: string): Bounds
    requires name in b.limits
  {
    Bounds(b.limits[name], b.span, b.maxKeys)
  }

  lemma OneCandidate(b: DimensionBounds, windows: Windows<Key>, key: Key, now: real)
    requires key.0 in b.limits && key.1 != ""
    requires windows.Keys <= {key}
    ensures var live := Live(windows, now, b.span);
            && VerdictOf(b, live, [key], now) == Decide(Alone(b, key.0), live, key, now)
            && AfterAllow(b, windows, [key], now) == AfterRequest(Alone(b, key.0), windows, key, now)
            && key in Candidates(b.limits, [key])
            && AfterAllow(b, windows, [key], now).Keys <= {key}
  {
    var live := Live(windows, now, b.span);
    assert Candidates(b.limits, [key]) == [key] by {
      assert [key][1..] == [];
    }
    assert KeysNamed(live, key.0) == live.Keys;
    assert FirstRefusal(b, live, [key], now) == Refusal(b, live, key, now);
    assert [key][..0] == [];
    assert ChargedAll(live, [key], now) == Charged(live, key, now);
    hide Expired;
  }

  /** On the calls that name one value of one dimension this is the plain limiter with that dimension's limit. */
  lemma {:induction false} OneDimensionIsPlain(b: DimensionBounds, requests: seq<Request<Key>>, key: Key)
    requires key.0 in b.limits && key.1 != "" && forall i :: 0 <= i < |requests| ==> requests[i].key == key
    ensures StateAfter(b, AsCalls(requests)) == RunWindows(Alone(b, key.0), requests)
    ensures StateAfter(b, AsCalls(requests)).Keys <= {key}
    ensures VisitsTo(b, AsCalls(requests), key) == KeyVisits(Alone(b, key.0), requests, key)
  {
    if requests != [] {
      var init, last := requests[..|requests| - 1], requests[|requests| - 1];
      OneDimensionIsPlain(b, init, key);
      assert AsCalls(requests)[..|requests| - 1] == AsCalls(init);
      OneCandidate(b, StateAfter(b, AsCalls(init)), key, last.now);
      hide VerdictOf, Decide, AfterAllow, AfterRequest, Live, Candidates, Alone;
    }
  }

  /** The bound is met: for every value of every dimension there is a run that reaches it. */
  lemma DimensionRateBoundIsTight(b: DimensionBounds, key: Key) returns (calls: seq<Call>, from: real)
    requires b.Accepted() && key.0 in b.limits && key.1 != ""
    ensures WellFormed(calls)
    ensures Admitted(VisitsTo(b, calls, key), from, b.span) == 2 * b.limits[key.0] - 1
  {
    var requests;
    requests, from := RateBoundIsTight(Alone(b, key.0), key);
    OneDimensionIsPlain(b, requests, key);
    calls := AsCalls(requests);
  }

  /** A request that names no configured dimension is denied, and purges nothing. */
  lemma NothingToChargeIsDenied(b: DimensionBounds, windows: Windows<Key>, items: seq<Key>, now: real)
    requires forall k :: k in items ==> k.0 !in b.limits || k.1 == ""
    ensures VerdictOf(b, Live(windows, now, b.span), items, now).Deny? && AfterAllow(b, windows, items, now) == windows
  {
    HasMember(Candidates(b.limits, items));
  }

  lemma HasMember(keys: seq<Key>)
    ensures keys != [] ==> exists k :: k in keys
  {
    if keys != [] {
      assert keys[0] in keys;
    }
  }

  /** A denied request charges no dimension: it can only drop windows that have run out. */
  lemma DeniedChargesNothing(b: DimensionBounds, windows: Windows<Key>, items: seq<Key>, now: real, key: Key)
    requires VerdictOf(b, Live(windows, now, b.span), items, now).Deny?
    ensures var after := Lookup(AfterAllow(b, windows, items, now), key);
            after == Lookup(windows, key)
            || (after == None && key in windows && Expired(windows[key], now, b.span))
  {
  }

  lemma {:induction false} KeysPerDimensionBounded(b: DimensionBounds, calls: seq<Call>, name: string)
    requires b.Accepted() && WellFormed(calls)
    ensures |KeysNamed(StateAfter(b, calls), name)| <= b.maxKeys
  {
    if |calls| > 0 {
      var init, last := calls[..|calls| - 1], calls[|calls| - 1];
      KeysPerDimensionBounded(b, init, name);
      var before := StateAfter(b, init);
      var live := Live(before, last.now, b.span);
      var keys := Candidates(b.limits, last.items);
      SubsetSize(KeysNamed(live, name), KeysNamed(before, name));
      if keys != [] && FirstRefusal(b, live, keys, last.now).None? {
        CandidatesAreMapping(b.limits, last.items);
        AdmittedIffAllHaveRoom(b, live, keys, last.now);
        NewKeysNamed(b, live, keys, last.now, name);
      }
    }
  }

  lemma NewKeysNamed(b: DimensionBounds, live: Windows<Key>, keys: seq<Key>, now: real, name: string)
    requires IsMapping(keys) && forall k :: k in keys ==> k.0 in b.limits && Refusal(b, live, k, now).None?
    requires |KeysNamed(live, name)| <= b.maxKeys
    ensures |KeysNamed(ChargedAll(live, keys, now), name)| <= b.maxKeys
  {
    var after := KeysNamed(ChargedAll(live, keys, now), name);
    ChargedAllOnce(live, keys, now);
    forall k | k in after ensures k in KeysNamed(live, name) || k in keys {
      assert Lookup(ChargedAll(live, keys, now), k).Some?;
    }
    if added: Key :| added in after && added !in live {
      assert added in keys;
      assert after <= KeysNamed(live, name) + {added};
      SubsetSize(after, KeysNamed(live, name) + {added});
    } else {
      SubsetSize(after, KeysNamed(live, name));
    }
  }
}
