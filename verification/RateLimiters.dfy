// The two fixed-window rate limiters (src/folio_lattice/resource_limits.py).
// Both keep one window (start, count) for every key; only the way a request
// picks its keys differs, so the sliding-interval bound is proved once, for the
// history of one key.
module RateLimiters {
  import opened Common

  datatype Window = Window(start: real, count: nat)

  type Windows<!K> = map<K, Window>

  ghost predicate Expired(w: Window, now: real, span: real) {
    now - w.start >= span
  }

  ghost function Live<K>(windows: Windows<K>, now: real, span: real): Windows<K> {
    map k | k in windows && !Expired(windows[k], now, span) :: windows[k]
  }

  /** One more request of a key whose expired windows are already gone. */
  function Charged<K>(windows: Windows<K>, key: K, now: real): Windows<K> {
    windows[key := if key in windows
                   then windows[key].(count := windows[key].count + 1)
                   else Window(now, 1)]
  }

  /** The two `for` statements that collect and delete the expired windows. */
  method PurgeExpired<K(==)>(windows: Windows<K>, now: real, span: real) returns (live: Windows<K>)
    ensures live == Live(windows, now, span)
  {
    var expired := set k | k in windows && now - windows[k].start >= span;
    live := windows;
    while expired != {}
      invariant expired <= live.Keys <= windows.Keys
      invariant forall k :: k in live ==> live[k] == windows[k]
      invariant forall k :: k in windows ==>
                  (k in live <==> k in expired || !Expired(windows[k], now, span))
      invariant forall k :: k in expired ==> Expired(windows[k], now, span)
      decreases |expired|
    {
      var k :| k in expired;
      expired := expired - {k};
      live := live - {k};
    }
  }

  // ---------------------------------------------------------------- one key

  // What one call of `allow` means for one key: the clock reading, and whether
  // the call was admitted and charged the key.
  datatype Visit = Visit(now: real, charged: bool)

  ghost function AfterPurge(w: Option<Window>, now: real, span: real): Option<Window> {
    if w.Some? && Expired(w.value, now, span) then None else w
  }

  ghost predicate VisitStep(w: Option<Window>, v: Visit, w': Option<Window>, limit: nat, span: real) {
    var live := AfterPurge(w, v.now, span);
    if !v.charged then w' == live || w' == w  // a request without a usable key purges nothing
    else if live.None? then w' == Some(Window(v.now, 1))
    else live.value.count < limit && w' == Some(live.value.(count := live.value.count + 1))
  }

  // `ws[i]` is the key's window before visit i; the clock never runs backwards.
  ghost predicate KeyHistory(ws: seq<Option<Window>>, vs: seq<Visit>, limit: nat, span: real) {
    && |ws| == |vs| + 1
    && ws[0] == None
    && (forall i :: 0 <= i < |vs| ==> VisitStep(ws[i], vs[i], ws[i + 1], limit, span))
    && (forall i, j :: 0 <= i < j < |vs| ==> vs[i].now <= vs[j].now)
  }

  lemma HistoryGrows(ws: seq<Option<Window>>, vs: seq<Visit>, w: Option<Window>, v: Visit, limit: nat, span: real)
    requires KeyHistory(ws, vs, limit, span) && VisitStep(ws[|vs|], v, w, limit, span)
    requires vs != [] ==> vs[|vs| - 1].now <= v.now
    ensures KeyHistory(ws + [w], vs + [v], limit, span)
  {
    hide VisitStep;
  }

  ghost function Admitted(vs: seq<Visit>, from: real, span: real): nat {
    if |vs| == 0 then 0
    else
      var last := vs[|vs| - 1];
      Admitted(vs[..|vs| - 1], from, span) + if last.charged && from <= last.now < from + span then 1 else 0
  }

  lemma {:induction false} AdmittedBounds(vs: seq<Visit>, from: real, span: real)
    ensures (forall v :: v in vs ==> v.now < from) ==> Admitted(vs, from, span) == 0
    ensures Admitted(vs, from, span) <= |vs|
  {
    if |vs| > 0 {
      AdmittedBounds(vs[..|vs| - 1], from, span);
      assert vs[|vs| - 1] in vs;
    }
  }

  // How many requests of the interval the state of the key can still answer for.
  ghost function Allowance(w: Option<Window>, from: real, limit: nat): int {
    if w.None? then limit - 1
    else if w.value.start < from then w.value.count - 1
    else limit - 1 + w.value.count
  }

  lemma {:induction false} AdmittedWithinAllowance(
      ws: seq<Option<Window>>, vs: seq<Visit>, limit: nat, span: real, from: real)
    requires limit >= 1 && span > 0.0
    requires KeyHistory(ws, vs, limit, span)
    ensures Admitted(vs, from, span) <= 2 * limit - 1
    ensures (|vs| > 0 ==> vs[|vs| - 1].now < from + span)
            ==> Admitted(vs, from, span) <= Allowance(ws[|vs|], from, limit)
    ensures ws[|vs|].Some? ==> |vs| > 0 && 1 <= ws[|vs|].value.count <= limit && ws[|vs|].value.start <= vs[|vs| - 1].now
  {
    var n := |vs|;
    if n > 0 {
      var init := vs[..n - 1];
      assert forall i :: 0 <= i < n - 1 ==> init[i] == vs[i];
      AdmittedWithinAllowance(ws[..n], init, limit, span, from);
      assert VisitStep(ws[n - 1], vs[n - 1], ws[n], limit, span);
      if vs[n - 1].now < from {
        AdmittedBounds(vs, from, span);
      }
    }
  }

  /** Any half-open interval of one window length admits at most 2 * limit - 1 requests of a key. */
  lemma SlidingIntervalBound(ws: seq<Option<Window>>, vs: seq<Visit>, limit: nat, span: real, from: real)
    requires limit >= 1 && span > 0.0
    requires KeyHistory(ws, vs, limit, span)
    ensures Admitted(vs, from, span) <= 2 * limit - 1
  {
    AdmittedWithinAllowance(ws, vs, limit, span, from);
  }

  ghost function Lookup<K>(windows: Windows<K>, key: K): Option<Window> {
    if key in windows then Some(windows[key]) else None
  }

  // ---------------------------------------------------- BoundedRateLimiter

  datatype Bounds = Bounds(limit: nat, span: real, maxKeys: nat) {
    // What the constructor accepts.
    predicate Accepted() {
      limit >= 1 && span > 0.0 && maxKeys >= 1
    }
  }

  datatype Verdict = Admit | Deny(retryAfter: int)

  function FullWindow(span: real): int {
    Max(1, Ceil(span))
  }

  function RestOfWindow(w: Window, now: real, span: real): int {
    Max(1, Ceil(span - (now - w.start)))
  }

  function Decide<K>(b: Bounds, live: Windows<K>, key: K, now: real): Verdict {
    if key !in live then
      if |live| >= b.maxKeys then Deny(FullWindow(b.span)) else Admit
    else if live[key].count >= b.limit then Deny(RestOfWindow(live[key], now, b.span))
    else Admit
  }

  ghost function AfterRequest<K>(b: Bounds, windows: Windows<K>, key: K, now: real): Windows<K> {
    var live := Live(windows, now, b.span);
    if Decide(b, live, key, now).Admit? then Charged(live, key, now) else live
  }

  class BoundedRateLimiter {
    const bounds: Bounds
    var windows: Windows<string>

    constructor (bounds: Bounds)
      requires bounds.Accepted()
      ensures this.bounds == bounds && windows == map[]
    {
      this.bounds := bounds;
      windows := map[];
    }

    method Allow(key: string, now: real) returns (verdict: Verdict)
      modifies this
      ensures verdict == Decide(bounds, Live(old(windows), now, bounds.span), key, now)
      ensures windows == AfterRequest(bounds, old(windows), key, now)
    {
      windows := PurgeExpired(windows, now, bounds.span);
      if key !in windows {
        if |windows| >= bounds.maxKeys {
          return Deny(Max(1, Ceil(bounds.span)));
        }
        windows := windows[key := Window(now, 1)];
        return Admit;
      }
      var w := windows[key];
      if w.count >= bounds.limit {
        return Deny(Max(1, Ceil(bounds.span - (now - w.start))));
      }
      windows := windows[key := Window(w.start, w.count + 1)];
      verdict := Admit;
    }
  }

  datatype Request<+K> = Request(key: K, now: real)

  ghost predicate ClockOrdered<K>(requests: seq<Request<K>>) {
    forall i, j :: 0 <= i < j < |requests| ==> requests[i].now <= requests[j].now
  }

  /** The limiter's state after a run of `allow` calls on a fresh limiter. */
  ghost function RunWindows<K>(b: Bounds, requests: seq<Request<K>>): Windows<K> {
    if |requests| == 0 then map[]
    else
      var last := requests[|requests| - 1];
      AfterRequest(b, RunWindows(b, requests[..|requests| - 1]), last.key, last.now)
  }

  ghost predicate AdmitsNext<K>(b: Bounds, requests: seq<Request<K>>, next: Request<K>) {
    Decide(b, Live(RunWindows(b, requests), next.now, b.span), next.key, next.now).Admit?
  }

  /** The run as `key` saw it. */
  ghost function KeyVisits<K>(b: Bounds, requests: seq<Request<K>>, key: K): seq<Visit>
    ensures |KeyVisits(b, requests, key)| == |requests|
  {
    if |requests| == 0 then []
    else
      var init, last := requests[..|requests| - 1], requests[|requests| - 1];
      KeyVisits(b, init, key) + [Visit(last.now, last.key == key && AdmitsNext(b, init, last))]
  }

  ghost function KeyWindows<K>(b: Bounds, requests: seq<Request<K>>, key: K): seq<Option<Window>>
    ensures |KeyWindows(b, requests, key)| == |requests| + 1
  {
    if |requests| == 0 then [None]
    else KeyWindows(b, requests[..|requests| - 1], key) + [Lookup(RunWindows(b, requests), key)]
  }

  /** Requests of `key` admitted in the half-open interval of one window from `from`. */
  ghost function AdmittedIn<K>(b: Bounds, requests: seq<Request<K>>, key: K, from: real): nat {
    Admitted(KeyVisits(b, requests, key), from, b.span)
  }

  lemma RequestIsVisit<K>(b: Bounds, windows: Windows<K>, r: Request<K>, key: K)
    requires b.Accepted()
    ensures VisitStep(Lookup(windows, key),
                      Visit(r.now, r.key == key && Decide(b, Live(windows, r.now, b.span), r.key, r.now).Admit?),
                      Lookup(AfterRequest(b, windows, r.key, r.now), key), b.limit, b.span)
  {
  }

  lemma {:induction false} RunIsKeyHistory<K>(b: Bounds, requests: seq<Request<K>>, key: K)
    requires b.Accepted() && ClockOrdered(requests)
    ensures KeyHistory(KeyWindows(b, requests, key), KeyVisits(b, requests, key), b.limit, b.span)
    ensures KeyWindows(b, requests, key)[|requests|] == Lookup(RunWindows(b, requests), key)
    ensures forall i :: 0 <= i < |requests| ==> KeyVisits(b, requests, key)[i].now == requests[i].now
  {
    if |requests| > 0 {
      RunIsKeyHistory(b, requests[..|requests| - 1], key);
      var init, last := requests[..|requests| - 1], requests[|requests| - 1];
      RequestIsVisit(b, RunWindows(b, init), last, key);
      hide Decide, Live, AfterRequest, Lookup, VisitStep, KeyHistory;
      HistoryGrows(KeyWindows(b, init, key), KeyVisits(b, init, key), Lookup(RunWindows(b, requests), key),
                   Visit(last.now, last.key == key && AdmitsNext(b, init, last)), b.limit, b.span);
    }
  }

  lemma RateBound<K>(b: Bounds, requests: seq<Request<K>>, key: K, from: real)
    requires b.Accepted() && ClockOrdered(requests)
    ensures AdmittedIn(b, requests, key, from) <= 2 * b.limit - 1
  {
    RunIsKeyHistory(b, requests, key);
    SlidingIntervalBound(KeyWindows(b, requests, key), KeyVisits(b, requests, key), b.limit, b.span, from);
  }

  // Whether the bound is met: one request opens the window at time 0, its other
  // limit - 1 requests arrive half a window later, and a full window follows.
  ghost function Burst<K>(key: K, now: real, n: nat): seq<Request<K>> {
    seq(n, _ => Request(key, now))
  }

  lemma RunOneMore<K>(b: Bounds, init: seq<Request<K>>, r: Request<K>, from: real)
    ensures RunWindows(b, init + [r]) == AfterRequest(b, RunWindows(b, init), r.key, r.now)
    ensures AdmittedIn(b, init + [r], r.key, from) ==
            AdmittedIn(b, init, r.key, from) + if AdmitsNext(b, init, r) && from <= r.now < from + b.span then 1 else 0
  {
    var all := init + [r];
    assert all[..|all| - 1] == init;
    var vs := KeyVisits(b, all, r.key);
    assert vs[..|vs| - 1] == KeyVisits(b, init, r.key);
  }

  ghost predicate RoomFor<K>(b: Bounds, live: Windows<K>, key: K, n: nat) {
    if key in live then live[key].count + n <= b.limit else n <= b.limit && |live| < b.maxKeys
  }

  ghost function ChargedTimes<K>(live: Windows<K>, key: K, now: real, n: nat): Windows<K> {
    if n == 0 then live else Charged(ChargedTimes(live, key, now, n - 1), key, now)
  }

  lemma {:induction false} ChargedTimesCount<K>(b: Bounds, live: Windows<K>, key: K, now: real, n: nat)
    requires b.Accepted()
    requires forall k :: k in live ==> !Expired(live[k], now, b.span)
    ensures var after := ChargedTimes(live, key, now, n);
            && Live(after, now, b.span) == after
            && (key in live ==> key in after && after[key].count == live[key].count + n)
            && (key !in live && n > 0 ==> key in after && after[key].count == n)
            && (key !in live && n == 0 ==> after == live)
            && (forall k :: k in after <==> k in live || (k == key && n > 0))
            && (forall k :: k in after && k != key ==> after[k] == live[k])
            && (key in after ==> after[key].start == if key in live then live[key].start else now)
  {
    if n > 0 {
      ChargedTimesCount(b, live, key, now, n - 1);
    }
  }

  lemma ChargeOnce<K>(b: Bounds, live: Windows<K>, key: K, now: real, n: nat)
    requires b.Accepted() && n > 0 && RoomFor(b, live, key, n)
    requires forall k :: k in live ==> !Expired(live[k], now, b.span)
    ensures RoomFor(b, live, key, n - 1)
    ensures Decide(b, ChargedTimes(live, key, now, n - 1), key, now).Admit?
    ensures Charged(ChargedTimes(live, key, now, n - 1), key, now) == ChargedTimes(live, key, now, n)
    ensures Live(ChargedTimes(live, key, now, n), now, b.span) == ChargedTimes(live, key, now, n)
  {
    ChargedTimesCount(b, live, key, now, n - 1);
    ChargedTimesCount(b, live, key, now, n);
    hide Live, Charged;
  }

  // `n` requests of one key at one time after `before` are all admitted.
  ghost predicate BurstCounts<K>(b: Bounds, before: seq<Request<K>>, key: K, now: real, n: nat, from: real) {
    && AdmittedIn(b, before + Burst(key, now, n), key, from) == AdmittedIn(b, before, key, from) + n
    && Live(RunWindows(b, before + Burst(key, now, n)), now, b.span)
       == ChargedTimes(Live(RunWindows(b, before), now, b.span), key, now, n)
  }

  // There is room for the burst when it begins.
  ghost predicate BurstFits<K>(b: Bounds, before: seq<Request<K>>, key: K, now: real, n: nat, from: real) {
    b.Accepted() && from <= now < from + b.span && RoomFor(b, Live(RunWindows(b, before), now, b.span), key, n)
  }

  lemma BurstNone<K>(b: Bounds, before: seq<Request<K>>, key: K, now: real, from: real)
    ensures BurstCounts(b, before, key, now, 0, from)
  {
    assert before + Burst(key, now, 0) == before;
    hide AdmittedIn, Live, RunWindows;
  }

  lemma BurstStep<K>(b: Bounds, before: seq<Request<K>>, key: K, now: real, n: nat, from: real)
    requires n > 0 && BurstFits(b, before, key, now, n, from)
    ensures BurstFits(b, before, key, now, n - 1, from)
    ensures BurstCounts(b, before, key, now, n - 1, from) ==> BurstCounts(b, before, key, now, n, from)
  {
    ChargeOnce(b, Live(RunWindows(b, before), now, b.span), key, now, n);
    BurstOneMore(before, key, now, n);
    RunOneMore(b, before + Burst(key, now, n - 1), Request(key, now), from);
    hide RunWindows, AdmittedIn, Live, RoomFor, ChargedTimes, Charged, Decide, Burst;
  }

  lemma {:induction false} BurstAdmitted<K>(b: Bounds, before: seq<Request<K>>, key: K, now: real, n: nat, from: real)
    requires BurstFits(b, before, key, now, n, from)
    ensures BurstCounts(b, before, key, now, n, from)
  {
    hide BurstFits, BurstCounts;
    if n == 0 {
      BurstNone(b, before, key, now, from);
    } else {
      BurstStep(b, before, key, now, n, from);
      BurstAdmitted(b, before, key, now, n - 1, from);
    }
  }

  lemma BurstOneMore<K>(before: seq<Request<K>>, key: K, now: real, n: nat)
    requires n > 0
    ensures before + Burst(key, now, n) == before + Burst(key, now, n - 1) + [Request(key, now)]
  {
  }

  lemma FirstRequest<K>(b: Bounds, key: K, from: real)
    requires b.Accepted() && 0.0 < from < b.span
    ensures RunWindows(b, [Request(key, 0.0)]) == map[key := Window(0.0, 1)]
    ensures AdmittedIn(b, [Request(key, 0.0)], key, from) == 0
    ensures Live(RunWindows(b, [Request(key, 0.0)]), from, b.span) == map[key := Window(0.0, 1)]
  {
    var none: seq<Request<K>> := [];
    assert none + [Request(key, 0.0)] == [Request(key, 0.0)];
    RunOneMore(b, none, Request(key, 0.0), from);
    assert Live(RunWindows(b, none), 0.0, b.span) == map[];
  }

  ghost predicate OnlyKey<K>(windows: Windows<K>, key: K) {
    key in windows && forall k :: k in windows ==> k == key
  }

  lemma SecondBurst<K>(b: Bounds, key: K, from: real)
    requires b.Accepted() && 0.0 < from < b.span
    ensures var second := [Request(key, 0.0)] + Burst(key, from, b.limit - 1);
            && AdmittedIn(b, second, key, from) == b.limit - 1
            && var live := Live(RunWindows(b, second), from, b.span);
               OnlyKey(live, key) && live[key].start == 0.0
  {
    hide RunWindows, AdmittedIn, Live, ChargedTimes;
    var first := [Request(key, 0.0)];
    var oneKey := map[key := Window(0.0, 1)];
    FirstRequest(b, key, from);
    BurstAdmitted(b, first, key, from, b.limit - 1, from);
    ChargedTimesCount(b, oneKey, key, from, b.limit - 1);
    ChargedOneKey(key, from, b.limit - 1);
  }

  lemma {:induction false} ChargedOneKey<K>(key: K, now: real, n: nat)
    ensures ChargedTimes(map[key := Window(0.0, 1)], key, now, n) == map[key := Window(0.0, n + 1)]
  {
    if n > 0 {
      ChargedOneKey(key, now, n - 1);
    }
  }

  lemma RateBoundIsTight<K>(b: Bounds, key: K) returns (requests: seq<Request<K>>, from: real)
    requires b.Accepted()
    ensures ClockOrdered(requests) && forall i :: 0 <= i < |requests| ==> requests[i].key == key
    ensures AdmittedIn(b, requests, key, from) == 2 * b.limit - 1
  {
    hide RunWindows, AdmittedIn, Live, OnlyKey;
    from := b.span / 2.0;
    var second := [Request(key, 0.0)] + Burst(key, from, b.limit - 1);
    SecondBurst(b, key, from);
    FullBurst(b, second, key, from);
    requests := second + Burst(key, b.span, b.limit);
  }

  lemma FullBurst<K>(b: Bounds, before: seq<Request<K>>, key: K, from: real)
    requires b.Accepted() && 0.0 < from < b.span
    requires var live := Live(RunWindows(b, before), from, b.span);
             OnlyKey(live, key) && live[key].start == 0.0
    ensures AdmittedIn(b, before + Burst(key, b.span, b.limit), key, from) ==
            AdmittedIn(b, before, key, from) + b.limit
  {
    NothingLeft(b, before, key, from);
    BurstAdmitted(b, before, key, b.span, b.limit, from);
  }

  lemma NothingLeft<K>(b: Bounds, requests: seq<Request<K>>, key: K, now: real)
    requires b.Accepted() && now < b.span
    requires var live := Live(RunWindows(b, requests), now, b.span);
             OnlyKey(live, key) && live[key].start == 0.0
    ensures Live(RunWindows(b, requests), b.span, b.span) == map[]
  {
    var all := RunWindows(b, requests);
    forall k | k in all ensures Expired(all[k], b.span, b.span) {
      if !Expired(all[k], now, b.span) {
        assert k in Live(all, now, b.span);
      }
    }
  }

  /** A denied caller that waits out `retryAfter`, with no other call in between, is admitted. */
  lemma RetryAfterSuffices<K>(b: Bounds, requests: seq<Request<K>>, denied: Request<K>, retry: Request<K>)
    requires b.Accepted() && ClockOrdered(requests) && ClockOrdered(requests + [denied]) && retry.key == denied.key
    requires !AdmitsNext(b, requests, denied)
    requires var verdict := Decide(b, Live(RunWindows(b, requests), denied.now, b.span), denied.key, denied.now);
             retry.now >= denied.now + verdict.retryAfter as real
    ensures AdmitsNext(b, requests + [denied], retry)
  {
    var live := Live(RunWindows(b, requests), denied.now, b.span);
    RunOneMore(b, requests, denied, 0.0);
    assert RunWindows(b, requests + [denied]) == live;
    var after := Live(live, retry.now, b.span);
    if denied.key !in live {
      forall k | k in live ensures k !in after {
        StartedBefore(b, requests, denied, k);
      }
      assert after == map[];
    } else {
      assert denied.key !in after;
      KeysBounded(b, requests);
      SubsetSize(live.Keys, RunWindows(b, requests).Keys);
      SubsetSize(after.Keys, live.Keys - {denied.key});
    }
  }

  lemma StartedBefore<K>(b: Bounds, requests: seq<Request<K>>, next: Request<K>, key: K)
    requires b.Accepted() && ClockOrdered(requests) && ClockOrdered(requests + [next])
    requires key in RunWindows(b, requests)
    ensures RunWindows(b, requests)[key].start <= next.now
  {
    RunIsKeyHistory(b, requests, key);
    AdmittedWithinAllowance(KeyWindows(b, requests, key), KeyVisits(b, requests, key), b.limit, b.span, 0.0);
    var n := |requests|;
    assert (requests + [next])[n - 1].now <= (requests + [next])[n].now;
  }

  lemma {:induction false} KeysBounded<K>(b: Bounds, requests: seq<Request<K>>)
    requires b.Accepted()
    ensures |RunWindows(b, requests)| <= b.maxKeys
  {
    if |requests| > 0 {
      var init, last := requests[..|requests| - 1], requests[|requests| - 1];
      KeysBounded(b, init);
      SubsetSize(Live(RunWindows(b, init), last.now, b.span).Keys, RunWindows(b, init).Keys);
    }
  }
}
