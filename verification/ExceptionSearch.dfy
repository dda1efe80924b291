// The search of a possibly cyclic graph of chained exceptions for one of a given
// type (src/folio_lattice/external_mcp.py).
module ExceptionSearch {
  import opened Common

  const MAX_NODES := 256

  // `exceptions` are the members of an exception group, [] for any other error.
  datatype Error = Error(matches: bool, exceptions: seq<nat>, cause: Option<nat>, context: Option<nat>)

  function Linked(e: Error): seq<nat> {
    e.exceptions
    + (if e.cause.Some? then [e.cause.value] else [])
    + (if e.context.Some? then [e.context.value] else [])
  }

  // What an error is chained to: the members of a group, its cause and its context.
  ghost predicate ChainedTo(e: Error, n: nat) {
    (exists i :: 0 <= i < |e.exceptions| && e.exceptions[i] == n) || e.cause == Some(n) || e.context == Some(n)
  }

  /** The search goes on with exactly those. */
  lemma LinkedIsChained(e: Error, n: nat)
    ensures n in Linked(e) <==> ChainedTo(e, n)
  {
  }

  ghost predicate Closed(errors: map<nat, Error>) {
    forall e, n :: e in errors && n in Linked(errors[e]) ==> n in errors
  }

  ghost predicate Chain(errors: map<nat, Error>, path: seq<nat>) {
    && path != []
    && (forall e :: e in path ==> e in errors)
    && (forall i :: 0 < i < |path| ==> ChainedTo(errors[path[i - 1]], path[i]))
  }

  ghost predicate Reachable(errors: map<nat, Error>, root: nat, e: nat) {
    exists path :: Chain(errors, path) && path[0] == root && path[|path| - 1] == e
  }

  ghost function ReachableSet(errors: map<nat, Error>, root: nat): set<nat> {
    set e | e in errors && Reachable(errors, root, e)
  }

  ghost function Unmatched(errors: map<nat, Error>, root: nat): set<nat> {
    set e | e in ReachableSet(errors, root) && !errors[e].matches
  }

  lemma ReachableStep(errors: map<nat, Error>, root: nat, e: nat, next: nat)
    requires Closed(errors) && Reachable(errors, root, e) && e in errors && next in Linked(errors[e])
    ensures Reachable(errors, root, next)
  {
    var path :| Chain(errors, path) && path[0] == root && path[|path| - 1] == e;
    var longer := path + [next];
    assert Chain(errors, longer) && longer[0] == root && longer[|longer| - 1] == next;
  }

  lemma {:induction false} ClosedSetHoldsAll(errors: map<nat, Error>, seen: set<nat>, path: seq<nat>)
    requires Chain(errors, path) && path[0] in seen
    requires forall e, n :: e in seen && e in errors && n in Linked(errors[e]) ==> n in seen
    ensures path[|path| - 1] in seen
    decreases |path|
  {
    if |path| > 1 {
      assert path[1] in Linked(errors[path[0]]);
      assert forall i :: 0 <= i < |path[1..]| ==> path[1..][i] == path[i + 1];
      ClosedSetHoldsAll(errors, seen, path[1..]);
    }
  }

  // Everything linked from a visited error is visited or pending.
  ghost predicate Explored(errors: map<nat, Error>, seen: set<nat>, pending: set<nat>) {
    && seen <= errors.Keys
    && (forall e :: e in seen ==> !errors[e].matches)
    && (forall e, n :: e in seen && n in Linked(errors[e]) ==> n in seen || n in pending)
  }

  // A set of errors that is closed under links and holds the root.
  ghost predicate Encloses(errors: map<nat, Error>, root: nat, all: set<nat>) {
    && root in all
    && all <= errors.Keys
    && (forall e :: e in all ==> Elements(Linked(errors[e])) <= all)
  }

  ghost predicate SearchInv(errors: map<nat, Error>, root: nat, all: set<nat>, seen: set<nat>, pending: seq<nat>) {
    && seen + Elements(pending) <= all
    && root in seen + Elements(pending)
    && Explored(errors, seen, Elements(pending))
  }

  lemma SkipKeepsInv(errors: map<nat, Error>, root: nat, all: set<nat>, seen: set<nat>, rest: seq<nat>, current: nat)
    requires SearchInv(errors, root, all, seen, rest + [current]) && current in seen
    ensures SearchInv(errors, root, all, seen, rest)
  {
    assert Elements(rest + [current]) == Elements(rest) + {current};
  }

  lemma VisitKeepsInv(errors: map<nat, Error>, root: nat, all: set<nat>, seen: set<nat>, rest: seq<nat>, current: nat)
    requires Encloses(errors, root, all) && SearchInv(errors, root, all, seen, rest + [current])
    requires current in errors && !errors[current].matches
    ensures SearchInv(errors, root, all, seen + {current}, rest + Linked(errors[current]))
  {
    var linked := Linked(errors[current]);
    assert Elements(rest + [current]) == Elements(rest) + {current};
    assert Elements(rest + linked) == Elements(rest) + Elements(linked);
  }

  lemma ExploredAll(errors: map<nat, Error>, root: nat, seen: set<nat>)
    requires Explored(errors, seen, {}) && root in seen
    ensures forall e :: e in ReachableSet(errors, root) ==> !errors[e].matches
  {
    forall e | e in ReachableSet(errors, root) ensures e in seen {
      var path :| Chain(errors, path) && path[0] == root && path[|path| - 1] == e;
      ClosedSetHoldsAll(errors, seen, path);
    }
  }

  lemma LinkedReachable(errors: map<nat, Error>, root: nat, e: nat)
    requires Closed(errors) && e in ReachableSet(errors, root)
    ensures Elements(Linked(errors[e])) <= ReachableSet(errors, root)
  {
    forall n | n in Linked(errors[e]) ensures n in ReachableSet(errors, root) {
      ReachableStep(errors, root, e, n);
    }
  }

  lemma RootReachable(errors: map<nat, Error>, root: nat)
    requires root in errors
    ensures root in ReachableSet(errors, root)
  {
    assert Chain(errors, [root]);
  }

  lemma SubsetOfSameSize(a: set<nat>, b: set<nat>)
    requires a <= b && |b| <= |a|
    ensures a == b
  {
    SubsetSize(a, b);
    assert |b - a| == |b| - |a| == 0;
  }

  lemma SearchStarts(errors: map<nat, Error>, root: nat, all: set<nat>)
    requires Encloses(errors, root, all)
    ensures SearchInv(errors, root, all, {}, [root])
  {
  }

  lemma PoppedIsEnclosed(errors: map<nat, Error>, root: nat, all: set<nat>, seen: set<nat>, pending: seq<nat>)
    requires Encloses(errors, root, all) && SearchInv(errors, root, all, seen, pending) && pending != []
    ensures pending[|pending| - 1] in all && pending[|pending| - 1] in errors && seen <= all
    ensures pending == pending[..|pending| - 1] + [pending[|pending| - 1]]
  {
    assert pending[|pending| - 1] in Elements(pending);
  }

  lemma SearchEnds(errors: map<nat, Error>, root: nat, all: set<nat>, seen: set<nat>, pending: seq<nat>)
    requires SearchInv(errors, root, all, seen, pending)
    requires pending == [] || |all| <= MAX_NODES <= |seen|
    ensures Explored(errors, seen, {}) && root in seen
  {
    if pending == [] {
      assert Elements(pending) == {};
    } else {
      SubsetOfSameSize(seen, all);
    }
  }

  lemma LinkedKnown(errors: map<nat, Error>, e: nat)
    requires Closed(errors) && e in errors
    ensures forall i :: 0 <= i < |Linked(errors[e])| ==> Linked(errors[e])[i] in errors
  {
    assert forall i :: 0 <= i < |Linked(errors[e])| ==> Linked(errors[e])[i] in Linked(errors[e]);
  }

  lemma VisitedUnmatched(errors: map<nat, Error>, root: nat, all: set<nat>, seen: set<nat>, pending: seq<nat>)
    requires SearchInv(errors, root, all, seen, pending)
    ensures seen <= all && seen <= errors.Keys && forall e :: e in seen ==> !errors[e].matches
  {
  }

  predicate Known(errors: map<nat, Error>, pending: seq<nat>) {
    forall i :: 0 <= i < |pending| ==> pending[i] in errors
  }

  /** What is found from a stack of pending errors, the last one first. */
  function FoundFrom(errors: map<nat, Error>, pending: seq<nat>, seen: set<nat>): bool
    requires Closed(errors) && |seen| <= MAX_NODES && Known(errors, pending)
    decreases MAX_NODES - |seen|, |pending|
  {
    if pending == [] || |seen| >= MAX_NODES then false
    else
      var current, rest := pending[|pending| - 1], pending[..|pending| - 1];
      if current in seen then FoundFrom(errors, rest, seen)
      else if errors[current].matches then true
      else
        assert |seen + {current}| == |seen| + 1;
        FoundFrom(errors, rest + Linked(errors[current]), seen + {current})
  }

  // One turn of the loop.
  lemma FoundAfterTurn(errors: map<nat, Error>, pending: seq<nat>, seen: set<nat>)
    requires Closed(errors) && |seen| <= MAX_NODES && Known(errors, pending)
    ensures pending == [] || |seen| >= MAX_NODES ==> !FoundFrom(errors, pending, seen)
    ensures pending != [] && |seen| < MAX_NODES ==>
              var current, rest := pending[|pending| - 1], pending[..|pending| - 1];
              && current in errors && Known(errors, rest)
              && (current in seen ==> FoundFrom(errors, pending, seen) == FoundFrom(errors, rest, seen))
              && (current !in seen && errors[current].matches ==> FoundFrom(errors, pending, seen))
              && (current !in seen && !errors[current].matches ==>
                    && |seen + {current}| == |seen| + 1
                    && Known(errors, rest + Linked(errors[current]))
                    && FoundFrom(errors, pending, seen)
                       == FoundFrom(errors, rest + Linked(errors[current]), seen + {current}))
  {
    if pending != [] {
      LinkedKnown(errors, pending[|pending| - 1]);
    }
    hide Linked, Closed;
  }

  /** The worklist loop, for any set of errors that encloses the search. */
  method Search(errors: map<nat, Error>, root: nat, ghost all: set<nat>)
    returns (found: bool, ghost seen: set<nat>)
    requires Encloses(errors, root, all) && Closed(errors)
    ensures found == FoundFrom(errors, [root], {})
    ensures found ==> exists e :: e in all && errors[e].matches
    ensures !found ==> seen <= all && (forall e :: e in seen ==> !errors[e].matches)
    ensures !found ==> |seen| == MAX_NODES || (Explored(errors, seen, {}) && root in seen)
    ensures !found && |all| <= MAX_NODES ==> Explored(errors, seen, {}) && root in seen
  {
    var pending := [root];
    var visited: set<nat> := {};
    SearchStarts(errors, root, all);
    hide SearchInv, Encloses, Explored, Elements, Linked, Closed, FoundFrom, Known;
    while pending != []
      invariant |visited| <= MAX_NODES
      invariant SearchInv(errors, root, all, visited, pending)
      invariant Known(errors, pending)
      invariant FoundFrom(errors, pending, visited) == FoundFrom(errors, [root], {})
      decreases MAX_NODES - |visited|, |pending|
    {
      PoppedIsEnclosed(errors, root, all, visited, pending);
      VisitedUnmatched(errors, root, all, visited, pending);
      FoundAfterTurn(errors, pending, visited);
      if |visited| >= MAX_NODES {
        if |all| <= MAX_NODES {
          SearchEnds(errors, root, all, visited, pending);
        }
        return false, visited;
      }
      var current, rest := pending[|pending| - 1], pending[..|pending| - 1];
      if current in visited {
        SkipKeepsInv(errors, root, all, visited, rest, current);
        pending := rest;
      } else if errors[current].matches {
        return true, visited;
      } else {
        VisitKeepsInv(errors, root, all, visited, rest, current);
        visited := visited + {current};
        pending := rest + Linked(errors[current]);
      }
    }
    SearchEnds(errors, root, all, visited, pending);
    VisitedUnmatched(errors, root, all, visited, pending);
    FoundAfterTurn(errors, pending, visited);
    return false, visited;
  }

  /**
   * True only if a chained error matches. False only if none does, or if the budget
   * ran out on MAX_NODES different chained errors that do not match.
   */
  method Contains(errors: map<nat, Error>, root: nat) returns (found: bool)
    requires Closed(errors) && root in errors
    ensures found == FoundFrom(errors, [root], {})
    ensures found ==> exists e :: e in ReachableSet(errors, root) && errors[e].matches
    ensures !found && |ReachableSet(errors, root)| <= MAX_NODES ==>
              forall e :: e in ReachableSet(errors, root) ==> !errors[e].matches
    ensures !found ==>
              || (forall e :: e in ReachableSet(errors, root) ==> !errors[e].matches)
              || |Unmatched(errors, root)| >= MAX_NODES
  {
    RootReachable(errors, root);
    forall e | e in ReachableSet(errors, root)
      ensures Elements(Linked(errors[e])) <= ReachableSet(errors, root)
    {
      LinkedReachable(errors, root, e);
    }
    ghost var seen;
    found, seen := Search(errors, root, ReachableSet(errors, root));
    if !found {
      if Explored(errors, seen, {}) && root in seen {
        ExploredAll(errors, root, seen);
      } else {
        SubsetSize(seen, Unmatched(errors, root));
      }
    }
  }

  // `n` errors, each caused by the next, and the last by one that matches.
  function LongChain(n: nat): map<nat, Error> {
    var ids := FirstOnes(n + 1);
    map i | i in ids :: Error(i == n, [], if i < n then Some(i + 1) else None, None)
  }

  function FirstOnes(k: nat): (ones: set<nat>)
    ensures |ones| == k && forall i: nat :: i in ones <==> i < k
  {
    if k == 0 then {} else FirstOnes(k - 1) + {k - 1}
  }

  lemma LongChainLinks(n: nat)
    ensures Closed(LongChain(n))
    ensures forall i: nat :: i in LongChain(n) <==> i <= n
    ensures forall i: nat :: i < n ==> Linked(LongChain(n)[i]) == [i + 1] && !LongChain(n)[i].matches
    ensures LongChain(n)[n].matches
  {
    hide FirstOnes;
  }

  lemma OneMore(k: nat)
    ensures FirstOnes(k + 1) == FirstOnes(k) + {k}
  {
  }

  lemma NextInChain(n: nat, k: nat)
    requires k < MAX_NODES <= n
    ensures Closed(LongChain(n)) && Known(LongChain(n), [k]) && Known(LongChain(n), [k + 1])
    ensures FoundFrom(LongChain(n), [k], FirstOnes(k)) == FoundFrom(LongChain(n), [k + 1], FirstOnes(k + 1))
  {
    LongChainLinks(n);
    hide FoundFrom, Closed, LongChain, Linked;
    hide FirstOnes;
    FoundAfterTurn(LongChain(n), [k], FirstOnes(k));
    OneMore(k);
    assert [k][..0] + Linked(LongChain(n)[k]) == [k + 1];
  }

  lemma {:induction false} NothingFoundAlong(n: nat, k: nat)
    requires k <= MAX_NODES <= n
    ensures Closed(LongChain(n)) && Known(LongChain(n), [k]) && !FoundFrom(LongChain(n), [k], FirstOnes(k))
    decreases MAX_NODES - k
  {
    LongChainLinks(n);
    hide Linked, Closed, FoundFrom, LongChain, FirstOnes;
    if k < MAX_NODES {
      NextInChain(n, k);
      NothingFoundAlong(n, k + 1);
    } else {
      FoundAfterTurn(LongChain(n), [k], FirstOnes(k));
    }
  }

  lemma {:induction false} ChainReaches(n: nat, k: nat)
    requires k <= n
    ensures k in ReachableSet(LongChain(n), 0)
  {
    LongChainLinks(n);
    if k == 0 {
      RootReachable(LongChain(n), 0);
    } else {
      ChainReaches(n, k - 1);
      hide LongChain, Reachable, Linked, Closed;
      assert k in Linked(LongChain(n)[k - 1]);
      ReachableStep(LongChain(n), 0, k - 1, k);
    }
  }

  /** With MAX_NODES or more errors that do not match, one that does can be missed. */
  lemma LongChainIsMissed(n: nat)
    requires n >= MAX_NODES
    ensures Closed(LongChain(n)) && Known(LongChain(n), [0]) && !FoundFrom(LongChain(n), [0], {})
    ensures exists e :: e in ReachableSet(LongChain(n), 0) && LongChain(n)[e].matches
    ensures |Unmatched(LongChain(n), 0)| == n
  {
    LongChainLinks(n);
    NothingFoundAlong(n, 0);
    assert FirstOnes(0) == {};
    ChainReaches(n, n);
    hide LongChain, Reachable, Linked, Closed, FoundFrom;
    forall k: nat | k < n ensures k in ReachableSet(LongChain(n), 0) {
      ChainReaches(n, k);
    }
    assert Unmatched(LongChain(n), 0) == FirstOnes(n);
  }

  // -------------------------------------------------- when it is right

  ghost predicate SomeMatches(errors: map<nat, Error>, all: set<nat>)
    requires all <= errors.Keys
  {
    exists e :: e in all && errors[e].matches
  }

  // The search finds a match exactly when one is chained to the root.
  ghost predicate Right(errors: map<nat, Error>, root: nat)
    requires Closed(errors) && root in errors
  {
    FoundFrom(errors, [root], {}) <==> SomeMatches(errors, ReachableSet(errors, root))
  }

  // What has been looked at when the answer is no.
  ghost predicate LookedAt(errors: map<nat, Error>, root: nat, all: set<nat>, seen: set<nat>)
    requires all <= errors.Keys
  {
    && seen <= all && !SomeMatches(errors, seen)
    && (|seen| == MAX_NODES || (Explored(errors, seen, {}) && root in seen))
  }

  // What an answer says, from any point of the search on.
  ghost predicate AnswerMeans(errors: map<nat, Error>, root: nat, all: set<nat>, found: bool)
    requires all <= errors.Keys
  {
    if found then SomeMatches(errors, all) else exists seen: set<nat> :: LookedAt(errors, root, all, seen)
  }

  lemma NothingLeft(errors: map<nat, Error>, root: nat, all: set<nat>, seen: set<nat>)
    requires SearchInv(errors, root, all, seen, []) && all <= errors.Keys
    ensures AnswerMeans(errors, root, all, false)
  {
    assert Elements<nat>([]) == {};
    VisitedUnmatched(errors, root, all, seen, []);
    assert LookedAt(errors, root, all, seen);
  }

  lemma BudgetSpent(errors: map<nat, Error>, root: nat, all: set<nat>, seen: set<nat>, pending: seq<nat>)
    requires SearchInv(errors, root, all, seen, pending) && |seen| == MAX_NODES && all <= errors.Keys
    ensures AnswerMeans(errors, root, all, false)
  {
    VisitedUnmatched(errors, root, all, seen, pending);
    hide Explored;
    assert LookedAt(errors, root, all, seen);
  }

  lemma {:induction false} FoundFromMeans(errors: map<nat, Error>, root: nat, all: set<nat>, pending: seq<nat>, seen: set<nat>)
    requires Closed(errors) && Encloses(errors, root, all) && |seen| <= MAX_NODES && Known(errors, pending)
    requires SearchInv(errors, root, all, seen, pending)
    ensures AnswerMeans(errors, root, all, FoundFrom(errors, pending, seen))
    decreases MAX_NODES - |seen|, |pending|
  {
    FoundAfterTurn(errors, pending, seen);
    assert all <= errors.Keys;
    hide Closed, Encloses, SearchInv, FoundFrom, Linked, Known;
    if pending == [] {
      NothingLeft(errors, root, all, seen);
    } else if |seen| == MAX_NODES {
      BudgetSpent(errors, root, all, seen, pending);
    } else {
      var current, rest := pending[|pending| - 1], pending[..|pending| - 1];
      PoppedIsEnclosed(errors, root, all, seen, pending);
      if current in seen {
        hide AnswerMeans;
        SkipKeepsInv(errors, root, all, seen, rest, current);
        FoundFromMeans(errors, root, all, rest, seen);
      } else if !errors[current].matches {
        hide AnswerMeans;
        VisitKeepsInv(errors, root, all, seen, rest, current);
        FoundFromMeans(errors, root, all, rest + Linked(errors[current]), seen + {current});
      }
    }
  }

  lemma RightBelowThreshold(errors: map<nat, Error>, root: nat)
    requires Closed(errors) && root in errors && |Unmatched(errors, root)| < MAX_NODES
    ensures Right(errors, root)
  {
    var all := ReachableSet(errors, root);
    RootReachable(errors, root);
    forall e | e in all ensures Elements(Linked(errors[e])) <= all {
      LinkedReachable(errors, root, e);
    }
    SearchStarts(errors, root, all);
    FoundFromMeans(errors, root, all, [root], {});
    if !FoundFrom(errors, [root], {}) {
      var seen: set<nat> :| LookedAt(errors, root, all, seen);
      hide FoundFrom, Explored, Linked, ReachableSet, SearchInv, Encloses;
      SubsetSize(seen, Unmatched(errors, root));
      ExploredAll(errors, root, seen);
    }
  }

  /** Exactly up to how many other errors every search is right. */
  lemma RightIffFewer(n: nat)
    ensures (forall errors: map<nat, Error>, root: nat ::
               Closed(errors) && root in errors && |Unmatched(errors, root)| == n ==> Right(errors, root))
            <==> n < MAX_NODES
  {
    hide Closed, Unmatched, FoundFrom, ReachableSet, LongChain;
    if n < MAX_NODES {
      forall errors: map<nat, Error>, root: nat | Closed(errors) && root in errors && |Unmatched(errors, root)| == n
        ensures Right(errors, root)
      {
        RightBelowThreshold(errors, root);
      }
    } else {
      LongChainIsMissed(n);
      LongChainLinks(n);
      assert !Right(LongChain(n), 0);
    }
  }
}
