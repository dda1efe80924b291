// The depth-bounded traversal of outgoing edges (src/folio_lattice/service.py).
module Traversal {
  import opened Common
  import opened Tables
  import opened BreadthFirst
  import opened GraphSearch

  datatype Hop = Hop(edge: Edge, depth: nat)

  function Hops(edges: seq<Edge>, depth: nat): (r: seq<Hop>)
    ensures |r| == |edges| && forall i :: 0 <= i < |r| ==> r[i] == Hop(edges[i], depth)
  {
    seq(|edges|, i requires 0 <= i < |edges| => Hop(edges[i], depth))
  }

  /** The visits before the first one at `depth` or deeper. */
  ghost function Below(order: seq<Visit>, depth: nat): (r: seq<Visit>)
    ensures r <= order
    ensures forall v :: v in r ==> v.depth < depth
    ensures |r| < |order| ==> order[|r|].depth >= depth
  {
    if order == [] || order[0].depth >= depth then [] else [order[0]] + Below(order[1..], depth)
  }

  /** All hops out of the visited artifacts, in visiting order. */
  ghost function Emission(db: Db, tenant: string, actor: string, order: seq<Visit>): seq<Hop> {
    if order == [] then []
    else
      var last := order[|order| - 1];
      Emission(db, tenant, actor, order[..|order| - 1])
      + Hops(OutEdges(db, tenant, actor, last.id, db.edges), last.depth + 1)
  }

  /** The traversal without its limit. */
  ghost function FullTraversal(db: Db, tenant: string, actor: string, start: ArtifactId, maxDepth: nat): seq<Hop>
    requires Visible(db, tenant, start, actor, Read)
  {
    Emission(db, tenant, actor, Below(Bfs(Outgoing(db, tenant, actor), start), maxDepth))
  }

  lemma {:induction false} EmissionGrows(db: Db, tenant: string, actor: string, a: seq<Visit>, b: seq<Visit>)
    requires a <= b
    ensures Emission(db, tenant, actor, a) <= Emission(db, tenant, actor, b)
    decreases |b|
  {
    if |a| < |b| {
      EmissionGrows(db, tenant, actor, a, b[..|b| - 1]);
    } else {
      assert a == b;
    }
  }

  // The variables of the traversal.
  datatype Work = Work(seen: set<ArtifactId>, queue: seq<Visit>, results: seq<Hop>)

  /** One row: it is a result, and its target is queued when new. */
  function AddHop(w: Work, e: Edge, depth: nat): Work {
    Work(w.seen + {e.target},
         if e.target in w.seen then w.queue else w.queue + [Visit(e.target, depth)],
         w.results + [Hop(e, depth)])
  }

  function AddHops(w: Work, rows: seq<Edge>, depth: nat, bound: nat): Work
    decreases |rows|
  {
    if rows == [] || |w.results| >= bound then w else AddHops(AddHop(w, rows[0], depth), rows[1..], depth, bound)
  }

  lemma AddHopsStep(w: Work, rows: seq<Edge>, j: nat, depth: nat, bound: nat)
    requires j < |rows| && |w.results| < bound
    ensures var next := AddHop(w, rows[j], depth);
            && AddHops(w, rows[j..], depth, bound) == AddHops(next, rows[j + 1..], depth, bound)
            && (|next.results| >= bound ==> AddHops(next, rows[j + 1..], depth, bound) == next)
  {
    assert rows[j..][1..] == rows[j + 1..];
  }

  /** The inner `for row in rows` loop, which breaks off at the limit. */
  method RowLoop(rows: seq<Edge>, depth: nat, seen: set<ArtifactId>, queue: seq<Visit>, results: seq<Hop>, bound: nat)
    returns (seen': set<ArtifactId>, queue': seq<Visit>, results': seq<Hop>)
    requires |results| < bound
    ensures Work(seen', queue', results') == AddHops(Work(seen, queue, results), rows, depth, bound)
  {
    seen', queue', results' := seen, queue, results;
    for j := 0 to |rows|
      invariant |results'| < bound
      invariant AddHops(Work(seen', queue', results'), rows[j..], depth, bound)
                == AddHops(Work(seen, queue, results), rows, depth, bound)
    {
      ghost var next := AddHop(Work(seen', queue', results'), rows[j], depth);
      AddHopsStep(Work(seen', queue', results'), rows, j, depth, bound);
      hide AddHops;
      results' := results' + [Hop(rows[j], depth)];
      if rows[j].target !in seen' {
        seen' := seen' + {rows[j].target};
        queue' := queue' + [Visit(rows[j].target, depth)];
      }
      assert seen' == next.seen;
      if |results'| >= bound {
        return;
      }
    }
  }

  // `seen` and `queue` as the discoveries after `order`, of which `start` many were there before.
  ghost predicate Follows(w: Work, before: Work, order: seq<Visit>, start: nat) {
    && start <= |order|
    && w.seen == Elements(Ids(order))
    && w.queue == before.queue + order[start..]
  }

  lemma AddHopFollows(w: Work, before: Work, order: seq<Visit>, start: nat, e: Edge, depth: nat)
    requires Follows(w, before, order, start)
    ensures var next := if Visited(order, e.target) then order else order + [Visit(e.target, depth)];
            Follows(AddHop(w, e, depth), before, next, start)
  {
    SeenIsVisited(order, e.target);
    var next := order + [Visit(e.target, depth)];
    assert Ids(next) == Ids(order) + [e.target];
    assert Elements(Ids(next)) == Elements(Ids(order)) + {e.target};
    assert w.seen + {e.target} == if e.target in w.seen then w.seen else Elements(Ids(next));
  }

  lemma {:induction false} AddHopsFollow(w: Work, before: Work, order: seq<Visit>, start: nat, rows: seq<Edge>,
                                         depth: nat, bound: nat)
    requires Follows(w, before, order, start) && |w.results| < bound
    ensures var after := AddHops(w, rows, depth, bound);
            && after.results == Bounded(w.results + Hops(rows, depth), bound)
            && (|after.results| < bound ==> Follows(after, before, AppendNew(order, Targets(rows), depth), start))
    decreases |rows|
  {
    if rows == [] {
      assert w.results + Hops(rows, depth) == w.results;
    } else {
      var one := AddHop(w, rows[0], depth);
      var next := if Visited(order, rows[0].target) then order else order + [Visit(rows[0].target, depth)];
      AddHopFollows(w, before, order, start, rows[0], depth);
      hide Follows, Visited;
      assert w.results + Hops(rows, depth) == one.results + Hops(rows[1..], depth);
      assert Targets(rows)[1..] == Targets(rows[1..]);
      if |one.results| < bound {
        AddHopsFollow(one, before, next, start, rows[1..], depth, bound);
      }
    }
  }

  // The search has expanded `order[..head]`, all of it above the depth bound.
  ghost predicate Working(g: Graph, start: ArtifactId, maxDepth: nat, order: seq<Visit>, head: nat) {
    && SearchInv(g, start, order, head)
    && start in g
    && BfsFrom(g, order, head) == Bfs(g, start)
    && forall i :: 0 <= i < head ==> order[i].depth < maxDepth
  }

  // A visit at the depth bound was met: the rest of the queue is only dropped.
  ghost predicate Dropping(g: Graph, start: ArtifactId, maxDepth: nat, order: seq<Visit>, head: nat) {
    && head <= |order| && Orderly(g, order)
    && forall i :: head <= i < |order| ==> order[i].depth >= maxDepth
  }

  lemma WorkingStarts(g: Graph, start: ArtifactId, maxDepth: nat)
    requires Closed(g) && start in g
    ensures Working(g, start, maxDepth, [Visit(start, 0)], 0)
  {
    StartInv(g, start);
  }

  lemma WorkingStops(g: Graph, start: ArtifactId, maxDepth: nat, order: seq<Visit>, head: nat)
    requires Working(g, start, maxDepth, order, head)
    requires head < |order| ==> order[head].depth >= maxDepth
    ensures Dropping(g, start, maxDepth, order, head)
    ensures Below(Bfs(g, start), maxDepth) == order[..head]
  {
    hide Exact, Expanded, Closed;
    var all := Bfs(g, start);
    OrderIsPrefix(g, order, head);
    assert all[..head] == order[..head];
  }

  lemma PrefixBelow(all: seq<Visit>, order: seq<Visit>, k: nat, maxDepth: nat)
    requires order <= all && k <= |order| && forall i :: 0 <= i < k ==> order[i].depth < maxDepth
    ensures order[..k] <= Below(all, maxDepth)
  {
  }

  lemma WorkingExpands(g: Graph, start: ArtifactId, maxDepth: nat, order: seq<Visit>, head: nat)
    requires Working(g, start, maxDepth, order, head) && head < |order| && order[head].depth < maxDepth
    ensures order[head].id in g
    ensures var after := AppendNew(order, g[order[head].id], order[head].depth + 1);
            && Working(g, start, maxDepth, after, head + 1)
            && order <= after <= Bfs(g, start)
  {
    var after := AppendNew(order, g[order[head].id], order[head].depth + 1);
    AppendNewFacts(g, order, g[order[head].id], order[head].depth + 1);
    ExpandKeepsInv(g, start, order, head);
    OrderIsPrefix(g, after, head + 1);
  }

  lemma EmissionOne(db: Db, tenant: string, actor: string, order: seq<Visit>, v: Visit)
    ensures Emission(db, tenant, actor, order + [v])
            == Emission(db, tenant, actor, order) + Hops(OutEdges(db, tenant, actor, v.id, db.edges), v.depth + 1)
  {
    assert (order + [v])[..|order|] == order;
  }

  // One call of `traverse`, and the ghost state of its loop.
  datatype Query = Query(db: Db, tenant: string, actor: string, start: ArtifactId, maxDepth: nat, bound: nat)

  datatype Progress = Progress(order: seq<Visit>, head: nat, dropping: bool)

  ghost predicate Answerable(q: Query) {
    Visible(q.db, q.tenant, q.start, q.actor, Read) && q.bound >= 1
  }

  ghost function GraphOf(q: Query): (g: Graph)
    ensures Closed(g)
  {
    Outgoing(q.db, q.tenant, q.actor)
  }

  ghost function FullOf(q: Query): seq<Hop>
    requires Answerable(q)
  {
    FullTraversal(q.db, q.tenant, q.actor, q.start, q.maxDepth)
  }

  ghost function EmissionOf(q: Query, order: seq<Visit>): seq<Hop> {
    Emission(q.db, q.tenant, q.actor, order)
  }

  // The results so far are those of `order[..head]`, or all of them.
  ghost predicate TraverseInv(q: Query, p: Progress, results: seq<Hop>)
    requires Answerable(q)
  {
    && p.head <= |p.order|
    && if p.dropping then
         Dropping(GraphOf(q), q.start, q.maxDepth, p.order, p.head) && results == FullOf(q)
       else
         Working(GraphOf(q), q.start, q.maxDepth, p.order, p.head) && results == EmissionOf(q, p.order[..p.head])
  }

  // The variables of the loop, or its final result once the limit is reached.
  ghost predicate LoopInv(q: Query, p: Progress, w: Work)
    requires Answerable(q)
  {
    if |w.results| < q.bound then
      TraverseInv(q, p, w.results) && w.seen == Elements(Ids(p.order)) && w.queue == p.order[p.head..]
    else w.results == Bounded(FullOf(q), q.bound)
  }

  lemma Starts(q: Query)
    requires Answerable(q)
    ensures LoopInv(q, Progress([Visit(q.start, 0)], 0, false), Work({q.start}, [Visit(q.start, 0)], []))
  {
    WorkingStarts(GraphOf(q), q.start, q.maxDepth);
  }

  lemma Stops(q: Query, p: Progress, results: seq<Hop>)
    requires Answerable(q) && TraverseInv(q, p, results)
    requires p.head < |p.order| ==> p.order[p.head].depth >= q.maxDepth
    ensures TraverseInv(q, p.(dropping := true), results)
  {
    if !p.dropping {
      WorkingStops(GraphOf(q), q.start, q.maxDepth, p.order, p.head);
    }
  }

  lemma Ends(q: Query, p: Progress, w: Work)
    requires Answerable(q) && LoopInv(q, p, w)
    requires w.queue == [] || |w.results| >= q.bound
    ensures w.results == Bounded(FullOf(q), q.bound)
  {
    if |w.results| < q.bound {
      hide Working;
      Stops(q, p, w.results);
    }
  }

  ghost function Rows(q: Query, id: ArtifactId): seq<Edge> {
    OutEdges(q.db, q.tenant, q.actor, id, q.db.edges)
  }

  ghost function Grown(q: Query, p: Progress): seq<Visit>
    requires p.head < |p.order|
  {
    AppendNew(p.order, Targets(Rows(q, p.order[p.head].id)), p.order[p.head].depth + 1)
  }

  ghost function NewHops(q: Query, visit: Visit): seq<Hop> {
    Hops(Rows(q, visit.id), visit.depth + 1)
  }

  lemma GraphRows(q: Query, id: ArtifactId)
    requires id in GraphOf(q)
    ensures GraphOf(q)[id] == Targets(Rows(q, id))
  {
  }

  lemma ExpandsOrder(q: Query, p: Progress)
    requires Answerable(q) && p.head < |p.order| && p.order[p.head].depth < q.maxDepth
    requires Working(GraphOf(q), q.start, q.maxDepth, p.order, p.head)
    ensures p.order <= Grown(q, p)
    ensures Working(GraphOf(q), q.start, q.maxDepth, Grown(q, p), p.head + 1)
    ensures Grown(q, p) <= Bfs(GraphOf(q), q.start)
  {
    hide SearchInv, Visible, AppendNew, Bfs, BfsFrom, Rows, Targets, Outgoing, GraphOf;
    WorkingExpands(GraphOf(q), q.start, q.maxDepth, p.order, p.head);
    hide Working;
    GraphRows(q, p.order[p.head].id);
  }

  lemma DoneIsBelow(q: Query, p: Progress)
    requires Answerable(q) && p.head < |p.order| && p.order[p.head].depth < q.maxDepth
    requires Working(GraphOf(q), q.start, q.maxDepth, Grown(q, p), p.head + 1)
    requires p.order <= Grown(q, p) <= Bfs(GraphOf(q), q.start)
    ensures Grown(q, p)[..p.head + 1] == p.order[..p.head] + [p.order[p.head]]
    ensures p.order[..p.head] + [p.order[p.head]] <= Below(Bfs(GraphOf(q), q.start), q.maxDepth)
  {
    hide SearchInv, AppendNew, Bfs, Below, BfsFrom;
    PrefixBelow(Bfs(GraphOf(q), q.start), Grown(q, p), p.head + 1, q.maxDepth);
    hide Working, Grown;
    TakeOneMore(p.order, Grown(q, p), p.head);
  }

  lemma TakeOneMore(order: seq<Visit>, after: seq<Visit>, k: nat)
    requires order <= after && k < |order|
    ensures after[..k + 1] == order[..k] + [order[k]]
  {
  }

  lemma Expands(q: Query, p: Progress, results: seq<Hop>)
    requires Answerable(q) && TraverseInv(q, p, results)
    requires !p.dropping && p.head < |p.order| && p.order[p.head].depth < q.maxDepth
    ensures TraverseInv(q, Progress(Grown(q, p), p.head + 1, false), results + NewHops(q, p.order[p.head]))
    ensures results + NewHops(q, p.order[p.head]) <= FullOf(q)
    ensures p.order <= Grown(q, p)
  {
    ExpandsOrder(q, p);
    DoneIsBelow(q, p);
    var done, visit := p.order[..p.head], p.order[p.head];
    EmissionOne(q.db, q.tenant, q.actor, done, visit);
    EmissionGrows(q.db, q.tenant, q.actor, done + [visit], Below(Bfs(GraphOf(q), q.start), q.maxDepth));
    hide Working, Grown, Emission, OutEdges, Bfs, Below;
  }

  /** One turn of the outer loop. */
  ghost function Turn(q: Query, w: Work): Work
    requires w.queue != []
  {
    var visit, rest := w.queue[0], w.(queue := w.queue[1..]);
    if visit.depth >= q.maxDepth then rest else AddHops(rest, Rows(q, visit.id), visit.depth + 1, q.bound)
  }

  lemma TurnKeepsInv(q: Query, p: Progress, w: Work) returns (p': Progress)
    requires Answerable(q) && LoopInv(q, p, w) && |w.results| < q.bound && w.queue != []
    ensures LoopInv(q, p', Turn(q, w))
    ensures p'.head == p.head + 1 <= |GraphOf(q)|
  {
    InvIsOrderly(q, p, w);
    hide LoopInv, Turn, GraphOf;
    if w.queue[0].depth >= q.maxDepth {
      DroppingTurn(q, p, w);
      p' := Progress(p.order, p.head + 1, true);
    } else {
      ExpandingTurn(q, p, w);
      p' := Progress(Grown(q, p), p.head + 1, false);
    }
  }

  lemma InvIsOrderly(q: Query, p: Progress, w: Work)
    requires Answerable(q) && LoopInv(q, p, w) && |w.results| < q.bound && w.queue != []
    ensures p.head < |p.order| <= |GraphOf(q)|
  {
    OrderlySize(GraphOf(q), p.order);
  }

  lemma DroppingTurn(q: Query, p: Progress, w: Work)
    requires Answerable(q) && LoopInv(q, p, w) && |w.results| < q.bound && w.queue != []
    requires w.queue[0].depth >= q.maxDepth
    ensures LoopInv(q, Progress(p.order, p.head + 1, true), Turn(q, w))
  {
    hide Working, Elements, Ids;
    Stops(q, p, w.results);
  }

  lemma ExpandingTurn(q: Query, p: Progress, w: Work)
    requires Answerable(q) && LoopInv(q, p, w) && |w.results| < q.bound && w.queue != []
    requires w.queue[0].depth < q.maxDepth
    ensures p.head < |p.order| && LoopInv(q, Progress(Grown(q, p), p.head + 1, false), Turn(q, w))
  {
    hide Working, Elements, Ids, FullOf, EmissionOf, Rows, AppendNew, AddHops;
    var visit := p.order[p.head];
    var rest := w.(queue := w.queue[1..]);
    Expands(q, p, w.results);
    assert Follows(rest, rest, p.order, |p.order|);
    AddHopsFollow(rest, rest, p.order, |p.order|, Rows(q, visit.id), visit.depth + 1, q.bound);
    QueueAfter(p.order, Grown(q, p), p.head);
  }

  lemma QueueAfter(order: seq<Visit>, after: seq<Visit>, head: nat)
    requires order <= after && head < |order|
    ensures after[head + 1..] == order[head..][1..] + after[|order|..]
  {
  }

  method Traverse(db: Db, tenant: string, start: ArtifactId, maxDepth: int, limit: int, actor: string)
    returns (r: Result<seq<Hop>, Error>)
    ensures if maxDepth < 0 || maxDepth > MAX_TRAVERSE_DEPTH then r == Err(DepthOutOfRange)
            else
              match Authorize(db, tenant, start, actor, Read)
              case Err(e) => r == Err(e)
              case Ok(_) => r == Ok(Bounded(FullTraversal(db, tenant, actor, start, maxDepth),
                                            Clamp(1, limit, MAX_TRAVERSE_RESULTS)))
  {
    if maxDepth < 0 || maxDepth > MAX_TRAVERSE_DEPTH {
      return Err(DepthOutOfRange);
    }
    var bound := Clamp(1, limit, MAX_TRAVERSE_RESULTS);
    var access := Authorize(db, tenant, start, actor, Read);
    if access.Err? {
      return Err(access.error);
    }
    var results := RunQueue(db, tenant, start, maxDepth, bound, actor);
    r := Ok(results);
  }

  /** The outer loop over the queue. */
  method RunQueue(db: Db, tenant: string, start: ArtifactId, maxDepth: nat, bound: nat, actor: string)
    returns (results: seq<Hop>)
    requires Visible(db, tenant, start, actor, Read) && bound >= 1
    ensures results == Bounded(FullTraversal(db, tenant, actor, start, maxDepth), bound)
  {
    hide FullTraversal, Visible, OutEdges, AddHops, TraverseInv, Outgoing;
    ghost var q := Query(db, tenant, actor, start, maxDepth, bound);
    ghost var p := Progress([Visit(start, 0)], 0, false);
    var seen := {start};
    var queue := [Visit(start, 0)];
    results := [];
    Starts(q);
    while queue != [] && |results| < bound
      invariant LoopInv(q, p, Work(seen, queue, results))
      decreases |results| < bound, |GraphOf(q)| - p.head
    {
      hide LoopInv, FullOf, GraphOf;
      p := TurnKeepsInv(q, p, Work(seen, queue, results));
      var visit := queue[0];
      queue := queue[1..];
      if visit.depth >= maxDepth {
        continue;
      }
      var rows := OutEdges(db, tenant, actor, visit.id, db.edges);
      seen, queue, results := RowLoop(rows, visit.depth + 1, seen, queue, results, bound);
    }
    Ends(q, p, Work(seen, queue, results));
  }

  // ----------------------------------------------------- what is returned

  lemma {:induction false} BelowDeeper(order: seq<Visit>, depth: nat, deeper: nat)
    requires depth <= deeper
    ensures Below(order, depth) <= Below(order, deeper)
    decreases |order|
  {
    if order != [] && order[0].depth < depth {
      BelowDeeper(order[1..], depth, deeper);
    }
  }

  /** For a fixed limit, a deeper traversal only adds hops at the end. */
  lemma DeeperExtends(db: Db, tenant: string, actor: string, start: ArtifactId, maxDepth: nat, deeper: nat, limit: nat)
    requires Visible(db, tenant, start, actor, Read) && maxDepth <= deeper
    ensures Bounded(FullTraversal(db, tenant, actor, start, maxDepth), limit)
            <= Bounded(FullTraversal(db, tenant, actor, start, deeper), limit)
  {
    var all := Bfs(Outgoing(db, tenant, actor), start);
    BelowDeeper(all, maxDepth, deeper);
    EmissionGrows(db, tenant, actor, Below(all, maxDepth), Below(all, deeper));
  }

  /** A way along the tenant's edges, from source to target each, that the actor may read all along. */
  ghost predicate ReadableRoute(db: Db, tenant: string, actor: string, p: seq<ArtifactId>) {
    && p != []
    && (forall i :: 0 <= i < |p| ==> Visible(db, tenant, p[i], actor, Read))
    && (forall i :: 0 < i < |p| ==> Points(db, tenant, p[i - 1], p[i]))
  }

  ghost predicate Points(db: Db, tenant: string, a: ArtifactId, b: ArtifactId) {
    exists e :: e in db.edges && e.tenant == tenant && e.source == a && e.target == b
  }

  ghost predicate Leads(db: Db, tenant: string, actor: string, start: ArtifactId, p: seq<ArtifactId>, id: ArtifactId) {
    ReadableRoute(db, tenant, actor, p) && p[0] == start && p[|p| - 1] == id
  }

  lemma WalksAreRoutes(db: Db, tenant: string, actor: string, p: seq<ArtifactId>)
    ensures Walk(Outgoing(db, tenant, actor), p) <==> ReadableRoute(db, tenant, actor, p)
  {
    var g := Outgoing(db, tenant, actor);
    forall a, b | a in g ensures b in g[a] <==> Visible(db, tenant, b, actor, Read) && Points(db, tenant, a, b) {
      var rows := OutEdges(db, tenant, actor, a, db.edges);
      if Visible(db, tenant, b, actor, Read) && Points(db, tenant, a, b) {
        var e :| e in db.edges && e.tenant == tenant && e.source == a && e.target == b;
        assert e in rows;
        var i :| 0 <= i < |rows| && rows[i] == e;
        assert Targets(rows)[i] == b;
      }
    }
    hide Visible, Outgoing, Points;
  }

  /**
   * An edge of the tenant with a readable target, whose source is reached from the start
   * by readable edges in depth - 1 steps and in no fewer, above the depth bound.
   */
  ghost predicate DueHop(db: Db, tenant: string, actor: string, start: ArtifactId, maxDepth: nat, h: Hop) {
    && h.edge in db.edges && h.edge.tenant == tenant
    && Visible(db, tenant, h.edge.target, actor, Read)
    && 1 <= h.depth <= maxDepth
    && (exists p :: Leads(db, tenant, actor, start, p, h.edge.source) && |p| == h.depth)
    && (forall p :: Leads(db, tenant, actor, start, p, h.edge.source) ==> |p| >= h.depth)
  }

  lemma DistanceIsRoute(db: Db, tenant: string, actor: string, start: ArtifactId, id: ArtifactId, d: nat)
    ensures Distance(Outgoing(db, tenant, actor), start, id, d) <==>
              && (exists p :: Leads(db, tenant, actor, start, p, id) && |p| == d + 1)
              && (forall p :: Leads(db, tenant, actor, start, p, id) ==> |p| >= d + 1)
  {
    var g := Outgoing(db, tenant, actor);
    hide Outgoing, Walk, ReadableRoute;
    forall p ensures WalkTo(g, start, p, id) <==> Leads(db, tenant, actor, start, p, id) {
      WalksAreRoutes(db, tenant, actor, p);
    }
  }

  lemma {:induction false} EmissionMembers(db: Db, tenant: string, actor: string, order: seq<Visit>, h: Hop)
    ensures h in Emission(db, tenant, actor, order) <==>
              && h.edge in db.edges && IsOutEdge(db, tenant, actor, h.edge.source, h.edge)
              && h.depth >= 1 && Visit(h.edge.source, h.depth - 1) in order
  {
    if order != [] {
      var init, last := order[..|order| - 1], order[|order| - 1];
      EmissionMembers(db, tenant, actor, init, h);
      var rows := OutEdges(db, tenant, actor, last.id, db.edges);
      assert h in Hops(rows, last.depth + 1) <==> h.edge in rows && h.depth == last.depth + 1 by {
        if h.edge in rows && h.depth == last.depth + 1 {
          var i :| 0 <= i < |rows| && rows[i] == h.edge;
          assert Hops(rows, last.depth + 1)[i] == h;
        }
      }
      assert order == init + [last];
    }
  }

  /** Without its limit the traversal returns exactly the due hops. */
  lemma TraversalIsComplete(db: Db, tenant: string, actor: string, start: ArtifactId, maxDepth: nat, h: Hop)
    requires Visible(db, tenant, start, actor, Read)
    ensures h in FullTraversal(db, tenant, actor, start, maxDepth) <==> DueHop(db, tenant, actor, start, maxDepth, h)
  {
    var g := Outgoing(db, tenant, actor);
    hide Distance, Below, Emission, Bfs, Outgoing, Leads, Visible;
    EmissionMembers(db, tenant, actor, Below(Bfs(g, start), maxDepth), h);
    if h.depth >= 1 {
      VisitIffDistance(g, start, maxDepth, h.edge.source, h.depth - 1);
      DistanceIsRoute(db, tenant, actor, start, h.edge.source, h.depth - 1);
    }
  }

  lemma VisitIffDistance(g: Graph, start: ArtifactId, maxDepth: nat, id: ArtifactId, d: nat)
    requires Closed(g) && start in g
    ensures Visit(id, d) in Below(Bfs(g, start), maxDepth) <==> d < maxDepth && Distance(g, start, id, d)
  {
    if d < maxDepth && Distance(g, start, id, d) {
      DistanceIsVisited(g, start, id, d);
      hide Distance, Bfs, Below;
      VisitedBelow(g, start, maxDepth, Visit(id, d));
    }
    if Visit(id, d) in Below(Bfs(g, start), maxDepth) {
      BfsIsDistanceOrder(g, start);
      hide Distance, Orderly, Walk, Bfs;
      var i :| 0 <= i < |Below(Bfs(g, start), maxDepth)| && Below(Bfs(g, start), maxDepth)[i] == Visit(id, d);
      assert Bfs(g, start)[i] == Visit(id, d);
    }
  }

  lemma DistanceIsVisited(g: Graph, start: ArtifactId, id: ArtifactId, d: nat)
    requires Closed(g) && start in g && Distance(g, start, id, d)
    ensures Visit(id, d) in Bfs(g, start)
  {
    var all := Bfs(g, start);
    BfsIsDistanceOrder(g, start);
    var p :| WalkTo(g, start, p, id) && |p| == d + 1;
    assert Visited(all, id);
    var i :| 0 <= i < |all| && all[i].id == id;
    hide Walk;
    DistanceIsUnique(g, start, id, d, all[i].depth);
    assert all[i] == Visit(id, d);
  }

  lemma VisitedBelow(g: Graph, start: ArtifactId, maxDepth: nat, v: Visit)
    requires Closed(g) && start in g && v in Bfs(g, start) && v.depth < maxDepth
    ensures v in Below(Bfs(g, start), maxDepth)
  {
    BfsIsDistanceOrder(g, start);
    hide Exact, Orderly, Walk, Bfs;
    BelowHas(Bfs(g, start), maxDepth, v);
  }

  lemma BelowHas(all: seq<Visit>, maxDepth: nat, v: Visit)
    requires forall i, j :: 0 <= i < j < |all| ==> all[i].depth <= all[j].depth
    requires v in all && v.depth < maxDepth
    ensures v in Below(all, maxDepth)
  {
    var i :| 0 <= i < |all| && all[i] == v;
    assert Below(all, maxDepth)[i] == v;
  }

  ghost predicate NearestFirst(hops: seq<Hop>) {
    forall i, j :: 0 <= i < j < |hops| ==> hops[i].depth <= hops[j].depth
  }

  lemma {:induction false} EmissionByDepth(db: Db, tenant: string, actor: string, order: seq<Visit>)
    requires forall i, j :: 0 <= i < j < |order| ==> order[i].depth <= order[j].depth
    ensures NearestFirst(Emission(db, tenant, actor, order))
    ensures forall h :: h in Emission(db, tenant, actor, order) ==> order != [] && h.depth <= order[|order| - 1].depth + 1
  {
    if order != [] {
      var init, last := order[..|order| - 1], order[|order| - 1];
      EmissionByDepth(db, tenant, actor, init);
      assert init != [] ==> init[|init| - 1].depth <= last.depth;
      MoreHops(Emission(db, tenant, actor, init), OutEdges(db, tenant, actor, last.id, db.edges), last.depth + 1);
    }
  }

  lemma MoreHops(before: seq<Hop>, rows: seq<Edge>, depth: nat)
    requires NearestFirst(before) && forall h :: h in before ==> h.depth <= depth
    ensures NearestFirst(before + Hops(rows, depth)) && forall h :: h in before + Hops(rows, depth) ==> h.depth <= depth
  {
    var all := before + Hops(rows, depth);
    forall i, j | 0 <= i < j < |all| ensures all[i].depth <= all[j].depth {
      if i < |before| {
        assert before[i] in before;
      }
    }
  }

  /** Hops are reported nearest first, so a limit cuts off the farthest. */
  lemma HopsNearestFirst(db: Db, tenant: string, actor: string, start: ArtifactId, maxDepth: nat)
    requires Visible(db, tenant, start, actor, Read)
    ensures NearestFirst(FullTraversal(db, tenant, actor, start, maxDepth))
  {
    BfsIsDistanceOrder(Outgoing(db, tenant, actor), start);
    var order := Below(Bfs(Outgoing(db, tenant, actor), start), maxDepth);
    hide Exact, Bfs, Outgoing, Below, Emission, Visible;
    EmissionByDepth(db, tenant, actor, order);
  }

  ghost predicate DistinctEdges(edges: seq<Edge>) {
    forall i, j :: 0 <= i < j < |edges| ==> edges[i].id != edges[j].id
  }

  lemma {:induction false} OutEdgesDistinct(db: Db, tenant: string, actor: string, id: ArtifactId, edges: seq<Edge>)
    requires DistinctEdges(edges)
    ensures DistinctEdges(OutEdges(db, tenant, actor, id, edges))
  {
    if edges != [] {
      OutEdgesDistinct(db, tenant, actor, id, edges[1..]);
      var rest := OutEdges(db, tenant, actor, id, edges[1..]);
      forall j | 0 <= j < |rest| ensures rest[j].id != edges[0].id {
        assert rest[j] in rest;
        var i :| 0 <= i < |edges[1..]| && edges[1..][i] == rest[j];
        assert edges[i + 1] == rest[j];
      }
    }
  }

  lemma {:induction false} EmissionDistinct(db: Db, tenant: string, actor: string, order: seq<Visit>)
    requires DistinctEdges(db.edges)
    requires forall i, j :: 0 <= i < j < |order| ==> order[i].id != order[j].id
    ensures Distinct(Emission(db, tenant, actor, order))
  {
    if order != [] {
      var init, last := order[..|order| - 1], order[|order| - 1];
      EmissionDistinct(db, tenant, actor, init);
      var rows := OutEdges(db, tenant, actor, last.id, db.edges);
      OutEdgesDistinct(db, tenant, actor, last.id, db.edges);
      var before, hops := Emission(db, tenant, actor, init), Hops(rows, last.depth + 1);
      forall i, j | 0 <= i < |before| && 0 <= j < |hops| ensures before[i] != hops[j] {
        EmissionMembers(db, tenant, actor, init, before[i]);
        assert before[i] in before && rows[j] in rows;
      }
    }
  }

  /** No edge is returned twice. */
  lemma NoHopTwice(db: Db, tenant: string, actor: string, start: ArtifactId, maxDepth: nat)
    requires Visible(db, tenant, start, actor, Read) && DistinctEdges(db.edges)
    ensures Distinct(FullTraversal(db, tenant, actor, start, maxDepth))
  {
    BfsIsDistanceOrder(Outgoing(db, tenant, actor), start);
    EmissionDistinct(db, tenant, actor, Below(Bfs(Outgoing(db, tenant, actor), start), maxDepth));
  }
}
