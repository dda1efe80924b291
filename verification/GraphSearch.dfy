// The three graph searches of the service (src/folio_lattice/service.py): a bounded
// component, root-to-node paths, and a depth-bounded traversal, all over the
// artifacts the actor may read.
module GraphSearch {
  import opened Common
  import opened Tables
  import opened BreadthFirst

  const MAX_GRAPH_COMPONENT_NODES := 500
  const MAX_TRAVERSE_DEPTH := 10
  const MAX_TRAVERSE_RESULTS := 500

  // ------------------------------------------------------ rows of one query

  // The other end of an edge at `current`, if it is another artifact.
  function OtherEnd(e: Edge, current: ArtifactId): Option<ArtifactId> {
    if e.source == current && e.target != current then Some(e.target)
    else if e.target == current && e.source != current then Some(e.source)
    else None
  }

  predicate IsNeighbour(db: Db, tenant: string, actor: string, current: ArtifactId, e: Edge) {
    && e.tenant == tenant
    && OtherEnd(e, current).Some?
    && Visible(db, tenant, OtherEnd(e, current).value, actor, Read)
  }

  /** The rows for `current`, edges taken in either direction. */
  function Neighbours(db: Db, tenant: string, actor: string, current: ArtifactId, edges: seq<Edge>): (ids: seq<ArtifactId>)
    ensures forall id :: id in ids ==> Visible(db, tenant, id, actor, Read)
    ensures forall id :: id in ids <==>
              exists e :: e in edges && IsNeighbour(db, tenant, actor, current, e) && OtherEnd(e, current).value == id
  {
    if edges == [] then []
    else
      var rest := Neighbours(db, tenant, actor, current, edges[1..]);
      if IsNeighbour(db, tenant, actor, current, edges[0])
      then [OtherEnd(edges[0], current).value] + rest
      else rest
  }

  // The same query joined with the current version of every row.
  predicate HasCurrentVersion(db: Db, id: ArtifactId) {
    && id in db.artifacts
    && var current := db.artifacts[id].current;
       && current.Some? && current.value in db.versions
       && db.versions[current.value].tenant == db.artifacts[id].tenant
  }

  function WithVersion(db: Db, ids: seq<ArtifactId>): (r: seq<ArtifactId>)
    ensures forall id :: id in r <==> id in ids && HasCurrentVersion(db, id)
  {
    if ids == [] then []
    else (if HasCurrentVersion(db, ids[0]) then [ids[0]] else []) + WithVersion(db, ids[1..])
  }

  predicate IsOutEdge(db: Db, tenant: string, actor: string, current: ArtifactId, e: Edge) {
    e.tenant == tenant && e.source == current && Visible(db, tenant, e.target, actor, Read)
  }

  /** The rows of one step of `traverse`: edges out of `current` to a readable artifact. */
  function OutEdges(db: Db, tenant: string, actor: string, current: ArtifactId, edges: seq<Edge>): (r: seq<Edge>)
    ensures forall e :: e in r <==> e in edges && IsOutEdge(db, tenant, actor, current, e)
  {
    if edges == [] then []
    else
      var rest := OutEdges(db, tenant, actor, current, edges[1..]);
      if IsOutEdge(db, tenant, actor, current, edges[0]) then [edges[0]] + rest else rest
  }

  /** The rows come in the order of the edges: those of the earlier edges first. */
  lemma {:induction false} RowsInOrder(db: Db, tenant: string, actor: string, current: ArtifactId,
                                       earlier: seq<Edge>, later: seq<Edge>)
    ensures Neighbours(db, tenant, actor, current, earlier + later)
            == Neighbours(db, tenant, actor, current, earlier) + Neighbours(db, tenant, actor, current, later)
    ensures OutEdges(db, tenant, actor, current, earlier + later)
            == OutEdges(db, tenant, actor, current, earlier) + OutEdges(db, tenant, actor, current, later)
    decreases |earlier|
  {
    if earlier == [] {
      assert earlier + later == later;
    } else {
      assert (earlier + later)[1..] == earlier[1..] + later;
      RowsInOrder(db, tenant, actor, current, earlier[1..], later);
      hide Visible;
    }
  }

  /** One edge of the tenant gives the other artifact it joins, if that may be read; for a traversal it must lead out. */
  lemma RowsOfOneEdge(db: Db, tenant: string, actor: string, current: ArtifactId, e: Edge)
    ensures Neighbours(db, tenant, actor, current, [e]) ==
            if e.tenant != tenant || e.source == e.target then []
            else if e.source == current && Visible(db, tenant, e.target, actor, Read) then [e.target]
            else if e.target == current && Visible(db, tenant, e.source, actor, Read) then [e.source]
            else []
    ensures OutEdges(db, tenant, actor, current, [e]) ==
            if e.tenant == tenant && e.source == current && Visible(db, tenant, e.target, actor, Read) then [e] else []
  {
    assert [e][1..] == [];
    hide Visible;
  }

  function Targets(edges: seq<Edge>): (ids: seq<ArtifactId>)
    ensures |ids| == |edges| && forall i :: 0 <= i < |ids| ==> ids[i] == edges[i].target
    ensures forall id :: id in ids ==> exists e :: e in edges && e.target == id
  {
    var ids := seq(|edges|, i requires 0 <= i < |edges| => edges[i].target);
    assert forall i :: 0 <= i < |ids| ==> edges[i] in edges;
    ids
  }

  // --------------------------------------------------------- readable graphs

  ghost function Undirected(db: Db, tenant: string, actor: string): (g: Graph)
    ensures Closed(g)
    ensures forall id :: id in g <==> Visible(db, tenant, id, actor, Read)
  {
    map id | id in db.artifacts && Visible(db, tenant, id, actor, Read) ::
      Neighbours(db, tenant, actor, id, db.edges)
  }

  ghost function Versioned(db: Db, tenant: string, actor: string): (g: Graph)
    ensures Closed(g)
    ensures forall id :: id in g <==> Visible(db, tenant, id, actor, Read) && HasCurrentVersion(db, id)
  {
    map id | id in db.artifacts && Visible(db, tenant, id, actor, Read) && HasCurrentVersion(db, id) ::
      WithVersion(db, Neighbours(db, tenant, actor, id, db.edges))
  }

  ghost function Outgoing(db: Db, tenant: string, actor: string): (g: Graph)
    ensures Closed(g)
    ensures forall id :: id in g <==> Visible(db, tenant, id, actor, Read)
  {
    map id | id in db.artifacts && Visible(db, tenant, id, actor, Read) ::
      Targets(OutEdges(db, tenant, actor, id, db.edges))
  }

  // --------------------------------------------------------------- component

  // `order` stands for the first discoveries of the search, cut at `bound`.
  ghost predicate CutAt(order: seq<Visit>, full: seq<Visit>, bound: nat) {
    order <= full && |order| <= bound && (|order| < bound ==> order == full)
  }

  /** The visits the inner loop stands for. */
  ghost function VisitRows(order: seq<Visit>, rows: seq<ArtifactId>, depth: nat, bound: nat): (r: seq<Visit>)
    ensures order <= r
    decreases |rows|
  {
    if rows == [] || |order| >= bound then order
    else VisitRows(if Visited(order, rows[0]) then order else order + [Visit(rows[0], depth)], rows[1..], depth, bound)
  }

  lemma {:induction false} VisitRowsCut(g: Graph, order: seq<Visit>, rows: seq<ArtifactId>, depth: nat, bound: nat)
    requires Orderly(g, order) && |order| <= bound && forall w :: w in rows ==> w in g
    ensures CutAt(VisitRows(order, rows, depth, bound), AppendNew(order, rows, depth), bound)
    decreases |rows|
  {
    AppendNewFacts(g, order, rows, depth);
    if rows != [] && |order| < bound {
      VisitRowsCut(g, if Visited(order, rows[0]) then order else order + [Visit(rows[0], depth)], rows[1..], depth, bound);
    }
  }

  // The variables of the component search.
  datatype Found = Found(seen: set<ArtifactId>, ordered: seq<ArtifactId>, queue: seq<ArtifactId>)

  /** What the inner loop makes of them, breaking off at the bound. */
  function AddRows(f: Found, rows: seq<ArtifactId>, bound: nat): Found
    decreases |rows|
  {
    if rows == [] || |f.ordered| >= bound then f
    else if rows[0] in f.seen then AddRows(f, rows[1..], bound)
    else AddRows(Found(f.seen + {rows[0]}, f.ordered + [rows[0]], f.queue + [rows[0]]), rows[1..], bound)
  }

  // `seen` and `ordered` hold the ids of `order`, `queue` those from `head` on.
  ghost predicate Tracks(order: seq<Visit>, head: nat, f: Found) {
    && head <= |order|
    && f.ordered == Ids(order) && f.seen == Elements(f.ordered)
    && f.queue == f.ordered[head..]
  }

  lemma TrackedSize(g: Graph, order: seq<Visit>, head: nat, f: Found)
    requires Orderly(g, order) && Tracks(order, head, f)
    ensures |f.seen| == |f.ordered| == |order|
  {
    DistinctSize(f.ordered);
  }

  lemma TrackNew(order: seq<Visit>, head: nat, f: Found, id: ArtifactId, depth: nat)
    requires Tracks(order, head, f)
    ensures id in f.seen <==> Visited(order, id)
    ensures id !in f.seen ==>
              Tracks(order + [Visit(id, depth)], head, Found(f.seen + {id}, f.ordered + [id], f.queue + [id]))
  {
    SeenIsVisited(order, id);
    if id !in f.seen {
      assert Ids(order + [Visit(id, depth)]) == f.ordered + [id];
      assert Elements(f.ordered + [id]) == f.seen + {id};
    }
  }

  lemma {:induction false} AddRowsTracks(order: seq<Visit>, head: nat, f: Found, rows: seq<ArtifactId>, depth: nat, bound: nat)
    requires Tracks(order, head, f)
    ensures Tracks(VisitRows(order, rows, depth, bound), head, AddRows(f, rows, bound))
    decreases |rows|
  {
    if rows != [] && |order| < bound {
      TrackNew(order, head, f, rows[0], depth);
      hide Visited, Elements;
      if rows[0] in f.seen {
        AddRowsTracks(order, head, f, rows[1..], depth, bound);
      } else {
        AddRowsTracks(order + [Visit(rows[0], depth)], head,
                      Found(f.seen + {rows[0]}, f.ordered + [rows[0]], f.queue + [rows[0]]), rows[1..], depth, bound);
      }
    }
  }

  /** The inner `for row in rows` loop. The search counts `seen`, which is as long as `ordered`. */
  method RowLoop(rows: seq<ArtifactId>, seen: set<ArtifactId>, ordered: seq<ArtifactId>, queue: seq<ArtifactId>, bound: nat)
    returns (seen': set<ArtifactId>, ordered': seq<ArtifactId>, queue': seq<ArtifactId>)
    requires |seen| == |ordered| < bound
    ensures Found(seen', ordered', queue') == AddRows(Found(seen, ordered, queue), rows, bound)
  {
    seen', ordered', queue' := seen, ordered, queue;
    for j := 0 to |rows|
      invariant |seen'| == |ordered'| < bound
      invariant AddRows(Found(seen', ordered', queue'), rows[j..], bound)
                == AddRows(Found(seen, ordered, queue), rows, bound)
    {
      assert rows[j..][1..] == rows[j + 1..];
      if rows[j] !in seen' {
        seen' := seen' + {rows[j]};
        ordered' := ordered' + [rows[j]];
        queue' := queue' + [rows[j]];
        if |seen'| >= bound {
          return;
        }
      }
    }
  }

  ghost predicate ComponentInv(g: Graph, start: ArtifactId, bound: nat, order: seq<Visit>, head: nat) {
    && Closed(g) && start in g && Orderly(g, order)
    && head <= |order| <= bound
    && order <= Bfs(g, start)
    && (|order| < bound ==> BfsFrom(g, order, head) == Bfs(g, start))
  }

  lemma ComponentStep(g: Graph, start: ArtifactId, bound: nat, order: seq<Visit>, head: nat)
    requires ComponentInv(g, start, bound, order, head) && head < |order| < bound
    ensures ComponentInv(g, start, bound, VisitRows(order, g[order[head].id], order[head].depth + 1, bound), head + 1)
    ensures head < |g|
  {
    var rows, depth := g[order[head].id], order[head].depth + 1;
    OrderlySize(g, order);
    AppendNewFacts(g, order, rows, depth);
    VisitRowsCut(g, order, rows, depth, bound);
    OrderIsPrefix(g, AppendNew(order, rows, depth), head + 1);
    hide Visited, AppendNew;
  }

  lemma ComponentTurn(g: Graph, start: ArtifactId, bound: nat, order: seq<Visit>, head: nat, f: Found)
    requires ComponentInv(g, start, bound, order, head) && Tracks(order, head, f) && |f.seen| < bound && f.queue != []
    ensures |f.seen| == |f.ordered|
    ensures head < |order| && head < |g| && f.queue[0] == order[head].id && f.queue[0] in g
    ensures var rows := g[f.queue[0]];
            var order' := VisitRows(order, rows, order[head].depth + 1, bound);
            && ComponentInv(g, start, bound, order', head + 1)
            && Tracks(order', head + 1, AddRows(f.(queue := f.queue[1..]), rows, bound))
  {
    TrackedSize(g, order, head, f);
    ComponentStep(g, start, bound, order, head);
    assert f.ordered[head..][1..] == f.ordered[head + 1..];
    hide ComponentInv, VisitRows;
    AddRowsTracks(order, head + 1, f.(queue := f.queue[1..]), g[order[head].id], order[head].depth + 1, bound);
  }

  lemma ComponentEnds(g: Graph, start: ArtifactId, bound: nat, order: seq<Visit>, head: nat, f: Found)
    requires ComponentInv(g, start, bound, order, head) && Tracks(order, head, f)
    requires |f.seen| >= bound || f.queue == []
    ensures f.ordered == Bounded(Ids(Bfs(g, start)), bound)
  {
    TrackedSize(g, order, head, f);
    PrefixIds(order, Bfs(g, start), bound);
  }

  method ComponentIds(db: Db, tenant: string, start: ArtifactId, limit: int, actor: string)
    returns (r: Result<seq<ArtifactId>, Error>)
    ensures match Authorize(db, tenant, start, actor, Read)
            case Err(e) => r == Err(e)
            case Ok(_) => r == Ok(Bounded(Ids(Bfs(Undirected(db, tenant, actor), start)),
                                          Clamp(1, limit, MAX_GRAPH_COMPONENT_NODES)))
  {
    var access := Authorize(db, tenant, start, actor, Read);
    if access.Err? {
      return Err(access.error);
    }
    var bound := Clamp(1, limit, MAX_GRAPH_COMPONENT_NODES);
    ghost var g := Undirected(db, tenant, actor);
    ghost var order, head := [Visit(start, 0)], 0;
    var seen := {start};
    var ordered := [start];
    var queue := [start];
    OrderIsPrefix(g, order, 0);
    while queue != [] && |seen| < bound
      invariant ComponentInv(g, start, bound, order, head)
      invariant Tracks(order, head, Found(seen, ordered, queue))
      decreases |g| - head
    {
      hide ComponentInv, Tracks, VisitRows, AddRows, Visible;
      ComponentTurn(g, start, bound, order, head, Found(seen, ordered, queue));
      var current := queue[0];
      queue := queue[1..];
      var rows := Neighbours(db, tenant, actor, current, db.edges);
      order := VisitRows(order, rows, order[head].depth + 1, bound);
      head := head + 1;
      seen, ordered, queue := RowLoop(rows, seen, ordered, queue, bound);
    }
    ComponentEnds(g, start, bound, order, head, Found(seen, ordered, queue));
    r := Ok(ordered);
  }

  lemma PrefixIds(order: seq<Visit>, all: seq<Visit>, bound: nat)
    requires order <= all && |order| <= bound && (|order| == bound || order == all)
    ensures Ids(order) == Bounded(Ids(all), bound)
  {
  }

  lemma SeenIsVisited(order: seq<Visit>, id: ArtifactId)
    ensures id in Elements(Ids(order)) <==> Visited(order, id)
  {
    if Visited(order, id) {
      var i :| 0 <= i < |order| && order[i].id == id;
      assert Ids(order)[i] == id;
    }
  }

  // ------------------------------------------------------------------- paths

  // A dict of paths, with its insertion order.
  datatype PathTable = PathTable(order: seq<ArtifactId>, paths: map<ArtifactId, seq<ArtifactId>>)

  ghost predicate PathsFollow(g: Graph, root: ArtifactId, order: seq<Visit>, paths: map<ArtifactId, seq<ArtifactId>>) {
    && (forall id :: id in paths ==> Visited(order, id))
    && (forall i :: 0 <= i < |order| ==>
          var id := order[i].id;
          id in paths && WalkTo(g, root, paths[id], id) && |paths[id]| == order[i].depth + 1)
  }

  ghost predicate TracksPaths(g: Graph, root: ArtifactId, order: seq<Visit>, table: PathTable) {
    Closed(g) && Orderly(g, order) && table.order == Ids(order) && PathsFollow(g, root, order, table.paths)
  }

  function WithPath(table: PathTable, current: ArtifactId, id: ArtifactId): PathTable
    requires current in table.paths
  {
    PathTable(table.order + [id], table.paths[id := table.paths[current] + [id]])
  }

  lemma NewVisit(g: Graph, order: seq<Visit>, id: ArtifactId, depth: nat)
    requires Orderly(g, order) && id in g && !Visited(order, id)
    ensures Orderly(g, order + [Visit(id, depth)]) && Visited(order + [Visit(id, depth)], id)
    ensures Ids(order + [Visit(id, depth)]) == Ids(order) + [id]
    ensures forall x :: Visited(order, x) ==> Visited(order + [Visit(id, depth)], x)
  {
    var next := order + [Visit(id, depth)];
    assert next[|order|].id == id;
    assert forall i :: 0 <= i < |order| ==> next[i] == order[i] && order[i].id != id;
  }

  lemma PathKnown(g: Graph, root: ArtifactId, order: seq<Visit>, paths: map<ArtifactId, seq<ArtifactId>>, id: ArtifactId)
    requires PathsFollow(g, root, order, paths)
    ensures id in paths <==> Visited(order, id)
  {
  }

  // The longer path keeps to the graph, and the other paths stay.
  lemma PathExtended(g: Graph, root: ArtifactId, order: seq<Visit>, paths: map<ArtifactId, seq<ArtifactId>>,
                     at: nat, id: ArtifactId)
    requires Closed(g) && Orderly(g, order) && PathsFollow(g, root, order, paths)
    requires at < |order| && id in g[order[at].id] && id !in paths
    ensures PathsFollow(g, root, order + [Visit(id, order[at].depth + 1)], paths[id := paths[order[at].id] + [id]])
  {
    PathKnown(g, root, order, paths, id);
    NewVisit(g, order, id, order[at].depth + 1);
    var path := paths[order[at].id];
    assert WalkTo(g, root, path, order[at].id) && |path| == order[at].depth + 1;
    assert WalkTo(g, root, path + [id], id);
    hide Walk, Orderly;
  }

  lemma PathAdded(g: Graph, root: ArtifactId, order: seq<Visit>, table: PathTable, at: nat, id: ArtifactId)
    requires TracksPaths(g, root, order, table) && at < |order| && id in g[order[at].id]
    ensures order[at].id in table.paths
    ensures id in table.paths <==> Visited(order, id)
    ensures id !in table.paths ==>
              TracksPaths(g, root, order + [Visit(id, order[at].depth + 1)], WithPath(table, order[at].id, id))
  {
    PathKnown(g, root, order, table.paths, id);
    if id !in table.paths {
      NewVisit(g, order, id, order[at].depth + 1);
      PathExtended(g, root, order, table.paths, at, id);
    }
    PathAt(g, root, order, table, at);
    hide PathsFollow, Visited, Orderly;
  }

  lemma PathAt(g: Graph, root: ArtifactId, order: seq<Visit>, table: PathTable, at: nat)
    requires TracksPaths(g, root, order, table) && at < |order|
    ensures order[at].id in table.paths && order[at].id in g
    ensures |table.order| == |order|
  {
  }

  /** What the inner loop of the path search makes of the table, breaking off at the bound. */
  function PathRows(table: PathTable, rows: seq<ArtifactId>, current: ArtifactId, bound: nat): (r: PathTable)
    requires current in table.paths
    ensures table.order <= r.order
    decreases |rows|
  {
    if rows == [] || |table.order| >= bound then table
    else PathRows(if rows[0] in table.paths then table else WithPath(table, current, rows[0]), rows[1..], current, bound)
  }

  method AddPaths(rows: seq<ArtifactId>, table: PathTable, queue: seq<ArtifactId>, current: ArtifactId, bound: nat)
    returns (table': PathTable, queue': seq<ArtifactId>)
    requires current in table.paths && |table.order| < bound
    ensures table' == PathRows(table, rows, current, bound)
    ensures queue' == queue + table'.order[|table.order|..]
  {
    table', queue' := table, queue;
    for j := 0 to |rows|
      invariant current in table'.paths && table.order <= table'.order && |table'.order| < bound
      invariant PathRows(table', rows[j..], current, bound) == PathRows(table, rows, current, bound)
      invariant queue' == queue + table'.order[|table.order|..]
    {
      assert rows[j..][1..] == rows[j + 1..];
      if rows[j] !in table'.paths {
        table' := WithPath(table', current, rows[j]);
        queue' := queue' + [rows[j]];
        if |table'.order| >= bound {
          return;
        }
      }
    }
    assert rows[|rows|..] == [];
  }

  lemma {:induction false} PathRowsFollow(g: Graph, root: ArtifactId, order: seq<Visit>, table: PathTable,
                                          rows: seq<ArtifactId>, at: nat, bound: nat)
    requires TracksPaths(g, root, order, table) && at < |order| && order[at].id in g && order[at].id in table.paths
    requires forall w :: w in rows ==> w in g[order[at].id]
    ensures TracksPaths(g, root, VisitRows(order, rows, order[at].depth + 1, bound),
                        PathRows(table, rows, order[at].id, bound))
    decreases |rows|
  {
    hide TracksPaths, Visited;
    PathAt(g, root, order, table, at);
    if rows != [] && |order| < bound {
      PathAdded(g, root, order, table, at, rows[0]);
      var next := if Visited(order, rows[0]) then order else order + [Visit(rows[0], order[at].depth + 1)];
      var table' := if rows[0] in table.paths then table else WithPath(table, order[at].id, rows[0]);
      PathRowsFollow(g, root, next, table', rows[1..], at, bound);
    }
  }

  ghost predicate PathSearchInv(g: Graph, root: ArtifactId, bound: nat, order: seq<Visit>, head: nat,
                                table: PathTable, queue: seq<ArtifactId>)
  {
    && ComponentInv(g, root, bound, order, head)
    && TracksPaths(g, root, order, table)
    && queue == table.order[head..]
  }

  lemma PathSearchStart(g: Graph, root: ArtifactId, bound: nat)
    requires Closed(g) && root in g && bound >= 1
    ensures PathSearchInv(g, root, bound, [Visit(root, 0)], 0, PathTable([root], map[root := [root]]), [root])
  {
    OrderIsPrefix(g, [Visit(root, 0)], 0);
    assert Walk(g, [root]);
    assert Visited([Visit(root, 0)], root);
  }

  lemma PathSearchStep(g: Graph, root: ArtifactId, bound: nat, order: seq<Visit>, head: nat,
                       table: PathTable, queue: seq<ArtifactId>)
    returns (order': seq<Visit>)
    requires PathSearchInv(g, root, bound, order, head, table, queue) && queue != [] && |table.order| < bound
    ensures queue[0] in g && queue[0] in table.paths && head < |g|
    ensures var table' := PathRows(table, g[queue[0]], queue[0], bound);
            PathSearchInv(g, root, bound, order', head + 1, table', queue[1..] + table'.order[|table.order|..])
  {
    hide PathsFollow, Visited, PathRows, VisitRows;
    PathAt(g, root, order, table, head);
    var rows, depth := g[order[head].id], order[head].depth + 1;
    order' := VisitRows(order, rows, depth, bound);
    PathRowsFollow(g, root, order, table, rows, head, bound);
    ComponentStep(g, root, bound, order, head);
  }

  ghost predicate ShortestPaths(g: Graph, root: ArtifactId, paths: map<ArtifactId, seq<ArtifactId>>) {
    forall id :: id in paths ==>
      && WalkTo(g, root, paths[id], id)
      && Distance(g, root, id, |paths[id]| - 1)
      && Distinct(paths[id])
  }

  lemma PathsAreShortest(g: Graph, root: ArtifactId, order: seq<Visit>, paths: map<ArtifactId, seq<ArtifactId>>)
    requires Closed(g) && root in g && order <= Bfs(g, root) && PathsFollow(g, root, order, paths)
    ensures ShortestPaths(g, root, paths)
    ensures paths.Keys == Elements(Ids(order))
  {
    forall id ensures id in paths <==> id in Elements(Ids(order)) {
      SeenIsVisited(order, id);
    }
    BfsIsDistanceOrder(g, root);
    forall id | id in paths
      ensures WalkTo(g, root, paths[id], id) && Distance(g, root, id, |paths[id]| - 1) && Distinct(paths[id])
    {
      var i :| 0 <= i < |order| && order[i].id == id;
      assert order[i] == Bfs(g, root)[i];
      ShortestIsSimple(g, root, paths[id], id);
    }
  }

  lemma PathSearchEnds(g: Graph, root: ArtifactId, bound: nat, order: seq<Visit>, head: nat,
                       table: PathTable, queue: seq<ArtifactId>)
    requires PathSearchInv(g, root, bound, order, head, table, queue)
    requires queue == [] || |table.order| >= bound
    ensures Closed(g) && root in g && table.order == Bounded(Ids(Bfs(g, root)), bound)
    ensures table.paths.Keys == Elements(table.order) && ShortestPaths(g, root, table.paths)
  {
    PrefixIds(order, Bfs(g, root), bound);
    PathsAreShortest(g, root, order, table.paths);
    hide PathsFollow, ShortestPaths, Orderly, Elements;
  }

  method ReadableGraphPaths(db: Db, tenant: string, root: ArtifactId, actor: string)
    returns (r: Result<PathTable, Error>)
    ensures match Authorize(db, tenant, root, actor, Read)
            case Err(e) => r == Err(e)
            case Ok(_) =>
              if !HasCurrentVersion(db, root) then r == Err(NotFound)
              else
                var g := Versioned(db, tenant, actor);
                && r.Ok?
                && r.value.order == Bounded(Ids(Bfs(g, root)), MAX_GRAPH_COMPONENT_NODES)
                && r.value.paths.Keys == Elements(r.value.order)
                && ShortestPaths(g, root, r.value.paths)
  {
    var access := Authorize(db, tenant, root, actor, Read);
    if access.Err? {
      return Err(access.error);
    }
    if !HasCurrentVersion(db, root) {
      return Err(NotFound);
    }
    ghost var g := Versioned(db, tenant, actor);
    ghost var order, head := [Visit(root, 0)], 0;
    var table := PathTable([root], map[root := [root]]);
    var queue := [root];
    PathSearchStart(g, root, MAX_GRAPH_COMPONENT_NODES);
    hide PathSearchInv, ShortestPaths, Bounded, Bfs, Elements;
    while queue != [] && |table.order| < MAX_GRAPH_COMPONENT_NODES
      invariant PathSearchInv(g, root, MAX_GRAPH_COMPONENT_NODES, order, head, table, queue)
      decreases |g| - head
    {
      ghost var order' := PathSearchStep(g, root, MAX_GRAPH_COMPONENT_NODES, order, head, table, queue);
      var current := queue[0];
      var rows := WithVersion(db, Neighbours(db, tenant, actor, current, db.edges));
      table, queue := AddPaths(rows, table, queue[1..], current, MAX_GRAPH_COMPONENT_NODES);
      order, head := order', head + 1;
    }
    PathSearchEnds(g, root, MAX_GRAPH_COMPONENT_NODES, order, head, table, queue);
    r := Ok(table);
  }

  // ------------------------------------------------ what the searches return

  ghost predicate Joined(db: Db, tenant: string, a: ArtifactId, b: ArtifactId) {
    exists e :: e in db.edges && e.tenant == tenant
                && ((e.source == a && e.target == b) || (e.source == b && e.target == a))
  }

  /** A path of the tenant's graph, edges taken either way, that the actor may read all along. */
  ghost predicate ReadablePath(db: Db, tenant: string, actor: string, p: seq<ArtifactId>) {
    && p != []
    && (forall i :: 0 <= i < |p| ==> Visible(db, tenant, p[i], actor, Read))
    && (forall i :: 0 < i < |p| ==> p[i - 1] != p[i] && Joined(db, tenant, p[i - 1], p[i]))
  }

  lemma WalksAreReadablePaths(db: Db, tenant: string, actor: string, p: seq<ArtifactId>)
    ensures Walk(Undirected(db, tenant, actor), p) <==> ReadablePath(db, tenant, actor, p)
  {
    var g := Undirected(db, tenant, actor);
    forall a, b | a in g ensures b in g[a] <==> Visible(db, tenant, b, actor, Read) && a != b && Joined(db, tenant, a, b) {
      if Visible(db, tenant, b, actor, Read) && a != b && Joined(db, tenant, a, b) {
        var e :| e in db.edges && e.tenant == tenant
                 && ((e.source == a && e.target == b) || (e.source == b && e.target == a));
        assert IsNeighbour(db, tenant, actor, a, e) && OtherEnd(e, a).value == b;
      }
    }
  }

  ghost predicate Connected(db: Db, tenant: string, actor: string, root: ArtifactId, id: ArtifactId) {
    exists p :: ReadablePath(db, tenant, actor, p) && p[0] == root && p[|p| - 1] == id
  }

  /** What `ComponentIds` returns for an authorised start. */
  ghost function Component(db: Db, tenant: string, actor: string, start: ArtifactId, limit: int): seq<ArtifactId>
    requires Visible(db, tenant, start, actor, Read)
  {
    Bounded(Ids(Bfs(Undirected(db, tenant, actor), start)), Clamp(1, limit, MAX_GRAPH_COMPONENT_NODES))
  }

  lemma ListedIsConnected(db: Db, tenant: string, actor: string, start: ArtifactId, i: nat)
    requires Visible(db, tenant, start, actor, Read)
    requires i < |Bfs(Undirected(db, tenant, actor), start)|
    ensures Connected(db, tenant, actor, start, Bfs(Undirected(db, tenant, actor), start)[i].id)
  {
    var g := Undirected(db, tenant, actor);
    BfsIsDistanceOrder(g, start);
    var v := Bfs(g, start)[i];
    assert Distance(g, start, v.id, v.depth);
    hide Undirected, Bfs, Exact, Walk, Orderly;
    var p :| WalkTo(g, start, p, v.id) && |p| == v.depth + 1;
    WalksAreReadablePaths(db, tenant, actor, p);
  }

  lemma ConnectedIsListed(db: Db, tenant: string, actor: string, start: ArtifactId, id: ArtifactId)
    requires Visible(db, tenant, start, actor, Read) && Connected(db, tenant, actor, start, id)
    ensures id in Ids(Bfs(Undirected(db, tenant, actor), start))
  {
    var g := Undirected(db, tenant, actor);
    BfsIsDistanceOrder(g, start);
    var all := Bfs(g, start);
    hide Undirected, Bfs, Exact, Walk, Orderly;
    var p :| ReadablePath(db, tenant, actor, p) && p[0] == start && p[|p| - 1] == id;
    WalksAreReadablePaths(db, tenant, actor, p);
    var i :| 0 <= i < |all| && all[i].id == id;
    assert Ids(all)[i] == id;
  }

  /** Distinct and nearest first. */
  lemma ComponentOrder(db: Db, tenant: string, actor: string, start: ArtifactId, limit: int)
    requires Visible(db, tenant, start, actor, Read)
    ensures var ids, g := Component(db, tenant, actor, start, limit), Undirected(db, tenant, actor);
            && ids != [] && ids[0] == start && Distinct(ids)
            && forall i, j, m, n | 0 <= i < j < |ids| ::
                 Distance(g, start, ids[i], m) ==> (Distance(g, start, ids[j], n) ==> m <= n)
  {
    var g := Undirected(db, tenant, actor);
    var all := Bfs(g, start);
    var ids := Component(db, tenant, actor, start, limit);
    BfsIsDistanceOrder(g, start);
    hide Undirected, Bfs, Walk, WalkTo;
    forall i, j, m, n | 0 <= i < j < |ids| && Distance(g, start, ids[i], m) && Distance(g, start, ids[j], n)
      ensures m <= n
    {
      DistanceIsUnique(g, start, ids[i], m, all[i].depth);
      DistanceIsUnique(g, start, ids[j], n, all[j].depth);
    }
  }

  /** Exactly what is connected to the start by readable artifacts, up to the limit. */
  lemma ComponentMeaning(db: Db, tenant: string, actor: string, start: ArtifactId, limit: int)
    requires Visible(db, tenant, start, actor, Read)
    ensures var ids := Component(db, tenant, actor, start, limit);
            && |ids| <= Clamp(1, limit, MAX_GRAPH_COMPONENT_NODES)
            && (forall id :: id in ids ==> Connected(db, tenant, actor, start, id))
            && (|ids| < Clamp(1, limit, MAX_GRAPH_COMPONENT_NODES) ==>
                  forall id :: Connected(db, tenant, actor, start, id) ==> id in ids)
  {
    var ids := Component(db, tenant, actor, start, limit);
    var all := Bfs(Undirected(db, tenant, actor), start);
    hide Undirected, Bfs, Visible, Connected;
    forall i | 0 <= i < |ids| ensures Connected(db, tenant, actor, start, ids[i]) {
      ListedIsConnected(db, tenant, actor, start, i);
    }
    forall id | |ids| == |all| && Connected(db, tenant, actor, start, id) ensures id in ids {
      ConnectedIsListed(db, tenant, actor, start, id);
    }
  }

  lemma DistanceIsUnique(g: Graph, root: ArtifactId, id: ArtifactId, m: nat, n: nat)
    requires Distance(g, root, id, m) && Distance(g, root, id, n)
    ensures m == n
  {
  }

  /** A larger limit only adds artifacts at the end. */
  lemma LargerLimitExtends(db: Db, tenant: string, actor: string, start: ArtifactId, limit: int, larger: int)
    requires Visible(db, tenant, start, actor, Read) && limit <= larger
    ensures Component(db, tenant, actor, start, limit) <= Component(db, tenant, actor, start, larger)
  {
  }

  ghost predicate AllVersioned(db: Db) {
    forall id :: id in db.artifacts ==> HasCurrentVersion(db, id)
  }

  lemma {:induction false} WithVersionKeepsAll(db: Db, ids: seq<ArtifactId>)
    requires forall id :: id in ids ==> HasCurrentVersion(db, id)
    ensures WithVersion(db, ids) == ids
  {
    if ids != [] {
      WithVersionKeepsAll(db, ids[1..]);
    }
  }

  lemma GraphsAgree(db: Db, tenant: string, actor: string)
    requires AllVersioned(db)
    ensures Versioned(db, tenant, actor) == Undirected(db, tenant, actor)
  {
    forall id | id in db.artifacts
      ensures WithVersion(db, Neighbours(db, tenant, actor, id, db.edges)) == Neighbours(db, tenant, actor, id, db.edges)
    {
      WithVersionKeepsAll(db, Neighbours(db, tenant, actor, id, db.edges));
    }
  }

  /** With a current version everywhere, the path search finds the component, in the same order. */
  lemma PathOrderIsComponent(db: Db, tenant: string, actor: string, root: ArtifactId)
    requires AllVersioned(db) && Visible(db, tenant, root, actor, Read)
    ensures Bounded(Ids(Bfs(Versioned(db, tenant, actor), root)), MAX_GRAPH_COMPONENT_NODES)
            == Component(db, tenant, actor, root, MAX_GRAPH_COMPONENT_NODES)
  {
    GraphsAgree(db, tenant, actor);
  }

  /** Every returned path is readable, joined edge by edge, simple, and as short as any readable path. */
  lemma PathsAreReadable(db: Db, tenant: string, actor: string, root: ArtifactId,
                         paths: map<ArtifactId, seq<ArtifactId>>, id: ArtifactId, q: seq<ArtifactId>)
    requires AllVersioned(db) && ShortestPaths(Versioned(db, tenant, actor), root, paths) && id in paths
    requires Visible(db, tenant, root, actor, Read)
    ensures ReadablePath(db, tenant, actor, paths[id]) && Distinct(paths[id])
    ensures paths[id][0] == root && paths[id][|paths[id]| - 1] == id
    ensures ReadablePath(db, tenant, actor, q) && q[0] == root && q[|q| - 1] == id ==> |paths[id]| <= |q|
  {
    var g := Versioned(db, tenant, actor);
    GraphsAgree(db, tenant, actor);
    WalksAreReadablePaths(db, tenant, actor, paths[id]);
    WalksAreReadablePaths(db, tenant, actor, q);
    if ReadablePath(db, tenant, actor, q) && q[0] == root && q[|q| - 1] == id {
      assert WalkTo(g, root, q, id);
    }
  }
}
