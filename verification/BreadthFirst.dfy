// Breadth-first order of a finite graph as a function, and what it means: the
// three graph searches of the service are bounded prefixes of it.
module BreadthFirst {
  import opened Common

  type Node = nat

  // The rows a query returns for each node, in order.
  type Graph = map<Node, seq<Node>>

  datatype Visit = Visit(id: Node, depth: nat)

  ghost predicate Closed(g: Graph) {
    forall v, w :: v in g && w in g[v] ==> w in g
  }

  predicate Visited(order: seq<Visit>, id: Node) {
    exists i :: 0 <= i < |order| && order[i].id == id
  }

  function Ids(order: seq<Visit>): (ids: seq<Node>)
    ensures |ids| == |order|
    ensures forall i :: 0 <= i < |ids| ==> ids[i] == order[i].id
  {
    seq(|order|, i requires 0 <= i < |order| => order[i].id)
  }

  // Discovered nodes, each once.
  ghost predicate Orderly(g: Graph, order: seq<Visit>) {
    && (forall i :: 0 <= i < |order| ==> order[i].id in g)
    && (forall i, j :: 0 <= i < j < |order| ==> order[i].id != order[j].id)
  }

  /** One `for row in rows` loop: what is new goes to the end. */
  function AppendNew(order: seq<Visit>, rows: seq<Node>, depth: nat): seq<Visit>
    decreases |rows|
  {
    if rows == [] then order
    else AppendNew(if Visited(order, rows[0]) then order else order + [Visit(rows[0], depth)], rows[1..], depth)
  }

  lemma {:induction false} AppendNewFacts(g: Graph, order: seq<Visit>, rows: seq<Node>, depth: nat)
    requires Orderly(g, order) && forall w :: w in rows ==> w in g
    ensures var after := AppendNew(order, rows, depth);
            && order <= after
            && Orderly(g, after)
            && (forall i :: |order| <= i < |after| ==> after[i].depth == depth && after[i].id in rows)
            && (forall w :: w in rows ==> Visited(after, w))
    decreases |rows|
  {
    if rows != [] {
      var next := if Visited(order, rows[0]) then order else order + [Visit(rows[0], depth)];
      assert Visited(next, rows[0]) by {
        if !Visited(order, rows[0]) {
          assert next[|order|].id == rows[0];
        }
      }
      AppendNewFacts(g, next, rows[1..], depth);
      var after := AppendNew(order, rows, depth);
      var i :| 0 <= i < |next| && next[i].id == rows[0];
      assert after[i].id == rows[0];
      assert forall w :: w in rows ==> w == rows[0] || w in rows[1..];
    }
  }

  lemma OrderlySize(g: Graph, order: seq<Visit>)
    requires Orderly(g, order)
    ensures |order| <= |g|
  {
    DistinctSize(Ids(order));
    SubsetSize(Elements(Ids(order)), g.Keys);
    assert |g| == |g.Keys|;
  }

  /** The search from a queue that is the not yet expanded part `order[head..]`. */
  ghost function BfsFrom(g: Graph, order: seq<Visit>, head: nat): seq<Visit>
    requires Closed(g) && Orderly(g, order) && head <= |order|
    decreases |g| - head
  {
    OrderlySize(g, order);
    if head == |order| then order
    else
      AppendNewFacts(g, order, g[order[head].id], order[head].depth + 1);
      BfsFrom(g, AppendNew(order, g[order[head].id], order[head].depth + 1), head + 1)
  }

  ghost function Bfs(g: Graph, root: Node): seq<Visit>
    requires Closed(g) && root in g
  {
    BfsFrom(g, [Visit(root, 0)], 0)
  }

  lemma {:induction false} OrderIsPrefix(g: Graph, order: seq<Visit>, head: nat)
    requires Closed(g) && Orderly(g, order) && head <= |order|
    ensures order <= BfsFrom(g, order, head)
    decreases |g| - head
  {
    OrderlySize(g, order);
    if head < |order| {
      AppendNewFacts(g, order, g[order[head].id], order[head].depth + 1);
      OrderIsPrefix(g, AppendNew(order, g[order[head].id], order[head].depth + 1), head + 1);
    }
  }

  // ------------------------------------------------------- walks and distance

  ghost predicate Walk(g: Graph, p: seq<Node>) {
    && p != []
    && (forall i :: 0 <= i < |p| ==> p[i] in g)
    && (forall i :: 0 < i < |p| ==> p[i] in g[p[i - 1]])
  }

  ghost predicate WalkTo(g: Graph, root: Node, p: seq<Node>, id: Node) {
    Walk(g, p) && p[0] == root && p[|p| - 1] == id
  }

  /** `d` edges lead from the root to `id`, and no walk is shorter. */
  ghost predicate Distance(g: Graph, root: Node, id: Node, d: nat) {
    && (exists p :: WalkTo(g, root, p, id) && |p| == d + 1)
    && (forall p :: WalkTo(g, root, p, id) ==> |p| >= d + 1)
  }

  // What holds whenever the search is about to expand order[head].
  ghost predicate Levels(order: seq<Visit>, head: nat) {
    && (forall i, j :: 0 <= i < j < |order| ==> order[i].depth <= order[j].depth)
    && (head < |order| ==> forall j :: 0 <= j < |order| ==> order[j].depth <= order[head].depth + 1)
  }

  ghost predicate FoundWithin(order: seq<Visit>, id: Node, depth: nat) {
    exists j :: 0 <= j < |order| && order[j].id == id && order[j].depth <= depth
  }

  ghost predicate Expanded(g: Graph, order: seq<Visit>, head: nat) {
    forall i, w :: 0 <= i < head <= |order| && order[i].id in g && w in g[order[i].id] ==>
      FoundWithin(order, w, order[i].depth + 1)
  }

  ghost predicate Exact(g: Graph, root: Node, order: seq<Visit>) {
    forall i :: 0 <= i < |order| ==> Distance(g, root, order[i].id, order[i].depth)
  }

  ghost predicate SearchInv(g: Graph, root: Node, order: seq<Visit>, head: nat) {
    && Closed(g)
    && Orderly(g, order)
    && head <= |order|
    && order != [] && order[0] == Visit(root, 0)
    && Levels(order, head)
    && Expanded(g, order, head)
    && Exact(g, root, order)
  }

  // A walk ends at a discovered node, or passes a node that still waits in the queue.
  lemma {:induction false} WalkMeetsQueue(g: Graph, root: Node, order: seq<Visit>, head: nat, p: seq<Node>)
    requires SearchInv(g, root, order, head) && Walk(g, p) && p[0] == root
    ensures FoundWithin(order, p[|p| - 1], |p| - 1)
            || exists j :: head <= j < |order| && order[j].depth < |p| - 1
    decreases |p|
  {
    if |p| > 1 {
      var init := p[..|p| - 1];
      WalkMeetsQueue(g, root, order, head, init);
      if FoundWithin(order, init[|init| - 1], |init| - 1) {
        var i :| 0 <= i < |order| && order[i].id == p[|p| - 2] && order[i].depth <= |p| - 2;
        assert p[|p| - 1] in g[p[|p| - 2]];
        if i < head {
          assert FoundWithin(order, p[|p| - 1], order[i].depth + 1);
        }
      }
    }
  }

  lemma NewNodeDistance(g: Graph, root: Node, order: seq<Visit>, head: nat, id: Node)
    requires SearchInv(g, root, order, head) && head < |order|
    requires id in g[order[head].id] && !Visited(order, id)
    ensures Distance(g, root, id, order[head].depth + 1)
  {
    var d := order[head].depth;
    var p :| WalkTo(g, root, p, order[head].id) && |p| == d + 1;
    assert WalkTo(g, root, p + [id], id);
    forall q | WalkTo(g, root, q, id) ensures |q| >= d + 2 {
      WalkMeetsQueue(g, root, order, head, q);
    }
  }

  // `after` is `order` once its node `head` has been expanded.
  ghost predicate Expansion(g: Graph, order: seq<Visit>, head: nat, after: seq<Visit>) {
    && head < |order| && order <= after
    && (forall i :: |order| <= i < |after| ==>
          after[i].depth == order[head].depth + 1 && order[head].id in g && after[i].id in g[order[head].id])
    && Orderly(g, after)
    && (order[head].id in g ==> forall w :: w in g[order[head].id] ==> Visited(after, w))
  }

  lemma ExpansionExact(g: Graph, root: Node, order: seq<Visit>, head: nat, after: seq<Visit>)
    requires SearchInv(g, root, order, head) && Expansion(g, order, head, after)
    ensures Exact(g, root, after)
  {
    forall i | 0 <= i < |after| ensures Distance(g, root, after[i].id, after[i].depth) {
      if i < |order| {
        assert after[i] == order[i];
      } else {
        assert forall j :: 0 <= j < |order| ==> order[j].id != after[i].id;
        NewNodeDistance(g, root, order, head, after[i].id);
      }
    }
  }

  lemma ExpansionExpanded(g: Graph, order: seq<Visit>, head: nat, after: seq<Visit>)
    requires Expanded(g, order, head) && Expansion(g, order, head, after) && Levels(order, head)
    ensures Expanded(g, after, head + 1)
  {
    forall i, w | 0 <= i < head + 1 && after[i].id in g && w in g[after[i].id]
      ensures FoundWithin(after, w, after[i].depth + 1)
    {
      if i < head {
        assert FoundWithin(order, w, order[i].depth + 1);
        var j :| 0 <= j < |order| && order[j].id == w && order[j].depth <= order[i].depth + 1;
        assert after[j] == order[j];
      } else {
        assert Visited(after, w);
        var j :| 0 <= j < |after| && after[j].id == w;
        if j < |order| {
          assert after[j] == order[j];
        }
      }
    }
  }

  lemma ExpansionLevels(g: Graph, order: seq<Visit>, head: nat, after: seq<Visit>)
    requires Levels(order, head) && Expansion(g, order, head, after)
    ensures Levels(after, head + 1)
  {
  }

  lemma ExpandKeepsInv(g: Graph, root: Node, order: seq<Visit>, head: nat)
    requires SearchInv(g, root, order, head) && head < |order|
    ensures SearchInv(g, root, AppendNew(order, g[order[head].id], order[head].depth + 1), head + 1)
  {
    var after := AppendNew(order, g[order[head].id], order[head].depth + 1);
    AppendNewFacts(g, order, g[order[head].id], order[head].depth + 1);
    assert Expansion(g, order, head, after);
    ExpansionExact(g, root, order, head, after);
    ExpansionExpanded(g, order, head, after);
    ExpansionLevels(g, order, head, after);
  }

  lemma {:induction false} SearchEndsInv(g: Graph, root: Node, order: seq<Visit>, head: nat)
    requires SearchInv(g, root, order, head)
    ensures var all := BfsFrom(g, order, head); SearchInv(g, root, all, |all|)
    decreases |g| - head
  {
    OrderlySize(g, order);
    if head < |order| {
      ExpandKeepsInv(g, root, order, head);
      SearchEndsInv(g, root, AppendNew(order, g[order[head].id], order[head].depth + 1), head + 1);
    }
  }

  lemma StartInv(g: Graph, root: Node)
    requires Closed(g) && root in g
    ensures SearchInv(g, root, [Visit(root, 0)], 0)
  {
    assert WalkTo(g, root, [root], root);
  }

  /** The order lists every reachable node once, nearest first, each with its distance. */
  lemma BfsIsDistanceOrder(g: Graph, root: Node)
    requires Closed(g) && root in g
    ensures var all := Bfs(g, root);
            && all != [] && all[0] == Visit(root, 0)
            && Orderly(g, all)
            && (forall i, j :: 0 <= i < j < |all| ==> all[i].depth <= all[j].depth)
            && Exact(g, root, all)
            && (forall p :: Walk(g, p) && p[0] == root ==> Visited(all, p[|p| - 1]))
  {
    StartInv(g, root);
    SearchEndsInv(g, root, [Visit(root, 0)], 0);
    var all := Bfs(g, root);
    forall p | Walk(g, p) && p[0] == root ensures Visited(all, p[|p| - 1]) {
      WalkMeetsQueue(g, root, all, |all|, p);
    }
  }

  /** A shortest walk never passes a node twice. */
  lemma ShortestIsSimple(g: Graph, root: Node, p: seq<Node>, id: Node)
    requires WalkTo(g, root, p, id) && Distance(g, root, id, |p| - 1)
    ensures forall i, j :: 0 <= i < j < |p| ==> p[i] != p[j]
  {
    forall i, j | 0 <= i < j < |p| ensures p[i] != p[j] {
      if p[i] == p[j] {
        var q := p[..i] + p[j..];
        assert WalkTo(g, root, q, id);
      }
    }
  }
}
