// The bounded search of an upstream result for the credential that was sent
// (src/folio_lattice/external_mcp.py). The scan is a worklist with a node budget;
// what it promises speaks of every string that decoding can ever uncover.
module CredentialScan {
  import opened Common

  const MAX_DEPTH := 32
  const MAX_NODES := 4096
  const MAX_STRING_BYTES := 64 * 1024
  const MAX_DECODE_PASSES := 2

  // A result value. Sets and tuples are lists here; `Scalar` is a number, a
  // boolean or None. `unpaired` strings have no UTF-8 encoding.
  datatype Value =
    | Text(text: string)
    | Blob(bytes: Bytes)
    | Dict(pairs: seq<(Value, Value)>)
    | Items(items: seq<Value>)
    | Scalar

  datatype Json = Parsed(value: Value) | NotJson | TooDeep

  // The library functions the scan calls.
  datatype Library = Library(
    unquote: string -> string,          // urllib.parse.unquote
    loads: string -> Json,              // json.loads
    encode: string -> Option<Bytes>,    // str.encode("utf-8")
    decode: Bytes -> Option<string>)    // bytes.decode("utf-8")

  function Flatten(pairs: seq<(Value, Value)>): seq<Value> {
    if pairs == [] then [] else [pairs[0].0, pairs[0].1] + Flatten(pairs[1..])
  }

  /** What the scan looks at next after `v`. */
  function Children(lib: Library, v: Value): seq<Value> {
    match v
    case Text(s) =>
      var json := lib.loads(s);
      if json.Parsed? && json.value != v then [json.value] else []
    case Blob(b) =>
      var text := lib.decode(b);
      if text.Some? then [Text(text.value)] else []
    case Dict(pairs) => Flatten(pairs)
    case Items(items) => items
    case Scalar => []
  }

  function Unquoted(lib: Library, s: string, n: nat): string {
    if n == 0 then s else lib.unquote(Unquoted(lib, s, n - 1))
  }

  /** Percent-decoding reaches a fixed point within `n` passes, and the credential never shows up. */
  ghost predicate DecodesClean(lib: Library, s: string, credential: string, n: nat) {
    exists k :: 0 <= k <= n && Settles(lib, s, credential, k)
  }

  ghost predicate Settles(lib: Library, s: string, credential: string, k: nat) {
    && Unquoted(lib, s, k + 1) == Unquoted(lib, s, k)
    && forall j :: 0 <= j <= k ==> !Occurs(credential, Unquoted(lib, s, j))
  }

  method DecodePasses(lib: Library, s: string, credential: string) returns (found: bool)
    ensures !found <==> DecodesClean(lib, s, credential, MAX_DECODE_PASSES)
  {
    var candidate := s;
    for pass := 0 to MAX_DECODE_PASSES + 1
      invariant candidate == Unquoted(lib, s, pass)
      invariant forall j :: 0 <= j < pass ==> !Occurs(credential, Unquoted(lib, s, j))
      invariant forall j :: 0 <= j < pass ==> Unquoted(lib, s, j + 1) != Unquoted(lib, s, j)
      invariant pass <= MAX_DECODE_PASSES
    {
      if Occurs(credential, candidate) {
        assert forall k :: pass <= k ==> !Settles(lib, s, credential, k);
        return true;
      }
      var decoded := lib.unquote(candidate);
      if decoded == candidate {
        assert Settles(lib, s, credential, pass);
        return false;
      }
      if pass == MAX_DECODE_PASSES {
        return true;
      }
      candidate := decoded;
    }
  }

  /** The tests one node has to pass by itself. */
  ghost predicate NodeClean(lib: Library, v: Value, credential: string) {
    match v
    case Text(s) =>
      && lib.encode(s).Some? && |lib.encode(s).value| <= MAX_STRING_BYTES
      && DecodesClean(lib, s, credential, MAX_DECODE_PASSES)
      && !lib.loads(s).TooDeep?
    case Blob(b) =>
      && |b| <= MAX_STRING_BYTES
      && !Occurs(lib.encode(credential).GetOr([]), b)
      && lib.decode(b).Some?
    case Dict(pairs) => |pairs| <= MAX_NODES
    case Items(items) => |items| <= MAX_NODES
    case Scalar => true
  }

  // ------------------------------------------------- the tree below a value

  /** Every node of the unfolding passes its own tests, none deeper than the bound. */
  ghost predicate TreeClean(lib: Library, v: Value, credential: string, depth: nat)
    decreases MAX_DEPTH + 1 - depth
  {
    && depth <= MAX_DEPTH
    && NodeClean(lib, v, credential)
    && forall c :: c in Children(lib, v) ==> TreeClean(lib, c, credential, depth + 1)
  }

  /** How many nodes the unfolding has, counting nothing below the depth bound. */
  ghost function TreeSize(lib: Library, v: Value, depth: nat): nat
    decreases MAX_DEPTH + 1 - depth, 1, 0
  {
    if depth > MAX_DEPTH then 1 else 1 + ForestSize(lib, Children(lib, v), depth + 1)
  }

  ghost function ForestSize(lib: Library, vs: seq<Value>, depth: nat): nat
    decreases MAX_DEPTH + 1 - depth, 2, |vs|
  {
    if vs == [] then 0 else TreeSize(lib, vs[0], depth) + ForestSize(lib, vs[1..], depth)
  }

  ghost function StackSize(lib: Library, stack: seq<(Value, nat)>): nat {
    if stack == [] then 0
    else StackSize(lib, stack[..|stack| - 1]) + TreeSize(lib, stack[|stack| - 1].0, stack[|stack| - 1].1)
  }

  function Tagged(vs: seq<Value>, depth: nat): seq<(Value, nat)> {
    seq(|vs|, i requires 0 <= i < |vs| => (vs[i], depth))
  }

  lemma {:induction false} PushedSize(lib: Library, stack: seq<(Value, nat)>, vs: seq<Value>, depth: nat)
    ensures StackSize(lib, stack + Tagged(vs, depth)) == StackSize(lib, stack) + ForestSize(lib, vs, depth)
    decreases |vs|
  {
    if vs == [] {
      assert stack + Tagged(vs, depth) == stack;
    } else {
      var first := stack + [(vs[0], depth)];
      assert first[..|stack|] == stack;
      assert stack + Tagged(vs, depth) == first + Tagged(vs[1..], depth);
      PushedSize(lib, first, vs[1..], depth);
    }
  }

  ghost predicate StackClean(lib: Library, stack: seq<(Value, nat)>, credential: string) {
    forall e :: e in stack ==> TreeClean(lib, e.0, credential, e.1)
  }

  lemma CleanUnion(lib: Library, a: seq<(Value, nat)>, b: seq<(Value, nat)>, credential: string)
    ensures StackClean(lib, a + b, credential) <==> StackClean(lib, a, credential) && StackClean(lib, b, credential)
  {
    assert forall e :: e in a + b <==> e in a || e in b;
  }

  lemma TaggedClean(lib: Library, vs: seq<Value>, depth: nat, credential: string)
    ensures StackClean(lib, Tagged(vs, depth), credential) <==> forall c :: c in vs ==> TreeClean(lib, c, credential, depth)
  {
    var tagged := Tagged(vs, depth);
    if StackClean(lib, tagged, credential) {
      forall c | c in vs ensures TreeClean(lib, c, credential, depth) {
        var i :| 0 <= i < |vs| && vs[i] == c;
        assert tagged[i] in tagged;
      }
    } else {
      var e :| e in tagged && !TreeClean(lib, e.0, credential, e.1);
      var i :| 0 <= i < |tagged| && tagged[i] == e;
      assert e == (vs[i], depth) && vs[i] in vs;
    }
  }

  lemma PushedClean(lib: Library, rest: seq<(Value, nat)>, v: Value, depth: nat, credential: string)
    requires depth <= MAX_DEPTH && NodeClean(lib, v, credential)
    ensures StackClean(lib, rest + Tagged(Children(lib, v), depth + 1), credential)
            <==> StackClean(lib, rest + [(v, depth)], credential)
  {
    CleanUnion(lib, rest, Tagged(Children(lib, v), depth + 1), credential);
    CleanUnion(lib, rest, [(v, depth)], credential);
    TaggedClean(lib, Children(lib, v), depth + 1, credential);
    assert StackClean(lib, [(v, depth)], credential) <==> TreeClean(lib, v, credential, depth);
  }

  /** What one popped node contributes: reject it, or go on with its children. */
  method ScanNode(lib: Library, v: Value, credential: string) returns (found: bool)
    requires lib.encode(credential).Some?
    ensures !found <==> NodeClean(lib, v, credential)
  {
    match v
    case Text(s) =>
      var utf8 := lib.encode(s);
      if utf8.None? || |utf8.value| > MAX_STRING_BYTES {
        return true;
      }
      found := DecodePasses(lib, s, credential);
      if !found {
        found := lib.loads(s).TooDeep?;
      }
    case Blob(b) =>
      if |b| > MAX_STRING_BYTES || Occurs(lib.encode(credential).value, b) {
        return true;
      }
      found := lib.decode(b).None?;
    case Dict(pairs) => found := |pairs| > MAX_NODES;
    case Items(items) => found := |items| > MAX_NODES;
    case Scalar => found := false;
  }

  ghost predicate Harmless(lib: Library, value: Value, credential: string) {
    && lib.encode(credential).Some? && |lib.encode(credential).value| <= MAX_STRING_BYTES
    && TreeClean(lib, value, credential, 0)
    && TreeSize(lib, value, 0) <= MAX_NODES
  }

  // `nodes` were popped and clean; the rest of the unfolding hangs under the stack.
  ghost predicate ScanInv(lib: Library, value: Value, credential: string, stack: seq<(Value, nat)>, nodes: nat) {
    && (StackClean(lib, stack, credential) <==> TreeClean(lib, value, credential, 0))
    && nodes + StackSize(lib, stack) == TreeSize(lib, value, 0)
  }

  lemma ScanStarts(lib: Library, value: Value, credential: string)
    ensures ScanInv(lib, value, credential, [(value, 0)], 0)
  {
    var stack: seq<(Value, nat)> := [(value, 0)];
    assert stack[..0] == [];
  }

  lemma ScanRejects(lib: Library, value: Value, credential: string, rest: seq<(Value, nat)>, top: (Value, nat), nodes: nat)
    requires ScanInv(lib, value, credential, rest + [top], nodes)
    ensures nodes + 1 > MAX_NODES || top.1 > MAX_DEPTH || !NodeClean(lib, top.0, credential) ==>
              !(TreeClean(lib, value, credential, 0) && TreeSize(lib, value, 0) <= MAX_NODES)
  {
    var stack := rest + [top];
    assert top in stack && stack[..|rest|] == rest;
  }

  lemma ScanEnds(lib: Library, value: Value, credential: string, nodes: nat)
    requires ScanInv(lib, value, credential, [], nodes) && nodes <= MAX_NODES
    ensures TreeClean(lib, value, credential, 0) && TreeSize(lib, value, 0) <= MAX_NODES
  {
    hide TreeClean, TreeSize;
  }

  lemma SizeOfTop(lib: Library, rest: seq<(Value, nat)>, v: Value, depth: nat, credential: string)
    requires depth <= MAX_DEPTH && NodeClean(lib, v, credential)
    ensures StackSize(lib, rest + [(v, depth)]) == StackSize(lib, rest) + 1 + ForestSize(lib, Children(lib, v), depth + 1)
  {
    assert (rest + [(v, depth)])[..|rest|] == rest;
    hide NodeClean, Children;
  }

  lemma ScanDescends(lib: Library, value: Value, credential: string, rest: seq<(Value, nat)>, v: Value, depth: nat, nodes: nat)
    requires ScanInv(lib, value, credential, rest + [(v, depth)], nodes)
    requires depth <= MAX_DEPTH && NodeClean(lib, v, credential)
    ensures ScanInv(lib, value, credential, rest + Tagged(Children(lib, v), depth + 1), nodes + 1)
  {
    assert (rest + [(v, depth)])[..|rest|] == rest;
    PushedSize(lib, rest, Children(lib, v), depth + 1);
    PushedClean(lib, rest, v, depth, credential);
    SizeOfTop(lib, rest, v, depth, credential);
    hide StackClean, StackSize, TreeClean, TreeSize, ForestSize, NodeClean, Tagged, Children;
  }

  /** The scan answers False exactly on the results whose whole unfolding is within the budget and clean. */
  method ContainsCredential(lib: Library, value: Value, credential: string) returns (found: bool)
    ensures !found <==> Harmless(lib, value, credential)
  {
    var utf8 := lib.encode(credential);
    if utf8.None? || |utf8.value| > MAX_STRING_BYTES {
      return true;
    }
    var stack: seq<(Value, nat)> := [(value, 0)];
    var nodes := 0;
    ScanStarts(lib, value, credential);
    hide ScanInv, NodeClean, TreeClean, TreeSize, Children, StackSize, StackClean, Tagged, Occurs;
    while stack != []
      invariant nodes <= MAX_NODES
      invariant ScanInv(lib, value, credential, stack, nodes)
      decreases MAX_NODES + 1 - nodes
    {
      hide *;
      var (current, depth) := stack[|stack| - 1];
      var rest := stack[..|stack| - 1];
      assert stack == rest + [(current, depth)];
      ScanRejects(lib, value, credential, rest, (current, depth), nodes);
      nodes := nodes + 1;
      if nodes > MAX_NODES || depth > MAX_DEPTH {
        return true;
      }
      found := ScanNode(lib, current, credential);
      if found {
        return true;
      }
      ScanDescends(lib, value, credential, rest, current, depth, nodes - 1);
      stack := rest + Tagged(Children(lib, current), depth + 1);
    }
    ScanEnds(lib, value, credential, nodes);
    found := false;
  }

  // ------------------------------------------------------------ what it means

  // A text holds what it is JSON for, a byte string the text it is UTF-8 for, a
  // mapping its keys and its values, a list its items.
  ghost predicate Holds(lib: Library, v: Value, held: Value) {
    match v
    case Text(s) => lib.loads(s) == Parsed(held) && held != Text(s)
    case Blob(b) => held.Text? && lib.decode(b) == Some(held.text)
    case Dict(pairs) => exists i :: 0 <= i < |pairs| && (held == pairs[i].0 || held == pairs[i].1)
    case Items(items) => exists i :: 0 <= i < |items| && held == items[i]
    case Scalar => false
  }

  // `path` leads from `v` through containers, byte strings and JSON texts.
  ghost predicate Uncovers(lib: Library, v: Value, path: seq<Value>) {
    && path != []
    && path[0] == v
    && forall i :: 0 <= i < |path| - 1 ==> Holds(lib, path[i], path[i + 1])
  }

  lemma {:induction false} FlattenHas(pairs: seq<(Value, Value)>, v: Value)
    ensures v in Flatten(pairs) <==> exists i :: 0 <= i < |pairs| && (v == pairs[i].0 || v == pairs[i].1)
  {
    if pairs != [] {
      FlattenHas(pairs[1..], v);
      var rest := pairs[1..];
      assert forall i :: 0 <= i < |rest| ==> rest[i] == pairs[i + 1];
      if i :| 0 <= i < |pairs| && (v == pairs[i].0 || v == pairs[i].1) {
        assert i > 0 ==> rest[i - 1] == pairs[i];
      }
    }
  }

  /** The scan goes on with exactly what a value holds. */
  lemma ScansWhatIsHeld(lib: Library, v: Value, held: Value)
    ensures held in Children(lib, v) <==> Holds(lib, v, held)
  {
    match v
    case Dict(pairs) => FlattenHas(pairs, held);
    case _ =>
  }

  // The credential is readable in `v`, for a text after `n` percent-decodings.
  ghost predicate Shows(lib: Library, v: Value, credential: string, n: nat) {
    || (v.Text? && Occurs(credential, Unquoted(lib, v.text, n)))
    || (v.Blob? && lib.encode(credential).Some? && Occurs(lib.encode(credential).value, v.bytes))
  }

  lemma {:induction false} SettledForever(lib: Library, s: string, k: nat, n: nat)
    requires Unquoted(lib, s, k + 1) == Unquoted(lib, s, k) && k <= n
    ensures Unquoted(lib, s, n) == Unquoted(lib, s, k)
  {
    if k < n {
      SettledForever(lib, s, k, n - 1);
    }
  }

  lemma {:induction false} UncoveredIsClean(lib: Library, v: Value, credential: string, depth: nat, path: seq<Value>)
    requires TreeClean(lib, v, credential, depth) && Uncovers(lib, v, path)
    ensures NodeClean(lib, path[|path| - 1], credential)
    decreases |path|
  {
    if |path| > 1 {
      assert Holds(lib, path[0], path[0 + 1]);
      ScansWhatIsHeld(lib, path[0], path[1]);
      forall i | 0 <= i < |path[1..]| - 1 ensures Holds(lib, path[1..][i], path[1..][i + 1]) {
        assert Holds(lib, path[i + 1], path[(i + 1) + 1]);
      }
      UncoveredIsClean(lib, path[1], credential, depth + 1, path[1..]);
    }
  }

  /** A result the scan lets through hides the credential nowhere, however often a text is percent-decoded. */
  lemma CleanMeansNoCredential(lib: Library, value: Value, credential: string, path: seq<Value>, n: nat)
    requires Harmless(lib, value, credential) && Uncovers(lib, value, path)
    ensures !Shows(lib, path[|path| - 1], credential, n)
  {
    UncoveredIsClean(lib, value, credential, 0, path);
    var last := path[|path| - 1];
    if last.Text? {
      var k :| 0 <= k <= MAX_DECODE_PASSES && Settles(lib, last.text, credential, k);
      if n > k {
        SettledForever(lib, last.text, k, n);
      }
    }
  }

  // -------------------------------------------------- what is let through

  lemma LongerPath(lib: Library, v: Value, held: Value, path: seq<Value>)
    requires Holds(lib, v, held) && Uncovers(lib, held, path)
    ensures Uncovers(lib, v, [v] + path)
  {
    hide Holds;
    var longer := [v] + path;
    forall i | 0 <= i < |longer| - 1 ensures Holds(lib, longer[i], longer[i + 1]) {
      if i > 0 {
        assert Holds(lib, path[i - 1], path[(i - 1) + 1]);
      }
    }
  }

  // Everything that can be uncovered is near enough and passes its own tests.
  ghost predicate AllClean(lib: Library, v: Value, credential: string, depth: nat) {
    forall path :: Uncovers(lib, v, path) ==>
                     depth + |path| - 1 <= MAX_DEPTH && NodeClean(lib, path[|path| - 1], credential)
  }

  lemma HeldAllClean(lib: Library, v: Value, held: Value, credential: string, depth: nat)
    requires AllClean(lib, v, credential, depth) && Holds(lib, v, held)
    ensures AllClean(lib, held, credential, depth + 1)
  {
    hide Holds, NodeClean;
    forall path | Uncovers(lib, held, path)
      ensures depth + 1 + |path| - 1 <= MAX_DEPTH && NodeClean(lib, path[|path| - 1], credential)
    {
      LongerPath(lib, v, held, path);
      var longer := [v] + path;
      assert longer[|longer| - 1] == path[|path| - 1];
    }
  }

  lemma {:induction false} AllCleanIsTreeClean(lib: Library, v: Value, credential: string, depth: nat)
    requires AllClean(lib, v, credential, depth)
    ensures TreeClean(lib, v, credential, depth)
    decreases MAX_DEPTH + 1 - depth
  {
    assert Uncovers(lib, v, [v]);
    assert [v][|[v]| - 1] == v;
    assert depth <= MAX_DEPTH && NodeClean(lib, v, credential);
    hide NodeClean, AllClean;
    forall c | c in Children(lib, v) ensures TreeClean(lib, c, credential, depth + 1) {
      ScansWhatIsHeld(lib, v, c);
      HeldAllClean(lib, v, c, credential, depth);
      AllCleanIsTreeClean(lib, c, credential, depth + 1);
    }
  }

  lemma {:induction false} TreeCleanIsNear(lib: Library, v: Value, credential: string, depth: nat, path: seq<Value>)
    requires TreeClean(lib, v, credential, depth) && Uncovers(lib, v, path)
    ensures depth + |path| - 1 <= MAX_DEPTH
    decreases |path|
  {
    if |path| > 1 {
      assert Holds(lib, path[0], path[0 + 1]);
      ScansWhatIsHeld(lib, path[0], path[1]);
      forall i | 0 <= i < |path[1..]| - 1 ensures Holds(lib, path[1..][i], path[1..][i + 1]) {
        assert Holds(lib, path[i + 1], path[(i + 1) + 1]);
      }
      TreeCleanIsNear(lib, path[1], credential, depth + 1, path[1..]);
    }
  }

  /**
   * A result passes exactly when it is within the budget and whatever can be uncovered
   * in it, by any path, lies within the depth bound and passes the tests on one value.
   */
  lemma HarmlessIffAllClean(lib: Library, value: Value, credential: string)
    ensures Harmless(lib, value, credential) <==>
              && lib.encode(credential).Some? && |lib.encode(credential).value| <= MAX_STRING_BYTES
              && TreeSize(lib, value, 0) <= MAX_NODES
              && AllClean(lib, value, credential, 0)
  {
    if TreeClean(lib, value, credential, 0) {
      forall path | Uncovers(lib, value, path)
        ensures 0 + |path| - 1 <= MAX_DEPTH && NodeClean(lib, path[|path| - 1], credential)
      {
        TreeCleanIsNear(lib, value, credential, 0, path);
        UncoveredIsClean(lib, value, credential, 0, path);
      }
    }
    if AllClean(lib, value, credential, 0) {
      AllCleanIsTreeClean(lib, value, credential, 0);
    }
  }
}
