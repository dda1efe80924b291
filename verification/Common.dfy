// Small data types and sequence facts shared by the other modules.
module Common {

  datatype Option<+T> = None | Some(value: T) {
    function GetOr(default: T): T {
      match this
      case Some(v) => v
      case None => default
    }
  }

  datatype Result<+T, +E> = Ok(value: T) | Err(error: E)

  type Byte = b: int | 0 <= b < 256

  type Bytes = seq<Byte>

  // SHA-256 stands for an injective function: a digest is its preimage, boxed.
  datatype Digest = Digest(preimage: Bytes)

  function Sha256(data: Bytes): Digest {
    Digest(data)
  }

  function Min(a: int, b: int): int {
    if a < b then a else b
  }

  function Max(a: int, b: int): int {
    if a < b then b else a
  }

  /** Python's `max(low, min(value, high))`. */
  function Clamp(low: int, value: int, high: int): int {
    Max(low, Min(value, high))
  }

  /** Python's `math.ceil`. */
  function Ceil(x: real): int {
    -((-x).Floor)
  }

  ghost predicate Distinct<T>(s: seq<T>) {
    forall i, j :: 0 <= i < j < |s| ==> s[i] != s[j]
  }

  function Elements<T>(s: seq<T>): set<T> {
    set x | x in s
  }

  lemma DistinctSize<T>(s: seq<T>)
    requires Distinct(s)
    ensures |Elements(s)| == |s|
  {
    if |s| > 0 {
      var init := s[..|s| - 1];
      DistinctSize(init);
      assert s == init + [s[|s| - 1]];
      assert Elements(s) == Elements(init) + {s[|s| - 1]};
    }
  }

  lemma SubsetSize<T>(a: set<T>, b: set<T>)
    requires a <= b
    ensures |a| <= |b|
  {
    assert b == a + (b - a);
  }

  predicate IsSpace(c: char) {
    c in {' ', '\t', '\n', '\r'}
  }

  ghost function Bounded<T>(all: seq<T>, limit: nat): seq<T> {
    all[..Min(limit, |all|)]
  }

  // ------------------------------------------------------------- substrings

  predicate MatchesAt<T(==)>(needle: seq<T>, hay: seq<T>, i: nat) {
    i + |needle| <= |hay| && hay[i..i + |needle|] == needle
  }

  /** Python's `needle in hay`. */
  predicate Occurs<T(==)>(needle: seq<T>, hay: seq<T>) {
    exists i :: 0 <= i <= |hay| && MatchesAt(needle, hay, i)
  }

  // -------------------------------------------------------------- new names

  function Fresh(used: set<nat>): (n: nat)
    ensures n !in used
  {
    Above(used, 0)
  }

  // The smallest number from `n` on that is not in use.
  function Above(used: set<nat>, n: nat): (m: nat)
    ensures m !in used
    decreases |set k | k in used && k >= n|
  {
    if n !in used then n
    else
      assert (set k | k in used && k >= n) == (set k | k in used && k >= n + 1) + {n};
      Above(used, n + 1)
  }

  lemma {:induction false} AboveIsLeast(used: set<nat>, n: nat, k: nat)
    requires n <= k && k !in used
    ensures Above(used, n) <= k
    decreases k - n
  {
    if n in used {
      AboveIsLeast(used, n + 1, k);
    }
  }

  lemma FreshIsLeast(used: set<nat>, k: nat)
    requires k !in used
    ensures Fresh(used) <= k
  {
    AboveIsLeast(used, 0, k);
  }

  // ------------------------------------------------- steps that may fail

  // No forward step failed between two readings of the step counter.
  ghost predicate Sound(failing: set<nat>, from: nat, to: nat) {
    forall t :: t in failing ==> !(from <= t < to)
  }

  lemma SoundJoin(failing: set<nat>, a: nat, b: nat, c: nat)
    requires a <= b <= c
    ensures Sound(failing, a, c) <==> Sound(failing, a, b) && Sound(failing, b, c)
  {
  }

  lemma SoundStep(failing: set<nat>, a: nat, b: nat)
    requires a <= b
    ensures Sound(failing, a, b + 1) <==> Sound(failing, a, b) && b !in failing
  {
  }
}
