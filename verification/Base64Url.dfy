// The base64url of capability segments (src/folio_lattice/public_mcp.py): RFC 4648
// section 5 without padding, accepted only in the canonical form that section 3.5
// of RFC 4648 describes.
module Base64Url {
  import opened Common

  const MAX_SEGMENT := 4096

  type Sextet = n: nat | n < 64

  function CharOf(n: Sextet): char {
    if n < 26 then 'A' + n as char
    else if n < 52 then 'a' + (n - 26) as char
    else if n < 62 then '0' + (n - 52) as char
    else if n == 62 then '-'
    else '_'
  }

  predicate InAlphabet(c: char) {
    'A' <= c <= 'Z' || 'a' <= c <= 'z' || '0' <= c <= '9' || c == '-' || c == '_'
  }

  function ValueOf(c: char): (n: Sextet)
    requires InAlphabet(c)
  {
    if 'A' <= c <= 'Z' then (c - 'A') as int
    else if 'a' <= c <= 'z' then 26 + (c - 'a') as int
    else if '0' <= c <= '9' then 52 + (c - '0') as int
    else if c == '-' then 62
    else 63
  }

  lemma AlphabetIsBijective(n: Sextet, c: char)
    ensures InAlphabet(CharOf(n)) && ValueOf(CharOf(n)) == n
    ensures InAlphabet(c) ==> CharOf(ValueOf(c)) == c
  {
  }

  // Three bytes as four characters, and back.
  function Quad(a: Byte, b: Byte, c: Byte): (q: string)
    ensures |q| == 4 && forall i :: 0 <= i < 4 ==> InAlphabet(q[i])
  {
    AlphabetIsBijective(a / 4, 'A');
    AlphabetIsBijective(a % 4 * 16 + b / 16, 'A');
    AlphabetIsBijective(b % 16 * 4 + c / 64, 'A');
    AlphabetIsBijective(c % 64, 'A');
    [CharOf(a / 4), CharOf(a % 4 * 16 + b / 16), CharOf(b % 16 * 4 + c / 64), CharOf(c % 64)]
  }

  function Triple(a: Sextet, b: Sextet, c: Sextet, d: Sextet): (t: Bytes)
    ensures |t| == 3
  {
    [a * 4 + b / 16, b % 16 * 16 + c / 4, c % 4 * 64 + d]
  }

  /** `_b64`: three bytes make four characters, a rest of one or two bytes makes two or three. */
  function B64(x: Bytes): string {
    if x == [] then ""
    else if |x| == 1 then [CharOf(x[0] / 4), CharOf(x[0] % 4 * 16)]
    else if |x| == 2 then [CharOf(x[0] / 4), CharOf(x[0] % 4 * 16 + x[1] / 16), CharOf(x[1] % 16 * 4)]
    else Quad(x[0], x[1], x[2]) + B64(x[3..])
  }

  predicate WellFormed(s: string) {
    (forall i :: 0 <= i < |s| ==> InAlphabet(s[i])) && |s| % 4 != 1
  }

  /** `b64decode` of the padded text: the bits of an incomplete last group that fill no byte are dropped. */
  function Decoded(s: string): Bytes
    requires WellFormed(s)
  {
    if s == "" then []
    else
      var a, b := ValueOf(s[0]), ValueOf(s[1]);
      if |s| == 2 then [a * 4 + b / 16]
      else
        var c := ValueOf(s[2]);
        if |s| == 3 then [a * 4 + b / 16, b % 16 * 16 + c / 4]
        else Triple(a, b, c, ValueOf(s[3])) + Decoded(s[4..])
  }

  /** `_decode`; None stands for the ValueError. */
  function Decode(s: string): Option<Bytes> {
    if s == "" || |s| > MAX_SEGMENT then None
    else if !WellFormed(s) then None
    else if B64(Decoded(s)) != s then None
    else Some(Decoded(s))
  }

  lemma BitsComeBack(a: Byte, b: Byte, c: Byte)
    ensures Triple(a / 4, a % 4 * 16 + b / 16, b % 16 * 4 + c / 64, c % 64) == [a, b, c]
  {
  }

  lemma QuadIsTriple(a: Byte, b: Byte, c: Byte)
    ensures var q := Quad(a, b, c);
            Triple(ValueOf(q[0]), ValueOf(q[1]), ValueOf(q[2]), ValueOf(q[3])) == [a, b, c]
  {
    var s0: Sextet, s1: Sextet, s2: Sextet, s3: Sextet := a / 4, a % 4 * 16 + b / 16, b % 16 * 4 + c / 64, c % 64;
    BitsComeBack(a, b, c);
    assert Quad(a, b, c) == [CharOf(s0), CharOf(s1), CharOf(s2), CharOf(s3)];
    hide CharOf, ValueOf, Triple, Quad;
    AlphabetIsBijective(s0, 'A');
    AlphabetIsBijective(s1, 'A');
    AlphabetIsBijective(s2, 'A');
    AlphabetIsBijective(s3, 'A');
  }

  lemma DecodedFirst(q: string, rest: string)
    requires |q| == 4 && (forall i :: 0 <= i < 4 ==> InAlphabet(q[i])) && WellFormed(rest)
    ensures WellFormed(q + rest)
    ensures Decoded(q + rest) == Triple(ValueOf(q[0]), ValueOf(q[1]), ValueOf(q[2]), ValueOf(q[3])) + Decoded(rest)
  {
    assert (q + rest)[4..] == rest;
    hide InAlphabet, ValueOf;
  }

  lemma TailDecodes(x: Bytes)
    requires 1 <= |x| <= 2
    ensures WellFormed(B64(x)) && |B64(x)| == |x| + 1 && Decoded(B64(x)) == x
  {
    AlphabetIsBijective(x[0] / 4, 'A');
    if |x| == 1 {
      AlphabetIsBijective(x[0] % 4 * 16, 'A');
    } else {
      AlphabetIsBijective(x[0] % 4 * 16 + x[1] / 16, 'A');
      AlphabetIsBijective(x[1] % 16 * 4, 'A');
    }
    hide CharOf, ValueOf, InAlphabet;
  }

  lemma {:induction false} B64Length(x: Bytes)
    ensures |B64(x)| == (|x| * 4 + 2) / 3
  {
    if |x| >= 3 {
      B64Length(x[3..]);
    }
    hide CharOf;
  }

  lemma {:induction false} B64Decodes(x: Bytes)
    ensures WellFormed(B64(x)) && Decoded(B64(x)) == x
  {
    if |x| >= 3 {
      B64Decodes(x[3..]);
      QuadIsTriple(x[0], x[1], x[2]);
      DecodedFirst(Quad(x[0], x[1], x[2]), B64(x[3..]));
      assert x == [x[0], x[1], x[2]] + x[3..];
      hide WellFormed, Decoded, Quad, Triple, CharOf, ValueOf, InAlphabet;
    } else if |x| > 0 {
      hide *;
      TailDecodes(x);
    }
  }

  /** Decoding undoes encoding, for everything whose encoding is within the limit. */
  lemma DecodeUndoesEncode(x: Bytes)
    requires x != [] && |B64(x)| <= MAX_SEGMENT
    ensures Decode(B64(x)) == Some(x) && |x| <= 3072
  {
    B64Decodes(x);
    B64Length(x);
  }

  /** A text is accepted exactly when it is the encoding of something, so no two texts decode to the same bytes. */
  lemma AcceptedIffCanonical(s: string)
    ensures Decode(s).Some? <==> |s| <= MAX_SEGMENT && exists x: Bytes :: x != [] && B64(x) == s
    ensures Decode(s).Some? ==> B64(Decode(s).value) == s
  {
    if Decode(s).Some? {
      assert B64(Decoded(s)) == s;
      assert Decoded(s) != [];
    }
    if |s| <= MAX_SEGMENT && exists x: Bytes :: x != [] && B64(x) == s {
      var x: Bytes :| x != [] && B64(x) == s;
      DecodeUndoesEncode(x);
    }
  }

  lemma SameDecodingSameText(s: string, t: string)
    requires Decode(s).Some? && Decode(t) == Decode(s)
    ensures s == t
  {
    AcceptedIffCanonical(s);
    AcceptedIffCanonical(t);
  }

  /** The examples of section 10 of RFC 4648, without padding, and one with the two characters of its own. */
  lemma KnownEncodings()
    ensures B64([]) == "" && B64([102]) == "Zg" && B64([102, 111]) == "Zm8" && B64([102, 111, 111]) == "Zm9v"
    ensures B64([102, 111, 111, 98]) == "Zm9vYg" && B64([102, 111, 111, 98, 97]) == "Zm9vYmE"
    ensures B64([102, 111, 111, 98, 97, 114]) == "Zm9vYmFy"
    ensures B64([251, 239, 255]) == "--__"
  {
    assert [102, 111, 111, 98][3..] == [98];
    assert [102, 111, 111, 98, 97][3..] == [98, 97];
    assert [102, 111, 111, 98, 97, 114][3..] == [98, 97, 114];
  }
}
