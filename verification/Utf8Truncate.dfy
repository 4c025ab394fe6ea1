/**
 Truncation of error messages at a byte limit without cutting a character
 (integrations/alga-agent-sdk-go/client.go).  Well-formedness is that of section 3
 of RFC 3629.
 */
module Utf8Truncate {

  import opened Common

  type Byte = b: int | 0 <= b < 256

  /** A byte in the range of continuation bytes. */
  predicate Tail(b: Byte) { 0x80 <= b < 0xC0 }

  /** utf8.RuneStart */
  predicate RuneStart(b: Byte) { !Tail(b) }

  /** The length of the well-formed character at the start of the bytes; zero if
      there is none. */
  function Lead(s: seq<Byte>): (n: nat)
    ensures n <= |s| && n <= 4
  {
    if s == [] then 0
    else if s[0] < 0x80 then 1
    else if 0xC2 <= s[0] <= 0xDF && |s| >= 2 && Tail(s[1]) then 2
    else if |s| >= 3 && Tail(s[2]) && ThreeStart(s[0], s[1]) then 3
    else if |s| >= 4 && Tail(s[2]) && Tail(s[3]) && FourStart(s[0], s[1]) then 4
    else 0
  }

  predicate ThreeStart(a: Byte, b: Byte) {
    || (a == 0xE0 && 0xA0 <= b <= 0xBF)
    || (0xE1 <= a <= 0xEC && Tail(b))
    || (a == 0xED && 0x80 <= b <= 0x9F)
    || (0xEE <= a <= 0xEF && Tail(b))
  }

  predicate FourStart(a: Byte, b: Byte) {
    || (a == 0xF0 && 0x90 <= b <= 0xBF)
    || (0xF1 <= a <= 0xF3 && Tail(b))
    || (a == 0xF4 && 0x80 <= b <= 0x8F)
  }

  predicate Valid(s: seq<Byte>)
    decreases |s|
  {
    s == [] || (Lead(s) > 0 && Valid(s[Lead(s)..]))
  }

  /** The first character of valid text: a start byte and its tails, which no
      shorter prefix completes. */
  lemma {:induction false} LeadShape(s: seq<Byte>, k: nat)
    requires s != [] && Lead(s) > 0 && k <= |s|
    ensures RuneStart(s[0])
    ensures forall i :: 0 < i < Lead(s) ==> Tail(s[i])
    ensures k < Lead(s) ==> Lead(s[..k]) == 0
    ensures k >= Lead(s) ==> Lead(s[..k]) == Lead(s)
  {
  }

  /** In valid text, a prefix is valid exactly if the byte after it starts a
      character. */
  lemma {:induction false} BoundaryIsRuneStart(s: seq<Byte>, k: nat)
    requires Valid(s) && k <= |s|
    ensures Valid(s[..k]) <==> k == |s| || RuneStart(s[k])
    decreases |s|
  {
    if s == [] {
    } else if k == 0 {
      LeadShape(s, k);
    } else {
      var n := Lead(s);
      LeadShape(s, k);
      if k >= n {
        BoundaryIsRuneStart(s[n..], k - n);
        assert s[..k][n..] == s[n..][..k - n];
        assert k < |s| ==> s[n..][k - n] == s[k];
      }
    }
  }

  /** Four bytes of valid text in a row contain the start of a character. */
  lemma {:induction false} NoFourTails(s: seq<Byte>, i: nat)
    requires Valid(s) && i + 4 <= |s|
    ensures RuneStart(s[i]) || RuneStart(s[i+1]) || RuneStart(s[i+2]) || RuneStart(s[i+3])
    decreases |s|
  {
    var n := Lead(s);
    LeadShape(s, 0);
    if i >= n {
      NoFourTails(s[n..], i - n);
    } else if n < |s| {
      LeadShape(s[n..], 0);
      assert s[n..][0] == s[n];
      assert i < n <= i + 3 || i == 0;
    }
  }

  /** `r` is the longest valid prefix of `s` with at most `n` bytes. */
  ghost predicate LongestValidPrefix(s: seq<Byte>, n: int, r: seq<Byte>) {
    && r <= s && |r| <= n && Valid(r)
    && forall k :: |r| < k <= Min(n, |s|) ==> !Valid(s[..k])
  }

  /** The end of the backward walk in text of any kind. */
  ghost predicate CutAt(s: seq<Byte>, n: int, cut: int)
    requires 0 <= n < |s|
  {
    && 0 <= cut <= n
    && (cut > 0 ==> RuneStart(s[cut]))
    && forall j :: cut < j <= n ==> Tail(s[j])
  }

  lemma {:induction false} CutIsLongest(s: seq<Byte>, n: int, cut: int)
    requires 0 <= n < |s| && CutAt(s, n, cut) && Valid(s)
    ensures LongestValidPrefix(s, n, s[..cut])
    ensures n - cut <= 3
  {
    forall k | 0 <= k <= n ensures Valid(s[..k]) <==> RuneStart(s[k]) {
      BoundaryIsRuneStart(s, k);
    }
    LeadShape(s, 0);
    if n - cut > 3 {
      NoFourTails(s, cut + 1);
      assert false;
    }
  }

  method Truncate(s: seq<Byte>, limit: int) returns (r: seq<Byte>)
    requires 0 <= limit
    ensures |s| <= limit ==> r == s
    ensures |s| > limit ==> r <= s && CutAt(s, limit, |r|)
    ensures Valid(s) ==> LongestValidPrefix(s, limit, r) && |r| >= Min(limit, |s|) - 3
  {
    if |s| <= limit {
      return s;
    }
    var n := limit;
    while n > 0 && !RuneStart(s[n])
      invariant 0 <= n <= limit
      invariant forall j :: n < j <= limit ==> Tail(s[j])
    {
      n := n - 1;
    }
    if Valid(s) {
      CutIsLongest(s, limit, n);
    }
    return s[..n];
  }

  // ------------------------------------------------------------ code points

  /** Unicode scalar values. */
  predicate Scalar(c: int) { 0 <= c < 0x11_0000 && !(0xD800 <= c < 0xE000) }

  /** The encoding of section 3 of RFC 3629. */
  function Encode(c: int): (s: seq<Byte>)
    requires Scalar(c)
  {
    if c < 0x80 then [c]
    else if c < 0x800 then [0xC0 + c / 64, 0x80 + c % 64]
    else if c < 0x1_0000 then [0xE0 + c / 4096, 0x80 + c / 64 % 64, 0x80 + c % 64]
    else [0xF0 + c / 262_144, 0x80 + c / 4096 % 64, 0x80 + c / 64 % 64, 0x80 + c % 64]
  }

  function EncodeAll(cs: seq<int>): seq<Byte>
    requires forall c :: c in cs ==> Scalar(c)
  {
    if cs == [] then [] else Encode(cs[0]) + EncodeAll(cs[1..])
  }

  lemma {:induction false} EncodeLead(c: int, rest: seq<Byte>)
    requires Scalar(c)
    ensures Lead(Encode(c) + rest) == |Encode(c)| > 0
  {
  }

  lemma {:induction false} EncodedIsValid(cs: seq<int>)
    requires forall c :: c in cs ==> Scalar(c)
    ensures Valid(EncodeAll(cs))
  {
    if cs != [] {
      var rest := EncodeAll(cs[1..]);
      EncodeLead(cs[0], rest);
      EncodedIsValid(cs[1..]);
      assert (Encode(cs[0]) + rest)[|Encode(cs[0])|..] == rest;
    }
  }

  lemma {:induction false} DecodeTwo(a: int, b: int)
    requires 2 <= a < 32 && 0 <= b < 64
    ensures var c := a * 64 + b; Scalar(c) && Encode(c) == [0xC0 + a, 0x80 + b]
  {
  }

  lemma {:induction false} DecodeThree(a: int, b: int, d: int)
    requires 0 <= a < 16 && 0 <= b < 64 && 0 <= d < 64
    requires (a == 0 ==> b >= 0x20) && (a == 13 ==> b < 0x20)
    ensures var c := a * 4096 + b * 64 + d; Scalar(c) && Encode(c) == [0xE0 + a, 0x80 + b, 0x80 + d]
  {
    var c := a * 4096 + b * 64 + d;
    assert c / 4096 == a && c / 64 == a * 64 + b && c % 64 == d;
    assert (a * 64 + b) % 64 == b;
  }

  lemma {:induction false} DecodeFour(a: int, b: int, d: int, e: int)
    requires 0 <= a < 5 && 0 <= b < 64 && 0 <= d < 64 && 0 <= e < 64
    requires (a == 0 ==> b >= 0x10) && (a == 4 ==> b < 0x10)
    ensures var c := a * 262_144 + b * 4096 + d * 64 + e;
            Scalar(c) && Encode(c) == [0xF0 + a, 0x80 + b, 0x80 + d, 0x80 + e]
  {
    var c := a * 262_144 + b * 4096 + d * 64 + e;
    assert c / 262_144 == a && c / 4096 == a * 64 + b;
    assert c / 64 == (a * 64 + b) * 64 + d && c % 64 == e;
    assert (a * 64 + b) % 64 == b && ((a * 64 + b) * 64 + d) % 64 == d;
  }

  lemma {:induction false} LeadDecodes(s: seq<Byte>) returns (c: int)
    requires Lead(s) > 0
    ensures Scalar(c) && Encode(c) == s[..Lead(s)]
  {
    var n := Lead(s);
    if n == 1 {
      c := s[0];
    } else if n == 2 {
      var a: int, b: int := s[0] - 0xC0, s[1] - 0x80;
      DecodeTwo(a, b);
      c := a * 64 + b;
    } else if n == 3 {
      var a: int, b: int, d: int := s[0] - 0xE0, s[1] - 0x80, s[2] - 0x80;
      DecodeThree(a, b, d);
      c := a * 4096 + b * 64 + d;
    } else {
      var a: int, b: int, d: int, e: int := s[0] - 0xF0, s[1] - 0x80, s[2] - 0x80, s[3] - 0x80;
      DecodeFour(a, b, d, e);
      c := a * 262_144 + b * 4096 + d * 64 + e;
    }
  }

  lemma {:induction false} ValidDecodes(s: seq<Byte>) returns (cs: seq<int>)
    requires Valid(s)
    ensures (forall c :: c in cs ==> Scalar(c)) && EncodeAll(cs) == s
    decreases |s|
  {
    if s == [] {
      cs := [];
    } else {
      var n := Lead(s);
      var c := LeadDecodes(s);
      var rest := ValidDecodes(s[n..]);
      cs := [c] + rest;
      assert cs[1..] == rest && s == s[..n] + s[n..];
    }
  }

  ghost predicate Encodes(s: seq<Byte>, cs: seq<int>) { (forall c :: c in cs ==> Scalar(c)) && EncodeAll(cs) == s }

  /** Valid text is exactly what sequences of code points encode to. */
  lemma {:induction false} ValidIffEncoded(s: seq<Byte>)
    ensures Valid(s) <==> exists cs :: Encodes(s, cs)
  {
    if Valid(s) {
      var cs := ValidDecodes(s);
      assert Encodes(s, cs);
    }
    if cs :| Encodes(s, cs) {
      EncodedIsValid(cs);
    }
  }
}
