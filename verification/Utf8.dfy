/** UTF-8 as section 4 of RFC 3629 gives its byte sequences. */
module Utf8 {
  import opened Base

  predicate Tail(b: byte) { 0x80 <= b <= 0xbf }

  /** The range the second byte of a character has after the lead `b`. */
  predicate Second(b: byte, c: byte) {
    match b
    case 0xe0 => 0xa0 <= c <= 0xbf
    case 0xed => 0x80 <= c <= 0x9f
    case 0xf0 => 0x90 <= c <= 0xbf
    case 0xf4 => 0x80 <= c <= 0x8f
    case _ => Tail(c)
  }

  /** How many bytes the character with lead `b` has, or 0 when none starts so. */
  function Length(b: byte): nat {
    if b <= 0x7f then 1
    else if 0xc2 <= b <= 0xdf then 2
    else if 0xe0 <= b <= 0xef then 3
    else if 0xf0 <= b <= 0xf4 then 4
    else 0
  }

  /** Whether `s` is one well-formed character. */
  predicate IsChar(s: seq<byte>) {
    && |s| > 0 && |s| == Length(s[0])
    && (|s| > 1 ==> Second(s[0], s[1]))
    && forall i :: 2 <= i < |s| ==> Tail(s[i])
  }

  function CodePoint(s: seq<byte>): int
    requires IsChar(s)
  {
    var b: seq<int> := s;
    match |b|
    case 1 => b[0]
    case 2 => (b[0] - 0xc0) * 0x40 + (b[1] - 0x80)
    case 3 => ((b[0] - 0xe0) * 0x40 + (b[1] - 0x80)) * 0x40 + (b[2] - 0x80)
    case _ => (((b[0] - 0xf0) * 0x40 + (b[1] - 0x80)) * 0x40 + (b[2] - 0x80)) * 0x40 + (b[3] - 0x80)
  }

  /** The code points of `s`, or nothing when it is not well formed. */
  function Decode(s: seq<byte>): Option<seq<int>> {
    if s == [] then Some([])
    else
      var n := Length(s[0]);
      if n == 0 || n > |s| || !IsChar(s[..n]) then None
      else match Decode(s[n..])
        case None => None
        case Some(rest) => Some([CodePoint(s[..n])] + rest)
  }

  /** The C1 controls. */
  predicate IsC1(c: int) { 0x80 <= c <= 0x9f }

  lemma DecodeCons(c: seq<byte>, rest: seq<byte>)
    requires IsChar(c)
    ensures Decode(c + rest) ==
            match Decode(rest) case None => None case Some(r) => Some([CodePoint(c)] + r)
  {
    assert (c + rest)[..|c|] == c && (c + rest)[|c|..] == rest;
  }

  lemma DecodeFirst(a: seq<byte>)
    requires a != [] && Decode(a).Some?
    ensures var n := Length(a[0]);
      && 0 < n <= |a| && IsChar(a[..n]) && Decode(a[n..]).Some?
      && Decode(a).value == [CodePoint(a[..n])] + Decode(a[n..]).value
  {}

  /** Well-formed texts decode piece by piece. */
  lemma {:induction false} DecodeConcat(a: seq<byte>, b: seq<byte>)
    requires Decode(a).Some? && Decode(b).Some?
    ensures Decode(a + b) == Some(Decode(a).value + Decode(b).value)
    decreases |a|
  {
    if a == [] {
      assert a + b == b && [] + Decode(b).value == Decode(b).value;
    } else {
      var n := Length(a[0]);
      DecodeFirst(a);
      DecodeConcat(a[n..], b);
      DecodeJoin(a, n, b);
      var first := [CodePoint(a[..n])];
      assert first + (Decode(a[n..]).value + Decode(b).value) == (first + Decode(a[n..]).value) + Decode(b).value;
    }
  }

  lemma DecodeJoin(a: seq<byte>, n: nat, b: seq<byte>)
    requires n <= |a| && IsChar(a[..n]) && Decode(a[n..] + b).Some?
    ensures Decode(a + b) == Some([CodePoint(a[..n])] + Decode(a[n..] + b).value)
  {
    assert a + b == a[..n] + (a[n..] + b);
    DecodeCons(a[..n], a[n..] + b);
  }

  /** Bytes below 0x80 are their own code points. */
  lemma {:induction false} DecodeAscii(s: seq<byte>)
    requires forall i :: 0 <= i < |s| ==> s[i] < 0x80
    ensures Decode(s) == Some(s)
  {
    if s != [] {
      DecodeAscii(s[1..]);
      DecodeCons([s[0]], s[1..]);
      assert s == [s[0]] + s[1..];
    }
  }

  /** Two bytes encode a C1 control exactly when the lead is 0xc2 and the second byte
      is below 0xa0; no longer character does. */
  lemma CodePointRange(s: seq<byte>)
    requires IsChar(s) && |s| > 1
    ensures CodePoint(s) >= 0x80
    ensures IsC1(CodePoint(s)) <==> s[0] == 0xc2 && s[1] < 0xa0
  {}
}
