/** UTF-8 as Go's unicode/utf8 reads and writes it; section 4 of RFC 3629. */
module Utf8 {

  type Byte = b: int | 0 <= b < 256

  const RUNE_ERROR := 0xFFFD

  predicate Scalar(r: int) {
    0 <= r < 0xD800 || 0xE000 <= r < 0x110000
  }

  predicate Tail(b: Byte) {
    0x80 <= b <= 0xBF
  }

  // The second byte that may follow a three- or four-byte lead.
  predicate Second(b0: Byte, b1: Byte) {
    if b0 == 0xE0 then 0xA0 <= b1 <= 0xBF
    else if b0 == 0xED then 0x80 <= b1 <= 0x9F
    else if b0 == 0xF0 then 0x90 <= b1 <= 0xBF
    else if b0 == 0xF4 then 0x80 <= b1 <= 0x8F
    else Tail(b1)
  }

  function Join2(a: int, b: int): int {
    (a - 0xC0) * 0x40 + (b - 0x80)
  }

  function Join3(a: int, b: int, c: int): int {
    (a - 0xE0) * 0x1000 + (b - 0x80) * 0x40 + (c - 0x80)
  }

  function Join4(a: int, b: int, c: int, d: int): int {
    (a - 0xF0) * 0x40000 + (b - 0x80) * 0x1000 + (c - 0x80) * 0x40 + (d - 0x80)
  }

  /** utf8.DecodeRuneInString: the first rune and its size, or (RUNE_ERROR, 1) on a byte
      that begins no valid sequence, or (RUNE_ERROR, 0) on no bytes. */
  function DecodeRune(s: seq<Byte>): (res: (int, nat))
    ensures res.1 <= |s| && (s != [] ==> 1 <= res.1 <= 4)
    ensures Scalar(res.0)
  {
    if s == [] then (RUNE_ERROR, 0)
    else if s[0] < 0x80 then (s[0], 1)
    else if 0xC2 <= s[0] <= 0xDF && |s| >= 2 && Tail(s[1]) then
      (Join2(s[0], s[1]), 2)
    else if 0xE0 <= s[0] <= 0xEF && |s| >= 3 && Second(s[0], s[1]) && Tail(s[2]) then
      (Join3(s[0], s[1], s[2]), 3)
    else if 0xF0 <= s[0] <= 0xF4 && |s| >= 4 && Second(s[0], s[1]) && Tail(s[2]) && Tail(s[3]) then
      (Join4(s[0], s[1], s[2], s[3]), 4)
    else (RUNE_ERROR, 1)
  }

  /** utf8.AppendRune for a scalar value. */
  function EncodeRune(r: int): (bytes: seq<Byte>)
    requires Scalar(r)
    ensures 1 <= |bytes| <= 4
  {
    if r < 0x80 then [r]
    else if r < 0x800 then [0xC0 + r / 0x40, 0x80 + r % 0x40]
    else if r < 0x10000 then [0xE0 + r / 0x1000, 0x80 + r / 0x40 % 0x40, 0x80 + r % 0x40]
    else [0xF0 + r / 0x40000, 0x80 + r / 0x1000 % 0x40, 0x80 + r / 0x40 % 0x40, 0x80 + r % 0x40]
  }

  /** The byte at the front of s begins no valid sequence. */
  predicate InvalidFront(s: seq<Byte>) {
    DecodeRune(s) == (RUNE_ERROR, 1)
  }

  // The six-bit groups of a number.
  lemma Groups(w: nat, x: nat, y: nat, z: nat, r: int)
    requires x < 0x40 && y < 0x40 && z < 0x40
    requires r == w * 0x40000 + x * 0x1000 + y * 0x40 + z
    ensures r % 0x40 == z && r / 0x40 % 0x40 == y && r / 0x1000 % 0x40 == x && r / 0x40000 == w
    ensures r / 0x1000 == w * 0x40 + x && r / 0x40 == w * 0x1000 + x * 0x40 + y
  {
    assert r / 0x40 == w * 0x1000 + x * 0x40 + y;
    assert r / 0x1000 == w * 0x40 + x;
  }

  lemma Encode2(a: Byte, b: Byte)
    requires 0xC2 <= a <= 0xDF && Tail(b)
    ensures EncodeRune(Join2(a, b)) == [a, b]
  {
    Groups(0, 0, a - 0xC0, b - 0x80, Join2(a, b));
  }

  lemma Encode3(a: Byte, b: Byte, c: Byte)
    requires 0xE0 <= a <= 0xEF && Second(a, b) && Tail(c)
    ensures Scalar(Join3(a, b, c)) && EncodeRune(Join3(a, b, c)) == [a, b, c]
  {
    Groups(0, a - 0xE0, b - 0x80, c - 0x80, Join3(a, b, c));
  }

  lemma EncodeGroups4(w: nat, x: nat, y: nat, z: nat, r: int)
    requires x < 0x40 && y < 0x40 && z < 0x40
    requires 0x10000 <= r == w * 0x40000 + x * 0x1000 + y * 0x40 + z < 0x110000
    ensures w <= 4 && EncodeRune(r) == [0xF0 + w, 0x80 + x, 0x80 + y, 0x80 + z]
  {
    Groups(w, x, y, z, r);
  }

  lemma Encode4(a: Byte, b: Byte, c: Byte, d: Byte)
    requires 0xF0 <= a <= 0xF4 && Second(a, b) && Tail(c) && Tail(d)
    ensures Scalar(Join4(a, b, c, d)) && EncodeRune(Join4(a, b, c, d)) == [a, b, c, d]
  {
    hide EncodeRune;
    var w, x, y, z := a - 0xF0 as int, b - 0x80 as int, c - 0x80 as int, d - 0x80 as int;
    assert 0x10000 <= Join4(a, b, c, d) < 0x110000;
    EncodeGroups4(w, x, y, z, Join4(a, b, c, d));
  }

  /** Encoding what was decoded gives back the bytes that were read. */
  lemma EncodeDecoded(s: seq<Byte>)
    requires s != [] && !InvalidFront(s)
    ensures EncodeRune(DecodeRune(s).0) == s[..DecodeRune(s).1]
  {
    hide EncodeRune, Join2, Join3, Join4;
    var k := DecodeRune(s).1;
    if k == 1 {
      EncodeAscii(s[0]);
      assert s[..1] == [s[0]];
    } else if k == 2 {
      Encode2(s[0], s[1]);
      assert s[..2] == [s[0], s[1]];
    } else if k == 3 {
      Encode3(s[0], s[1], s[2]);
      assert s[..3] == [s[0], s[1], s[2]];
    } else {
      Encode4(s[0], s[1], s[2], s[3]);
      assert s[..4] == [s[0], s[1], s[2], s[3]];
    }
  }

  lemma EncodeAscii(a: Byte)
    requires a < 0x80
    ensures EncodeRune(a) == [a]
  {
  }

  // A number is made of its six-bit groups.
  lemma Regroup(r: nat)
    ensures r == r / 0x40 * 0x40 + r % 0x40
    ensures r / 0x40 == r / 0x1000 * 0x40 + r / 0x40 % 0x40
    ensures r / 0x1000 == r / 0x40000 * 0x40 + r / 0x1000 % 0x40
  {
  }

  // The bytes of an encoded rune are in the ranges the decoder accepts.
  lemma Shape2(r: int)
    requires 0x80 <= r < 0x800
    ensures var e := EncodeRune(r); |e| == 2 && 0xC2 <= e[0] <= 0xDF && Tail(e[1]) && Join2(e[0], e[1]) == r
  {
    Regroup(r);
  }

  lemma Shape3(r: int)
    requires 0x800 <= r < 0x10000 && Scalar(r)
    ensures var e := EncodeRune(r);
            |e| == 3 && 0xE0 <= e[0] <= 0xEF && Second(e[0], e[1]) && Tail(e[2]) && Join3(e[0], e[1], e[2]) == r
  {
    Regroup(r);
  }

  lemma Shape4(r: int)
    requires 0x10000 <= r < 0x110000
    ensures var e := EncodeRune(r);
            && |e| == 4 && 0xF0 <= e[0] <= 0xF4 && Second(e[0], e[1]) && Tail(e[2]) && Tail(e[3])
            && Join4(e[0], e[1], e[2], e[3]) == r
  {
    Regroup(r);
  }

  /** Decoding an encoded rune gives the rune back, whatever follows. */
  lemma DecodeEncoded(r: int, rest: seq<Byte>)
    requires Scalar(r)
    ensures DecodeRune(EncodeRune(r) + rest) == (r, |EncodeRune(r)|)
    ensures !InvalidFront(EncodeRune(r) + rest)
  {
    hide EncodeRune, Join2, Join3, Join4, Second;
    var e, s := EncodeRune(r), EncodeRune(r) + rest;
    if r < 0x80 {
      EncodeAscii(r);
    } else if r < 0x800 {
      Shape2(r);
    } else if r < 0x10000 {
      Shape3(r);
    } else {
      Shape4(r);
    }
    assert forall i :: 0 <= i < |e| ==> s[i] == e[i];
  }

  // ----- Texts -----

  function EncodeAll(runes: seq<int>): seq<Byte>
    requires forall r :: r in runes ==> Scalar(r)
  {
    if runes == [] then [] else EncodeRune(runes[0]) + EncodeAll(runes[1..])
  }

  /** The runes of a byte string; bytes that begin no valid sequence are passed over. */
  function Runes(s: seq<Byte>): (runes: seq<int>)
    ensures forall r :: r in runes ==> Scalar(r)
  {
    if s == [] then []
    else if InvalidFront(s) then Runes(s[1..])
    else [DecodeRune(s).0] + Runes(s[DecodeRune(s).1..])
  }

  /** Valid UTF-8: the encoding of some scalar values. */
  ghost predicate ValidUtf8(s: seq<Byte>) {
    exists runes :: (forall r :: r in runes ==> Scalar(r)) && s == EncodeAll(runes)
  }

  lemma {:induction false} RunesOfEncoded(runes: seq<int>)
    requires forall r :: r in runes ==> Scalar(r)
    ensures Runes(EncodeAll(runes)) == runes
  {
    if runes != [] {
      var bytes, rest := EncodeRune(runes[0]), EncodeAll(runes[1..]);
      DecodeEncoded(runes[0], rest);
      assert (bytes + rest)[|bytes|..] == rest;
      RunesOfEncoded(runes[1..]);
    }
  }

  /** A text is valid exactly when decoding it and encoding the runes changes nothing. */
  lemma ValidIffReencodes(s: seq<Byte>)
    ensures ValidUtf8(s) <==> EncodeAll(Runes(s)) == s
  {
    if runes :| (forall r :: r in runes ==> Scalar(r)) && s == EncodeAll(runes) {
      RunesOfEncoded(runes);
    }
  }

  lemma ValidFront(s: seq<Byte>)
    requires s != [] && ValidUtf8(s)
    ensures !InvalidFront(s)
    ensures ValidUtf8(s[DecodeRune(s).1..])
  {
    var runes :| (forall r :: r in runes ==> Scalar(r)) && s == EncodeAll(runes);
    DecodeEncoded(runes[0], EncodeAll(runes[1..]));
    assert s[DecodeRune(s).1..] == EncodeAll(runes[1..]);
  }

  lemma ValidCons(r: int, s: seq<Byte>)
    requires Scalar(r) && ValidUtf8(s)
    ensures ValidUtf8(EncodeRune(r) + s)
  {
    var runes :| (forall r :: r in runes ==> Scalar(r)) && s == EncodeAll(runes);
    assert ([r] + runes)[1..] == runes;
    assert EncodeAll([r] + runes) == EncodeRune(r) + s;
  }

  lemma ValidEmpty()
    ensures ValidUtf8([])
  {
    assert EncodeAll([]) == [];
  }

  // A whole rune in front does not change validity.
  lemma ValidConsIff(r: int, s: seq<Byte>)
    requires Scalar(r)
    ensures ValidUtf8(EncodeRune(r) + s) <==> ValidUtf8(s)
  {
    hide EncodeRune, DecodeRune, ValidUtf8, InvalidFront;
    var t, k := EncodeRune(r) + s, |EncodeRune(r)|;
    DecodeEncoded(r, s);
    assert t[k..] == s;
    if ValidUtf8(t) {
      ValidFront(t);
    }
    if ValidUtf8(s) {
      ValidCons(r, s);
    }
  }

  // The bytes inside a rune are continuation bytes, and a rune cut short is invalid.
  lemma CutInsideRune(s: seq<Byte>, n: nat)
    requires s != [] && !InvalidFront(s) && n < DecodeRune(s).1
    ensures Tail(s[n]) <==> n > 0
    ensures n > 0 ==> InvalidFront(s[..n])
  {
  }

  /** Cutting a valid text at n bytes leaves valid text exactly when the next byte is
      not a continuation byte. */
  lemma {:induction false} CutValidIff(s: seq<Byte>, n: nat)
    requires ValidUtf8(s) && n < |s|
    ensures ValidUtf8(s[..n]) <==> !Tail(s[n])
    decreases n
  {
    hide EncodeRune, DecodeRune, ValidUtf8, InvalidFront, Tail;
    var (r, k) := DecodeRune(s);
    ValidFront(s);
    if n < k {
      CutInsideRune(s, n);
      ValidEmpty();
      assert s[..0] == [];
      if n > 0 && ValidUtf8(s[..n]) {
        ValidFront(s[..n]);
      }
    } else {
      var t := s[k..];
      EncodeDecoded(s);
      CutValidIff(t, n - k);
      assert t[n - k] == s[n];
      assert s[..n] == EncodeRune(r) + t[..n - k];
      ValidConsIff(r, t[..n - k]);
    }
  }
}
