/**
 Sanitizing text supplied by an authorization server (internal/oauth/sanitize.go), and
 the truncation it gets before it is shown (internal/login/login.go, truncate).
 */
module Sanitize {
  import opened Utf8

  const MAX_AS_TEXT_BYTES := 4096

  predicate IsUnicodeFormatHazard(r: int) {
    || 0x200B <= r <= 0x200F
    || 0x202A <= r <= 0x202E
    || 0x2066 <= r <= 0x2069
    || r == 0xFEFF
  }

  /** The code points that reach the terminal. */
  predicate Kept(r: int) {
    if r == 0x09 then true
    else if r < 0x20 || r == 0x7F then false
    else if r == 0x85 || r == 0x2028 || r == 0x2029 then false
    else !IsUnicodeFormatHazard(r)
  }

  function KeptRunes(runes: seq<int>): (kept: seq<int>)
    ensures forall r :: r in kept <==> r in runes && Kept(r)
  {
    if runes == [] then []
    else (if Kept(runes[0]) then [runes[0]] else []) + KeptRunes(runes[1..])
  }

  function Capped(s: seq<Byte>): seq<Byte> {
    if |s| > MAX_AS_TEXT_BYTES then s[..MAX_AS_TEXT_BYTES] else s
  }

  /** What sanitizing is: the kept runes of the capped text, encoded. */
  function Sanitized(s: seq<Byte>): seq<Byte> {
    EncodeAll(KeptRunes(Runes(Capped(s))))
  }

  method SanitizeASText(text: seq<Byte>) returns (out: seq<Byte>)
    ensures out == Sanitized(text)
  {
    hide EncodeRune, EncodeAll, KeptRunes, Runes, Kept;
    NothingKept();
    if text == [] {
      return [];
    }
    var s := text;
    if |s| > MAX_AS_TEXT_BYTES {
      s := s[..MAX_AS_TEXT_BYTES];
    }
    out := [];
    var i := 0;
    assert s[0..] == s && s[|s|..] == [];
    assert out + EncodeAll(KeptRunes(Runes(s))) == EncodeAll(KeptRunes(Runes(s)));
    while i < |s|
      invariant 0 <= i <= |s|
      invariant Sanitized(text) == out + EncodeAll(KeptRunes(Runes(s[i..])))
    {
      SanitizeStep(s, i, out);
      var (r, size) := DecodeRune(s[i..]);
      if r == RUNE_ERROR && size == 1 {
        i := i + 1;
        continue;
      }
      if Kept(r) {
        out := out + EncodeRune(r);
      }
      i := i + size;
    }
  }

  // One turn of the loop.
  lemma SanitizeStep(s: seq<Byte>, i: nat, out: seq<Byte>)
    requires i < |s|
    ensures var (r, size) := DecodeRune(s[i..]);
            var all := out + EncodeAll(KeptRunes(Runes(s[i..])));
            if InvalidFront(s[i..]) then all == out + EncodeAll(KeptRunes(Runes(s[i + 1..])))
            else if Kept(r) then all == out + EncodeRune(r) + EncodeAll(KeptRunes(Runes(s[i + size..])))
            else all == out + EncodeAll(KeptRunes(Runes(s[i + size..])))
  {
    hide DecodeRune, EncodeRune, Kept, InvalidFront, EncodeAll, Runes;
    var (r, size) := DecodeRune(s[i..]);
    RunesStep(s[i..]);
    assert s[i..][1..] == s[i + 1..] && s[i..][size..] == s[i + size..];
    KeptCons(r, Runes(s[i + size..]));
  }

  lemma RunesStep(s: seq<Byte>)
    requires s != []
    ensures Runes(s) == if InvalidFront(s) then Runes(s[1..]) else [DecodeRune(s).0] + Runes(s[DecodeRune(s).1..])
  {
  }

  lemma KeptCons(r: int, rest: seq<int>)
    requires Scalar(r) && forall x :: x in rest ==> Scalar(x)
    ensures KeptRunes([r] + rest) == (if Kept(r) then [r] else []) + KeptRunes(rest)
    ensures EncodeAll(KeptRunes([r] + rest)) == (if Kept(r) then EncodeRune(r) else []) + EncodeAll(KeptRunes(rest))
  {
    hide EncodeRune, Kept;
    assert ([r] + rest)[1..] == rest;
    if Kept(r) {
      assert ([r] + KeptRunes(rest))[1..] == KeptRunes(rest);
    } else {
      assert [] + KeptRunes(rest) == KeptRunes(rest);
    }
  }

  // ----- What a terminal reader relies on -----

  /** The text that is shown is valid UTF-8 and holds no listed code point, whatever bytes
      came in and wherever the cap cut them. */
  lemma OutputIsClean(s: seq<Byte>)
    ensures ValidUtf8(Sanitized(s))
    ensures forall r :: r in Runes(Sanitized(s)) ==> Kept(r)
    ensures Runes(Sanitized(s)) == KeptRunes(Runes(Capped(s)))
  {
    RunesOfEncoded(KeptRunes(Runes(Capped(s))));
  }

  /** The code points that the output never holds: controls but the tab, separators that a terminal
      takes for line breaks, and characters that reorder or hide text. */
  predicate Hazardous(r: int) {
    || (0x00 <= r <= 0x08) || (0x0A <= r <= 0x1F) || r == 0x7F
    || r == 0x85 || r == 0x2028 || r == 0x2029
    || (0x200B <= r <= 0x200F) || (0x202A <= r <= 0x202E) || (0x2066 <= r <= 0x2069) || r == 0xFEFF
  }

  lemma NothingHazardous(s: seq<Byte>)
    ensures forall r :: r in Runes(Sanitized(s)) ==> Scalar(r) && !Hazardous(r)
  {
    hide Sanitized;
    OutputIsClean(s);
  }

  /** And no other code point is dropped. */
  lemma {:induction false} OnlyHazardsDropped(runes: seq<int>)
    requires forall r :: r in runes ==> Scalar(r)
    ensures forall r :: r in runes && !Hazardous(r) ==> r in KeptRunes(runes)
    ensures (forall r :: r in runes ==> !Hazardous(r)) ==> KeptRunes(runes) == runes
  {
    if runes != [] {
      assert runes == [runes[0]] + runes[1..];
      OnlyHazardsDropped(runes[1..]);
      assert runes[0] in runes;
      assert Kept(runes[0]) <==> !Hazardous(runes[0]);
    }
  }

  predicate Subsequence(a: seq<Byte>, b: seq<Byte>) {
    if a == [] then true
    else if b == [] then false
    else if a[0] == b[0] then Subsequence(a[1..], b[1..])
    else Subsequence(a, b[1..])
  }

  // A common front, and a dropped byte.
  lemma {:induction false} SubsequenceFront(front: seq<Byte>, a: seq<Byte>, b: seq<Byte>)
    requires Subsequence(a, b)
    ensures Subsequence(front + a, front + b)
  {
    if front == [] {
      assert front + a == a && front + b == b;
    } else {
      SubsequenceFront(front[1..], a, b);
      assert (front + a)[1..] == front[1..] + a && (front + b)[1..] == front[1..] + b;
    }
  }

  lemma {:induction false} SubsequenceTail(a: seq<Byte>, b: seq<Byte>)
    requires a != [] && Subsequence(a, b)
    ensures Subsequence(a[1..], b)
    decreases |b|, 0
  {
    assert b == [b[0]] + b[1..];
    if a[0] != b[0] {
      SubsequenceTail(a, b[1..]);
    }
    SubsequenceDrop(a[1..], b[1..], b[0]);
  }

  lemma {:induction false} SubsequenceDrop(a: seq<Byte>, b: seq<Byte>, x: Byte)
    requires Subsequence(a, b)
    ensures Subsequence(a, [x] + b)
    decreases |b|, 1
  {
    assert ([x] + b)[1..] == b;
    if a != [] && a[0] == x {
      SubsequenceTail(a, b);
    }
  }

  lemma {:induction false} SubsequenceMore(a: seq<Byte>, front: seq<Byte>, b: seq<Byte>)
    requires Subsequence(a, b)
    ensures Subsequence(a, front + b)
  {
    if front == [] {
      assert front + b == b;
    } else {
      SubsequenceMore(a, front[1..], b);
      SubsequenceDrop(a, front[1..] + b, front[0]);
      assert front + b == [front[0]] + (front[1..] + b);
    }
  }

  lemma {:induction false} KeptIsSubsequence(s: seq<Byte>)
    ensures Subsequence(EncodeAll(KeptRunes(Runes(s))), s)
    decreases |s|
  {
    hide EncodeRune, DecodeRune, Kept, InvalidFront, Runes, KeptRunes, EncodeAll;
    if s == [] {
      NothingKept();
    } else {
      RunesStep(s);
      var k := if InvalidFront(s) then 1 else DecodeRune(s).1;
      var rest := EncodeAll(KeptRunes(Runes(s[k..])));
      KeptIsSubsequence(s[k..]);
      assert s == s[..k] + s[k..];
      if !InvalidFront(s) {
        KeptCons(DecodeRune(s).0, Runes(s[k..]));
        EncodeDecoded(s);
        assert [] + rest == rest;
        SubsequenceFront(s[..k], rest, s[k..]);
      }
      SubsequenceMore(rest, s[..k], s[k..]);
    }
  }

  lemma NothingKept()
    ensures EncodeAll(KeptRunes(Runes([]))) == []
  {
  }

  /** Sanitizing only drops bytes, and never leaves more than the cap. */
  lemma OutputIsSubsequence(s: seq<Byte>)
    ensures Subsequence(Sanitized(s), s)
    ensures |Sanitized(s)| <= 4096
  {
    KeptIsSubsequence(Capped(s));
    SubsequenceLength(Sanitized(s), Capped(s));
    SubsequencePrefix(Sanitized(s), Capped(s), s[|Capped(s)|..]);
    assert s == Capped(s) + s[|Capped(s)|..];
  }

  lemma {:induction false} SubsequenceLength(a: seq<Byte>, b: seq<Byte>)
    requires Subsequence(a, b)
    ensures |a| <= |b|
    decreases |b|
  {
    if a != [] {
      SubsequenceLength(if a[0] == b[0] then a[1..] else a, b[1..]);
    }
  }

  lemma {:induction false} SubsequencePrefix(a: seq<Byte>, b: seq<Byte>, tail: seq<Byte>)
    requires Subsequence(a, b)
    ensures Subsequence(a, b + tail)
    decreases |b|
  {
    if a != [] {
      assert (b + tail)[1..] == b[1..] + tail;
      SubsequencePrefix(if a[0] == b[0] then a[1..] else a, b[1..], tail);
    }
  }

  lemma {:induction false} KeptAll(runes: seq<int>)
    requires forall r :: r in runes ==> Kept(r)
    ensures KeptRunes(runes) == runes
  {
    if runes != [] {
      KeptAll(runes[1..]);
    }
  }

  /** Sanitizing leaves alone exactly the clean valid texts within the cap. */
  lemma UnchangedIff(s: seq<Byte>)
    ensures Sanitized(s) == s <==>
            |s| <= 4096 && ValidUtf8(s) && forall r :: r in Runes(s) ==> Kept(r)
  {
    OutputIsClean(s);
    OutputIsSubsequence(s);
    if |s| <= MAX_AS_TEXT_BYTES && ValidUtf8(s) && forall r :: r in Runes(s) ==> Kept(r) {
      KeptAll(Runes(s));
      ValidIffReencodes(s);
    }
  }

  /** A second pass changes nothing. */
  lemma Idempotent(s: seq<Byte>)
    ensures Sanitized(Sanitized(s)) == Sanitized(s)
  {
    OutputIsClean(s);
    OutputIsSubsequence(s);
    UnchangedIff(Sanitized(s));
  }

  // ----- Truncation for display -----

  // U+2026 in UTF-8.
  const ELLIPSIS: seq<Byte> := [0xE2, 0x80, 0xA6]

  /** truncate in internal/login/login.go: a cut by bytes, not by runes. */
  function Truncate(s: seq<Byte>, max: nat): seq<Byte> {
    if |s| <= max then s else s[..max] + ELLIPSIS
  }

  /** The truncated text is valid exactly when it was short enough or the cut did not split a rune:
      what validateCallbackResult shows can end in a broken rune. */
  lemma TruncateValidIff(s: seq<Byte>, max: nat)
    requires ValidUtf8(s)
    ensures ValidUtf8(Truncate(s, max)) <==> |s| <= max || !Tail(s[max])
  {
    if |s| > max {
      CutValidIff(s, max);
      EllipsisValidIff(s[..max]);
    }
  }

  // Behind a whole text the ellipsis is fine; behind a broken rune it does not repair it.
  lemma {:induction false} EllipsisValidIff(s: seq<Byte>)
    ensures ValidUtf8(s + ELLIPSIS) <==> ValidUtf8(s)
    decreases |s|
  {
    hide EncodeRune, DecodeRune, ValidUtf8, InvalidFront;
    if s == [] {
      EllipsisIsRune();
      ValidEmpty();
      ValidConsIff(0x2026, []);
      assert EncodeRune(0x2026) + [] == ELLIPSIS && s + ELLIPSIS == ELLIPSIS;
    } else {
      FrontBeforeEllipsis(s);
      if InvalidFront(s) {
        if ValidUtf8(s + ELLIPSIS) {
          ValidFront(s + ELLIPSIS);
        }
        if ValidUtf8(s) {
          ValidFront(s);
        }
      } else {
        var (r, k) := DecodeRune(s);
        EncodeDecoded(s);
        EllipsisValidIff(s[k..]);
        assert s == EncodeRune(r) + s[k..] && s + ELLIPSIS == EncodeRune(r) + (s[k..] + ELLIPSIS);
        ValidConsIff(r, s[k..]);
        ValidConsIff(r, s[k..] + ELLIPSIS);
      }
    }
  }

  lemma EllipsisIsRune()
    ensures EncodeRune(0x2026) == ELLIPSIS
  {
  }

  // A lead byte of U+2026 continues no rune.
  lemma FrontBeforeEllipsis(s: seq<Byte>)
    requires s != []
    ensures InvalidFront(s + ELLIPSIS) <==> InvalidFront(s)
  {
    assert forall i :: 0 <= i < |s| ==> (s + ELLIPSIS)[i] == s[i];
    assert (s + ELLIPSIS)[|s|] == 0xE2;
  }

  // ----- A cut that splits a rune -----

  const LETTER_X: Byte := 0x78
  const LETTER_E_ACUTE := 0xE9

  function Letters(n: nat): (runes: seq<int>)
    ensures forall r :: r in runes ==> r == LETTER_X || r == LETTER_E_ACUTE
  {
    if n == 0 then [LETTER_E_ACUTE] else [LETTER_X] + Letters(n - 1)
  }

  function LetterBytes(n: nat): seq<Byte> {
    if n == 0 then [0xC3, 0xA9] else [LETTER_X] + LetterBytes(n - 1)
  }

  lemma {:induction false} LettersEncoded(n: nat)
    ensures EncodeAll(Letters(n)) == LetterBytes(n)
    ensures |LetterBytes(n)| == n + 2 && LetterBytes(n)[n + 1] == 0xA9
  {
    if n == 0 {
      assert Letters(0)[1..] == [];
    } else {
      LettersEncoded(n - 1);
      assert Letters(n)[1..] == Letters(n - 1);
    }
  }

  /** 511 letters and an e with acute: clean text, and its display ends in half a rune. */
  lemma CutSplitsRune()
    ensures var s := LetterBytes(511);
            ValidUtf8(s) && Sanitized(s) == s && !ValidUtf8(Truncate(s, 512))
  {
    hide EncodeAll, Runes, Letters, LetterBytes, Truncate;
    var s := LetterBytes(511);
    LettersEncoded(511);
    RunesOfEncoded(Letters(511));
    ValidIffReencodes(s);
    UnchangedIff(s);
    TruncateValidIff(s, 512);
  }
}
