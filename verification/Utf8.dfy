/** What becomes of a Go string, a sequence of bytes, when it is written as JSON and read back: bytes
    that are not part of well-formed UTF-8 come back as the replacement character. A char stands for
    a byte; those from 0x80 on do not occur alone in well-formed text. */
module Utf8 {
  /** U+FFFD, encoded. */
  const REPLACEMENT: string := [0xEF as char, 0xBF as char, 0xBD as char]

  predicate Ascii(c: char) { (c as int) < 0x80 }

  predicate Within(c: char, lo: int, hi: int) { lo <= c as int <= hi }

  predicate Continues(c: char) { Within(c, 0x80, 0xBF) }

  /** The byte after b in a three-byte character: no overlong forms, no surrogates. */
  predicate SecondOfThree(b: int, c: char) {
    if b == 0xE0 then Within(c, 0xA0, 0xBF) else if b == 0xED then Within(c, 0x80, 0x9F) else Continues(c)
  }

  /** The byte after b in a four-byte character: no overlong forms, nothing beyond U+10FFFF. */
  predicate SecondOfFour(b: int, c: char) {
    if b == 0xF0 then Within(c, 0x90, 0xBF) else if b == 0xF4 then Within(c, 0x80, 0x8F) else Continues(c)
  }

  /** The length of the character that s begins with; 0 when s does not begin with one. */
  function RuneLen(s: string): (n: nat)
    requires s != ""
    ensures n <= 4 && n <= |s|
  {
    var b := s[0] as int;
    if b < 0x80 then 1
    else if 0xC2 <= b <= 0xDF && |s| >= 2 && Continues(s[1]) then 2
    else if 0xE0 <= b <= 0xEF && |s| >= 3 && SecondOfThree(b, s[1]) && Continues(s[2]) then 3
    else if 0xF0 <= b <= 0xF4 && |s| >= 4 && SecondOfFour(b, s[1]) && Continues(s[2]) && Continues(s[3]) then 4
    else 0
  }

  /** Well-formed UTF-8. */
  predicate ValidText(s: string) { s == "" || (RuneLen(s) > 0 && ValidText(s[RuneLen(s)..])) }

  /** Written as JSON and read back. */
  function ToValid(s: string): string {
    if s == "" then ""
    else if RuneLen(s) > 0 then s[..RuneLen(s)] + ToValid(s[RuneLen(s)..])
    else REPLACEMENT + ToValid(s[1..])
  }

  lemma {:induction false} ToValidIsValid(s: string)
    ensures ValidText(ToValid(s))
  {
    if s != "" {
      var n := RuneLen(s);
      var head, rest := if n > 0 then s[..n] else REPLACEMENT, ToValid(if n > 0 then s[n..] else s[1..]);
      ToValidIsValid(if n > 0 then s[n..] else s[1..]);
      assert RuneLen(head + rest) == |head|;
      assert (head + rest)[|head|..] == rest;
    }
  }

  lemma {:induction false} ValidStays(s: string)
    requires ValidText(s)
    ensures ToValid(s) == s
  {
    if s != "" {
      var n := RuneLen(s);
      ValidStays(s[n..]);
      assert s == s[..n] + s[n..];
    }
  }

  /** Text survives exactly when it is well formed. */
  lemma SurvivesIffValid(s: string)
    ensures ToValid(s) == s <==> ValidText(s)
  {
    ToValidIsValid(s);
    if ValidText(s) { ValidStays(s); }
  }

  lemma RuneLenBefore(a: string, c: char, b: string)
    requires a != "" && Ascii(c)
    ensures RuneLen(a + [c] + b) == RuneLen(a)
  {
    var s := a + [c] + b;
    assert s[0] == a[0];
    assert |a| >= 2 ==> s[1] == a[1];
    assert |a| >= 3 ==> s[2] == a[2];
    assert |a| >= 4 ==> s[3] == a[3];
    assert |a| == 1 ==> s[1] == c;
    assert |a| == 2 ==> s[2] == c;
    assert |a| == 3 ==> s[3] == c;
  }

  /** An ASCII separator neither completes nor spoils what is on either side of it. */
  lemma {:induction false} ValidJoin(a: string, c: char, b: string)
    requires Ascii(c)
    ensures ValidText(a + [c] + b) <==> ValidText(a) && ValidText(b)
  {
    var s := a + [c] + b;
    if a == "" {
      assert s[1..] == b;
    } else {
      RuneLenBefore(a, c, b);
      var n := RuneLen(a);
      if n > 0 {
        assert s[n..] == a[n..] + [c] + b;
        ValidJoin(a[n..], c, b);
      }
    }
  }

  lemma {:induction false} AsciiIsValid(s: string)
    requires forall i | 0 <= i < |s| :: Ascii(s[i])
    ensures ValidText(s)
  {
    if s != "" { AsciiIsValid(s[1..]); }
  }

  /** A byte no character begins with: a continuation byte, or one that UTF-8 does not use. */
  predicate Stray(c: char) { 0x80 <= c as int < 0xC2 || 0xF5 <= c as int }

  /** What a string begins with, when that is whole characters, survives; a stray byte after it comes back as
      one replacement character, and what follows is read on its own. */
  lemma {:induction false} EachStrayByte(a: string, c: char, b: string)
    requires ValidText(a) && Stray(c)
    ensures ToValid(a + [c] + b) == a + REPLACEMENT + ToValid(b)
  {
    var s := a + [c] + b;
    if a == "" {
      assert s[1..] == b && RuneLen(s) == 0;
    } else {
      var n := RuneLen(a);
      RuneLenStays(a, s);
      Halves(a, n, [c], b);
      Halves(a, n, REPLACEMENT, ToValid(b));
      EachStrayByte(a[n..], c, b);
    }
  }

  lemma Halves(a: string, n: nat, x: string, b: string)
    requires n <= |a|
    ensures (a + x + b)[..n] == a[..n] && (a + x + b)[n..] == a[n..] + x + b
    ensures a[..n] + (a[n..] + x + b) == a + x + b
  {
  }

  lemma RuneLenStays(a: string, s: string)
    requires a != "" && a <= s && RuneLen(a) > 0
    ensures RuneLen(s) == RuneLen(a)
  {
    assert s[0] == a[0];
    assert |a| >= 2 ==> s[1] == a[1];
    assert |a| >= 3 ==> s[2] == a[2];
    assert |a| >= 4 ==> s[3] == a[3];
  }

  /** A stray byte does not survive, as in a request for /mcp/%FF. */
  lemma StrayByte()
    ensures !ValidText("/mcp/" + [0xFF as char])
  {
    var stray := [0xFF as char];
    assert "/mcp/" + stray == "/mcp" + ['/'] + stray;
    ValidJoin("/mcp", '/', stray);
    assert RuneLen(stray) == 0;
  }
}
