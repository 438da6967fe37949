/** Strings as the source builds and takes them apart: cutting at a separator,
    printing integers in decimal, and ordering strings byte by byte. */
module Text {
  import opened Wrappers

  // ----- Cutting at a separator (strings.Cut) -----

  predicate Occurs(s: string, sep: string, i: nat) {
    i + |sep| <= |s| && s[i..i + |sep|] == sep
  }

  /** The first occurrence of sep in s at or after from. */
  function Index(s: string, sep: string, from: nat): (r: Option<nat>)
    ensures r.Some? ==> from <= r.value && Occurs(s, sep, r.value)
    ensures r.Some? ==> forall j: nat | from <= j < r.value :: !Occurs(s, sep, j)
    ensures r.None? ==> forall j: nat | from <= j :: !Occurs(s, sep, j)
    decreases |s| - from
  {
    if Occurs(s, sep, from) then Some(from)
    else if from >= |s| then None
    else Index(s, sep, from + 1)
  }

  datatype Pieces = Pieces(before: string, after: string, found: bool)

  function Cut(s: string, sep: string): Pieces {
    match Index(s, sep, 0)
    case None => Pieces(s, "", false)
    case Some(i) => Pieces(s[..i], s[i + |sep|..], true)
  }

  /** Cutting divides at the first occurrence of the separator, or leaves all of it before. */
  lemma CutDivides(s: string, sep: string)
    ensures var c := Cut(s, sep);
            && (c.found <==> exists i: nat :: Occurs(s, sep, i))
            && (c.found ==> s == c.before + sep + c.after && forall i: nat | i < |c.before| :: !Occurs(s, sep, i))
            && (!c.found ==> c.before == s && c.after == "")
  {
    var r := Index(s, sep, 0);
    if r.Some? {
      var i := r.value;
      assert s == s[..i] + s[i..i + |sep|] + s[i + |sep|..];
    }
  }

  lemma CutShorter(c: char, a: string, u: string, b: string, v: string)
    requires |a| < |b| && c !in b
    ensures a + [c] + u != b + [c] + v
  {
    assert (a + [c] + u)[|a|] == c;
    assert (b + [c] + v)[|a|] == b[|a|];
  }

  /** Two texts that agree, each a piece free of c followed by c and a rest, agree piece by piece. */
  lemma CutUnique(c: char, a: string, u: string, b: string, v: string)
    requires c !in a && c !in b
    requires a + [c] + u == b + [c] + v
    ensures a == b && u == v
  {
    var x, y := a + [c] + u, b + [c] + v;
    if |a| < |b| { CutShorter(c, a, u, b, v); }
    if |b| < |a| { CutShorter(c, b, v, a, u); }
    assert a == x[..|a|] == y[..|b|] == b;
    assert u == x[|a| + 1..] == y[|b| + 1..] == v;
  }

  lemma LastCutShorter(c: char, a: string, u: string, b: string, v: string)
    requires |a| < |b| && c !in u
    ensures a + [c] + u != b + [c] + v
  {
    if |a + [c] + u| == |b + [c] + v| {
      assert (b + [c] + v)[|b|] == c;
      assert (a + [c] + u)[|b|] == u[|b| - |a| - 1];
    }
  }

  /** The same from the other end: the piece after the last c is free of it. */
  lemma LastCutUnique(c: char, a: string, u: string, b: string, v: string)
    requires c !in u && c !in v
    requires a + [c] + u == b + [c] + v
    ensures a == b && u == v
  {
    var x, y := a + [c] + u, b + [c] + v;
    if |a| < |b| { LastCutShorter(c, a, u, b, v); }
    if |b| < |a| { LastCutShorter(c, b, v, a, u); }
    assert a == x[..|a|] == y[..|b|] == b;
    assert u == x[|a| + 1..] == y[|b| + 1..] == v;
  }

  // ----- Decimal numerals (the %d verb) -----

  predicate IsDigit(c: char) { '0' <= c <= '9' }

  predicate AllDigits(s: string) { forall i | 0 <= i < |s| :: IsDigit(s[i]) }

  function DigitChar(d: nat): (c: char)
    requires d < 10
    ensures IsDigit(c) && DigitValue(c) == d
  {
    ('0' as int + d) as char
  }

  function DigitValue(c: char): (d: nat)
    requires IsDigit(c)
    ensures d < 10
  {
    c as int - '0' as int
  }

  function Digits(n: nat): (s: string)
    ensures s != "" && AllDigits(s)
  {
    if n < 10 then [DigitChar(n)] else Digits(n / 10) + [DigitChar(n % 10)]
  }

  function Decimal(i: int): string {
    if i < 0 then "-" + Digits(-i) else Digits(i)
  }

  function Value(s: string): nat
    requires AllDigits(s)
  {
    if s == "" then 0 else 10 * Value(s[..|s| - 1]) + DigitValue(s[|s| - 1])
  }

  lemma {:induction false} ValueOfDigits(n: nat)
    ensures Value(Digits(n)) == n
  {
    if n >= 10 {
      ValueOfDigits(n / 10);
      assert Digits(n)[..|Digits(n)| - 1] == Digits(n / 10);
    }
  }

  /** The number a numeral denotes, sign included. */
  function DecimalValue(s: string): int
    requires s != "" && (AllDigits(s) || AllDigits(s[1..]))
  {
    if s[0] == '-' then -(Value(s[1..]) as int) else if AllDigits(s) then Value(s) else 0
  }

  /** Decimal printing loses nothing, hence is one-to-one. */
  lemma DecimalRoundTrip(i: int)
    ensures Decimal(i) != "" && (AllDigits(Decimal(i)) || AllDigits(Decimal(i)[1..]))
    ensures DecimalValue(Decimal(i)) == i
  {
    if i < 0 {
      assert Decimal(i)[1..] == Digits(-i);
      ValueOfDigits(-i);
    } else {
      ValueOfDigits(i);
    }
  }

  lemma DecimalInjective(i: int, j: int)
    requires Decimal(i) == Decimal(j)
    ensures i == j
  {
    DecimalRoundTrip(i);
    DecimalRoundTrip(j);
  }

  lemma DecimalLacks(i: int, c: char)
    requires !IsDigit(c) && c != '-'
    ensures c !in Decimal(i)
  {
  }

  // ----- Byte-wise string order (sort.Strings, object-store listings) -----

  predicate Less(a: string, b: string) {
    b != "" && (a == "" || a[0] < b[0] || (a[0] == b[0] && Less(a[1..], b[1..])))
  }

  lemma LessIrreflexive(a: string)
    ensures !Less(a, a)
  {
  }

  lemma {:induction false} LessTransitive(a: string, b: string, c: string)
    requires Less(a, b) && Less(b, c)
    ensures Less(a, c)
  {
    if a != "" && a[0] == b[0] == c[0] {
      LessTransitive(a[1..], b[1..], c[1..]);
    }
  }

  lemma {:induction false} LessTotal(a: string, b: string)
    ensures a == b || Less(a, b) || Less(b, a)
  {
    if a != "" && b != "" && a[0] == b[0] {
      LessTotal(a[1..], b[1..]);
      assert a == [a[0]] + a[1..] && b == [b[0]] + b[1..];
    }
  }

  lemma {:induction false} LessSnoc(a: string, x: char, b: string, y: char)
    requires |a| == |b|
    ensures Less(a + [x], b + [y]) <==> Less(a, b) || (a == b && x < y)
  {
    if a != "" {
      assert (a + [x])[1..] == a[1..] + [x] && (b + [y])[1..] == b[1..] + [y];
      LessSnoc(a[1..], x, b[1..], y);
      assert a == [a[0]] + a[1..] && b == [b[0]] + b[1..];
    } else {
      assert (a + [x])[1..] == "" && (b + [y])[1..] == "";
    }
  }

  /** Numerals of one width sort as the numbers they denote. */
  lemma {:induction false} SameWidthOrder(a: string, b: string)
    requires |a| == |b| && AllDigits(a) && AllDigits(b)
    ensures Less(a, b) <==> Value(a) < Value(b)
    ensures a == b <==> Value(a) == Value(b)
  {
    if a != "" {
      var n := |a| - 1;
      SameWidthOrder(a[..n], b[..n]);
      LessSnoc(a[..n], a[n], b[..n], b[n]);
      assert a == a[..n] + [a[n]] && b == b[..n] + [b[n]];
    }
  }
}
