/** Decimal numerals: how they are read, written and ordered as text. */
module Digits {
  import opened Strings

  predicate IsDigit(c: char) { '0' <= c <= '9' }

  predicate AllDigits(s: string) {
    forall i :: 0 <= i < |s| ==> IsDigit(s[i])
  }

  function Decimal(s: string): nat
    requires AllDigits(s)
  {
    if s == "" then 0 else Decimal(s[..|s| - 1]) * 10 + (s[|s| - 1] as int - '0' as int)
  }

  function Digit(n: nat): char
    requires n < 10
  {
    (n + '0' as int) as char
  }

  function Show(n: nat): string {
    if n < 10 then [Digit(n)] else Show(n / 10) + [Digit(n % 10)]
  }

  /** Written with leading zeros up to a width, as `{:02}` and `{:04}` do. */
  function Pad(n: nat, width: nat): string
    decreases width
  {
    if width <= 1 then Show(n)
    else Pad(n / 10, width - 1) + [Digit(n % 10)]
  }

  ghost function Power10(k: nat): nat {
    if k == 0 then 1 else 10 * Power10(k - 1)
  }

  /** A padded numeral reads back as the number; it has the width unless the number needs more. */
  lemma {:induction false} PadReadsBack(n: nat, width: nat)
    requires width >= 1
    ensures var s := Pad(n, width);
      |s| >= width && AllDigits(s) && Decimal(s) == n && (n < Power10(width) ==> |s| == width)
    decreases width
  {
    if width == 1 {
      ShowReadsBack(n);
      assert Power10(0) == 1;
    } else {
      PadReadsBack(n / 10, width - 1);
      var s := Pad(n, width);
      assert s[..|s| - 1] == Pad(n / 10, width - 1);
    }
  }

  lemma {:induction false} ShowReadsBack(n: nat)
    ensures Show(n) != "" && AllDigits(Show(n)) && Decimal(Show(n)) == n && (n < 10 ==> |Show(n)| == 1)
  {
    var s := Show(n);
    if n < 10 {
      assert s[..0] == "";
    } else {
      ShowReadsBack(n / 10);
      assert s[..|s| - 1] == Show(n / 10);
    }
  }

  // ---- text order -----------------------------------------------------------------------

  function Codes(s: string): (r: seq<int>)
    ensures |r| == |s| && forall i :: 0 <= i < |s| ==> r[i] == s[i] as int
  {
    seq(|s|, i requires 0 <= i < |s| => s[i] as int)
  }

  /** Order by character, which is byte order for ASCII text. */
  ghost predicate TextBefore(a: string, b: string) {
    Less(Codes(a), Codes(b))
  }

  lemma BeforeByParts(a: string, b: string, u: string, v: string)
    requires |a| == |b|
    ensures TextBefore(a + u, b + v) <==> TextBefore(a, b) || (a == b && TextBefore(u, v))
  {
    hide Less;
    assert Codes(a + u) == Codes(a) + Codes(u) && Codes(b + v) == Codes(b) + Codes(v);
    LessByParts(Codes(a), Codes(b), Codes(u), Codes(v));
    CodesAreInjective(a, b);
  }

  lemma CodesAreInjective(a: string, b: string)
    ensures Codes(a) == Codes(b) <==> a == b
  {
    if Codes(a) == Codes(b) { assert forall i :: 0 <= i < |a| ==> Codes(a)[i] == a[i] as int && Codes(b)[i] == b[i] as int; }
  }

  lemma BeforeIsStrict(a: string)
    ensures !TextBefore(a, a)
  {
    LessIsTotal(Codes(a), Codes(a));
  }

  lemma OneCharacter(c: char, d: char)
    ensures TextBefore([c], [d]) <==> c < d
  {
    var a, b := Codes([c]), Codes([d]);
    assert a[0] == c as int && b[0] == d as int;
    assert a[1..] == [] && b[1..] == [];
    assert !Less(a[1..], b[1..]);
    assert Less(a, b) <==> a[0] < b[0];
    assert a[0] < b[0] <==> c < d;
  }

  /** Numerals of one length are ordered as their numbers. */
  lemma {:induction false} NumeralOrder(a: string, b: string)
    requires |a| == |b| && AllDigits(a) && AllDigits(b)
    ensures TextBefore(a, b) <==> Decimal(a) < Decimal(b)
    ensures a == b <==> Decimal(a) == Decimal(b)
  {
    hide TextBefore;
    if a == "" {
      assert b == "";
      BeforeIsStrict("");
    } else {
      var n := |a| - 1;
      assert a == a[..n] + [a[n]] && b == b[..n] + [b[n]];
      NumeralOrder(a[..n], b[..n]);
      BeforeByParts(a[..n], b[..n], [a[n]], [b[n]]);
      OneCharacter(a[n], b[n]);
    }
  }

  /** Fixed-width fields at the front of two texts decide their order first. */
  lemma FieldOrder(x: nat, y: nat, width: nat, u: string, v: string)
    requires width >= 1 && x < Power10(width) && y < Power10(width)
    ensures TextBefore(Pad(x, width) + u, Pad(y, width) + v) <==> x < y || (x == y && TextBefore(u, v))
  {
    hide TextBefore, Power10, Pad, AllDigits;
    PadReadsBack(x, width);
    PadReadsBack(y, width);
    NumeralOrder(Pad(x, width), Pad(y, width));
    BeforeByParts(Pad(x, width), Pad(y, width), u, v);
  }
}
