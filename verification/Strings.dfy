/** String operations that several models share: trimming and lower case as Rust's standard library
    does them, white space as JavaScript sees it, lexicographic order, and names joined by a colon. */
module Strings {

  /** Unicode White_Space, which `trim` removes. */
  predicate IsSpace(c: char) {
    var n := c as int;
    9 <= n <= 13 || n in {32, 133, 160, 5760, 8232, 8233, 8239, 8287, 12288} || 8192 <= n <= 8202
  }

  function TrimStart(s: string): string {
    if s != "" && IsSpace(s[0]) then TrimStart(s[1..]) else s
  }

  function TrimEnd(s: string): string {
    if s != "" && IsSpace(s[|s| - 1]) then TrimEnd(s[..|s| - 1]) else s
  }

  function Trim(s: string): string {
    TrimEnd(TrimStart(s))
  }

  lemma {:induction false} TrimStartTrims(s: string)
    ensures var r := TrimStart(s); r == "" || (!IsSpace(r[0]) && s != "" && r[|r| - 1] == s[|s| - 1])
  {
    if s != "" && IsSpace(s[0]) { TrimStartTrims(s[1..]); }
  }

  lemma {:induction false} TrimEndTrims(s: string)
    ensures var r := TrimEnd(s); r == "" || (!IsSpace(r[|r| - 1]) && s != "" && r[0] == s[0])
  {
    if s != "" && IsSpace(s[|s| - 1]) { TrimEndTrims(s[..|s| - 1]); }
  }

  lemma TrimTwice(s: string)
    ensures Trim(Trim(s)) == Trim(s)
  {
    TrimStartTrims(s);
    TrimEndTrims(TrimStart(s));
  }

  /** A trimmed text neither starts nor ends with white space. */
  lemma TrimTrims(s: string)
    ensures var r := Trim(s); r == "" || (!IsSpace(r[0]) && !IsSpace(r[|r| - 1]))
  {
    TrimStartTrims(s);
    TrimEndTrims(TrimStart(s));
  }

  lemma TrimmedStays(s: string)
    requires s != "" && !IsSpace(s[0]) && !IsSpace(s[|s| - 1])
    ensures Trim(s) == s
  {
  }

  /** `to_ascii_lowercase`. */
  function Lower(s: string): string {
    seq(|s|, i requires 0 <= i < |s| => if 'A' <= s[i] <= 'Z' then (s[i] as int + 32) as char else s[i])
  }

  /** JavaScript's `\s`, which its `trim` removes. */
  predicate IsJsSpace(c: char) {
    var n := c as int;
    n in {9, 10, 11, 12, 13, 32, 160, 5760, 8232, 8233, 8239, 8287, 12288, 65279} || 8192 <= n <= 8202
  }

  function JsTrimStart(s: string): string {
    if s != "" && IsJsSpace(s[0]) then JsTrimStart(s[1..]) else s
  }

  function JsTrimEnd(s: string): string {
    if s != "" && IsJsSpace(s[|s| - 1]) then JsTrimEnd(s[..|s| - 1]) else s
  }

  function JsTrim(s: string): string {
    JsTrimEnd(JsTrimStart(s))
  }

  // ---- what trimming and lower case mean ------------------------------------------------

  /** The code points of Unicode's White_Space property. */
  const WHITE_SPACE: seq<int> := [
    0x09, 0x0A, 0x0B, 0x0C, 0x0D, 0x20, 0x85, 0xA0, 0x1680,
    0x2000, 0x2001, 0x2002, 0x2003, 0x2004, 0x2005, 0x2006, 0x2007, 0x2008, 0x2009, 0x200A,
    0x2028, 0x2029, 0x202F, 0x205F, 0x3000]

  lemma SpaceIsListed(c: char)
    ensures IsSpace(c) <==> c as int in WHITE_SPACE
  {
    var n := c as int;
    if 0x2000 <= n <= 0x200A { assert WHITE_SPACE[9 + (n - 0x2000)] == n; }
    if 9 <= n <= 13 { assert WHITE_SPACE[n - 9] == n; }
    assert WHITE_SPACE[5] == 32 && WHITE_SPACE[6] == 133 && WHITE_SPACE[7] == 160 && WHITE_SPACE[8] == 5760 && WHITE_SPACE[20] == 8232
      && WHITE_SPACE[21] == 8233 && WHITE_SPACE[22] == 8239 && WHITE_SPACE[23] == 8287 && WHITE_SPACE[24] == 12288;
  }

  ghost predicate AllSpace(s: string) {
    forall i :: 0 <= i < |s| ==> IsSpace(s[i])
  }

  lemma {:induction false} TrimStartPadded(a: string, m: string)
    requires AllSpace(a) && (m == "" || !IsSpace(m[0]))
    ensures TrimStart(a + m) == m
  {
    hide IsSpace;
    if a == "" { assert a + m == m; } else {
      TrimStartPadded(a[1..], m);
      assert (a + m)[1..] == a[1..] + m;
    }
  }

  lemma {:induction false} TrimEndPadded(m: string, b: string)
    requires AllSpace(b) && (m == "" || !IsSpace(m[|m| - 1]))
    ensures TrimEnd(m + b) == m
  {
    hide IsSpace;
    if b == "" { assert m + b == m; } else {
      TrimEndPadded(m, b[..|b| - 1]);
      assert (m + b)[..|m + b| - 1] == m + b[..|b| - 1];
    }
  }

  /** Trimming takes away the white space around a text and nothing else. */
  lemma TrimPadded(a: string, m: string, b: string)
    requires AllSpace(a) && AllSpace(b) && (m == "" || (!IsSpace(m[0]) && !IsSpace(m[|m| - 1])))
    ensures Trim(a + m + b) == m
  {
    hide IsSpace;
    if m == "" {
      assert a + m + b == (a + b) + "";
      TrimStartPadded(a + b, "");
    } else {
      assert a + m + b == a + (m + b);
      TrimStartPadded(a, m + b);
      TrimEndPadded(m, b);
    }
  }

  ghost predicate AllJsSpace(s: string) {
    forall i :: 0 <= i < |s| ==> IsJsSpace(s[i])
  }

  lemma {:induction false} JsTrimStartPadded(a: string, m: string)
    requires AllJsSpace(a) && (m == "" || !IsJsSpace(m[0]))
    ensures JsTrimStart(a + m) == m
  {
    hide IsJsSpace;
    if a == "" { assert a + m == m; } else {
      JsTrimStartPadded(a[1..], m);
      assert (a + m)[1..] == a[1..] + m;
    }
  }

  lemma {:induction false} JsTrimEndPadded(m: string, b: string)
    requires AllJsSpace(b) && (m == "" || !IsJsSpace(m[|m| - 1]))
    ensures JsTrimEnd(m + b) == m
  {
    hide IsJsSpace;
    if b == "" { assert m + b == m; } else {
      JsTrimEndPadded(m, b[..|b| - 1]);
      assert (m + b)[..|m + b| - 1] == m + b[..|b| - 1];
    }
  }

  lemma JsTrimPadded(a: string, m: string, b: string)
    requires AllJsSpace(a) && AllJsSpace(b) && (m == "" || (!IsJsSpace(m[0]) && !IsJsSpace(m[|m| - 1])))
    ensures JsTrim(a + m + b) == m
  {
    hide IsJsSpace;
    if m == "" {
      assert a + m + b == (a + b) + "";
      JsTrimStartPadded(a + b, "");
    } else {
      assert a + m + b == a + (m + b);
      JsTrimStartPadded(a, m + b);
      JsTrimEndPadded(m, b);
    }
  }

  /** Lower case replaces each of the 26 capitals by its small letter and keeps all else. */
  lemma LowerReplaces(s: string, i: nat)
    requires i < |s|
    ensures |Lower(s)| == |s|
    ensures var k := s[i] as int - 65;
      Lower(s)[i] == if 0 <= k < 26 then "abcdefghijklmnopqrstuvwxyz"[k] else s[i]
  {
    var letters := "abcdefghijklmnopqrstuvwxyz";
    assert forall k :: 0 <= k < 26 ==> letters[k] as int == 97 + k;
  }

  // ---- lexicographic order --------------------------------------------------------------

  predicate Less(a: seq<int>, b: seq<int>) {
    b != [] && (a == [] || a[0] < b[0] || (a[0] == b[0] && Less(a[1..], b[1..])))
  }

  lemma {:induction false} LessIsTransitive(a: seq<int>, b: seq<int>, c: seq<int>)
    requires Less(a, b) && Less(b, c)
    ensures Less(a, c)
  {
    if a != [] && a[0] == b[0] && b[0] == c[0] { LessIsTransitive(a[1..], b[1..], c[1..]); }
  }

  lemma {:induction false} LessIsTotal(a: seq<int>, b: seq<int>)
    ensures a == b ==> !Less(a, b)
    ensures a != b ==> Less(a, b) != Less(b, a)
  {
    if a != [] && b != [] && a[0] == b[0] {
      LessIsTotal(a[1..], b[1..]);
      assert a == [a[0]] + a[1..] && b == [b[0]] + b[1..];
    }
  }

  /** Fronts of one length decide first. */
  lemma {:induction false} LessByParts(a: seq<int>, b: seq<int>, u: seq<int>, v: seq<int>)
    requires |a| == |b|
    ensures Less(a + u, b + v) <==> Less(a, b) || (a == b && Less(u, v))
  {
    if a == [] {
      assert a + u == u && b + v == v;
    } else {
      LessByParts(a[1..], b[1..], u, v);
      assert (a + u)[1..] == a[1..] + u && (b + v)[1..] == b[1..] + v;
      assert a == [a[0]] + a[1..] && b == [b[0]] + b[1..];
    }
  }

  // ---- names joined by a colon ----------------------------------------------------------

  function ColonJoin(a: string, b: string): string {
    a + ":" + b
  }

  /** Two pairs join to one text exactly when the longer first part continues the shorter one
      with a colon, so colon-free first parts never do. */
  lemma ColonJoinsCollideIff(w: string, d: string, v: string, e: string)
    ensures ColonJoin(w, d) == ColonJoin(v, e) <==>
              || (w == v && d == e)
              || (|w| < |v| && v[..|w|] == w && v[|w|] == ':' && d == v[|w| + 1..] + ":" + e)
              || (|v| < |w| && w[..|v|] == v && w[|v|] == ':' && e == w[|v| + 1..] + ":" + d)
    ensures ':' !in w && ':' !in v ==> (ColonJoin(w, d) == ColonJoin(v, e) <==> w == v && d == e)
  {
    if |w| <= |v| { JoinSplits(w, d, v, e); } else { JoinSplits(v, e, w, d); }
    if |w| < |v| && v[..|w|] == w && v[|w|] == ':' { LongerJoin(w, d, v, e); }
    if |v| < |w| && w[..|v|] == v && w[|v|] == ':' { LongerJoin(v, e, w, d); }
  }

  lemma JoinSplits(w: string, d: string, v: string, e: string)
    requires |w| <= |v|
    ensures ColonJoin(w, d) == ColonJoin(v, e) ==>
              (w == v && d == e) || (|w| < |v| && v[..|w|] == w && v[|w|] == ':' && d == v[|w| + 1..] + ":" + e)
  {
    var a, b := ColonJoin(w, d), ColonJoin(v, e);
    if a == b {
      assert a[..|w|] == w && b[..|w|] == v[..|w|];
      assert a[|w|] == ':' && a[|w| + 1..] == d;
      if |w| < |v| {
        assert b[|w|] == v[|w|];
        assert b[|w| + 1..] == v[|w| + 1..] + ":" + e;
      } else {
        assert v[..|w|] == v && b[|v| + 1..] == e;
      }
    }
  }

  lemma LongerJoin(w: string, d: string, v: string, e: string)
    requires |w| < |v| && v[..|w|] == w && v[|w|] == ':'
    ensures d == v[|w| + 1..] + ":" + e ==> ColonJoin(w, d) == ColonJoin(v, e)
  {
    assert v == w + [v[|w|]] + v[|w| + 1..];
    if d == v[|w| + 1..] + ":" + e {
      assert ColonJoin(w, d) == w + ":" + (v[|w| + 1..] + ":" + e) == (w + ":" + v[|w| + 1..]) + ":" + e;
    }
  }
}
