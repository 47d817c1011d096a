/** What the pieces of a script are: white space and comments, which are no code, quoted runs, plain
    characters, and the semicolons between statements; and that running a script with or without
    white space and comments behind it is the same. */
module ScriptEnds {
  import opened Strings
  import opened Wrappers
  import opened SqlScript

  /** The code points ECMAScript calls white space or line terminators. */
  const WHITE: seq<int> := [
    0x09, 0x0A, 0x0B, 0x0C, 0x0D, 0x20, 0xA0, 0x1680,
    0x2000, 0x2001, 0x2002, 0x2003, 0x2004, 0x2005, 0x2006, 0x2007, 0x2008, 0x2009, 0x200A,
    0x2028, 0x2029, 0x202F, 0x205F, 0x3000, 0xFEFF]

  lemma WhiteIsSpace(c: char)
    ensures IsJsSpace(c) <==> c as int in WHITE
  {
    var n := c as int;
    if 0x2000 <= n <= 0x200A { assert WHITE[8 + (n - 0x2000)] == n; }
    if n in {9, 10, 11, 12, 13} { assert WHITE[n - 9] == n; }
    assert WHITE[5] == 32 && WHITE[6] == 160 && WHITE[7] == 5760 && WHITE[19] == 8232 && WHITE[20] == 8233
      && WHITE[21] == 8239 && WHITE[22] == 8287 && WHITE[23] == 12288 && WHITE[24] == 65279;
  }

  // ---- text without statements ----------------------------------------------------------

  /** White space, a line comment up to its line feed, a closed block comment, a run from an opening
      quote to the next closing one, any other character, or a semicolon. A doubled quote within
      a string makes it two runs. */
  datatype Piece = White(c: char) | Line(text: string) | Block(text: string) | Quote(open: char, text: string) | Plainly(c: char) | Semicolon

  /** How the script may break off: not at all, in a comment, or in a quoted run. */
  datatype BreakOff = Nowhere | InLine(text: string) | InBlock(text: string) | InQuote(open: char, text: string)

  /** The quotes: of strings, of names, and of names in brackets. */
  ghost function ClosingOf(open: char): char {
    if open == '[' then ']' else open
  }

  ghost predicate IsQuote(open: char) {
    open in "'\"`["
  }

  ghost predicate Closes(text: string, k: nat) {
    k + 1 < |text| && text[k] == '*' && text[k + 1] == '/'
  }

  ghost predicate IsPiece(p: Piece) {
    match p
    case White(c) => c as int in WHITE
    case Line(text) => '\n' !in text
    case Block(text) => forall k: nat :: !Closes(text, k)
    case Quote(open, text) => IsQuote(open) && ClosingOf(open) !in text
    case Plainly(c) => c as int !in WHITE && !IsQuote(c) && c != ';'
    case Semicolon => true
  }

  ghost predicate IsQuiet(p: Piece) {
    IsPiece(p) && (p.White? || p.Line? || p.Block?)
  }

  /** What comes next does not make the piece the start of a comment. */
  ghost predicate Stands(p: Piece, next: string) {
    p.Plainly? ==> !(p.c == '-' && "-" <= next) && !(p.c == '/' && "*" <= next)
  }

  ghost function Written(p: Piece): string {
    match p
    case White(c) => [c]
    case Line(text) => "--" + text + "\n"
    case Block(text) => "/*" + text + "*/"
    case Quote(open, text) => [open] + text + [ClosingOf(open)]
    case Plainly(c) => [c]
    case Semicolon => ";"
  }

  ghost function ClassOf(p: Piece): Class {
    match p
    case White(_) => Blank
    case Line(_) => Comment
    case Block(_) => Comment
    case Quote(_, _) => Literal
    case Plainly(_) => Code
    case Semicolon => Terminator
  }

  ghost function AllWritten(ps: seq<Piece>): string {
    if ps == [] then "" else Written(ps[0]) + AllWritten(ps[1..])
  }

  ghost predicate IsBreakOff(b: BreakOff) {
    match b
    case Nowhere => true
    case InLine(text) => '\n' !in text
    case InBlock(text) => forall k: nat :: !Closes(text, k)
    case InQuote(open, text) => IsQuote(open) && ClosingOf(open) !in text
  }

  ghost function BrokenOff(b: BreakOff): string {
    match b
    case Nowhere => ""
    case InLine(text) => "--" + text
    case InBlock(text) => "/*" + text
    case InQuote(open, text) => [open] + text
  }

  ghost predicate IsRest(ps: seq<Piece>, b: BreakOff) {
    (forall i :: 0 <= i < |ps| ==> IsQuiet(ps[i])) && IsBreakOff(b) && !b.InQuote?
  }

  ghost function Rest(ps: seq<Piece>, b: BreakOff): string {
    AllWritten(ps) + BrokenOff(b)
  }

  /** Neither code nor a terminator. */
  ghost predicate Quiet(classes: seq<Class>) {
    forall i :: 0 <= i < |classes| ==> classes[i] == Blank || classes[i] == Comment
  }

  // ---- reading a script in two parts ----------------------------------------------------

  /** The classes of the next one or two characters, and the mode after them. */
  ghost function Move(s: string, i: nat, mode: Mode): (r: (seq<Class>, Mode))
    requires i < |s|
    ensures 1 <= |r.0| <= 2 && i + |r.0| <= |s|
  {
    match mode
    case Plain =>
      if At(s, i, '-', '-') then ([Comment, Comment], LineComment)
      else if At(s, i, '/', '*') then ([Comment, Comment], BlockComment)
      else if CloseOf(s[i]).Some? then ([Literal], Quoted(CloseOf(s[i]).value))
      else ([if s[i] == ';' then Terminator else if IsJsSpace(s[i]) then Blank else Code], Plain)
    case LineComment => ([Comment], if s[i] == '\n' then Plain else LineComment)
    case BlockComment => if At(s, i, '*', '/') then ([Comment, Comment], Plain) else ([Comment], BlockComment)
    case Quoted(close) =>
      if s[i] != close then ([Literal], mode)
      else if At(s, i, close, close) && close != ']' then ([Literal, Literal], mode)
      else ([Literal], Plain)
  }

  lemma LexMoves(s: string, i: nat, mode: Mode)
    requires i < |s|
    ensures var (head, next) := Move(s, i, mode); Lex(s, i, mode) == head + Lex(s, i + |head|, next)
  {
  }

  lemma MoveShifts(pre: string, s: string, i: nat, mode: Mode)
    requires i < |s|
    ensures Move(pre + s, |pre| + i, mode) == Move(s, i, mode)
  {
    var t, j := pre + s, |pre| + i;
    assert t[j] == s[i] && |t| == |pre| + |s|;
    if i + 1 < |s| { assert t[j + 1] == s[i + 1]; }
  }

  /** Reading depends on what is ahead only. */
  lemma {:induction false} LexShift(pre: string, s: string, i: nat, mode: Mode)
    requires i <= |s|
    ensures Lex(pre + s, |pre| + i, mode) == Lex(s, i, mode)
    decreases |s| - i
  {
    hide Lex, Move;
    if i < |s| {
      LexMoves(s, i, mode);
      LexMoves(pre + s, |pre| + i, mode);
      MoveShifts(pre, s, i, mode);
      var (head, next) := Move(s, i, mode);
      LexShift(pre, s, i + |head|, next);
    } else {
      LexEnds(s, mode);
      LexEnds(pre + s, mode);
    }
  }

  lemma LexEnds(s: string, mode: Mode)
    ensures Lex(s, |s|, mode) == []
  {
  }

  /** A terminator does not look ahead. */
  lemma {:induction false} LexToTerminator(sql: string, rest: string, i: nat, mode: Mode)
    requires i < |sql| && Lex(sql + rest, i, mode)[|sql| - 1 - i] == Terminator
    ensures Lex(sql + rest, i, mode) == Lex(sql, i, mode) + Lex(rest, 0, Plain)
    ensures Lex(sql, i, mode)[|sql| - 1 - i] == Terminator
    decreases |sql| - i
  {
    hide Lex, Move;
    var t := sql + rest;
    LexMoves(t, i, mode);
    LexMoves(sql, i, mode);
    MoveAgrees(sql, rest, i, mode);
    var (head, next) := Move(sql, i, mode);
    if i + |head| < |sql| {
      assert Lex(t, i, mode)[|sql| - 1 - i] == Lex(t, i + |head|, next)[|sql| - 1 - (i + |head|)];
      LexToTerminator(sql, rest, i + |head|, next);
    } else {
      LexEnds(sql, next);
      LexShift(sql, rest, 0, Plain);
    }
  }

  /** The move is the same with more text behind, unless it would reach over the seam; then, and
      whenever it does not end plainly in a terminator, it is no terminator. */
  lemma MoveAgrees(sql: string, rest: string, i: nat, mode: Mode)
    requires i < |sql|
    requires var (head, next) := Move(sql + rest, i, mode); |head| >= |sql| - i ==> head[|sql| - 1 - i] == Terminator
    ensures Move(sql + rest, i, mode) == Move(sql, i, mode)
    ensures i + |Move(sql, i, mode).0| == |sql| ==> Move(sql, i, mode).1 == Plain
  {
    var t := sql + rest;
    assert t[i] == sql[i] && (i + 1 < |sql| ==> t[i + 1] == sql[i + 1]);
  }

  // ---- how pieces are read --------------------------------------------------------------

  lemma {:induction false} FindsLineFeed(s: string, i: nat, n: nat)
    requires i <= n <= |s| && (forall k :: i <= k < n ==> s[k] != '\n') && (n < |s| ==> s[n] == '\n')
    ensures Find(s, '\n', i) == n
    decreases n - i
  {
    if i < n { FindsLineFeed(s, i + 1, n); }
  }

  lemma {:induction false} FindsCommentEnd(s: string, i: nat, n: nat)
    requires i <= n <= |s| && (forall k :: i <= k < n ==> !At(s, k, '*', '/')) && (n < |s| ==> At(s, n, '*', '/'))
    ensures FindCommentEnd(s, i) == n
    decreases n - i
  {
    if i < n { FindsCommentEnd(s, i + 1, n); }
  }

  lemma WhiteReads(c: char, r: string)
    requires c as int in WHITE
    ensures Lex([c] + r, 0, Plain) == [Blank] + Lex(r, 0, Plain)
  {
    var t := [c] + r;
    WhiteIsSpace(c);
    assert c != '-' && c != '/' && c != ';' && CloseOf(c).None?;
    LexOther(t, 0);
    LexShift([c], r, 0, Plain);
  }

  lemma LineReads(text: string, r: string)
    requires '\n' !in text
    ensures Lex("--" + text + "\n" + r, 0, Plain) == Repeat(Comment, |text| + 3) + Lex(r, 0, Plain)
  {
    hide Lex;
    var front := "--" + text + "\n";
    var t := front + r;
    assert At(t, 0, '-', '-') && t[|text| + 2] == '\n';
    assert forall k :: 2 <= k < |text| + 2 ==> t[k] == text[k - 2];
    FindsLineFeed(t, 2, |text| + 2);
    LexLineComment(t, 0);
    LexShift(front, r, 0, Plain);
  }

  lemma BlockReads(text: string, r: string)
    requires forall k: nat :: !Closes(text, k)
    ensures Lex("/*" + text + "*/" + r, 0, Plain) == Repeat(Comment, |text| + 4) + Lex(r, 0, Plain)
  {
    hide Lex;
    var front := "/*" + text + "*/";
    var t := front + r;
    assert At(t, 0, '/', '*') && At(t, |text| + 2, '*', '/');
    assert forall k :: 2 <= k < |text| + 2 ==> t[k] == text[k - 2];
    forall k | 2 <= k < |text| + 2 ensures !At(t, k, '*', '/') {
      assert !Closes(text, k - 2);
    }
    FindsCommentEnd(t, 2, |text| + 2);
    LexBlockComment(t, 0);
    LexShift(front, r, 0, Plain);
  }

  lemma QuoteReads(open: char, text: string, r: string)
    requires IsQuote(open) && ClosingOf(open) !in text
    ensures Lex([open] + text + [ClosingOf(open)] + r, 0, Plain) == Repeat(Literal, |text| + 2) + Lex(r, 0, Plain)
  {
    hide Lex;
    var close := ClosingOf(open);
    var front := [open] + text + [close];
    var t := front + r;
    assert t[0] == open && t[|text| + 1] == close && CloseOf(open) == Some(close);
    assert forall k :: 1 <= k < |text| + 1 ==> t[k] == text[k - 1];
    FindsClose(t, close, 1, |text| + 1);
    LexQuoted(t, 0);
    LexShift(front, r, 0, Plain);
  }

  lemma {:induction false} FindsClose(s: string, close: char, i: nat, n: nat)
    requires i <= n <= |s| && (forall k :: i <= k < n ==> s[k] != close) && (n < |s| ==> s[n] == close)
    ensures Find(s, close, i) == n
    decreases n - i
  {
    if i < n { FindsClose(s, close, i + 1, n); }
  }

  lemma OneReads(c: char, r: string)
    requires IsPiece(Plainly(c)) && Stands(Plainly(c), r)
    ensures Lex([c] + r, 0, Plain) == [Code] + Lex(r, 0, Plain)
  {
    var t := [c] + r;
    WhiteIsSpace(c);
    assert CloseOf(c).None?;
    assert |r| > 0 ==> t[1] == r[0];
    assert NoComment(t, 0);
    LexOther(t, 0);
    LexShift([c], r, 0, Plain);
  }

  lemma SemicolonReads(r: string)
    ensures Lex(";" + r, 0, Plain) == [Terminator] + Lex(r, 0, Plain)
  {
    var t := ";" + r;
    LexOther(t, 0);
    LexShift(";", r, 0, Plain);
  }

  /** Every piece is read as what it is, whatever comes after. */
  lemma PieceReads(p: Piece, r: string)
    requires IsPiece(p) && Stands(p, r)
    ensures Lex(Written(p) + r, 0, Plain) == Repeat(ClassOf(p), |Written(p)|) + Lex(r, 0, Plain)
  {
    hide Lex, Closes;
    match p
    case White(c) => WhiteReads(c, r); assert Repeat(Blank, 1) == [Blank];
    case Line(text) => LineReads(text, r);
    case Block(text) => BlockReads(text, r);
    case Quote(open, text) => QuoteReads(open, text, r);
    case Plainly(c) => OneReads(c, r); assert Repeat(Code, 1) == [Code];
    case Semicolon => SemicolonReads(r); assert Repeat(Terminator, 1) == [Terminator];
  }

  ghost function BreakClass(b: BreakOff): Class {
    if b.InQuote? then Literal else Comment
  }

  lemma BreakOffReads(b: BreakOff)
    requires IsBreakOff(b)
    ensures Lex(BrokenOff(b), 0, Plain) == Repeat(BreakClass(b), |BrokenOff(b)|)
  {
    hide Lex;
    var t := BrokenOff(b);
    LexEnds(t, Plain);
    match b
    case Nowhere =>
    case InLine(text) =>
      assert At(t, 0, '-', '-') && forall k :: 2 <= k < |t| ==> t[k] == text[k - 2];
      FindsLineFeed(t, 2, |t|);
      LexLineComment(t, 0);
    case InBlock(text) =>
      assert At(t, 0, '/', '*') && forall k :: 2 <= k < |t| ==> t[k] == text[k - 2];
      forall k | 2 <= k < |t| ensures !At(t, k, '*', '/') { assert !Closes(text, k - 2); }
      FindsCommentEnd(t, 2, |t|);
      LexBlockComment(t, 0);
    case InQuote(open, text) =>
      assert t[0] == open && CloseOf(open) == Some(ClosingOf(open)) && forall k :: 1 <= k < |t| ==> t[k] == text[k - 1];
      FindsClose(t, ClosingOf(open), 1, |t|);
      LexQuoted(t, 0);
  }

  ghost function ClassesOf(ps: seq<Piece>): (r: seq<Class>)
    ensures |r| == |AllWritten(ps)|
  {
    if ps == [] then [] else Repeat(ClassOf(ps[0]), |Written(ps[0])|) + ClassesOf(ps[1..])
  }

  /** Pieces that stand next to each other, with this text behind. */
  ghost predicate AllStand(ps: seq<Piece>, r: string) {
    ps != [] ==> IsPiece(ps[0]) && Stands(ps[0], AllWritten(ps[1..]) + r) && AllStand(ps[1..], r)
  }

  lemma {:induction false} PiecesRead(ps: seq<Piece>, r: string)
    requires AllStand(ps, r)
    ensures Lex(AllWritten(ps) + r, 0, Plain) == ClassesOf(ps) + Lex(r, 0, Plain)
  {
    hide Lex, Written, IsPiece, ClassOf, Stands;
    if ps == [] {
      assert "" + r == r && [] + Lex(r, 0, Plain) == Lex(r, 0, Plain);
    } else {
      var tail, head := AllWritten(ps[1..]), Repeat(ClassOf(ps[0]), |Written(ps[0])|);
      PiecesRead(ps[1..], r);
      PieceReads(ps[0], tail + r);
      assert AllWritten(ps) + r == Written(ps[0]) + (tail + r);
      assert head + (ClassesOf(ps[1..]) + Lex(r, 0, Plain)) == (head + ClassesOf(ps[1..])) + Lex(r, 0, Plain);
    }
  }

  // ---- where a script is cut ------------------------------------------------------------

  /** The position right after a semicolon piece. */
  ghost predicate AfterSemicolon(ps: seq<Piece>, p: nat) {
    exists i :: 0 <= i < |ps| && ps[i].Semicolon? && p == |AllWritten(ps[..i + 1])|
  }

  lemma AfterSemicolonCons(ps: seq<Piece>, p: nat)
    requires ps != []
    ensures var n := |Written(ps[0])|;
      AfterSemicolon(ps, p) <==> (ps[0].Semicolon? && p == 1) || (p >= n && AfterSemicolon(ps[1..], p - n))
  {
    hide Written;
    assert Written(Semicolon) == ";" by { SemicolonIsWritten(); }
    var n := |Written(ps[0])|;
    forall i | 0 <= i < |ps| ensures |AllWritten(ps[..i + 1])| == n + |AllWritten(ps[1..][..i])| {
      assert ps[..i + 1][0] == ps[0] && ps[..i + 1][1..] == ps[1..][..i];
    }
    if AfterSemicolon(ps, p) {
      var i :| 0 <= i < |ps| && ps[i].Semicolon? && p == |AllWritten(ps[..i + 1])|;
      if i == 0 { assert ps[1..][..0] == []; } else { assert ps[1..][i - 1] == ps[i] && ps[1..][..i - 1 + 1] == ps[1..][..i]; }
    }
    if p >= n && AfterSemicolon(ps[1..], p - n) {
      var i :| 0 <= i < |ps[1..]| && ps[1..][i].Semicolon? && p - n == |AllWritten(ps[1..][..i + 1])|;
      assert ps[i + 1].Semicolon? && |AllWritten(ps[..i + 1 + 1])| == n + |AllWritten(ps[1..][..i + 1])|;
    }
    if ps[0].Semicolon? && p == 1 {
      assert ps[1..][..0] == [] && |AllWritten(ps[..0 + 1])| == n;
    }
  }

  lemma SemicolonIsWritten()
    ensures Written(Semicolon) == ";"
  {
  }

  lemma {:induction false} TerminatorsAreSemicolons(ps: seq<Piece>, p: nat)
    requires 0 < p <= |AllWritten(ps)|
    ensures ClassesOf(ps)[p - 1] == Terminator <==> AfterSemicolon(ps, p)
  {
    hide AfterSemicolon, Written;
    var n := |Written(ps[0])|;
    AfterSemicolonCons(ps, p);
    SemicolonIsWritten();
    if p > n {
      TerminatorsAreSemicolons(ps[1..], p - n);
    } else {
      assert ClassesOf(ps)[p - 1] == ClassOf(ps[0]);
      if p == n { NothingAfterNothing(ps[1..]); }
    }
  }

  lemma NothingAfterNothing(ps: seq<Piece>)
    ensures !AfterSemicolon(ps, 0)
  {
    forall i | 0 <= i < |ps| && ps[i].Semicolon? ensures |AllWritten(ps[..i + 1])| > 0 { SemicolonIsLong(ps[..i + 1]); }
  }

  lemma {:induction false} SemicolonIsLong(ps: seq<Piece>)
    requires ps != [] && ps[|ps| - 1].Semicolon?
    ensures |AllWritten(ps)| > 0
  {
    if |ps| > 1 { SemicolonIsLong(ps[1..]); }
  }

  /** A script is cut exactly after its semicolons, those outside quotes and comments, and at its
      end: whatever stands inside quotes, doubled or not, and inside comments is passed over. */
  lemma CutAtSemicolons(ps: seq<Piece>, b: BreakOff, p: nat)
    requires AllStand(ps, BrokenOff(b)) && IsBreakOff(b)
    requires var script := AllWritten(ps) + BrokenOff(b); 0 < p <= |script|
    ensures var script := AllWritten(ps) + BrokenOff(b);
      EndsAt(Chunks(script), p) <==> p == |script| || AfterSemicolon(ps, p)
  {
    hide Lex, Split, EndsAt, BrokenOff, AllStand, IsBreakOff, AfterSemicolon;
    var script := AllWritten(ps) + BrokenOff(b);
    PiecesRead(ps, BrokenOff(b));
    BreakOffReads(b);
    CutsAreTheTerminators(script, p);
    if p <= |AllWritten(ps)| { TerminatorsAreSemicolons(ps, p); } else { AfterIsWithin(ps, p); }
  }

  lemma {:induction false} AfterIsWithin(ps: seq<Piece>, p: nat)
    requires p > |AllWritten(ps)|
    ensures !AfterSemicolon(ps, p)
  {
    hide AfterSemicolon, Written;
    if ps == [] {
      assert !AfterSemicolon([], p) by { NoPieces(p); }
    } else {
      AfterSemicolonCons(ps, p);
      SemicolonIsWritten();
      AfterIsWithin(ps[1..], p - |Written(ps[0])|);
    }
  }

  lemma NoPieces(p: nat)
    ensures !AfterSemicolon([], p)
  {
  }

  // ---- the rest is quiet ----------------------------------------------------------------

  lemma {:induction false} QuietStands(ps: seq<Piece>, r: string)
    requires forall i :: 0 <= i < |ps| ==> IsQuiet(ps[i])
    ensures AllStand(ps, r) && Quiet(ClassesOf(ps))
  {
    if ps != [] {
      assert IsQuiet(ps[0]);
      QuietStands(ps[1..], r);
    }
  }

  lemma RestIsQuiet(ps: seq<Piece>, b: BreakOff)
    requires IsRest(ps, b)
    ensures Quiet(Lex(Rest(ps, b), 0, Plain))
  {
    hide Lex, AllWritten, BrokenOff, IsPiece, IsBreakOff;
    QuietStands(ps, BrokenOff(b));
    PiecesRead(ps, BrokenOff(b));
    BreakOffReads(b);
  }

  // ---- the chunks -----------------------------------------------------------------------

  /** A split at a terminator is the split of the two parts. */
  lemma {:induction false} SplitInTwo(a: string, b: string, ca: seq<Class>, cb: seq<Class>)
    requires |a| == |ca| && |b| == |cb| && a != "" && ca[|ca| - 1] == Terminator
    ensures Split(a + b, ca + cb) == Split(a, ca) + Split(b, cb)
    decreases |a|
  {
    hide Split, HasCode, FirstCut;
    SplitUnfolds(a, ca);
    SplitUnfolds(a + b, ca + cb);
    var n := FirstCut(ca);
    CutInFront(ca, cb);
    assert (a + b)[..n] == a[..n] && (ca + cb)[..n] == ca[..n];
    assert (a + b)[n..] == a[n..] + b && (ca + cb)[n..] == ca[n..] + cb;
    if n < |a| {
      SplitInTwo(a[n..], b, ca[n..], cb);
    } else {
      assert a[n..] == "" && ca[n..] == [];
      assert a[n..] + b == b && ca[n..] + cb == cb;
      SplitOfNothing();
    }
  }

  lemma SplitOfNothing()
    ensures Split("", []) == []
  {
  }

  lemma CutInFront(ca: seq<Class>, cb: seq<Class>)
    requires ca != [] && ca[|ca| - 1] == Terminator
    ensures FirstCut(ca + cb) == FirstCut(ca)
  {
    FirstCutIsFirst(ca);
    var n := FirstCut(ca);
    assert (ca + cb)[n - 1] == ca[n - 1];
    assert ca[n - 1] == Terminator;
    CutHere(ca + cb, n - 1);
  }

  /** A cut falls at the seam: the first part ends with a terminator in plain text. */
  ghost predicate SeamIsCut(sql: string, rest: string) {
    sql != "" && rest != "" && EndsAt(Chunks(sql + rest), |sql|)
  }

  lemma SeamReads(sql: string, rest: string)
    requires SeamIsCut(sql, rest)
    ensures Lex(sql + rest, 0, Plain) == Lex(sql, 0, Plain) + Lex(rest, 0, Plain)
    ensures Chunks(sql + rest) == Chunks(sql) + Chunks(rest)
  {
    hide Lex, Split, EndsAt;
    CutsAreTheTerminators(sql + rest, |sql|);
    LexToTerminator(sql, rest, 0, Plain);
    SplitInTwo(sql, rest, Lex(sql, 0, Plain), Lex(rest, 0, Plain));
  }

  lemma QuietIsOneChunk(rest: string)
    requires rest != "" && Quiet(Lex(rest, 0, Plain))
    ensures Chunks(rest) == [Chunk(rest, false)]
  {
    hide Lex, Split, FirstCut;
    var classes := Lex(rest, 0, Plain);
    SplitUnfolds(rest, classes);
    NoCut(classes);
    assert rest[..|rest|] == rest && classes[..|rest|] == classes && rest[|rest|..] == "" && classes[|rest|..] == [];
    SplitOfNothing();
  }

  /** After a terminator, white space and comments alone are one chunk without code. */
  lemma RestIsNoCode(sql: string, ps: seq<Piece>, b: BreakOff)
    requires IsRest(ps, b) && SeamIsCut(sql, Rest(ps, b))
    ensures Chunks(sql + Rest(ps, b)) == Chunks(sql) + [Chunk(Rest(ps, b), false)]
  {
    hide Lex, Split, Rest, IsRest;
    RestIsQuiet(ps, b);
    SeamReads(sql, Rest(ps, b));
    QuietIsOneChunk(Rest(ps, b));
  }

  /** Any other character that opens no comment makes its chunk have code. */
  lemma OtherIsCode(sql: string, ps: seq<Piece>, c: char, tail: string)
    requires forall i :: 0 <= i < |ps| ==> IsQuiet(ps[i])
    requires c as int !in WHITE && !("-" <= tail && c == '-') && !("*" <= tail && c == '/')
    requires SeamIsCut(sql, AllWritten(ps) + ([c] + tail))
    ensures var chunks := Chunks(sql + (AllWritten(ps) + ([c] + tail)));
      Chunks(sql) <= chunks && |Chunks(sql)| < |chunks| && chunks[|Chunks(sql)|].hasCode
  {
    hide Lex, Split, AllWritten, IsPiece, FirstCut;
    var rest := AllWritten(ps) + ([c] + tail);
    SeamReads(sql, rest);
    QuietStands(ps, [c] + tail);
    PiecesRead(ps, [c] + tail);
    var classes := Lex(rest, 0, Plain);
    var n := |AllWritten(ps)|;
    OtherReads(c, tail);
    assert classes[n] != Blank && classes[n] != Comment;
    assert forall i :: 0 <= i < n ==> classes[i] == Blank || classes[i] == Comment;
    SplitUnfolds(rest, classes);
    FirstCutIsFirst(classes);
    var cut := FirstCut(classes);
    assert cut < |classes| ==> classes[cut - 1] == Terminator;
    assert cut > n;
    assert classes[..cut][n] == classes[n];
  }

  lemma OtherReads(c: char, tail: string)
    requires c as int !in WHITE && !("-" <= tail && c == '-') && !("*" <= tail && c == '/')
    ensures var first := Lex([c] + tail, 0, Plain)[0]; first != Blank && first != Comment
  {
    var t := [c] + tail;
    WhiteIsSpace(c);
    assert |tail| > 0 ==> t[1] == tail[0];
  }

  // ---- running and preparing ------------------------------------------------------------

  /** SQLite reads the rest as nothing: with it behind, a text is judged as without. */
  ghost predicate Ignores(db: Sqlite, rest: string) {
    forall history, text :: db.compile(history, text + rest) == db.compile(history, text)
  }

  /** The same up to the rest at the end of an error's text. */
  ghost predicate SameOutcome(a: Outcome, b: Outcome, rest: string) {
    match a
    case Done => b.Done?
    case RunError(text) => b == RunError(text)
    case CompileError(text) => b == CompileError(text) || b == CompileError(text + rest)
  }

  lemma {:induction false} JoinBlank(chunks: seq<Chunk>, b: Chunk)
    ensures Join(chunks + [b]) == Join(chunks) + b.text
  {
    JoinOfConcat(chunks, [b]);
    assert [b][1..] == [];
  }

  lemma {:induction false} StatementWithBlank(db: Sqlite, history: seq<string>, chunks: seq<Chunk>, b: Chunk, m: nat)
    requires 1 <= m <= |chunks| + 1 && Ignores(db, b.text)
    requires forall k :: 1 <= k < m ==> db.compile(history, Join(chunks[..k])) == Incomplete
    requires chunks != []
    ensures var n := Statement(db, history, chunks, m);
      Statement(db, history, chunks + [b], m) == if n <= |chunks| then n else |chunks| + 2
    decreases |chunks| - m + 1
  {
    hide Join, Statement;
    var all := chunks + [b];
    StatementUnfolds(db, history, chunks, m);
    StatementUnfolds(db, history, all, m);
    if m <= |chunks| {
      assert all[..m] == chunks[..m];
      if db.compile(history, Join(chunks[..m])) == Incomplete { StatementWithBlank(db, history, chunks, b, m + 1); }
    } else {
      assert all[..m] == all && chunks[..|chunks|] == chunks;
      JoinBlank(chunks, b);
      StatementUnfolds(db, history, all, m + 1);
    }
  }

  lemma StatementUnfolds(db: Sqlite, history: seq<string>, chunks: seq<Chunk>, m: nat)
    requires m <= |chunks| + 1
    ensures Statement(db, history, chunks, m)
            == if m > |chunks| || db.compile(history, Join(chunks[..m])) != Incomplete then m
               else Statement(db, history, chunks, m + 1)
  {
    hide Join;
  }

  lemma {:induction false} BlankChangesNothing(db: Sqlite, history: seq<string>, chunks: seq<Chunk>, b: Chunk)
    requires !b.hasCode && Ignores(db, b.text)
    ensures var x, y := Execute(db, history, chunks), Execute(db, history, chunks + [b]);
      y.ran == x.ran && SameOutcome(x.outcome, y.outcome, b.text)
    decreases |chunks|
  {
    hide Join, Statement, Ignores;
    var all := chunks + [b];
    AnyCodeWithBlank(chunks, b);
    if AnyCode(chunks) {
      StatementWithBlank(db, history, chunks, b, 1);
      var n := Statement(db, history, chunks, 1);
      JoinBlank(chunks, b);
      if n <= |chunks| {
        var text := Join(chunks[..n]);
        assert all[..n] == chunks[..n] && all[n..] == chunks[n..] + [b];
        BlankChangesNothing(db, history + [text], chunks[n..], b);
      }
    }
  }

  lemma AnyCodeWithBlank(chunks: seq<Chunk>, b: Chunk)
    requires !b.hasCode
    ensures AnyCode(chunks + [b]) <==> AnyCode(chunks)
  {
    var all := chunks + [b];
    if AnyCode(chunks) {
      var i :| 0 <= i < |chunks| && chunks[i].hasCode;
      assert all[i].hasCode;
    }
  }

  lemma {:induction false} CountWithBlank(chunks: seq<Chunk>, b: Chunk)
    requires !b.hasCode
    ensures CountCode(chunks + [b]) == CountCode(chunks)
  {
    if chunks == [] {
      assert [] + [b] == [b] && [b][1..] == [];
    } else {
      CountWithBlank(chunks[1..], b);
      assert (chunks + [b])[1..] == chunks[1..] + [b];
    }
  }

  /** Running a script that ends in white space and comments is running it without them: the
      same statements, and the same outcome. */
  lemma RestRunsNothing(db: Sqlite, sql: string, ps: seq<Piece>, b: BreakOff)
    requires IsRest(ps, b) && SeamIsCut(sql, Rest(ps, b)) && Ignores(db, Rest(ps, b))
    ensures var x, y := Execute(db, [], Chunks(sql)), Execute(db, [], Chunks(sql + Rest(ps, b)));
      y.ran == x.ran && SameOutcome(x.outcome, y.outcome, Rest(ps, b))
  {
    hide Lex, Split, Execute, Rest, IsRest, Ignores;
    RestIsNoCode(sql, ps, b);
    BlankChangesNothing(db, [], Chunks(sql), Chunk(Rest(ps, b), false));
  }

  /** The same for preparing: same verdict, same statements left open. */
  method PrepareWithAndWithout(db: Sqlite, sql: string, ghost ps: seq<Piece>, ghost b: BreakOff, rest: string)
    returns (without: Prepared, open: nat, with: Prepared, openWith: nat)
    requires rest == Rest(ps, b) && IsRest(ps, b) && SeamIsCut(sql, rest) && Ignores(db, rest)
    ensures openWith == open
    ensures match without
      case Prepared(text) => with == Prepared(text) || with == Prepared(text + rest)
      case MoreThanOneStatement => with.MoreThanOneStatement?
      case NotCompiled => with.NotCompiled?
  {
    hide Lex, Split, Execute, Rest, IsRest;
    assert Ignores(CompileOnly(db), rest);
    RestIsNoCode(sql, ps, b);
    BlankChangesNothing(CompileOnly(db), [], Chunks(sql), Chunk(rest, false));
    CountWithBlank(Chunks(sql), Chunk(rest, false));
    CompileOnlyNeverRuns(db, [], Chunks(sql));
    without, open := Prepare(db, sql);
    with, openWith := Prepare(db, sql + rest);
  }
}
