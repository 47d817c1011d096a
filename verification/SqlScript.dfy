/** Splitting and running SQL scripts (packages/engine/standalone/sqlite-driver.ts).

    `SplitSqlChunks` is the hand-written scanner that jumps from quote to quote; its
    specification is a lexer that reads one character at a time and knows doubled quotes.
    `Exec` and `Prepare` join chunks until SQLite accepts them; SQLite itself is an arbitrary
    function of the statements run so far and the text offered. */
module SqlScript {
  import opened Wrappers
  import opened Strings

  // ---- the reference lexer --------------------------------------------------------------

  datatype Mode = Plain | LineComment | BlockComment | Quoted(close: char)

  /** What one character of a script is. */
  datatype Class = Blank | Code | Literal | Comment | Terminator

  function CloseOf(c: char): Option<char> {
    if c == '\'' || c == '"' || c == '`' then Some(c) else if c == '[' then Some(']') else None
  }

  predicate At(sql: string, i: nat, a: char, b: char) {
    i + 1 < |sql| && sql[i] == a && sql[i + 1] == b
  }

  /** The class of every character from `i` on, reading in `mode`.  Inside a quoted run the
      closing character ends it unless it is doubled; a bracketed identifier has no doubling. */
  function Lex(sql: string, i: nat, mode: Mode): (classes: seq<Class>)
    requires i <= |sql|
    ensures |classes| == |sql| - i
    decreases |sql| - i
  {
    if i == |sql| then []
    else match mode
      case Plain =>
        if At(sql, i, '-', '-') then [Comment, Comment] + Lex(sql, i + 2, LineComment)
        else if At(sql, i, '/', '*') then [Comment, Comment] + Lex(sql, i + 2, BlockComment)
        else if CloseOf(sql[i]).Some? then [Literal] + Lex(sql, i + 1, Quoted(CloseOf(sql[i]).value))
        else [if sql[i] == ';' then Terminator else if IsJsSpace(sql[i]) then Blank else Code] + Lex(sql, i + 1, Plain)
      case LineComment =>
        [Comment] + Lex(sql, i + 1, if sql[i] == '\n' then Plain else LineComment)
      case BlockComment =>
        if At(sql, i, '*', '/') then [Comment, Comment] + Lex(sql, i + 2, Plain)
        else [Comment] + Lex(sql, i + 1, BlockComment)
      case Quoted(close) =>
        if sql[i] != close then [Literal] + Lex(sql, i + 1, mode)
        else if At(sql, i, close, close) && close != ']' then [Literal, Literal] + Lex(sql, i + 2, mode)
        else [Literal] + Lex(sql, i + 1, Plain)
  }

  datatype Chunk = Chunk(text: string, hasCode: bool)

  predicate HasCode(classes: seq<Class>) {
    exists i :: 0 <= i < |classes| && classes[i] != Blank && classes[i] != Comment
  }

  /** Length of the first piece: through the first terminator, or everything. */
  function FirstCut(classes: seq<Class>): (n: nat)
    ensures n <= |classes| && (classes != [] ==> n > 0)
  {
    if classes == [] then 0 else if classes[0] == Terminator then 1 else 1 + FirstCut(classes[1..])
  }

  /** Cut a script after every terminator. */
  function Split(sql: string, classes: seq<Class>): seq<Chunk>
    requires |sql| == |classes|
    decreases |sql|
  {
    if sql == "" then []
    else
      var n := FirstCut(classes);
      [Chunk(sql[..n], HasCode(classes[..n]))] + Split(sql[n..], classes[n..])
  }

  function Chunks(sql: string): seq<Chunk> {
    Split(sql, Lex(sql, 0, Plain))
  }

  // ---- the jumps of the scanner ---------------------------------------------------------

  /** `indexOf` for one character, or the end of the script. */
  function Find(sql: string, c: char, i: nat): (j: nat)
    requires i <= |sql|
    ensures i <= j <= |sql| && (forall k :: i <= k < j ==> sql[k] != c) && (j < |sql| ==> sql[j] == c)
    decreases |sql| - i
  {
    if i == |sql| || sql[i] == c then i else Find(sql, c, i + 1)
  }

  /** `indexOf("*" + "/")`, or the end of the script. */
  function FindCommentEnd(sql: string, i: nat): (j: nat)
    requires i <= |sql|
    ensures i <= j <= |sql| && (j < |sql| ==> At(sql, j, '*', '/'))
    decreases |sql| - i
  {
    if i == |sql| || At(sql, i, '*', '/') then i else FindCommentEnd(sql, i + 1)
  }

  ghost function Repeat(c: Class, n: nat): (r: seq<Class>)
    ensures |r| == n && forall i :: 0 <= i < n ==> r[i] == c
  {
    seq(n, _ => c)
  }

  /** A quote met inside its own run may be taken for the end of the run: if it was doubled, the
      second quote opens the same run again, and every character is classified alike. */
  lemma QuoteMayEnd(sql: string, i: nat, close: char)
    requires i < |sql| && sql[i] == close && close in {'\'', '"', '`', ']'}
    ensures Lex(sql, i, Quoted(close)) == [Literal] + Lex(sql, i + 1, Plain)
  {
  }

  lemma {:induction false} SkipQuoted(sql: string, i: nat, close: char)
    requires i <= |sql| && close in {'\'', '"', '`', ']'}
    ensures var j := Find(sql, close, i);
            var end := if j < |sql| then j + 1 else j;
            Lex(sql, i, Quoted(close)) == Repeat(Literal, end - i) + Lex(sql, end, Plain)
    decreases |sql| - i
  {
    hide Lex;
    QuotedStep(sql, i, close);
    if i < |sql| {
      if sql[i] == close { QuoteMayEnd(sql, i, close); } else { SkipQuoted(sql, i + 1, close); }
    }
  }

  lemma QuotedStep(sql: string, i: nat, close: char)
    requires i <= |sql|
    ensures i == |sql| ==> Lex(sql, i, Quoted(close)) == Lex(sql, i, Plain) == []
    ensures i < |sql| && sql[i] != close ==> Lex(sql, i, Quoted(close)) == [Literal] + Lex(sql, i + 1, Quoted(close))
  {
  }

  lemma {:induction false} SkipLineComment(sql: string, i: nat)
    requires i <= |sql|
    ensures var j := Find(sql, '\n', i);
            var end := if j < |sql| then j + 1 else j;
            Lex(sql, i, LineComment) == Repeat(Comment, end - i) + Lex(sql, end, Plain)
    decreases |sql| - i
  {
    if i < |sql| && sql[i] != '\n' { SkipLineComment(sql, i + 1); }
  }

  lemma BlockCommentStep(sql: string, i: nat)
    requires i <= |sql|
    ensures i == |sql| ==> Lex(sql, i, BlockComment) == Lex(sql, i, Plain) == []
    ensures i < |sql| && At(sql, i, '*', '/') ==> Lex(sql, i, BlockComment) == [Comment, Comment] + Lex(sql, i + 2, Plain)
    ensures i < |sql| && !At(sql, i, '*', '/') ==> Lex(sql, i, BlockComment) == [Comment] + Lex(sql, i + 1, BlockComment)
  {
  }

  lemma {:induction false} SkipBlockComment(sql: string, i: nat)
    requires i <= |sql|
    ensures var j := FindCommentEnd(sql, i);
            var end := if j < |sql| then j + 2 else j;
            end <= |sql| && Lex(sql, i, BlockComment) == Repeat(Comment, end - i) + Lex(sql, end, Plain)
    decreases |sql| - i
  {
    hide Lex;
    BlockCommentStep(sql, i);
    if i < |sql| && !At(sql, i, '*', '/') {
      SkipBlockComment(sql, i + 1);
    }
  }

  // ---- the scanner ----------------------------------------------------------------------

  lemma {:induction false} CutHere(classes: seq<Class>, n: nat)
    requires n < |classes| && classes[n] == Terminator
    requires forall k :: 0 <= k < n ==> classes[k] != Terminator
    ensures FirstCut(classes) == n + 1
  {
    if n > 0 { CutHere(classes[1..], n - 1); }
  }

  lemma {:induction false} NoCut(classes: seq<Class>)
    requires forall k :: 0 <= k < |classes| ==> classes[k] != Terminator
    ensures FirstCut(classes) == |classes|
  {
    if classes != [] { NoCut(classes[1..]); }
  }

  /** The scanner stands at `i` in plain text, inside the chunk that began at `start`. */
  ghost predicate Scanned(sql: string, start: nat, i: nat, hasCode: bool, chunks: seq<Chunk>) {
    var classes := Lex(sql, 0, Plain);
    && start <= i <= |sql|
    && classes[i..] == Lex(sql, i, Plain)
    && (forall k :: start <= k < i ==> classes[k] != Terminator)
    && hasCode == HasCode(classes[start..i])
    && Chunks(sql) == chunks + Split(sql[start..], classes[start..])
  }

  /** Moving on over characters that are not terminators. */
  lemma Advance(sql: string, start: nat, i: nat, hasCode: bool, chunks: seq<Chunk>, run: seq<Class>)
    requires Scanned(sql, start, i, hasCode, chunks)
    requires i + |run| <= |sql| && Lex(sql, i, Plain) == run + Lex(sql, i + |run|, Plain)
    requires Terminator !in run
    ensures Scanned(sql, start, i + |run|, hasCode || HasCode(run), chunks)
  {
    hide Lex, Split;
    var classes, j := Lex(sql, 0, Plain), i + |run|;
    assert classes[i..] == run + Lex(sql, j, Plain);
    assert forall k :: 0 <= k < |run| ==> classes[i + k] == classes[i..][k] == run[k];
    assert classes[j..] == classes[i..][|run|..] == Lex(sql, j, Plain);
    assert classes[start..j] == classes[start..i] + run;
    HasCodeOfConcat(classes[start..i], run);
  }

  lemma HasCodeOfConcat(a: seq<Class>, b: seq<Class>)
    ensures HasCode(a + b) <==> HasCode(a) || HasCode(b)
  {
    if HasCode(b) {
      var i :| 0 <= i < |b| && b[i] != Blank && b[i] != Comment;
      assert (a + b)[|a| + i] == b[i];
    }
    if HasCode(a) {
      var i :| 0 <= i < |a| && a[i] != Blank && a[i] != Comment;
      assert (a + b)[i] == a[i];
    }
  }

  lemma Begin(sql: string)
    ensures Scanned(sql, 0, 0, false, [])
  {
    hide Lex, Split;
    var classes := Lex(sql, 0, Plain);
    assert classes[0..] == classes && sql[0..] == sql;
  }

  function AfterLineComment(sql: string, i: nat): (next: nat)
    requires At(sql, i, '-', '-')
    ensures i < next <= |sql|
  {
    var end := Find(sql, '\n', i + 2);
    if end < |sql| then end + 1 else end
  }

  lemma LineCommentOpens(sql: string, i: nat)
    requires At(sql, i, '-', '-')
    ensures Lex(sql, i, Plain) == [Comment, Comment] + Lex(sql, i + 2, LineComment)
  {
  }

  lemma LexLineComment(sql: string, i: nat)
    requires At(sql, i, '-', '-')
    ensures var next := AfterLineComment(sql, i);
            Lex(sql, i, Plain) == Repeat(Comment, next - i) + Lex(sql, next, Plain)
  {
    hide Lex, Find;
    LineCommentOpens(sql, i);
    SkipLineComment(sql, i + 2);
    assert Repeat(Comment, AfterLineComment(sql, i) - i) == [Comment, Comment] + Repeat(Comment, AfterLineComment(sql, i) - i - 2);
  }

  lemma OverLineComment(sql: string, start: nat, i: nat, hasCode: bool, chunks: seq<Chunk>)
    requires Scanned(sql, start, i, hasCode, chunks) && At(sql, i, '-', '-')
    ensures Scanned(sql, start, AfterLineComment(sql, i), hasCode, chunks)
  {
    hide Lex, Scanned;
    LexLineComment(sql, i);
    Advance(sql, start, i, hasCode, chunks, Repeat(Comment, AfterLineComment(sql, i) - i));
  }

  function AfterBlockComment(sql: string, i: nat): (next: nat)
    requires At(sql, i, '/', '*')
    ensures i < next <= |sql|
  {
    var end := FindCommentEnd(sql, i + 2);
    if end < |sql| then end + 2 else end
  }

  lemma BlockCommentOpens(sql: string, i: nat)
    requires At(sql, i, '/', '*')
    ensures Lex(sql, i, Plain) == [Comment, Comment] + Lex(sql, i + 2, BlockComment)
  {
  }

  lemma LexBlockComment(sql: string, i: nat)
    requires At(sql, i, '/', '*')
    ensures var next := AfterBlockComment(sql, i);
            Lex(sql, i, Plain) == Repeat(Comment, next - i) + Lex(sql, next, Plain)
  {
    hide Lex, FindCommentEnd;
    BlockCommentOpens(sql, i);
    SkipBlockComment(sql, i + 2);
    assert Repeat(Comment, AfterBlockComment(sql, i) - i) == [Comment, Comment] + Repeat(Comment, AfterBlockComment(sql, i) - i - 2);
  }

  lemma OverBlockComment(sql: string, start: nat, i: nat, hasCode: bool, chunks: seq<Chunk>)
    requires Scanned(sql, start, i, hasCode, chunks) && At(sql, i, '/', '*')
    ensures Scanned(sql, start, AfterBlockComment(sql, i), hasCode, chunks)
  {
    hide Lex, Scanned;
    LexBlockComment(sql, i);
    Advance(sql, start, i, hasCode, chunks, Repeat(Comment, AfterBlockComment(sql, i) - i));
  }

  /** Plain text that opens no comment. */
  predicate NoComment(sql: string, i: nat) {
    i < |sql| && !At(sql, i, '-', '-') && !At(sql, i, '/', '*')
  }

  function AfterQuoted(sql: string, i: nat): (next: nat)
    requires i < |sql| && CloseOf(sql[i]).Some?
    ensures i < next <= |sql|
  {
    var end := Find(sql, CloseOf(sql[i]).value, i + 1);
    if end < |sql| then end + 1 else end
  }

  lemma LexQuoted(sql: string, i: nat)
    requires NoComment(sql, i) && CloseOf(sql[i]).Some?
    ensures var next := AfterQuoted(sql, i);
            Lex(sql, i, Plain) == Repeat(Literal, next - i) + Lex(sql, next, Plain)
  {
    SkipQuoted(sql, i + 1, CloseOf(sql[i]).value);
    assert Repeat(Literal, AfterQuoted(sql, i) - i) == [Literal] + Repeat(Literal, AfterQuoted(sql, i) - i - 1);
  }

  lemma OverQuoted(sql: string, start: nat, i: nat, hasCode: bool, chunks: seq<Chunk>)
    requires Scanned(sql, start, i, hasCode, chunks) && NoComment(sql, i) && CloseOf(sql[i]).Some?
    ensures Scanned(sql, start, AfterQuoted(sql, i), true, chunks)
  {
    hide Lex, Scanned;
    LexQuoted(sql, i);
    var run := Repeat(Literal, AfterQuoted(sql, i) - i);
    assert run[0] == Literal;
    Advance(sql, start, i, hasCode, chunks, run);
  }

  lemma LexOther(sql: string, i: nat)
    requires NoComment(sql, i) && CloseOf(sql[i]).None?
    ensures Lex(sql, i, Plain)
            == [if sql[i] == ';' then Terminator else if IsJsSpace(sql[i]) then Blank else Code] + Lex(sql, i + 1, Plain)
  {
  }

  lemma OverOther(sql: string, start: nat, i: nat, hasCode: bool, chunks: seq<Chunk>)
    requires Scanned(sql, start, i, hasCode, chunks) && NoComment(sql, i) && CloseOf(sql[i]).None? && sql[i] != ';'
    ensures Scanned(sql, start, i + 1, hasCode || !IsJsSpace(sql[i]), chunks)
  {
    var run := [if IsJsSpace(sql[i]) then Blank else Code];
    assert HasCode(run) <==> run[0] == Code;
    LexOther(sql, i);
    hide Lex, Scanned;
    Advance(sql, start, i, hasCode, chunks, run);
  }

  /** A terminator ends the chunk. */
  lemma OverTerminator(sql: string, start: nat, i: nat, hasCode: bool, chunks: seq<Chunk>)
    requires Scanned(sql, start, i, hasCode, chunks) && i < |sql| && sql[i] == ';'
    ensures Scanned(sql, i + 1, i + 1, false, chunks + [Chunk(sql[start..i + 1], true)])
  {
    hide Lex, Split;
    LexOther(sql, i);
    var classes := Lex(sql, 0, Plain);
    assert classes[i] == classes[i..][0] == Terminator;
    assert classes[i + 1..] == classes[i..][1..] == Lex(sql, i + 1, Plain);
    assert classes[i + 1..i + 1] == [];
    CutAfter(sql, classes, start, i);
  }

  lemma CutAfter(sql: string, classes: seq<Class>, start: nat, i: nat)
    requires |sql| == |classes| && start <= i < |sql| && classes[i] == Terminator
    requires forall k :: start <= k < i ==> classes[k] != Terminator
    ensures Split(sql[start..], classes[start..]) == [Chunk(sql[start..i + 1], true)] + Split(sql[i + 1..], classes[i + 1..])
  {
    hide Split;
    var rest, n := classes[start..], i - start;
    assert forall k :: 0 <= k < |rest| ==> rest[k] == classes[start + k];
    SplitAtTerminator(sql[start..], rest, n);
    assert sql[start..][..n + 1] == sql[start..i + 1] && sql[start..][n + 1..] == sql[i + 1..];
    assert rest[n + 1..] == classes[i + 1..];
  }

  lemma SplitAtTerminator(sql: string, classes: seq<Class>, n: nat)
    requires |sql| == |classes| && n < |classes| && classes[n] == Terminator
    requires forall k :: 0 <= k < n ==> classes[k] != Terminator
    ensures Split(sql, classes) == [Chunk(sql[..n + 1], true)] + Split(sql[n + 1..], classes[n + 1..])
  {
    hide Split, FirstCut;
    SplitUnfolds(sql, classes);
    CutHere(classes, n);
    assert classes[..n + 1][n] == Terminator;
  }

  lemma SplitUnfolds(sql: string, classes: seq<Class>)
    requires |sql| == |classes| && sql != ""
    ensures var n := FirstCut(classes);
            Split(sql, classes) == [Chunk(sql[..n], HasCode(classes[..n]))] + Split(sql[n..], classes[n..])
  {
    hide FirstCut, HasCode;
  }

  lemma End(sql: string, start: nat, hasCode: bool, chunks: seq<Chunk>)
    requires Scanned(sql, start, |sql|, hasCode, chunks)
    ensures Chunks(sql) == if start < |sql| then chunks + [Chunk(sql[start..], hasCode)] else chunks
  {
    hide Lex;
    var classes := Lex(sql, 0, Plain);
    var rest := classes[start..];
    assert forall k :: 0 <= k < |rest| ==> rest[k] == classes[start + k];
    NoCut(rest);
    assert rest[..|rest|] == rest == classes[start..|sql|] && rest[|rest|..] == [];
    assert sql[start..][..|rest|] == sql[start..] && sql[start..][|rest|..] == "";
    if start < |sql| {
      assert Split(sql[start..], rest) == [Chunk(sql[start..], hasCode)] + Split("", []);
    } else {
      assert chunks + [] == chunks;
    }
  }

  /** `splitSqlChunks` refines the character-by-character lexer on every script. */
  method SplitSqlChunks(sql: string) returns (chunks: seq<Chunk>)
    ensures chunks == Chunks(sql)
  {
    hide Scanned, Chunks;
    chunks := [];
    var start, i := 0, 0;
    var hasCode := false;
    Begin(sql);
    while i < |sql|
      invariant 0 <= start <= i <= |sql| && Scanned(sql, start, i, hasCode, chunks)
    {
      var ch := sql[i];
      if At(sql, i, '-', '-') {
        OverLineComment(sql, start, i, hasCode, chunks);
        var end := Find(sql, '\n', i + 2);
        i := if end < |sql| then end + 1 else |sql|;
      } else if At(sql, i, '/', '*') {
        OverBlockComment(sql, start, i, hasCode, chunks);
        var end := FindCommentEnd(sql, i + 2);
        i := if end < |sql| then end + 2 else |sql|;
      } else if CloseOf(ch).Some? {
        OverQuoted(sql, start, i, hasCode, chunks);
        var end := Find(sql, CloseOf(ch).value, i + 1);
        i := if end < |sql| then end + 1 else |sql|;
        hasCode := true;
      } else if ch == ';' {
        OverTerminator(sql, start, i, hasCode, chunks);
        i := i + 1;
        chunks := chunks + [Chunk(sql[start..i], true)];
        start := i;
        hasCode := false;
      } else {
        OverOther(sql, start, i, hasCode, chunks);
        if !IsJsSpace(ch) { hasCode := true; }
        i := i + 1;
      }
    }
    End(sql, start, hasCode, chunks);
    if start < |sql| { chunks := chunks + [Chunk(sql[start..], hasCode)]; }
  }

  // ---- what a split means ---------------------------------------------------------------

  /** The text of consecutive chunks. */
  function Join(chunks: seq<Chunk>): string {
    if chunks == [] then "" else chunks[0].text + Join(chunks[1..])
  }

  lemma {:induction false} JoinOfConcat(a: seq<Chunk>, b: seq<Chunk>)
    ensures Join(a + b) == Join(a) + Join(b)
  {
    if a == [] {
      assert a + b == b;
    } else {
      JoinOfConcat(a[1..], b);
      assert (a + b)[1..] == a[1..] + b && (a + b)[0] == a[0];
      calc {
        Join(a + b);
        a[0].text + (Join(a[1..]) + Join(b));
        (a[0].text + Join(a[1..])) + Join(b);
        Join(a) + Join(b);
      }
    }
  }

  lemma {:induction false} SplitJoins(sql: string, classes: seq<Class>)
    requires |sql| == |classes|
    ensures Join(Split(sql, classes)) == sql
    decreases |sql|
  {
    if sql != "" {
      var n := FirstCut(classes);
      SplitJoins(sql[n..], classes[n..]);
      assert Split(sql, classes)[1..] == Split(sql[n..], classes[n..]);
      assert sql == sql[..n] + sql[n..];
    }
  }

  /** Chunk texts concatenate back to the script. */
  lemma ChunksJoinToScript(sql: string)
    ensures Join(Chunks(sql)) == sql
  {
    SplitJoins(sql, Lex(sql, 0, Plain));
  }

  /** A chunk ends right before position `p`. */
  ghost predicate EndsAt(chunks: seq<Chunk>, p: nat) {
    exists k :: 0 < k <= |chunks| && |Join(chunks[..k])| == p
  }

  lemma {:induction false} FirstCutIsFirst(classes: seq<Class>)
    ensures var n := FirstCut(classes);
            && (forall k :: 0 <= k < n - 1 ==> classes[k] != Terminator)
            && (n < |classes| ==> classes[n - 1] == Terminator)
  {
    if classes != [] && classes[0] != Terminator { FirstCutIsFirst(classes[1..]); }
  }

  lemma EndsAtCons(first: Chunk, rest: seq<Chunk>, p: nat)
    ensures EndsAt([first] + rest, p) <==> p == |first.text| || (p >= |first.text| && EndsAt(rest, p - |first.text|))
  {
    var all := [first] + rest;
    assert forall k :: 0 < k <= |all| ==> all[..k] == [first] + rest[..k - 1];
    forall k | 0 < k <= |all| ensures |Join(all[..k])| == |first.text| + |Join(rest[..k - 1])| {
      JoinOfConcat([first], rest[..k - 1]);
    }
    if p == |first.text| { assert all[..1] == [first] && |Join(all[..1])| == p; }
    if p >= |first.text| && EndsAt(rest, p - |first.text|) {
      var k :| 0 < k <= |rest| && |Join(rest[..k])| == p - |first.text|;
      assert all[..k + 1] == [first] + rest[..k];
    }
    if EndsAt(all, p) {
      var k :| 0 < k <= |all| && |Join(all[..k])| == p;
      if k == 1 { assert rest[..0] == []; }
    }
  }

  lemma {:induction false} SplitCuts(sql: string, classes: seq<Class>, p: nat)
    requires |sql| == |classes| && 0 < p <= |sql|
    ensures EndsAt(Split(sql, classes), p) <==> p == |sql| || classes[p - 1] == Terminator
    decreases |sql|
  {
    var n := FirstCut(classes);
    FirstCutIsFirst(classes);
    var rest := Split(sql[n..], classes[n..]);
    EndsAtCons(Chunk(sql[..n], HasCode(classes[..n])), rest, p);
    if p > n { SplitCuts(sql[n..], classes[n..], p - n); }
    if p == n < |sql| { assert classes[n - 1] == Terminator; }
    if EndsAt(rest, 0) { NothingEndsAtZero(sql[n..], classes[n..]); }
  }

  lemma NothingEndsAtZero(sql: string, classes: seq<Class>)
    requires |sql| == |classes|
    ensures !EndsAt(Split(sql, classes), 0)
  {
    if sql != "" {
      var n := FirstCut(classes);
      EndsAtCons(Chunk(sql[..n], HasCode(classes[..n])), Split(sql[n..], classes[n..]), 0);
    }
  }

  /** Cuts fall exactly after the semicolons the lexer places outside literals, quoted
      identifiers and comments, and at the end of the script. */
  lemma CutsAreTheTerminators(sql: string, p: nat)
    requires 0 < p <= |sql|
    ensures EndsAt(Chunks(sql), p) <==> p == |sql| || Lex(sql, 0, Plain)[p - 1] == Terminator
  {
    SplitCuts(sql, Lex(sql, 0, Plain), p);
  }

  /** Only the last chunk can be without code. */
  lemma {:induction false} OnlyLastLacksCode(sql: string, classes: seq<Class>, k: nat)
    requires |sql| == |classes| && k < |Split(sql, classes)| && !Split(sql, classes)[k].hasCode
    ensures k == |Split(sql, classes)| - 1
    decreases |sql|
  {
    var n := FirstCut(classes);
    FirstCutIsFirst(classes);
    assert n < |sql| ==> classes[..n][n - 1] == Terminator;
    if k == 0 {
      assert sql[n..] == "";
    } else {
      OnlyLastLacksCode(sql[n..], classes[n..], k - 1);
    }
  }

  // ---- running a script -----------------------------------------------------------------

  /** SQLite's verdict on a text: a statement, "incomplete input", or another error. */
  datatype Compiled = Complete | Incomplete | Invalid

  /** SQLite as seen from here: both answers may depend on the statements run so far. */
  datatype Sqlite = Sqlite(compile: (seq<string>, string) -> Compiled, run: (seq<string>, string) -> bool)

  datatype Outcome = Done | CompileError(text: string) | RunError(text: string)

  /** The statements that ran to completion, each as the chunks it was joined from. */
  datatype Execution = Execution(ran: seq<seq<Chunk>>, outcome: Outcome)

  predicate AnyCode(chunks: seq<Chunk>) {
    exists i :: 0 <= i < |chunks| && chunks[i].hasCode
  }

  /** The fewest leading chunks (at least `m`) that SQLite does not call incomplete. */
  function Statement(db: Sqlite, history: seq<string>, chunks: seq<Chunk>, m: nat): (n: nat)
    requires m <= |chunks| + 1
    ensures m <= n <= |chunks| + 1
    ensures forall k :: m <= k < n && k <= |chunks| ==> db.compile(history, Join(chunks[..k])) == Incomplete
    ensures n <= |chunks| ==> db.compile(history, Join(chunks[..n])) != Incomplete
    decreases |chunks| - m + 1
  {
    if m > |chunks| || db.compile(history, Join(chunks[..m])) != Incomplete then m
    else Statement(db, history, chunks, m + 1)
  }

  /** What running a script means: repeatedly take the shortest complete statement from the
      front, run it, stop at the first failure; a rest without code is nothing to run. */
  function Execute(db: Sqlite, history: seq<string>, chunks: seq<Chunk>): Execution
    decreases |chunks|
  {
    if !AnyCode(chunks) then Execution([], Done)
    else
      var n := Statement(db, history, chunks, 1);
      if n > |chunks| then Execution([], CompileError(Join(chunks)))
      else
        var text := Join(chunks[..n]);
        if db.compile(history, text) == Invalid then Execution([], CompileError(text))
        else if !db.run(history, text) then Execution([], RunError(text))
        else
          var rest := Execute(db, history + [text], chunks[n..]);
          Execution([chunks[..n]] + rest.ran, rest.outcome)
  }

  function Flatten(groups: seq<seq<Chunk>>): seq<Chunk> {
    if groups == [] then [] else groups[0] + Flatten(groups[1..])
  }

  ghost function Prepend(ran: seq<seq<Chunk>>, x: Execution): Execution {
    Execution(ran + x.ran, x.outcome)
  }

  /** Every statement that ran is a run of whole chunks, taken from the front in script order
      without gap or overlap; on a failure the failing text is what comes next; and a script
      ends well only when nothing with code is left. */
  ghost predicate Covers(chunks: seq<Chunk>, x: Execution) {
    var done := |Flatten(x.ran)|;
    && done <= |chunks| && Flatten(x.ran) == chunks[..done]
    && (x.outcome.Done? ==> !AnyCode(chunks[done..]))
    && (!x.outcome.Done? ==> exists m :: done < m <= |chunks| && x.outcome.text == Join(chunks[done..m]))
  }

  lemma CoversPrepend(chunks: seq<Chunk>, n: nat, y: Execution)
    requires n <= |chunks| && Covers(chunks[n..], y)
    ensures Covers(chunks, Prepend([chunks[..n]], y))
  {
    hide Join;
    var x := Prepend([chunks[..n]], y);
    assert x.ran[1..] == y.ran && x.ran[0] == chunks[..n];
    var d := |Flatten(y.ran)|;
    assert Flatten(x.ran) == chunks[..n] + chunks[n..][..d] == chunks[..n + d];
    assert chunks[n..][d..] == chunks[n + d..];
    if !x.outcome.Done? {
      var m :| d < m <= |chunks[n..]| && y.outcome.text == Join(chunks[n..][d..m]);
      assert chunks[n..][d..m] == chunks[n + d..n + m];
    }
  }

  /** For every script, every SQLite and every outcome. */
  lemma {:induction false} ExecutionCoversScript(db: Sqlite, history: seq<string>, chunks: seq<Chunk>)
    ensures Covers(chunks, Execute(db, history, chunks))
    decreases |chunks|
  {
    hide Join;
    if AnyCode(chunks) {
      var n := Statement(db, history, chunks, 1);
      assert chunks[0..|chunks|] == chunks;
      if n <= |chunks| {
        var text := Join(chunks[..n]);
        assert chunks[0..n] == chunks[..n];
        if db.compile(history, text) != Invalid && db.run(history, text) {
          ExecutionCoversScript(db, history + [text], chunks[n..]);
          CoversPrepend(chunks, n, Execute(db, history + [text], chunks[n..]));
        }
      }
    } else {
      assert chunks[0..] == chunks;
    }
  }

  function Texts(groups: seq<seq<Chunk>>): seq<string> {
    seq(|groups|, i requires 0 <= i < |groups| => Join(groups[i]))
  }

  lemma TextsSnoc(groups: seq<seq<Chunk>>, g: seq<Chunk>)
    ensures Texts(groups + [g]) == Texts(groups) + [Join(g)]
  {
  }

  lemma JoinSnoc(chunks: seq<Chunk>, c: Chunk)
    ensures Join(chunks + [c]) == Join(chunks) + c.text
  {
    JoinOfConcat(chunks, [c]);
    assert Join([c]) == c.text + Join([]);
  }

  /** Chunks `from` to `i` carry code and SQLite called every join of them so far incomplete. */
  ghost predicate Awaiting(db: Sqlite, history: seq<string>, chunks: seq<Chunk>, from: nat, i: nat) {
    && from <= i <= |chunks|
    && (from < i ==> chunks[from].hasCode)
    && forall k :: from < k <= i ==> db.compile(history, Join(chunks[from..k])) == Incomplete
  }

  lemma Ready(db: Sqlite, history: seq<string>, chunks: seq<Chunk>, from: nat, i: nat)
    requires from < i <= |chunks| && chunks[from].hasCode
    requires forall k :: from < k < i ==> db.compile(history, Join(chunks[from..k])) == Incomplete
    requires db.compile(history, Join(chunks[from..i])) != Incomplete
    ensures var text := Join(chunks[from..i]);
            Execute(db, history, chunks[from..])
            == if db.compile(history, text) == Invalid then Execution([], CompileError(text))
               else if !db.run(history, text) then Execution([], RunError(text))
               else Prepend([chunks[from..i]], Execute(db, history + [text], chunks[i..]))
  {
    var rest := chunks[from..];
    var n := Statement(db, history, rest, 1);
    assert rest[0].hasCode;
    assert forall k :: 0 <= k <= |rest| ==> rest[..k] == chunks[from..from + k];
    assert forall k :: 0 < k < i - from ==> db.compile(history, Join(rest[..k])) == Incomplete;
    assert rest[..i - from] == chunks[from..i];
    assert n == i - from;
    assert rest[n..] == chunks[i..];
  }

  lemma NeverCompleted(db: Sqlite, history: seq<string>, chunks: seq<Chunk>, from: nat)
    requires from < |chunks| && Awaiting(db, history, chunks, from, |chunks|)
    ensures Execute(db, history, chunks[from..]) == Execution([], CompileError(Join(chunks[from..])))
  {
    var rest := chunks[from..];
    var n := Statement(db, history, rest, 1);
    assert rest[0].hasCode;
    assert forall k :: 0 <= k <= |rest| ==> rest[..k] == chunks[from..from + k];
    assert forall k :: 0 < k <= |rest| ==> db.compile(history, Join(rest[..k])) == Incomplete;
  }

  lemma NothingLeft(db: Sqlite, history: seq<string>, chunks: seq<Chunk>)
    requires chunks != [] && !chunks[|chunks| - 1].hasCode
    ensures Execute(db, history, chunks[|chunks| - 1..]) == Execute(db, history, chunks[|chunks|..]) == Execution([], Done)
  {
  }

  /** The state of `exec` between two chunks: `ran` is done, `from` to `i` is buffered. */
  ghost predicate Between(db: Sqlite, chunks: seq<Chunk>, ran: seq<seq<Chunk>>, from: nat, i: nat) {
    && Awaiting(db, Texts(ran), chunks, from, i)
    && Execute(db, [], chunks) == Prepend(ran, Execute(db, Texts(ran), chunks[from..]))
  }

  lemma RanOne(db: Sqlite, chunks: seq<Chunk>, ran: seq<seq<Chunk>>, from: nat, i: nat)
    requires from < i <= |chunks| && Between(db, chunks, ran, from, i - 1) && chunks[from].hasCode
    requires db.compile(Texts(ran), Join(chunks[from..i])) != Incomplete
    ensures var text := Join(chunks[from..i]);
            if db.compile(Texts(ran), text) == Invalid then Execute(db, [], chunks) == Execution(ran, CompileError(text))
            else if !db.run(Texts(ran), text) then Execute(db, [], chunks) == Execution(ran, RunError(text))
            else Between(db, chunks, ran + [chunks[from..i]], i, i)
  {
    hide Execute, Join;
    Ready(db, Texts(ran), chunks, from, i);
    TextsSnoc(ran, chunks[from..i]);
    assert ran + [] == ran;
    var rest := Execute(db, Texts(ran) + [Join(chunks[from..i])], chunks[i..]);
    assert ran + ([chunks[from..i]] + rest.ran) == ran + [chunks[from..i]] + rest.ran;
  }

  lemma Ended(db: Sqlite, chunks: seq<Chunk>, ran: seq<seq<Chunk>>, from: nat)
    requires from <= |chunks| && Between(db, chunks, ran, from, |chunks|)
    ensures Execute(db, [], chunks)
            == Execution(ran, if from < |chunks| then CompileError(Join(chunks[from..])) else Done)
  {
    if from < |chunks| { NeverCompleted(db, Texts(ran), chunks, from); }
    assert ran + [] == ran;
  }

  lemma SliceGrows(chunks: seq<Chunk>, from: nat, i: nat)
    requires from <= i < |chunks|
    ensures chunks[from..i] + [chunks[i]] == chunks[from..i + 1]
  {
  }

  /** `exec` over the generator `#statements`: a buffer of joined chunks is offered to SQLite as
      each chunk arrives.  It does what `Execute` says, and every statement it compiled has been
      finalized, whatever the outcome. */
  method Exec(db: Sqlite, sql: string) returns (x: Execution, compiled: nat, finalized: nat)
    ensures x == Execute(db, [], Chunks(sql))
    ensures compiled == finalized
  {
    hide Execute, Lex, Join;
    var chunks := SplitSqlChunks(sql);
    var ran: seq<seq<Chunk>> := [];
    compiled, finalized := 0, 0;
    var pending, pendingHasCode := "", false;
    var i, from := 0, 0;
    assert Texts(ran) == [] && chunks[0..] == chunks;
    assert Between(db, chunks, ran, 0, 0) by { assert ran + Execute(db, [], chunks).ran == Execute(db, [], chunks).ran; }
    JoinNothing();
    while i < |chunks|
      invariant 0 <= from <= i <= |chunks| && compiled == finalized
      invariant Between(db, chunks, ran, from, i)
      invariant pending == Join(chunks[from..i]) && pendingHasCode == (from < i)
    {
      var chunk := chunks[i];
      JoinSnoc(chunks[from..i], chunk);
      SliceGrows(chunks, from, i);
      pending := pending + chunk.text;
      pendingHasCode := pendingHasCode || chunk.hasCode;
      i := i + 1;
      if !pendingHasCode {
        OnlyLastLacksCode(sql, Lex(sql, 0, Plain), i - 1);
        NothingLeft(db, Texts(ran), chunks);
        pending := "";
        from := i;
      } else {
        var verdict := db.compile(Texts(ran), pending);
        if verdict != Incomplete {
          RanOne(db, chunks, ran, from, i);
          if verdict == Invalid { return Execution(ran, CompileError(pending)), compiled, finalized; }
          compiled := compiled + 1;
          var ok := db.run(Texts(ran), pending);
          finalized := finalized + 1;
          if !ok { return Execution(ran, RunError(pending)), compiled, finalized; }
          ran := ran + [chunks[from..i]];
          pending, pendingHasCode := "", false;
          from := i;
        }
      }
      assert from == i ==> chunks[from..i] == [];
    }
    Ended(db, chunks, ran, from);
    // What is left over and was never accepted is an error of SQLite's.
    assert chunks[from..i] == chunks[from..];
    x := Execution(ran, if pendingHasCode then CompileError(pending) else Done);
  }

  lemma JoinNothing()
    ensures Join([]) == ""
  {
  }

  // ---- preparing one statement ----------------------------------------------------------

  datatype Prepared = Prepared(text: string) | MoreThanOneStatement | NotCompiled

  function CountCode(chunks: seq<Chunk>): nat {
    if chunks == [] then 0 else (if chunks[0].hasCode then 1 else 0) + CountCode(chunks[1..])
  }

  /** The generator drained without running anything: nothing it compiles changes the database. */
  function CompileOnly(db: Sqlite): Sqlite {
    Sqlite((_, text) => db.compile([], text), (_, _) => true)
  }

  /** The text a successful `prepare` holds on to covers every chunk with code. */
  ghost predicate HoldsWholeScript(sql: string, text: string) {
    exists k :: 0 <= k <= |Chunks(sql)| && text == Join(Chunks(sql)[..k]) && !AnyCode(Chunks(sql)[k..])
  }

  /** `prepare`: a prepared statement never stands for only a part of the script, and `open`
      counts the compiled statements that were neither returned nor finalized.  A script with at
      most one chunk of code is compiled as it stands; any other is compiled statement by
      statement, and prepared exactly when that finds one statement and no error. */
  method Prepare(db: Sqlite, sql: string) returns (r: Prepared, open: nat)
    ensures r.Prepared? ==> HoldsWholeScript(sql, r.text) && db.compile([], r.text) == Complete
    ensures CountCode(Chunks(sql)) <= 1 ==>
              open == 0 && r == if db.compile([], sql) == Complete then Prepared(sql) else NotCompiled
    ensures CountCode(Chunks(sql)) > 1 ==>
              var x := Execute(CompileOnly(db), [], Chunks(sql));
              && (r.Prepared? <==> x.outcome.Done? && |x.ran| == 1)
              && (r.Prepared? ==> r.text == Join(x.ran[0]))
              && (r.MoreThanOneStatement? <==> x.outcome.Done? && |x.ran| > 1)
              && (r.NotCompiled? <==> x.outcome.CompileError?)
              && open == if x.outcome.CompileError? then |x.ran| else 0
  {
    var chunks := SplitSqlChunks(sql);
    ExecutionCoversScript(CompileOnly(db), [], chunks);
    if CountCode(chunks) > 1 {
      var x, _, _ := Exec(CompileOnly(db), sql);
      CompileOnlyNeverRuns(db, [], chunks);
      if !x.outcome.Done? {
        // The error leaves the generator; what it had compiled is nobody's to finalize.
        return NotCompiled, |x.ran|;
      }
      CodeIsRun(CompileOnly(db), [], chunks);
      if |x.ran| > 1 { return MoreThanOneStatement, 0; }
      assert Flatten(x.ran) == x.ran[0] + Flatten(x.ran[1..]) == x.ran[0];
      return Prepared(Join(x.ran[0])), 0;
    }
    if db.compile([], sql) != Complete { return NotCompiled, 0; }
    ChunksJoinToScript(sql);
    assert chunks[..|chunks|] == chunks && chunks[|chunks|..] == [];
    return Prepared(sql), 0;
  }

  /** An SQLite that accepts `a;` and nothing else. */
  const ACCEPTS_A := Sqlite((_, text) => if text == "a;" then Complete else Invalid, (_, _) => true)

  lemma TwoStatements()
    ensures Chunks("a;b;") == [Chunk("a;", true), Chunk("b;", true)]
  {
    var sql := "a;b;";
    assert Lex(sql, 4, Plain) == [];
    assert Lex(sql, 3, Plain) == [Terminator];
    assert Lex(sql, 2, Plain) == [Code, Terminator];
    assert Lex(sql, 1, Plain) == [Terminator, Code, Terminator];
    var classes := Lex(sql, 0, Plain);
    assert classes == [Code, Terminator, Code, Terminator];
    SplitAtTerminator(sql, classes, 1);
    hide Lex;
    assert sql[..2] == "a;" && sql[2..] == "b;" && classes[2..] == [Code, Terminator];
    SplitAtTerminator("b;", [Code, Terminator], 1);
    assert "b;"[..2] == "b;" && "b;"[2..] == "" && [Code, Terminator][2..] == [];
  }

  /** A leak: the first statement compiles, the second does not, and the first stays open. */
  method FailingPrepareLeaks() returns (r: Prepared, open: nat)
    ensures r == NotCompiled && open == 1
  {
    hide Lex, Split;
    TwoStatements();
    LeakedExecution();
    r, open := Prepare(ACCEPTS_A, "a;b;");
  }

  lemma LeakedExecution()
    ensures var chunks := [Chunk("a;", true), Chunk("b;", true)];
      && CountCode(chunks) == 2
      && Execute(CompileOnly(ACCEPTS_A), [], chunks) == Execution([[chunks[0]]], CompileError("b;"))
  {
    var db := CompileOnly(ACCEPTS_A);
    var chunks := [Chunk("a;", true), Chunk("b;", true)];
    assert chunks[1..] == [chunks[1]] && [chunks[1]][1..] == [];
    assert CountCode(chunks) == 2;
    assert chunks[..1] == [chunks[0]] && [chunks[0]][1..] == [] && Join([chunks[0]]) == "a;" + "" == "a;";
    assert [chunks[1]][..1] == [chunks[1]] && Join([chunks[1]]) == "b;" + "" == "b;";
    assert "b;"[0] == 'b' && "a;"[0] == 'a';
    assert Statement(db, [], chunks, 1) == 1;
    assert Statement(db, ["a;"], [chunks[1]], 1) == 1;
    assert [chunks[1]][0].hasCode && chunks[0].hasCode;
    assert Execute(db, ["a;"], [chunks[1]]) == Execution([], CompileError("b;"));
    assert [] + ["a;"] == ["a;"];
  }

  lemma {:induction false} CountCodeMeansAnyCode(chunks: seq<Chunk>)
    requires CountCode(chunks) > 0
    ensures AnyCode(chunks)
  {
    if !chunks[0].hasCode {
      CountCodeMeansAnyCode(chunks[1..]);
      var i :| 0 <= i < |chunks[1..]| && chunks[1..][i].hasCode;
      assert chunks[i + 1].hasCode;
    } else {
      assert chunks[0].hasCode;
    }
  }

  lemma CodeIsRun(db: Sqlite, history: seq<string>, chunks: seq<Chunk>)
    requires CountCode(chunks) > 0 && Execute(db, history, chunks).outcome.Done?
    ensures var x := Execute(db, history, chunks);
            x.ran != [] && db.compile(history, Join(x.ran[0])) == Complete
  {
    CountCodeMeansAnyCode(chunks);
  }

  lemma {:induction false} CompileOnlyNeverRuns(db: Sqlite, history: seq<string>, chunks: seq<Chunk>)
    ensures !Execute(CompileOnly(db), history, chunks).outcome.RunError?
    decreases |chunks|
  {
    if AnyCode(chunks) {
      var n := Statement(CompileOnly(db), history, chunks, 1);
      if n <= |chunks| { CompileOnlyNeverRuns(db, history + [Join(chunks[..n])], chunks[n..]); }
    }
  }
}
