/**
 splitCQL (server/cmd/migrate/main.go): statements of a CQL script, without comment lines.

 Text is a sequence of code points; white space is Unicode's, as strings.TrimSpace sees it.
 */
module CqlSplitter {

  predicate IsSpace(c: char) {
    || '\t' <= c <= '\r' || c == ' ' || c == '\U{0085}' || c == '\U{00A0}' || c == '\U{1680}'
    || '\U{2000}' <= c <= '\U{200A}' || c == '\U{2028}' || c == '\U{2029}' || c == '\U{202F}' || c == '\U{205F}'
      || c == '\U{3000}'
  }

  /** The 25 code points with the White_Space property. */
  lemma SpacesAre(c: char)
    ensures IsSpace(c) <==>
      c as int in {9, 10, 11, 12, 13, 32, 0x85, 0xA0, 0x1680, 0x2000, 0x2001, 0x2002, 0x2003, 0x2004, 0x2005, 0x2006,
                   0x2007, 0x2008, 0x2009, 0x200A, 0x2028, 0x2029, 0x202F, 0x205F, 0x3000}
  {
  }

  function TrimLeft(s: string): string {
    if s != [] && IsSpace(s[0]) then TrimLeft(s[1..]) else s
  }

  function TrimRight(s: string): string {
    if s != [] && IsSpace(s[|s| - 1]) then TrimRight(s[..|s| - 1]) else s
  }

  function TrimSpace(s: string): string {
    TrimRight(TrimLeft(s))
  }

  function Split(s: string, sep: char): (r: seq<string>)
    ensures |r| >= 1
  {
    if s == [] then [[]]
    else
      var r := Split(s[1..], sep);
      if s[0] == sep then [[]] + r else [[s[0]] + r[0]] + r[1..]
  }

  function Join(parts: seq<string>, sep: char): string {
    if parts == [] then [] else if |parts| == 1 then parts[0] else parts[0] + [sep] + Join(parts[1..], sep)
  }

  /** The lines splitCQL drops: blank, or a comment once trimmed. */
  predicate Kept(line: string) {
    var t := TrimSpace(line);
    t != [] && !("--" <= t) && !("//" <= t)
  }

  function KeptLines(lines: seq<string>): seq<string> {
    if lines == [] then []
    else
      var ks := KeptLines(lines[..|lines| - 1]);
      if Kept(lines[|lines| - 1]) then ks + [lines[|lines| - 1]] else ks
  }

  /** One segment without its dropped lines, trimmed. */
  function Clean(segment: string): string {
    TrimSpace(Join(KeptLines(Split(segment, '\n')), '\n'))
  }

  function NonEmptyClean(segments: seq<string>): seq<string> {
    if segments == [] then []
    else
      var r := NonEmptyClean(segments[..|segments| - 1]);
      var c := Clean(segments[|segments| - 1]);
      if c != [] then r + [c] else r
  }

  function Statements(content: string): seq<string> {
    NonEmptyClean(Split(content, ';'))
  }

  method CleanSegment(segment: string) returns (clean: string)
    ensures clean == Clean(segment)
  {
    var all := Split(segment, '\n');
    var lines: seq<string> := [];
    for i := 0 to |all|
      invariant lines == KeptLines(all[..i])
    {
      assert all[..i + 1][..i] == all[..i];
      var trimmed := TrimSpace(all[i]);
      if trimmed == "" || "--" <= trimmed || "//" <= trimmed {
        continue;
      }
      lines := lines + [all[i]];
    }
    assert all[..|all|] == all;
    clean := TrimSpace(Join(lines, '\n'));
  }

  method SplitCql(content: string) returns (statements: seq<string>)
    ensures statements == Statements(content)
  {
    statements := [];
    var segments := Split(content, ';');
    for i := 0 to |segments|
      invariant statements == NonEmptyClean(segments[..i])
    {
      assert segments[..i + 1][..i] == segments[..i];
      var clean := CleanSegment(segments[i]);
      if clean != "" {
        statements := statements + [clean];
      }
    }
    assert segments[..|segments|] == segments;
  }

  // ----- splitting and joining

  predicate Free(s: string, sep: char) {
    sep !in s
  }

  predicate AllFree(parts: seq<string>, sep: char) {
    forall i :: 0 <= i < |parts| ==> Free(parts[i], sep)
  }

  lemma {:induction false} PiecesAreFree(s: string, sep: char)
    ensures AllFree(Split(s, sep), sep)
  {
    if s != [] {
      PiecesAreFree(s[1..], sep);
    }
  }

  lemma {:induction false} SplitFree(s: string, sep: char)
    requires Free(s, sep)
    ensures Split(s, sep) == [s]
  {
    if s != [] {
      SplitFree(s[1..], sep);
      assert [s[0]] + s[1..] == s;
    }
  }

  lemma {:induction false} SplitAtSep(a: string, b: string, sep: char)
    requires Free(a, sep)
    ensures Split(a + [sep] + b, sep) == [a] + Split(b, sep)
  {
    if a == [] {
      assert (a + [sep] + b)[1..] == b;
    } else {
      SplitAtSep(a[1..], b, sep);
      assert (a + [sep] + b)[1..] == a[1..] + [sep] + b;
      assert [a[0]] + a[1..] == a;
    }
  }

  /** Splitting undoes joining. */
  lemma {:induction false} SplitOfJoin(parts: seq<string>, sep: char)
    requires parts != [] && AllFree(parts, sep)
    ensures Split(Join(parts, sep), sep) == parts
  {
    if |parts| == 1 {
      SplitFree(parts[0], sep);
    } else {
      assert AllFree(parts[1..], sep);
      SplitOfJoin(parts[1..], sep);
      SplitAtSep(parts[0], Join(parts[1..], sep), sep);
      assert [parts[0]] + parts[1..] == parts;
    }
  }

  /** Joining undoes splitting. */
  lemma {:induction false} JoinOfSplit(s: string, sep: char)
    ensures Join(Split(s, sep), sep) == s
  {
    if s != [] {
      JoinOfSplit(s[1..], sep);
      var r := Split(s[1..], sep);
      if s[0] == sep {
        assert ([[]] + r)[1..] == r;
      } else {
        assert ([[s[0]] + r[0]] + r[1..])[1..] == r[1..];
      }
    }
  }

  /** Joining adds no other separator. */
  lemma {:induction false} JoinIsFree(parts: seq<string>, sep: char, x: char)
    requires AllFree(parts, x) && x != sep
    ensures Free(Join(parts, sep), x)
  {
    if |parts| > 1 {
      assert AllFree(parts[1..], x);
      JoinIsFree(parts[1..], sep, x);
    }
  }

  lemma {:induction false} JoinSnoc(parts: seq<string>, last: string, sep: char)
    requires parts != []
    ensures Join(parts + [last], sep) == Join(parts, sep) + [sep] + last
  {
    if |parts| == 1 {
      assert (parts + [last])[1..] == [last];
    } else {
      JoinSnoc(parts[1..], last, sep);
      assert (parts + [last])[1..] == parts[1..] + [last];
    }
  }

  // ----- trimming

  predicate Blank(s: string) {
    forall i :: 0 <= i < |s| ==> IsSpace(s[i])
  }

  predicate Trimmed(s: string) {
    s != [] ==> !IsSpace(s[0]) && !IsSpace(s[|s| - 1])
  }

  lemma {:induction false} TrimLeftIs(s: string)
    ensures TrimLeft(s) == [] <==> Blank(s)
    ensures TrimLeft(s) != [] ==> !IsSpace(TrimLeft(s)[0])
    ensures forall c :: c in TrimLeft(s) ==> c in s
  {
    if s != [] && IsSpace(s[0]) {
      TrimLeftIs(s[1..]);
      assert s == [s[0]] + s[1..];
    }
  }

  lemma {:induction false} TrimRightIs(s: string)
    ensures TrimRight(s) == [] <==> Blank(s)
    ensures TrimRight(s) != [] ==> !IsSpace(TrimRight(s)[|TrimRight(s)| - 1]) && TrimRight(s)[0] == s[0]
    ensures forall c :: c in TrimRight(s) ==> c in s
  {
    if s != [] && IsSpace(s[|s| - 1]) {
      TrimRightIs(s[..|s| - 1]);
      assert s == s[..|s| - 1] + [s[|s| - 1]];
    }
  }

  lemma {:induction false} TrimLeftAppend(a: string, b: string)
    requires !Blank(a)
    ensures TrimLeft(a + b) == TrimLeft(a) + b
  {
    assert a != [] ==> (a + b)[0] == a[0];
    if IsSpace(a[0]) {
      assert (a + b)[1..] == a[1..] + b && a == [a[0]] + a[1..];
      TrimLeftAppend(a[1..], b);
    }
  }

  lemma {:induction false} TrimRightAppend(a: string, b: string)
    requires !Blank(b)
    ensures TrimRight(a + b) == a + TrimRight(b)
  {
    var n := |b| - 1;
    assert (a + b)[|a + b| - 1] == b[n];
    if IsSpace(b[n]) {
      assert (a + b)[..|a + b| - 1] == a + b[..n] && b == b[..n] + [b[n]];
      TrimRightAppend(a, b[..n]);
    }
  }

  lemma TrimmedIsFixed(s: string)
    requires Trimmed(s)
    ensures TrimLeft(s) == s && TrimRight(s) == s && TrimSpace(s) == s
  {
  }

  /** A trimmed text neither starts nor ends with white space; it is empty exactly when all was white space. */
  lemma TrimSpaceIs(s: string)
    ensures Trimmed(TrimSpace(s)) && (TrimSpace(s) == [] <==> Blank(s))
    ensures forall c :: c in TrimSpace(s) ==> c in s
  {
    TrimLeftIs(s);
    TrimRightIs(TrimLeft(s));
    if !Blank(s) {
      assert !IsSpace(TrimLeft(s)[0]);
      assert !Blank(TrimLeft(s));
    }
  }

  lemma {:induction false} TrimsCommute(s: string)
    ensures TrimLeft(TrimRight(s)) == TrimRight(TrimLeft(s))
  {
    TrimLeftIs(s);
    TrimRightIs(s);
    if Blank(s) {
    } else if IsSpace(s[0]) {
      assert s == [s[0]] + s[1..];
      assert !Blank(s[1..]);
      TrimRightAppend([s[0]], s[1..]);
      TrimsCommute(s[1..]);
      assert TrimRight(s)[1..] == TrimRight(s[1..]);
    }
  }

  /** Trimming one end first changes nothing. */
  lemma TrimOfTrims(s: string)
    ensures TrimSpace(TrimLeft(s)) == TrimSpace(s) && TrimSpace(TrimRight(s)) == TrimSpace(s)
  {
    TrimLeftIs(s);
    TrimRightIs(s);
    TrimsCommute(s);
    TrimRightIs(TrimLeft(s));
    assert TrimLeft(TrimLeft(s)) == TrimLeft(s);
    assert TrimRight(TrimRight(TrimLeft(s))) == TrimRight(TrimLeft(s));
  }

  // ----- what a statement consists of

  lemma {:induction false} KeptLinesAre(lines: seq<string>)
    ensures forall i :: 0 <= i < |KeptLines(lines)| ==> KeptLines(lines)[i] in lines && Kept(KeptLines(lines)[i])
  {
    if lines != [] {
      KeptLinesAre(lines[..|lines| - 1]);
    }
  }

  lemma {:induction false} AllKept(lines: seq<string>)
    requires forall i :: 0 <= i < |lines| ==> Kept(lines[i])
    ensures KeptLines(lines) == lines
  {
    if lines != [] {
      AllKept(lines[..|lines| - 1]);
      assert lines == lines[..|lines| - 1] + [lines[|lines| - 1]];
    }
  }

  /** The lines with the outer white space gone: at the front of the first and the end of the last. */
  function OuterTrimmed(lines: seq<string>): (r: seq<string>)
    ensures |r| == |lines|
  {
    if lines == [] then []
    else
      var first := lines[0 := TrimLeft(lines[0])];
      first[|lines| - 1 := TrimRight(first[|lines| - 1])]
  }

  lemma TrimLeftJoin(lines: seq<string>)
    requires lines != [] && !Blank(lines[0])
    ensures TrimLeft(Join(lines, '\n')) == Join(lines[0 := TrimLeft(lines[0])], '\n')
  {
    if |lines| > 1 {
      var rest := ['\n'] + Join(lines[1..], '\n');
      var first := lines[0 := TrimLeft(lines[0])];
      assert Join(lines, '\n') == lines[0] + rest;
      TrimLeftAppend(lines[0], rest);
      assert first[1..] == lines[1..];
      assert Join(first, '\n') == first[0] + ['\n'] + Join(lines[1..], '\n');
    }
  }

  lemma TrimRightJoin(lines: seq<string>)
    requires lines != [] && !Blank(lines[|lines| - 1])
    ensures TrimRight(Join(lines, '\n')) == Join(lines[|lines| - 1 := TrimRight(lines[|lines| - 1])], '\n')
  {
    var n := |lines| - 1;
    if n > 0 {
      var last := TrimRight(lines[n]);
      JoinSnoc(lines[..n], lines[n], '\n');
      JoinSnoc(lines[..n], last, '\n');
      assert lines == lines[..n] + [lines[n]] && lines[n := last] == lines[..n] + [last];
      TrimRightAppend(Join(lines[..n], '\n') + ['\n'], lines[n]);
    }
  }

  lemma NotBlankAfterTrimLeft(s: string)
    requires !Blank(s)
    ensures !Blank(TrimLeft(s))
  {
    TrimLeftIs(s);
    assert !IsSpace(TrimLeft(s)[0]);
  }

  /** Trimming the joined lines trims the outer two. */
  lemma TrimJoin(lines: seq<string>)
    requires lines != [] && forall i :: 0 <= i < |lines| ==> Kept(lines[i])
    ensures TrimSpace(Join(lines, '\n')) == Join(OuterTrimmed(lines), '\n')
  {
    var n := |lines| - 1;
    TrimSpaceIs(lines[0]);
    TrimSpaceIs(lines[n]);
    NotBlankAfterTrimLeft(lines[0]);
    TrimLeftJoin(lines);
    TrimRightJoin(lines[0 := TrimLeft(lines[0])]);
  }

  lemma TrimKeeps(line: string)
    requires Kept(line) && Free(line, '\n')
    ensures Kept(TrimLeft(line)) && Free(TrimLeft(line), '\n') && Kept(TrimRight(line)) && Free(TrimRight(line), '\n')
  {
    TrimOfTrims(line);
    TrimLeftIs(line);
    TrimRightIs(line);
  }

  /** Outer trimming keeps every line a kept one, without line breaks. */
  lemma OuterTrimmedKeeps(lines: seq<string>)
    requires forall i :: 0 <= i < |lines| ==> Kept(lines[i])
    requires AllFree(lines, '\n')
    ensures AllFree(OuterTrimmed(lines), '\n') && forall i :: 0 <= i < |lines| ==> Kept(OuterTrimmed(lines)[i])
  {
    if lines != [] {
      var n := |lines| - 1;
      TrimKeeps(lines[0]);
      var first := lines[0 := TrimLeft(lines[0])];
      assert Free(first[n], '\n') && Kept(first[n]);
      TrimKeeps(first[n]);
    }
  }

  ghost function LinesOf(segment: string): seq<string> {
    KeptLines(Split(segment, '\n'))
  }

  lemma LinesOfAre(segment: string)
    ensures AllFree(LinesOf(segment), '\n') && forall i :: 0 <= i < |LinesOf(segment)| ==> Kept(LinesOf(segment)[i])
  {
    PiecesAreFree(segment, '\n');
    KeptLinesAre(Split(segment, '\n'));
  }

  /** A cleaned segment's lines are exactly the segment's kept lines, in order, up to outer trimming. */
  lemma CleanLines(segment: string)
    ensures Clean(segment) == [] <==> LinesOf(segment) == []
    ensures LinesOf(segment) != [] ==> Split(Clean(segment), '\n') == OuterTrimmed(LinesOf(segment))
  {
    var lines := LinesOf(segment);
    LinesOfAre(segment);
    if lines != [] {
      TrimJoin(lines);
      OuterTrimmedKeeps(lines);
      SplitOfJoin(OuterTrimmed(lines), '\n');
    }
  }

  /** Cleaning a cleaned segment changes nothing. */
  lemma CleanIsFixed(segment: string)
    requires Clean(segment) != []
    ensures Clean(Clean(segment)) == Clean(segment) && Trimmed(Clean(segment))
  {
    var lines := LinesOf(segment);
    LinesOfAre(segment);
    CleanLines(segment);
    OuterTrimmedKeeps(lines);
    AllKept(OuterTrimmed(lines));
    JoinOfSplit(Clean(segment), '\n');
    TrimSpaceIs(Join(lines, '\n'));
    TrimmedIsFixed(Clean(segment));
  }

  lemma CleanIsFree(segment: string)
    requires Free(segment, ';')
    ensures Free(Clean(segment), ';')
  {
    var all := Split(segment, '\n');
    JoinOfSplit(segment, '\n');
    PieceChars(all, '\n');
    KeptLinesAre(all);
    assert AllFree(LinesOf(segment), ';') by {
      forall i | 0 <= i < |LinesOf(segment)| ensures Free(LinesOf(segment)[i], ';') {
        var j :| 0 <= j < |all| && all[j] == LinesOf(segment)[i];
      }
    }
    JoinIsFree(LinesOf(segment), '\n', ';');
    TrimSpaceIs(Join(LinesOf(segment), '\n'));
  }

  lemma {:induction false} PieceChars(parts: seq<string>, sep: char)
    ensures forall i, c :: 0 <= i < |parts| && c in parts[i] ==> c in Join(parts, sep)
  {
    if |parts| > 1 {
      PieceChars(parts[1..], sep);
      forall i, c | 0 <= i < |parts| && c in parts[i] ensures c in Join(parts, sep) {
        if i > 0 {
          assert parts[1..][i - 1] == parts[i];
        }
      }
    }
  }

  // ----- the results

  /** Segments that hold at least one kept line. */
  ghost function Live(segments: seq<string>): seq<string> {
    if segments == [] then []
    else
      var r := Live(segments[..|segments| - 1]);
      var x := segments[|segments| - 1];
      if LinesOf(x) != [] then r + [x] else r
  }

  /**
   One statement per live segment, in order: non-empty, trimmed, free of semicolons, and made of exactly
   the kept lines of its segment up to outer trimming.
   */
  lemma {:induction false} StatementsOf(segments: seq<string>)
    requires AllFree(segments, ';')
    ensures
      var st, live := NonEmptyClean(segments), Live(segments);
      |st| == |live| && forall k :: 0 <= k < |st| ==>
        st[k] != [] && Trimmed(st[k]) && Free(st[k], ';') && Clean(st[k]) == st[k]
        && Split(st[k], '\n') == OuterTrimmed(LinesOf(live[k]))
  {
    if segments != [] {
      var n := |segments| - 1;
      StatementsOf(segments[..n]);
      assert Free(segments[n], ';');
      CleanLines(segments[n]);
      if Clean(segments[n]) != [] {
        CleanIsFixed(segments[n]);
        CleanIsFree(segments[n]);
      }
    }
  }

  lemma StatementsAre(content: string)
    ensures
      var st, live := Statements(content), Live(Split(content, ';'));
      |st| == |live| && forall k :: 0 <= k < |st| ==>
        st[k] != [] && Trimmed(st[k]) && Free(st[k], ';') && Split(st[k], '\n') == OuterTrimmed(LinesOf(live[k]))
  {
    PiecesAreFree(content, ';');
    StatementsOf(Split(content, ';'));
  }

  ghost predicate Fixed(statements: seq<string>) {
    forall k :: 0 <= k < |statements| ==> statements[k] != [] && Clean(statements[k]) == statements[k]
  }

  lemma Snoc<T>(q: seq<T>)
    requires q != []
    ensures q[..|q| - 1] + [q[|q| - 1]] == q
  {
  }

  lemma FixedFront(statements: seq<string>)
    requires Fixed(statements) && statements != []
    ensures Fixed(statements[..|statements| - 1])
    ensures NonEmptyClean(statements) ==
      NonEmptyClean(statements[..|statements| - 1]) + [statements[|statements| - 1]]
  {
    assert Clean(statements[|statements| - 1]) == statements[|statements| - 1];
  }

  lemma {:induction false} CleanAgain(statements: seq<string>)
    requires Fixed(statements)
    ensures NonEmptyClean(statements) == statements
  {
    if statements != [] {
      FixedFront(statements);
      CleanAgain(statements[..|statements| - 1]);
      Snoc(statements);
    }
  }

  lemma KeptOne(line: string)
    ensures KeptLines([line]) == if Kept(line) then [line] else []
  {
    assert [line][..0] == [];
    assert KeptLines([]) == [] && [] + [line] == [line];
  }

  lemma EmptySegment()
    ensures LinesOf("") == [] && Clean("") == "" && !Kept("")
  {
    KeptOne("");
    assert Split("", '\n') == [""];
  }

  lemma EmptyScript()
    ensures Statements("") == []
  {
    EmptySegment();
    assert [""][..0] == [] && Split("", ';') == [""];
  }

  /** Joining the statements with semicolons and splitting again gives the same statements. */
  lemma StableOnOwnOutput(content: string)
    ensures Statements(Join(Statements(content), ';')) == Statements(content)
  {
    var st := Statements(content);
    PiecesAreFree(content, ';');
    StatementsOf(Split(content, ';'));
    if st == [] {
      EmptyScript();
    } else {
      SplitOfJoin(st, ';');
      CleanAgain(st);
    }
  }

  // ----- comment lines

  predicate Comment(line: string) {
    var t := TrimSpace(line);
    "--" <= t || "//" <= t
  }

  function NoComments(lines: seq<string>): seq<string> {
    if lines == [] then []
    else
      var rest := NoComments(lines[..|lines| - 1]);
      if Comment(lines[|lines| - 1]) then rest else rest + [lines[|lines| - 1]]
  }

  /** The script with its comment lines taken out first. */
  function Stripped(content: string): string {
    Join(NoComments(Split(content, '\n')), '\n')
  }

  /** Two lists of pieces, the last of the one joined to the first of the other. */
  function Glue(x: seq<string>, y: seq<string>): (r: seq<string>)
    requires x != [] && y != []
    ensures |r| == |x| + |y| - 1
  {
    x[..|x| - 1] + [x[|x| - 1] + y[0]] + y[1..]
  }

  lemma GlueCons(p: string, x: seq<string>, y: seq<string>)
    requires x != [] && y != []
    ensures Glue([p] + x, y) == [p] + Glue(x, y)
  {
  }

  lemma GlueChar(c: char, x: seq<string>, y: seq<string>)
    requires x != [] && y != []
    ensures Glue([[c] + x[0]] + x[1..], y) == [[c] + Glue(x, y)[0]] + Glue(x, y)[1..]
  {
    if |x| == 1 {
      assert [c] + (x[0] + y[0]) == ([c] + x[0]) + y[0];
    }
  }

  lemma {:induction false} SplitConcat(a: string, b: string, sep: char)
    ensures Split(a + b, sep) == Glue(Split(a, sep), Split(b, sep))
  {
    var y := Split(b, sep);
    if a == [] {
      assert a + b == b && [] + y[0] == y[0];
    } else {
      SplitConcat(a[1..], b, sep);
      assert (a + b)[1..] == a[1..] + b && (a + b)[0] == a[0];
      GlueCons([], Split(a[1..], sep), y);
      GlueChar(a[0], Split(a[1..], sep), y);
    }
  }

  /** A further line adds itself to the lines of a segment, if it is kept. */
  lemma LinesAppend(segment: string, line: string)
    requires Free(line, '\n')
    ensures LinesOf(segment + "\n" + line) == LinesOf(segment) + if Kept(line) then [line] else []
  {
    var x := Split(segment, '\n');
    SplitFree(line, '\n');
    assert ("\n" + line)[1..] == line;
    assert Split("\n" + line, '\n') == [[], line];
    SplitConcat(segment, "\n" + line, '\n');
    assert segment + "\n" + line == segment + ("\n" + line);
    assert x[|x| - 1] + [] == x[|x| - 1];
    assert Glue(x, [[], line]) == x + [line];
    assert (x + [line])[..|x|] == x;
  }

  /** Segment by segment the same kept lines. */
  ghost predicate SameLines(a: seq<string>, b: seq<string>) {
    |a| == |b| && forall i :: 0 <= i < |a| ==> LinesOf(a[i]) == LinesOf(b[i])
  }

  lemma {:induction false} SameClean(a: seq<string>, b: seq<string>)
    requires SameLines(a, b)
    ensures NonEmptyClean(a) == NonEmptyClean(b)
  {
    if a != [] {
      SameClean(a[..|a| - 1], b[..|b| - 1]);
      assert Clean(a[|a| - 1]) == Clean(b[|b| - 1]);
    }
  }

  /** The segments of a script with one more line. */
  lemma SegmentsAppend(content: string, line: string)
    ensures
      var x, y := Split(content, ';'), Split(line, ';');
      Split(content + "\n" + line, ';') == x[..|x| - 1] + [x[|x| - 1] + "\n" + y[0]] + y[1..]
  {
    var x, y := Split(content, ';'), Split(line, ';');
    assert ("\n" + line)[1..] == line;
    assert content + "\n" + line == content + ("\n" + line);
    SplitConcat(content, "\n" + line, ';');
    assert x[|x| - 1] + ("\n" + y[0]) == x[|x| - 1] + "\n" + y[0];
  }

  lemma PieceIsFree(line: string, i: nat)
    requires Free(line, '\n') && i < |Split(line, ';')|
    ensures Free(Split(line, ';')[i], '\n')
  {
    JoinOfSplit(line, ';');
    PieceChars(Split(line, ';'), ';');
  }

  lemma GluedLines(x: seq<string>, z: seq<string>, y: seq<string>)
    requires x != [] && y != [] && SameLines(x, z) && Free(y[0], '\n')
    ensures
      var n := |x| - 1;
      SameLines(x[..n] + [x[n] + "\n" + y[0]] + y[1..], z[..n] + [z[n] + "\n" + y[0]] + y[1..])
  {
    var n := |x| - 1;
    LinesAppend(x[n], y[0]);
    LinesAppend(z[n], y[0]);
    var a, b := x[..n] + [x[n] + "\n" + y[0]] + y[1..], z[..n] + [z[n] + "\n" + y[0]] + y[1..];
    forall i | 0 <= i < |a| ensures LinesOf(a[i]) == LinesOf(b[i]) {
      if i < n {
        assert a[i] == x[i] && b[i] == z[i];
      } else if i > n {
        assert a[i] == b[i];
      }
    }
  }

  lemma AppendLine(c: string, d: string, line: string)
    requires SameLines(Split(c, ';'), Split(d, ';')) && Free(line, '\n')
    ensures SameLines(Split(c + "\n" + line, ';'), Split(d + "\n" + line, ';'))
  {
    SegmentsAppend(c, line);
    SegmentsAppend(d, line);
    PieceIsFree(line, 0);
    GluedLines(Split(c, ';'), Split(d, ';'), Split(line, ';'));
  }

  lemma LastLines(a: seq<string>, x: seq<string>, z: seq<string>)
    requires x != [] && SameLines(x, z) && |a| == |x|
    requires LinesOf(a[|x| - 1]) == LinesOf(x[|x| - 1]) && forall i :: 0 <= i < |x| - 1 ==> a[i] == x[i]
    ensures SameLines(a, z)
  {
  }

  lemma AppendComment(c: string, d: string, line: string)
    requires SameLines(Split(c, ';'), Split(d, ';')) && Free(line, '\n') && Free(line, ';') && Comment(line)
    ensures SameLines(Split(c + "\n" + line, ';'), Split(d, ';'))
  {
    var x := Split(c, ';');
    SegmentsAppend(c, line);
    SplitFree(line, ';');
    LinesAppend(x[|x| - 1], line);
    LastLines(Split(c + "\n" + line, ';'), x, Split(d, ';'));
  }

  lemma BrokenPiece(p: string)
    requires Free(p, '\n')
    ensures LinesOf("" + "\n" + p) == LinesOf(p)
  {
    LinesAppend("", p);
    SplitFree(p, '\n');
    EmptySegment();
    KeptOne(p);
  }

  /** A line break before the first line changes nothing. */
  lemma FirstLine(line: string)
    requires Free(line, '\n')
    ensures SameLines(Split("" + "\n" + line, ';'), Split(line, ';'))
  {
    var y := Split(line, ';');
    SegmentsAppend("", line);
    PieceIsFree(line, 0);
    BrokenPiece(y[0]);
    FirstLines(Split("" + "\n" + line, ';'), y);
  }

  lemma FirstLines(a: seq<string>, y: seq<string>)
    requires y != [] && |a| == |y| && LinesOf(a[0]) == LinesOf(y[0]) && forall i :: 0 < i < |y| ==> a[i] == y[i]
    ensures SameLines(a, y)
  {
  }

  /** Comment lines hold no semicolon. */
  ghost predicate QuietComments(lines: seq<string>) {
    forall i :: 0 <= i < |lines| && Comment(lines[i]) ==> Free(lines[i], ';')
  }

  /** Both scripts with a further line; the first line of a script has no line break before it. */
  lemma NextLine(lines: seq<string>, rest: seq<string>, line: string)
    requires lines != [] && SameLines(Split(Join(lines, '\n'), ';'), Split(Join(rest, '\n'), ';')) && Free(line, '\n')
    ensures SameLines(Split(Join(lines + [line], '\n'), ';'), Split(Join(rest + [line], '\n'), ';'))
  {
    JoinSnoc(lines, line, '\n');
    AppendLine(Join(lines, '\n'), Join(rest, '\n'), line);
    if rest == [] {
      FirstLine(line);
      assert Join(rest + [line], '\n') == line;
    } else {
      JoinSnoc(rest, line, '\n');
    }
  }

  lemma NoCommentsSnoc(lines: seq<string>, line: string)
    ensures NoComments(lines + [line]) == if Comment(line) then NoComments(lines) else NoComments(lines) + [line]
  {
    assert (lines + [line])[..|lines|] == lines;
  }

  lemma StripNext(lines: seq<string>, line: string)
    requires lines != [] && Free(line, '\n') && (Comment(line) ==> Free(line, ';'))
    requires SameLines(Split(Join(lines, '\n'), ';'), Split(Join(NoComments(lines), '\n'), ';'))
    ensures SameLines(Split(Join(lines + [line], '\n'), ';'), Split(Join(NoComments(lines + [line]), '\n'), ';'))
  {
    NoCommentsSnoc(lines, line);
    if Comment(line) {
      JoinSnoc(lines, line, '\n');
      AppendComment(Join(lines, '\n'), Join(NoComments(lines), '\n'), line);
    } else {
      NextLine(lines, NoComments(lines), line);
    }
  }

  lemma {:induction false} StrippedLines(lines: seq<string>)
    requires lines != [] && AllFree(lines, '\n') && QuietComments(lines)
    ensures SameLines(Split(Join(lines, '\n'), ';'), Split(Join(NoComments(lines), '\n'), ';'))
  {
    var n := |lines| - 1;
    assert Free(lines[n], '\n') && lines == lines[..n] + [lines[n]];
    if n == 0 {
      OneLine(lines[0]);
      assert lines == [lines[0]];
    } else {
      StrippedLines(lines[..n]);
      StripNext(lines[..n], lines[n]);
    }
  }

  lemma OneLine(line: string)
    requires Free(line, '\n') && (Comment(line) ==> Free(line, ';'))
    ensures SameLines(Split(line, ';'), Split(Join(NoComments([line]), '\n'), ';'))
  {
    assert [line][..0] == [];
    if Comment(line) {
      SplitFree(line, ';');
      SplitFree(line, '\n');
      KeptOne(line);
      EmptySegment();
    } else {
      assert NoComments([line]) == [line];
    }
  }

  /** Taking the comment lines out first gives the same statements when no comment line holds a semicolon. */
  lemma CommentsAreStripped(content: string)
    requires QuietComments(Split(content, '\n'))
    ensures Statements(Stripped(content)) == Statements(content)
  {
    PiecesAreFree(content, '\n');
    JoinOfSplit(content, '\n');
    StrippedLines(Split(content, '\n'));
    SameClean(Split(content, ';'), Split(Stripped(content), ';'));
  }

  lemma OnePiece(p: string)
    requires Free(p, '\n') && Trimmed(p)
    ensures Clean(p) == if Kept(p) then p else []
  {
    SplitFree(p, '\n');
    TrimmedIsFixed(p);
    KeptOne(p);
    assert Join([p], '\n') == p;
  }

  /** What follows a comment's semicolon is run as a statement. */
  lemma CommentCanRun(a: string, b: string)
    requires Free(a, ';') && Free(b, ';') && Free(a, '\n') && Free(b, '\n') && Trimmed(a) && Trimmed(b)
    requires Comment(a) && Kept(b)
    ensures Statements(a + [';'] + b) == [b]
  {
    SplitAtSep(a, b, ';');
    SplitFree(b, ';');
    OnePiece(a);
    OnePiece(b);
    var parts := [a, b];
    assert [a] + [b] == parts && parts[..1] == [a] && [a][..0] == [];
    assert NonEmptyClean([a]) == [];
  }

  lemma CommentCanDiffer()
    ensures Statements("--x;y") == ["y"] && Stripped("--x;y") == ""
  {
    var line := "--x;y";
    TrimmedIsFixed("--x");
    TrimmedIsFixed("y");
    TrimmedIsFixed(line);
    assert line == "--x" + [';'] + "y";
    CommentCanRun("--x", "y");
    SplitFree(line, '\n');
    assert [line][..0] == [] && Comment(line);
  }
}
