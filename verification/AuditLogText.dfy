/**
 The text of a log file: lines, rotation, and what rotation makes of a file that an interrupted
 write has damaged.
 */
module AuditLogText {
  import opened Common
  import opened Utf16
  import opened CanonicalJson
  import CanonicalJsonProofs
  import opened AuditLog

  // ---------- file text ----------

  ghost predicate GoodLine(l: Text) { Visible(l) && forall i :: 0 <= i < |l| ==> l[i] != NEWLINE }

  ghost predicate GoodLines(ls: seq<Text>) { forall i :: 0 <= i < |ls| ==> GoodLine(ls[i]) }

  /** A printed entry is one visible line. */
  lemma PrintedLineIsGood(entry: Json)
    ensures GoodLine(Print(entry))
  {
    CanonicalJsonProofs.PrintIsClean(entry);
    CanonicalJsonProofs.PrintHead(entry);
    assert !IsSpace(Print(entry)[0]);
  }

  lemma PrependConcat(c: CodeUnit, x: seq<Text>, y: seq<Text>)
    requires x != []
    ensures Prepend(c, x + y) == Prepend(c, x) + y
  {
    assert (x + y)[1..] == x[1..] + y;
  }

  lemma {:induction false} SplitAtNewline(a: Text, b: Text)
    ensures Split(a + ([NEWLINE] + b)) == Split(a) + Split(b)
  {
    var u := a + ([NEWLINE] + b);
    if a == [] {
      assert u == [NEWLINE] + b && u[1..] == b;
    } else {
      assert u[0] == a[0] && u[1..] == a[1..] + ([NEWLINE] + b);
      SplitAtNewline(a[1..], b);
      PrependConcat(a[0], Split(a[1..]), Split(b));
    }
  }

  lemma {:induction false} SplitWithoutNewline(l: Text)
    requires forall i :: 0 <= i < |l| ==> l[i] != NEWLINE
    ensures Split(l) == [l]
  {
    if l != [] {
      SplitWithoutNewline(l[1..]);
      assert [l[0]] + l[1..] == l;
    }
  }

  ghost predicate OneLiners(ls: seq<Text>) { forall i, k :: 0 <= i < |ls| && 0 <= k < |ls[i]| ==> ls[i][k] != NEWLINE }

  lemma {:induction false} SplitRender(ls: seq<Text>)
    requires OneLiners(ls)
    ensures Split(Render(ls)) == ls + [[]]
  {
    if ls != [] {
      SplitRender(ls[1..]);
      SplitAtNewline(ls[0], Render(ls[1..]));
      SplitWithoutNewline(ls[0]);
      assert [ls[0]] + (ls[1..] + [[]]) == ls + [[]];
    }
  }

  lemma {:induction false} VisibleOfGood(ls: seq<Text>)
    requires GoodLines(ls)
    ensures VisibleLines(ls + [[]]) == ls
  {
    if ls == [] {
      assert (ls + [[]])[1..] == [] && !Visible([]);
    } else {
      assert (ls + [[]])[1..] == ls[1..] + [[]];
      VisibleOfGood(ls[1..]);
      assert GoodLine(ls[0]);
    }
  }

  lemma {:induction false} JoinRender(ls: seq<Text>)
    requires ls != []
    ensures Join(ls) + [NEWLINE] == Render(ls)
  {
    if |ls| == 1 {
      assert ls[1..] == [];
    } else {
      JoinRender(ls[1..]);
      assert Join(ls) + [NEWLINE] == ls[0] + ([NEWLINE] + (Join(ls[1..]) + [NEWLINE]));
    }
  }

  lemma {:induction false} RenderConcat(a: seq<Text>, b: seq<Text>)
    ensures Render(a + b) == Render(a) + Render(b)
  {
    if a == [] {
      assert a + b == b;
    } else {
      RenderConcat(a[1..], b);
      assert (a + b)[0] == a[0] && (a + b)[1..] == a[1..] + b;
      Regroup([NEWLINE], Render(a[1..]), Render(b));
      Regroup(a[0], [NEWLINE] + Render(a[1..]), Render(b));
    }
  }

  /** Rotation of a rendered log keeps exactly its newest lines. */
  lemma RotatedRender(ls: seq<Text>, keep: nat)
    requires GoodLines(ls) && ls != []
    ensures Rotated(Render(ls), keep) == Render(Newest(ls, keep))
  {
    SplitRender(ls);
    VisibleOfGood(ls);
    JoinRender(Newest(ls, keep));
  }

  // ---------- suffixes ----------

  ghost predicate IsSuffix<T>(a: seq<T>, b: seq<T>) { |a| <= |b| && a == b[|b| - |a|..] }

  /** The file holds the newest lines of its history, and some line if there is any. */
  ghost predicate HoldsSuffix(file: Text, history: seq<Text>) {
    exists lines :: IsSuffix(lines, history) && (lines == [] ==> history == []) && file == Render(lines)
  }

  lemma AppendKeepsSuffix(file: Text, history: seq<Text>, line: Text)
    requires HoldsSuffix(file, history)
    ensures HoldsSuffix(file + (line + [NEWLINE]), history + [line])
  {
    var lines :| IsSuffix(lines, history) && (lines == [] ==> history == []) && file == Render(lines);
    RenderConcat(lines, [line]);
    RenderOne(line);
    assert IsSuffix(lines + [line], history + [line]);
  }

  lemma RenderOne(line: Text)
    ensures Render([line]) == line + [NEWLINE]
  {
    assert [line][1..] == [];
  }

  lemma RotateKeepsSuffix(file: Text, history: seq<Text>, keep: nat)
    requires HoldsSuffix(file, history) && GoodLines(history) && history != []
    ensures HoldsSuffix(Rotated(file, keep), history)
  {
    var lines :| IsSuffix(lines, history) && (lines == [] ==> history == []) && file == Render(lines);
    RotatedRender(lines, keep);
    assert IsSuffix(Newest(lines, keep), history);
  }

  lemma LongerHistory(file: Text, since: seq<Text>, history: seq<Text>)
    requires HoldsSuffix(file, since) && since != [] && IsSuffix(since, history)
    ensures HoldsSuffix(file, history)
  {
    var lines :| IsSuffix(lines, since) && (lines == [] ==> since == []) && file == Render(lines);
    assert IsSuffix(lines, history);
  }

  lemma {:induction false} RenderEnds(lines: seq<Text>)
    requires lines != []
    ensures Render(lines) != [] && Render(lines)[|Render(lines)| - 1] == NEWLINE
  {
    if |lines| == 1 {
      RenderOne(lines[0]);
      assert lines == [lines[0]];
    } else {
      RenderEnds(lines[1..]);
    }
  }

  /** A text that stops inside a line, or before the first one. */
  predicate StopsInside(t: Text) { t == [] || t[|t| - 1] != NEWLINE }

  lemma StoppedIsNoSuffix(file: Text, history: seq<Text>)
    requires StopsInside(file) && history != []
    ensures !HoldsSuffix(file, history)
  {
    if HoldsSuffix(file, history) {
      var lines :| IsSuffix(lines, history) && (lines == [] ==> history == []) && file == Render(lines);
      RenderEnds(lines);
      assert false;
    }
  }

  // ---------- damaged files ----------

  /** The file ends with `lines`, whole and in order, whatever stands before them. */
  ghost predicate EndsWith(file: Text, lines: seq<Text>) { exists t :: file == t + Render(lines) }

  lemma AppendKeepsEnd(file: Text, lines: seq<Text>, line: Text)
    requires EndsWith(file, lines)
    ensures EndsWith(file + (line + [NEWLINE]), lines + [line])
  {
    var t :| file == t + Render(lines);
    RenderConcat(lines, [line]);
    RenderOne(line);
    assert file + (line + [NEWLINE]) == t + Render(lines + [line]);
  }

  lemma {:induction false} VisibleConcat(a: seq<Text>, b: seq<Text>)
    ensures VisibleLines(a + b) == VisibleLines(a) + VisibleLines(b)
  {
    if a == [] {
      assert a + b == b;
    } else {
      VisibleConcat(a[1..], b);
      assert (a + b)[0] == a[0] && (a + b)[1..] == a[1..] + b;
      Regroup(if Visible(a[0]) then [a[0]] else [], VisibleLines(a[1..]), VisibleLines(b));
    }
  }

  ghost predicate EndsText(l: Text, tail: Text) { |l| >= |tail| && l[|l| - |tail|..] == tail }

  lemma PrependLast(c: CodeUnit, parts: seq<Text>, l: Text)
    requires parts != [] && EndsText(parts[|parts| - 1], l)
    ensures var r := Prepend(c, parts);
            EndsText(r[|r| - 1], l)
  {
    if c != NEWLINE && |parts| == 1 {
      var r, n := [c] + parts[0], |parts[0]| - |l|;
      assert r[n + 1..] == parts[0][n..];
    }
  }

  /** Behind a line without newlines, the last line of a text ends with that line. */
  lemma {:induction false} SplitLast(t: Text, l: Text)
    requires forall i :: 0 <= i < |l| ==> l[i] != NEWLINE
    ensures var parts := Split(t + l);
            EndsText(parts[|parts| - 1], l)
  {
    if t == [] {
      assert t + l == l;
      SplitWithoutNewline(l);
    } else {
      SplitLast(t[1..], l);
      assert (t + l)[0] == t[0] && (t + l)[1..] == t[1..] + l;
      PrependLast(t[0], Split(t[1..] + l), l);
    }
  }

  lemma VisibleTail(l: Text, tail: Text)
    requires EndsText(l, tail) && Visible(tail)
    ensures Visible(l)
  {
    var i :| 0 <= i < |tail| && !IsSpace(tail[i]);
    assert l[|l| - |tail| + i] == tail[i];
  }

  /** The last visible line of a text that a whole line ends, ends with that line. */
  lemma VisibleHead(t: Text, first: Text) returns (before: seq<Text>, last: Text)
    requires GoodLine(first)
    ensures VisibleLines(Split(t + first)) == before + [last] && EndsText(last, first)
  {
    var head := Split(t + first);
    var n := |head| - 1;
    SplitLast(t, first);
    before, last := VisibleLines(head[..n]), head[n];
    VisibleTail(last, first);
    assert head == head[..n] + [last];
    VisibleConcat(head[..n], [last]);
    assert [last][1..] == [] && VisibleLines([last]) == [last] + VisibleLines([]);
  }

  lemma VisibleBehind(a: Text, rest: seq<Text>)
    requires GoodLines(rest)
    ensures VisibleLines(Split(a + ([NEWLINE] + Render(rest)))) == VisibleLines(Split(a)) + rest
  {
    SplitAtNewline(a, Render(rest));
    SplitRender(rest);
    VisibleConcat(Split(a), rest + [[]]);
    VisibleOfGood(rest);
  }

  /** The visible lines of a damaged file: some, of which the last ends with the first whole line, and
      then the other whole lines. */
  lemma VisibleOfDamaged(t: Text, first: Text, rest: seq<Text>) returns (before: seq<Text>, last: Text)
    requires GoodLine(first) && GoodLines(rest)
    ensures VisibleLines(Split(t + Render([first] + rest))) == before + ([last] + rest)
    ensures EndsText(last, first)
  {
    assert ([first] + rest)[1..] == rest;
    Regroup(t, first, [NEWLINE] + Render(rest));
    VisibleBehind(t + first, rest);
    before, last := VisibleHead(t, first);
    Regroup(before, [last], rest);
  }

  lemma EndOfRendered(before: seq<Text>, last: Text, first: Text, rest: seq<Text>)
    requires EndsText(last, first)
    ensures EndsWith(Render(before + ([last] + rest)), [first] + rest)
  {
    var x := last[..|last| - |first|];
    assert ([last] + rest)[1..] == rest && ([first] + rest)[1..] == rest;
    RenderConcat(before, [last] + rest);
    assert last == x + first;
    assert Render(before + ([last] + rest)) == (Render(before) + x) + Render([first] + rest);
  }

  /** Rotation of a damaged file keeps its whole lines, or it drops the damage. */
  lemma RotateDamaged(file: Text, lines: seq<Text>, keep: nat)
    requires EndsWith(file, lines) && GoodLines(lines) && lines != []
    ensures EndsWith(Rotated(file, keep), lines) || HoldsSuffix(Rotated(file, keep), lines)
    ensures 1 <= keep < |lines| ==> HoldsSuffix(Rotated(file, keep), lines)
  {
    var t :| file == t + Render(lines);
    var first, rest := lines[0], lines[1..];
    assert lines == [first] + rest;
    var before, last := VisibleOfDamaged(t, first, rest);
    var kept := Newest(before + ([last] + rest), keep);
    JoinRender(kept);
    if keep == 0 || keep > |rest| {
      var fewer := NewestWithHead(before, last, rest, keep);
      EndOfRendered(fewer, last, first, rest);
    } else {
      NewestOfRest(before, last, rest, keep);
      assert IsSuffix(kept, lines);
    }
  }

  lemma NewestWithHead(before: seq<Text>, last: Text, rest: seq<Text>, keep: nat) returns (fewer: seq<Text>)
    requires keep == 0 || keep > |rest|
    ensures Newest(before + ([last] + rest), keep) == fewer + ([last] + rest)
  {
    var drop := if keep == 0 || keep > |before| + |rest| then 0 else |before| - (keep - |rest| - 1);
    fewer := before[drop..];
    assert (before + ([last] + rest))[drop..] == fewer + ([last] + rest);
  }

  lemma NewestOfRest(before: seq<Text>, last: Text, rest: seq<Text>, keep: nat)
    requires 1 <= keep <= |rest|
    ensures Newest(before + ([last] + rest), keep) == rest[|rest| - keep..]
  {
    var all := before + ([last] + rest);
    assert all[|all| - keep..] == rest[|rest| - keep..];
  }

  // ---------- few lines ----------

  /** The text consists of at most `keep` lines. */
  ghost predicate HasFewLines(file: Text, keep: nat) {
    exists lines :: file == Render(lines) && |lines| <= keep && OneLiners(lines)
  }

  lemma {:induction false} SplitOneLiners(t: Text)
    ensures OneLiners(Split(t))
  {
    if t != [] {
      SplitOneLiners(t[1..]);
    }
  }

  lemma {:induction false} VisibleOneLiners(ls: seq<Text>)
    requires OneLiners(ls)
    ensures OneLiners(VisibleLines(ls))
  {
    if ls != [] {
      VisibleOneLiners(ls[1..]);
    }
  }

  /** Rotation leaves few lines, of whatever content. */
  lemma RotationLeavesFewLines(content: Text, keep: nat)
    requires keep >= 1
    ensures HasFewLines(Rotated(content, keep), keep)
  {
    SplitOneLiners(content);
    VisibleOneLiners(Split(content));
    var kept := Newest(VisibleLines(Split(content)), keep);
    assert OneLiners(kept) && |kept| <= keep;
    if kept == [] {
      RenderOne([]);
      assert Rotated(content, keep) == Render([[]]);
    } else {
      JoinRender(kept);
    }
  }

  /** The file consists of at most `keep` lines, the newest of the history. */
  ghost predicate HoldsFew(file: Text, history: seq<Text>, keep: nat) {
    exists lines :: file == Render(lines) && |lines| <= keep && IsSuffix(lines, history)
  }

  /** A text has its lines in one way only. */
  lemma RenderInjective(a: seq<Text>, b: seq<Text>)
    requires OneLiners(a) && OneLiners(b) && Render(a) == Render(b)
    ensures a == b
  {
    SplitRender(a);
    SplitRender(b);
    assert a == (a + [[]])[..|a + [[]]| - 1] && b == (b + [[]])[..|b + [[]]| - 1];
  }

  lemma FewLinesOfHistory(file: Text, history: seq<Text>, keep: nat)
    requires HoldsSuffix(file, history) && GoodLines(history) && HasFewLines(file, keep)
    ensures HoldsFew(file, history, keep)
  {
    var lines :| IsSuffix(lines, history) && (lines == [] ==> history == []) && file == Render(lines);
    var few :| file == Render(few) && |few| <= keep && OneLiners(few);
    assert GoodLines(lines);
    RenderInjective(lines, few);
  }

  // ---------- operations that break off ----------

  /** The lines of a file of whole lines. */
  function LinesOf(file: Text): seq<Text> { VisibleLines(Split(file)) }

  lemma LinesOfRender(lines: seq<Text>)
    requires GoodLines(lines)
    ensures LinesOf(Render(lines)) == lines
  {
    SplitRender(lines);
    VisibleOfGood(lines);
  }

  lemma {:induction false} SplitRenderThen(lines: seq<Text>, t: Text)
    requires OneLiners(lines)
    ensures Split(Render(lines) + t) == lines + Split(t)
  {
    if lines == [] {
      assert Render(lines) + t == t;
    } else {
      var rest := lines[1..];
      SplitRenderThen(rest, t);
      Regroup([NEWLINE], Render(rest), t);
      Regroup(lines[0], [NEWLINE] + Render(rest), t);
      SplitAtNewline(lines[0], Render(rest) + t);
      SplitWithoutNewline(lines[0]);
      assert [lines[0]] + (rest + Split(t)) == lines + Split(t);
    }
  }

  lemma SharedStart<T>(a: seq<T>, x: seq<T>, b: seq<T>, e: T)
    requires a + x == b + [e] && x != []
    ensures |a| <= |b| && a == b[..|a|]
  {
    assert |a| + |x| == |b| + 1;
    assert a == (a + x)[..|a|] && b[..|a|] == (b + [e])[..|a|];
  }

  lemma RenderedStart(lines: seq<Text>, all: seq<Text>, rest: Text)
    requires OneLiners(lines) && OneLiners(all) && Render(all) == Render(lines) + rest
    ensures |lines| <= |all| && lines == all[..|lines|]
  {
    SplitRenderThen(lines, rest);
    SplitRender(all);
    SharedStart(lines, Split(rest), all, []);
  }

  /** Whole lines at the beginning of rendered lines are the first of them. */
  lemma RenderedBeginning(lines: seq<Text>, all: seq<Text>, left: nat)
    requires OneLiners(lines) && OneLiners(all) && Beginning(Render(all), left) == Render(lines)
    ensures |lines| <= |all| && lines == all[..|lines|]
  {
    BeginningSplits(Render(all), left);
    RenderedStart(lines, all, Render(all)[|Beginning(Render(all), left)|..]);
  }

  lemma BeginningSplits(t: Text, left: nat)
    ensures |Beginning(t, left)| <= |t| && t == Beginning(t, left) + t[|Beginning(t, left)|..]
  {}

  /** The first `left` units of the kept lines are all of them, or end with a line such that the lines up
      to it are also the last ones. */
  ghost predicate EndsAtRepeat(kept: seq<Text>, left: nat) {
    || left >= |Render(kept)|
    || exists m :: 1 <= m < |kept| && left == |Render(kept[..m])| && IsSuffix(kept[..m], kept)
  }

  lemma SuffixOfSuffix<T>(a: seq<T>, b: seq<T>, c: seq<T>)
    requires IsSuffix(b, c) && |a| <= |b|
    ensures IsSuffix(a, b) <==> IsSuffix(a, c)
  {
    assert c[|c| - |a|..] == b[|b| - |a|..];
  }

  lemma RepeatIsWhole(kept: seq<Text>, history: seq<Text>, left: nat)
    requires IsSuffix(kept, history) && kept != [] && EndsAtRepeat(kept, left)
    ensures HoldsSuffix(Beginning(Render(kept), left), history)
  {
    if left < |Render(kept)| {
      var m :| 1 <= m < |kept| && left == |Render(kept[..m])| && IsSuffix(kept[..m], kept);
      RenderConcat(kept[..m], kept[m..]);
      assert kept == kept[..m] + kept[m..];
      SuffixOfSuffix(kept[..m], kept, history);
      assert Beginning(Render(kept), left) == Render(kept[..m]);
    }
  }

  lemma WholeIsRepeat(kept: seq<Text>, history: seq<Text>, left: nat)
    requires IsSuffix(kept, history) && kept != [] && GoodLines(history)
    requires HoldsSuffix(Beginning(Render(kept), left), history)
    ensures EndsAtRepeat(kept, left)
  {
    if left < |Render(kept)| {
      var file := Beginning(Render(kept), left);
      var lines :| IsSuffix(lines, history) && (lines == [] ==> history == []) && file == Render(lines);
      assert GoodLines(lines) && GoodLines(kept);
      RenderedBeginning(lines, kept, left);
      SuffixOfSuffix(lines, kept, history);
      assert kept[..|kept|] == kept;
    }
  }

  /** A rewrite of kept lines that breaks off leaves a suffix of the history exactly when it ends at a repeat. */
  lemma BrokenRewriteExactly(kept: seq<Text>, history: seq<Text>, left: nat)
    requires IsSuffix(kept, history) && kept != [] && GoodLines(history)
    ensures HoldsSuffix(Beginning(Render(kept), left), history) <==> EndsAtRepeat(kept, left)
  {
    if EndsAtRepeat(kept, left) {
      RepeatIsWhole(kept, history, left);
    }
    if HoldsSuffix(Beginning(Render(kept), left), history) {
      WholeIsRepeat(kept, history, left);
    }
  }

  lemma StoppedFile(file: Text, part: Text, history: seq<Text>)
    requires part != [] && StopsInside(part)
    ensures !HoldsSuffix(file + part, history)
  {
    assert (file + part)[|file + part| - 1] == part[|part| - 1];
    if history != [] {
      StoppedIsNoSuffix(file + part, history);
    } else {
      assert file + part != Render([]);
    }
  }

  /** An append that breaks off leaves nothing, or its whole line where the line happens to continue a
      suffix of the history. */
  ghost predicate LeavesNoTrace(lines: seq<Text>, line: Text, history: seq<Text>, left: nat) {
    left == 0 || (left > |line| && IsSuffix(lines + [line], history))
  }

  lemma WholeLineLeft(lines: seq<Text>, line: Text, history: seq<Text>)
    requires GoodLines(lines) && GoodLine(line) && GoodLines(history)
    ensures HoldsSuffix(Render(lines) + (line + [NEWLINE]), history) <==> IsSuffix(lines + [line], history)
  {
    RenderConcat(lines, [line]);
    RenderOne(line);
    if HoldsSuffix(Render(lines + [line]), history) {
      var file := Render(lines + [line]);
      var suffix :| IsSuffix(suffix, history) && (suffix == [] ==> history == []) && file == Render(suffix);
      assert GoodLines(suffix) && GoodLines(lines + [line]);
      RenderInjective(lines + [line], suffix);
    }
  }

  lemma BrokenAppendExactly(lines: seq<Text>, line: Text, history: seq<Text>, left: nat)
    requires GoodLines(lines) && GoodLine(line) && GoodLines(history) && HoldsSuffix(Render(lines), history)
    ensures HoldsSuffix(Render(lines) + Beginning(line + [NEWLINE], left), history)
            <==> LeavesNoTrace(lines, line, history, left)
  {
    if left == 0 {
      assert Render(lines) + Beginning(line + [NEWLINE], left) == Render(lines);
    } else if left <= |line| {
      var part := Beginning(line + [NEWLINE], left);
      assert part == line[..left];
      StoppedFile(Render(lines), part, history);
    } else {
      assert Beginning(line + [NEWLINE], left) == line + [NEWLINE];
      WholeLineLeft(lines, line, history);
    }
  }

  lemma BrokenAppendOf(file: Text, line: Text, history: seq<Text>, left: nat)
    requires HoldsSuffix(file, history) && GoodLines(history) && GoodLine(line)
    ensures HoldsSuffix(file + Beginning(line + [NEWLINE], left), history)
            <==> LeavesNoTrace(LinesOf(file), line, history, left)
  {
    LinesOfWhole(file, history);
    BrokenAppendExactly(LinesOf(file), line, history, left);
  }

  lemma LinesOfWhole(file: Text, history: seq<Text>)
    requires HoldsSuffix(file, history) && GoodLines(history)
    ensures file == Render(LinesOf(file)) && IsSuffix(LinesOf(file), history) && GoodLines(LinesOf(file))
    ensures LinesOf(file) == [] ==> history == []
  {
    var lines :| IsSuffix(lines, history) && (lines == [] ==> history == []) && file == Render(lines);
    assert GoodLines(lines);
    LinesOfRender(lines);
  }

  // Records that do not repeat.

  ghost predicate NoRepeats<T>(s: seq<T>) { forall i, j :: 0 <= i < j < |s| ==> s[i] != s[j] }

  lemma NoRepeatNoBorder(kept: seq<Text>, history: seq<Text>, left: nat)
    requires NoRepeats(history) && IsSuffix(kept, history)
    ensures EndsAtRepeat(kept, left) <==> left >= |Render(kept)|
  {
    forall m | 1 <= m < |kept| ensures !IsSuffix(kept[..m], kept) {
      var tail := kept[|kept| - m..];
      assert kept[..m][0] == kept[0] == history[|history| - |kept|];
      assert tail[0] == kept[|kept| - m] == history[|history| - m];
    }
  }

  lemma NewLineContinuesNothing(lines: seq<Text>, line: Text, history: seq<Text>, left: nat)
    requires line !in history
    ensures LeavesNoTrace(lines, line, history, left) <==> left == 0
  {
    var n := |lines|;
    if n < |history| {
      assert (lines + [line])[n] == line;
      assert history[|history| - (n + 1)..][n] == history[|history| - 1];
    }
  }
}
