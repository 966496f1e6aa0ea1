/**
 The lines of a log file as a reader finds them: one JSON record a line when written, and after a
 rotation the newest lines that are not blank.
 */
module AuditLogLines {
  import opened Common
  import opened Utf16
  import opened Blanks
  import opened CanonicalJson
  import CanonicalJsonProofs
  import JsonReader
  import opened AuditLog
  import opened AuditLogText

  ghost predicate IsOneLine(t: Text) { forall i :: 0 <= i < |t| ==> t[i] != 0x0A }

  /** The lines with a line feed behind each. */
  function LogText(ls: seq<Text>): Text {
    if ls == [] then [] else LogText(ls[..|ls| - 1]) + (ls[|ls| - 1] + [0x0A])
  }

  lemma {:induction false} RenderMeans(ls: seq<Text>)
    ensures Render(ls) == LogText(ls)
  {
    if ls != [] {
      var n := |ls| - 1;
      RenderMeans(ls[..n]);
      RenderConcat(ls[..n], [ls[n]]);
      var last := [ls[n]];
      assert ls == ls[..n] + last && last[1..] == [];
      assert Render(last) == ls[n] + [0x0A];
    }
  }

  // ---------- written records ----------

  /** An append adds one line, which reads as the record. */
  lemma AppendWritesRecord(s: State, i: nat) returns (line: Text)
    requires i < |s.calls| && s.calls[i].phase.Appending?
    ensures var w := s.calls[i];
            && FileOf(Apply(s, Append(i, true)), w.path) == FileOf(s, w.path) + (line + [0x0A])
            && IsOneLine(line) && JsonReader.Parse(line) == Some(w.entry)
  {
    var w := s.calls[i];
    line := Print(w.entry);
    CanonicalJsonProofs.ParsePrint(w.entry);
    PrintedLineIsGood(w.entry);
  }

  // ---------- rotation of any file ----------

  /** The lines of a text that are not blank. */
  function ShownLines(t: Text): seq<Text> { VisibleLines(Split(t)) }

  lemma {:induction false} VisibleInParts(a: seq<Text>, b: seq<Text>)
    ensures VisibleLines(a + b) == VisibleLines(a) + VisibleLines(b)
  {
    if a == [] {
      assert a + b == b;
    } else {
      VisibleInParts(a[1..], b);
      assert (a + b)[0] == a[0] && (a + b)[1..] == a[1..] + b;
      Regroup(if Visible(a[0]) then [a[0]] else [], VisibleLines(a[1..]), VisibleLines(b));
    }
  }

  lemma VisibleMeans(l: Text)
    ensures Visible(l) <==> exists i :: 0 <= i < |l| && !IsBlank(l[i])
  {
    if i :| 0 <= i < |l| && !IsBlank(l[i]) {
      BlankMeans(l[i]);
    }
    if i :| 0 <= i < |l| && !IsSpace(l[i]) {
      BlankMeans(l[i]);
    }
  }

  /** Lines end at line feeds, and those of blanks only are left out. */
  lemma ShownLinesMean(a: Text, b: Text, line: Text)
    requires IsOneLine(line)
    ensures ShownLines(a + ([0x0A] + b)) == ShownLines(a) + ShownLines(b)
    ensures ShownLines(line) == if exists i :: 0 <= i < |line| && !IsBlank(line[i]) then [line] else []
  {
    SplitAtNewline(a, b);
    VisibleInParts(Split(a), Split(b));
    SplitWithoutNewline(line);
    VisibleMeans(line);
    var one := [line];
    assert one[1..] == [] && VisibleLines(one) == (if Visible(line) then [line] else []) + [];
  }

  /** Whatever the file holds, a rotation leaves the newest `keep` of its lines, or all when there are fewer or no
      number is given; of a file without lines it leaves a line feed. */
  lemma RotatedMeans(content: Text, keep: nat)
    ensures var ls := ShownLines(content);
            var kept := if keep == 0 || keep > |ls| then |ls| else keep;
            Rotated(content, keep) == if ls == [] then [0x0A] else LogText(ls[|ls| - kept..])
  {
    RotatedLines(ShownLines(content), keep);
  }

  lemma RotatedLines(ls: seq<Text>, keep: nat)
    ensures var kept := if keep == 0 || keep > |ls| then |ls| else keep;
            Join(Newest(ls, keep)) + [NEWLINE] == if ls == [] then [0x0A] else LogText(ls[|ls| - kept..])
  {
    var kept := if keep == 0 || keep > |ls| then |ls| else keep;
    var newest := ls[|ls| - kept..];
    assert ls[0..] == ls;
    assert Newest(ls, keep) == newest;
    if newest == [] {
      assert Join(newest) + [NEWLINE] == [0x0A];
    } else {
      JoinRender(newest);
      RenderMeans(newest);
    }
  }
}
