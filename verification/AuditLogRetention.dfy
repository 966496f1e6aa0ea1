/**
 What the audit log never loses: text goes only when a write rotates a file that is above its own
 size limit, a rotation keeps as many of the newest lines as it may, and below the limit the file
 is the whole history.
 */
module AuditLogRetention {
  import opened Common
  import opened Utf16
  import opened CanonicalJson
  import opened AuditLog
  import opened AuditLogText
  import opened AuditLogProofs

  /** The step reaches write `t.id`, on the file of `p`. */
  predicate Concerns(s: State, t: Step, p: Path) { !t.Call? && t.id < |s.calls| && s.calls[t.id].path == p }

  /** The write appends its whole line. */
  predicate AppendsLine(s: State, t: Step, p: Path) {
    Concerns(s, t, p) && t.Append? && t.succeeds && s.calls[t.id].phase.Appending?
  }

  /** The write replaces the file. */
  predicate Rewrites(s: State, t: Step, p: Path) {
    Concerns(s, t, p) && t.Rewrite? && t.succeeds && s.calls[t.id].phase.Rewriting?
  }

  /** The write's operation on the file breaks off. */
  predicate BreaksOff(s: State, t: Step, p: Path) {
    Concerns(s, t, p) && t.Tear? && (s.calls[t.id].phase.Appending? || s.calls[t.id].phase.Rewriting?)
  }

  predicate TouchesFile(s: State, t: Step, p: Path) { AppendsLine(s, t, p) || Rewrites(s, t, p) || BreaksOff(s, t, p) }

  // ---------- steps that leave a file alone ----------

  /** File and history of `p` are the same in both states. */
  ghost predicate SameLog(s: State, n: State, p: Path) {
    FileOf(n, p) == FileOf(s, p) && History(n, p) == History(s, p)
  }

  lemma CallLog(s: State, t: Step, p: Path)
    requires t.Call?
    ensures SameLog(s, Apply(s, t), p)
  {
    var n := Apply(s, t);
    assert n.calls[..|n.calls| - 1] == s.calls;
    TellIdle(StoryOf(s.calls, p), n.calls[|s.calls|]);
  }

  lemma PhaseLog(s: State, i: nat, phase: Phase, p: Path)
    requires i < |s.calls| && !IsSettled(s.calls[i]) && phase != Settled(Torn)
    ensures SameLog(s, SetPhase(s, i, phase), p)
  {
    SameStory(SetPhase(s, i, phase).calls, s.calls, p);
  }

  lemma CleanupLog(s: State, i: nat, p: Path)
    ensures SameLog(s, AfterCleanup(s, i), p)
  {
    SameStory(AfterCleanup(s, i).calls, s.calls, p);
  }

  lemma OtherLog(s: State, n: State, i: nat, p: Path)
    requires Inv(s) && i < |s.calls| && Running(s.calls[i]) && p != s.calls[i].path
    requires |n.calls| == |s.calls| && n.calls == s.calls[i := n.calls[i]] && n.calls[i].path == s.calls[i].path
    requires n.base == s.base && FileOf(n, p) == FileOf(s, p)
    ensures SameLog(s, n, p)
  {
    RunningIsLast(s, i);
    StoryAfter(s.calls, i, n.calls[i]);
  }

  lemma AppendLog(s: State, i: nat, succeeds: bool, p: Path)
    requires Inv(s) && !AppendsLine(s, Append(i, succeeds), p)
    ensures SameLog(s, AfterAppend(s, i, succeeds), p)
  {
    if i < |s.calls| && s.calls[i].phase.Appending? {
      if succeeds {
        OtherLog(s, AfterAppend(s, i, true), i, p);
      } else {
        PhaseLog(s, i, Settled(AppendFailed), p);
      }
    }
  }

  lemma RewriteLog(s: State, i: nat, succeeds: bool, p: Path)
    requires Inv(s) && !Rewrites(s, Rewrite(i, succeeds), p)
    ensures SameLog(s, AfterRewrite(s, i, succeeds), p)
  {
    if i < |s.calls| && s.calls[i].phase.Rewriting? {
      if succeeds {
        OtherLog(s, AfterRewrite(s, i, true), i, p);
      } else {
        PhaseLog(s, i, Settled(RotationFailed), p);
      }
    }
  }

  lemma TearLog(s: State, i: nat, left: nat, p: Path)
    requires Inv(s) && !BreaksOff(s, Tear(i, left), p)
    ensures SameLog(s, AfterTear(s, i, left), p)
  {
    if i < |s.calls| && (s.calls[i].phase.Appending? || s.calls[i].phase.Rewriting?) {
      OtherLog(s, AfterTear(s, i, left), i, p);
    }
  }

  lemma StatLog(s: State, i: nat, succeeds: bool, p: Path)
    ensures SameLog(s, AfterStat(s, i, succeeds), p)
  {
    if i < |s.calls| && s.calls[i].phase.Checking? {
      PhaseLog(s, i, Settled(RotationFailed), p);
      PhaseLog(s, i, Reading, p);
      PhaseLog(s, i, Settled(Completed), p);
    }
  }

  lemma ReadLog(s: State, i: nat, succeeds: bool, p: Path)
    ensures SameLog(s, AfterRead(s, i, succeeds), p)
  {
    if i < |s.calls| && s.calls[i].phase.Reading? {
      PhaseLog(s, i, Settled(RotationFailed), p);
      PhaseLog(s, i, Rewriting(FileOf(s, s.calls[i].path)), p);
    }
  }

  /** Only appends, rewrites and broken operations on a file change it or its history. */
  lemma UntouchedLog(s: State, t: Step, p: Path)
    requires Inv(s) && !TouchesFile(s, t, p)
    ensures SameLog(s, Apply(s, t), p)
  {
    match t
    case Call(_, _, _, _) => CallLog(s, t, p);
    case Start(i) => if i < |s.calls| && CanStart(s, i) { PhaseLog(s, i, Appending, p); }
    case Append(i, succeeds) => AppendLog(s, i, succeeds, p);
    case Stat(i, succeeds) => StatLog(s, i, succeeds, p);
    case Read(i, succeeds) => ReadLog(s, i, succeeds, p);
    case Rewrite(i, succeeds) => RewriteLog(s, i, succeeds, p);
    case Tear(i, left) => TearLog(s, i, left, p);
    case Cleanup(i) => CleanupLog(s, i, p);
  }

  // ---------- who rotates ----------

  /** A write that is about to rotate found its file above its limit, and still does. */
  ghost predicate AboveLimit(s: State, w: Write) {
    w.phase.Reading? || w.phase.Rewriting? ==> s.size(FileOf(s, w.path)) > w.maxBytes
  }

  ghost predicate AllAboveLimit(s: State) { forall i :: 0 <= i < |s.calls| ==> AboveLimit(s, s.calls[i]) }

  lemma PhaseAbove(s: State, i: nat, phase: Phase)
    requires AllAboveLimit(s) && i < |s.calls|
    requires phase.Reading? || phase.Rewriting? ==> s.size(FileOf(s, s.calls[i].path)) > s.calls[i].maxBytes
    ensures AllAboveLimit(SetPhase(s, i, phase))
  {
    var n := SetPhase(s, i, phase);
    forall k | 0 <= k < |n.calls| ensures AboveLimit(n, n.calls[k]) {
      assert AboveLimit(s, s.calls[k]);
    }
  }

  /** A running write that changes its file and goes on or ends leaves nobody about to rotate it. */
  lemma FileAbove(s: State, i: nat, w: Write, file: Text)
    requires Inv(s) && AllAboveLimit(s) && i < |s.calls| && Running(s.calls[i])
    requires w.path == s.calls[i].path && !w.phase.Reading? && !w.phase.Rewriting?
    ensures AllAboveLimit(s.(calls := s.calls[i := w], files := s.files[w.path := file]))
  {
    var n := s.(calls := s.calls[i := w], files := s.files[w.path := file]);
    forall k | 0 <= k < |n.calls| ensures AboveLimit(n, n.calls[k]) {
      assert AboveLimit(s, s.calls[k]);
      if k != i && s.calls[k].path == w.path {
        AloneOnPath(s, i, k);
      }
    }
  }

  lemma QuietAbove(s: State, n: State)
    requires AllAboveLimit(s) && n.files == s.files && n.size == s.size && |n.calls| >= |s.calls|
    requires forall k :: 0 <= k < |s.calls| ==>
      && n.calls[k].phase == s.calls[k].phase && n.calls[k].path == s.calls[k].path
      && n.calls[k].maxBytes == s.calls[k].maxBytes
    requires forall k :: |s.calls| <= k < |n.calls| ==> n.calls[k].phase.Queued?
    ensures AllAboveLimit(n)
  {
    forall k | 0 <= k < |n.calls| ensures AboveLimit(n, n.calls[k]) {
      if k < |s.calls| {
        assert AboveLimit(s, s.calls[k]);
      }
    }
  }

  lemma AppendAbove(s: State, i: nat, succeeds: bool)
    requires Inv(s) && AllAboveLimit(s)
    ensures AllAboveLimit(AfterAppend(s, i, succeeds))
  {
    if i < |s.calls| && s.calls[i].phase.Appending? {
      if succeeds {
        var w := s.calls[i].(phase := Checking, wrote := true);
        FileAbove(s, i, w, FileOf(s, w.path) + LineOf(w));
      } else {
        PhaseAbove(s, i, Settled(AppendFailed));
      }
    }
  }

  lemma StatAbove(s: State, i: nat, succeeds: bool)
    requires AllAboveLimit(s)
    ensures AllAboveLimit(AfterStat(s, i, succeeds))
  {
    if i < |s.calls| && s.calls[i].phase.Checking? {
      PhaseAbove(s, i, Settled(RotationFailed));
      PhaseAbove(s, i, Settled(Completed));
      if s.size(FileOf(s, s.calls[i].path)) > s.calls[i].maxBytes {
        PhaseAbove(s, i, Reading);
      }
    }
  }

  lemma ReadAbove(s: State, i: nat, succeeds: bool)
    requires AllAboveLimit(s)
    ensures AllAboveLimit(AfterRead(s, i, succeeds))
  {
    if i < |s.calls| && s.calls[i].phase.Reading? {
      assert AboveLimit(s, s.calls[i]);
      PhaseAbove(s, i, Settled(RotationFailed));
      PhaseAbove(s, i, Rewriting(FileOf(s, s.calls[i].path)));
    }
  }

  lemma RewriteAbove(s: State, i: nat, succeeds: bool)
    requires Inv(s) && AllAboveLimit(s)
    ensures AllAboveLimit(AfterRewrite(s, i, succeeds))
  {
    if i < |s.calls| && s.calls[i].phase.Rewriting? {
      if succeeds {
        var w := s.calls[i].(phase := Settled(Completed));
        FileAbove(s, i, w, Rotated(s.calls[i].phase.content, w.keep));
      } else {
        PhaseAbove(s, i, Settled(RotationFailed));
      }
    }
  }

  lemma TearAbove(s: State, i: nat, left: nat)
    requires Inv(s) && AllAboveLimit(s)
    ensures AllAboveLimit(AfterTear(s, i, left))
  {
    if i < |s.calls| && (s.calls[i].phase.Appending? || s.calls[i].phase.Rewriting?) {
      var w := s.calls[i].(phase := Settled(Torn));
      FileAbove(s, i, w, FileOf(AfterTear(s, i, left), w.path));
    }
  }

  lemma StepAbove(s: State, t: Step)
    requires Inv(s) && AllAboveLimit(s)
    ensures AllAboveLimit(Apply(s, t))
  {
    match t
    case Call(_, _, _, _) => QuietAbove(s, Apply(s, t));
    case Start(i) => if i < |s.calls| && CanStart(s, i) { PhaseAbove(s, i, Appending); }
    case Append(i, succeeds) => AppendAbove(s, i, succeeds);
    case Stat(i, succeeds) => StatAbove(s, i, succeeds);
    case Read(i, succeeds) => ReadAbove(s, i, succeeds);
    case Rewrite(i, succeeds) => RewriteAbove(s, i, succeeds);
    case Tear(i, left) => TearAbove(s, i, left);
    case Cleanup(i) => QuietAbove(s, AfterCleanup(s, i));
  }

  lemma {:induction false} RunAbove(s: State, ts: seq<Step>)
    requires Initial(s)
    ensures AllAboveLimit(Run(s, ts))
  {
    if ts != [] {
      var n := |ts| - 1;
      RunInv(s, ts[..n]);
      RunAbove(s, ts[..n]);
      StepAbove(Run(s, ts[..n]), ts[n]);
    }
  }

  // ---------- what goes, and when ----------

  lemma AppendGrows(s: State, t: Step, p: Path)
    requires AppendsLine(s, t, p)
    ensures FileOf(Apply(s, t), p) == FileOf(s, p) + (Print(s.calls[t.id].entry) + [NEWLINE])
  {}

  lemma BrokenAppendGrows(s: State, t: Step, p: Path)
    requires BreaksOff(s, t, p) && s.calls[t.id].phase.Appending?
    ensures FileOf(s, p) <= FileOf(Apply(s, t), p)
  {}

  /** A step takes text from a file only when a write rewrites it, or breaks off doing so, that found it above
      its own limit. */
  lemma OnlyRotationLoses(s: State, ts: seq<Step>, t: Step, p: Path)
    requires Initial(s)
    ensures var r, n := Run(s, ts), Run(s, ts + [t]);
            FileOf(r, p) <= FileOf(n, p)
            || (&& (Rewrites(r, t, p) || (BreaksOff(r, t, p) && r.calls[t.id].phase.Rewriting?))
                && r.size(FileOf(r, p)) > r.calls[t.id].maxBytes)
  {
    var r := Run(s, ts);
    RunInv(s, ts);
    RunAbove(s, ts);
    RunLast(s, ts, t);
    if !TouchesFile(r, t, p) {
      UntouchedLog(r, t, p);
    } else if AppendsLine(r, t, p) {
      AppendGrows(r, t, p);
    } else {
      assert AboveLimit(r, r.calls[t.id]);
      if r.calls[t.id].phase.Appending? {
        BrokenAppendGrows(r, t, p);
      }
    }
  }

  /** A rotation of whole lines keeps the newest `keep` of them, or all when there are fewer; with no number to
      keep it keeps all. */
  lemma RotationKeepsNewest(s: State, t: Step, p: Path, lines: seq<Text>)
    requires AllRemember(s) && Rewrites(s, t, p) && GoodLines(lines) && lines != [] && FileOf(s, p) == Render(lines)
    ensures var keep := s.calls[t.id].keep;
            var kept := if keep == 0 || keep > |lines| then |lines| else keep;
            FileOf(Apply(s, t), p) == Render(lines[|lines| - kept..])
  {
    var w := s.calls[t.id];
    assert Remembers(s, w);
    RewriteEffect(s, t.id);
    RotatedLines(FileOf(s, p), lines, w.keep);
  }

  lemma RotatedLines(file: Text, lines: seq<Text>, keep: nat)
    requires GoodLines(lines) && lines != [] && file == Render(lines)
    ensures var kept := if keep == 0 || keep > |lines| then |lines| else keep;
            Rotated(file, keep) == Render(lines[|lines| - kept..])
  {
    RotatedRender(lines, keep);
    NewestAre(lines, keep);
  }

  lemma NewestAre(lines: seq<Text>, keep: nat)
    ensures var kept := if keep == 0 || keep > |lines| then |lines| else keep;
            Newest(lines, keep) == lines[|lines| - kept..]
  {
    assert lines[0..] == lines;
  }

  // ---------- below the limit ----------

  /** The step does not break off an operation on the file, and an append leaves it within its own limit. */
  ghost predicate StaysWithin(s: State, t: Step, p: Path) {
    && !BreaksOff(s, t, p)
    && (AppendsLine(s, t, p) ==> s.size(FileOf(Apply(s, t), p)) <= s.calls[t.id].maxBytes)
  }

  /** Nobody is about to rotate the file, and whoever looks at its size finds it within the limit. */
  ghost predicate Unthreatened(s: State, w: Write) {
    !w.phase.Reading? && !w.phase.Rewriting? && (w.phase.Checking? ==> s.size(FileOf(s, w.path)) <= w.maxBytes)
  }

  ghost predicate AllUnthreatened(s: State, p: Path) {
    forall i :: 0 <= i < |s.calls| && s.calls[i].path == p ==> Unthreatened(s, s.calls[i])
  }

  ghost predicate Complete(s: State, p: Path) { FileOf(s, p) == Render(History(s, p)) }

  /** A step that does not touch the file moves its writes at most to an end. */
  lemma UntouchedUnthreatened(s: State, t: Step, p: Path)
    requires Inv(s) && AllUnthreatened(s, p) && !TouchesFile(s, t, p)
    ensures AllUnthreatened(Apply(s, t), p)
  {
    var n := Apply(s, t);
    UntouchedLog(s, t, p);
    forall i | 0 <= i < |n.calls| && n.calls[i].path == p ensures Unthreatened(n, n.calls[i]) {
      WriteUnthreatened(s, t, p, i);
    }
  }

  lemma WriteUnthreatened(s: State, t: Step, p: Path, i: nat)
    requires AllUnthreatened(s, p) && !TouchesFile(s, t, p) && FileOf(Apply(s, t), p) == FileOf(s, p)
    requires i < |Apply(s, t).calls| && Apply(s, t).calls[i].path == p
    ensures Unthreatened(Apply(s, t), Apply(s, t).calls[i])
  {
    if t.Call? {
      assert i < |s.calls| ==> Unthreatened(s, s.calls[i]);
    } else {
      StepMoves(s, t);
      assert Unthreatened(s, s.calls[i]);
      if t.id == i {
        MovesToEnd(s, t, p);
      }
    }
  }

  lemma MovesToEnd(s: State, t: Step, p: Path)
    requires Concerns(s, t, p) && !TouchesFile(s, t, p) && Unthreatened(s, s.calls[t.id])
    ensures var w := Apply(s, t).calls[t.id];
            !w.phase.Reading? && !w.phase.Rewriting? && (w.phase.Checking? ==> s.calls[t.id].phase.Checking?)
  {
    StepMoves(s, t);
    var phase := s.calls[t.id].phase;
    match t
    case Append(i, succeeds) => AppendEnds(s, i, succeeds, p);
    case Stat(i, succeeds) => StatEnds(s, i, succeeds);
    case _ =>
  }

  lemma AppendEnds(s: State, i: nat, succeeds: bool, p: Path)
    requires Concerns(s, Append(i, succeeds), p) && !AppendsLine(s, Append(i, succeeds), p)
    ensures var w := AfterAppend(s, i, succeeds).calls[i];
            w == s.calls[i] || IsSettled(w)
  {}

  lemma StatEnds(s: State, i: nat, succeeds: bool)
    requires i < |s.calls| && Unthreatened(s, s.calls[i])
    ensures var w := AfterStat(s, i, succeeds).calls[i];
            w == s.calls[i] || IsSettled(w)
  {}

  lemma AppendUnthreatened(s: State, t: Step, p: Path)
    requires Inv(s) && AllUnthreatened(s, p) && AppendsLine(s, t, p) && StaysWithin(s, t, p)
    ensures AllUnthreatened(Apply(s, t), p)
  {
    var n := Apply(s, t);
    forall i | 0 <= i < |n.calls| && n.calls[i].path == p ensures Unthreatened(n, n.calls[i]) {
      if i != t.id {
        assert n.calls[i] == s.calls[i];
        AloneOnPath(s, t.id, i);
      }
    }
  }

  lemma AppendComplete(s: State, t: Step, p: Path)
    requires Inv(s) && Complete(s, p) && AppendsLine(s, t, p)
    ensures Complete(Apply(s, t), p)
  {
    var i := t.id;
    var w := s.calls[i].(phase := Checking, wrote := true);
    var base, line := if p in s.base then s.base[p] else [], Print(w.entry);
    assert WroteInv(s.calls[i]);
    RunningIsLast(s, i);
    AppendToStory(s.calls, i, w);
    Regroup(base, StoryOf(s.calls, p).written, [line]);
    RenderConcat(History(s, p), [line]);
    RenderOne(line);
    AppendGrows(s, t, p);
  }

  lemma NothingRewrites(s: State, t: Step, p: Path)
    requires AllUnthreatened(s, p)
    ensures !Rewrites(s, t, p)
  {}

  lemma StepComplete(s: State, t: Step, p: Path)
    requires Inv(s) && Complete(s, p) && AllUnthreatened(s, p) && StaysWithin(s, t, p)
    ensures Complete(Apply(s, t), p) && AllUnthreatened(Apply(s, t), p)
  {
    NothingRewrites(s, t, p);
    if AppendsLine(s, t, p) {
      AppendComplete(s, t, p);
      AppendUnthreatened(s, t, p);
    } else {
      UntouchedLog(s, t, p);
      UntouchedUnthreatened(s, t, p);
    }
  }

  /** Step `k` of the run stays within the limit of its write. */
  ghost predicate WithinAt(s: State, ts: seq<Step>, k: nat, p: Path) {
    k < |ts| && StaysWithin(Run(s, ts[..k]), ts[k], p)
  }

  lemma InitiallyComplete(s: State, p: Path)
    requires Initial(s)
    ensures Complete(s, p) && AllUnthreatened(s, p)
  {
    var lines := if p in s.base then s.base[p] else [];
    assert History(s, p) == lines;
  }

  /** In every run: as long as no operation on a file breaks off and no append leaves it above that write's limit,
      the file is the whole history. */
  lemma {:induction false} NothingLostBelowLimit(s: State, ts: seq<Step>, p: Path)
    requires Initial(s) && forall k :: 0 <= k < |ts| ==> WithinAt(s, ts, k, p)
    ensures Complete(Run(s, ts), p) && AllUnthreatened(Run(s, ts), p)
  {
    if ts == [] {
      InitiallyComplete(s, p);
    } else {
      var n := |ts| - 1;
      var front := ts[..n];
      forall k | 0 <= k < n ensures WithinAt(s, front, k, p) {
        assert WithinAt(s, ts, k, p) && front[..k] == ts[..k];
      }
      NothingLostBelowLimit(s, front, p);
      RunInv(s, front);
      assert WithinAt(s, ts, n, p);
      StepComplete(Run(s, front), ts[n], p);
    }
  }
}
