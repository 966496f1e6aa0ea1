/**
 When the audit log stops being a suffix of its history: exactly when a file operation breaks off
 at a place that shows.
 */
module AuditLogDamage {
  import opened Common
  import opened Utf16
  import opened CanonicalJson
  import opened AuditLog
  import opened AuditLogText
  import opened AuditLogProofs

  /** The file of `p` is a suffix of its history that ends with the newest record. */
  ghost predicate Whole(s: State, p: Path) { HoldsSuffix(FileOf(s, p), History(s, p)) }

  predicate CanBreak(w: Write) { w.phase.Appending? || w.phase.Rewriting? }

  /** The lines a write is about to put in place of its file. */
  function KeptBy(w: Write): seq<Text>
    requires w.phase.Rewriting?
  {
    Newest(LinesOf(w.phase.content), w.keep)
  }

  /** The operation of `w` breaks off after `left` units, and it does not show. */
  ghost predicate DoesNotShow(s: State, w: Write, left: nat)
    requires CanBreak(w)
  {
    if w.phase.Appending?
    then LeavesNoTrace(LinesOf(FileOf(s, w.path)), Print(w.entry), History(s, w.path), left)
    else EndsAtRepeat(KeptBy(w), left)
  }

  /** The step breaks off an operation on the file of `p` so that it shows. */
  ghost predicate Damages(s: State, t: Step, p: Path) {
    t.Tear? && t.id < |s.calls| && s.calls[t.id].path == p && CanBreak(s.calls[t.id])
    && !DoesNotShow(s, s.calls[t.id], t.left)
  }

  // ---------- operations that break off ----------

  lemma KeptIsSuffix(s: State, w: Write)
    requires BaseInv(s) && Whole(s, w.path) && w.phase.Rewriting? && Remembers(s, w) && History(s, w.path) != []
    ensures KeptBy(w) != [] && IsSuffix(KeptBy(w), History(s, w.path))
    ensures Rotated(w.phase.content, w.keep) == Render(KeptBy(w))
  {
    HistoryIsGood(s, w.path);
    LinesOfWhole(w.phase.content, History(s, w.path));
    RotatedRender(LinesOf(w.phase.content), w.keep);
  }

  lemma AppendBroken(s: State, w: Write, left: nat)
    requires BaseInv(s) && Whole(s, w.path) && w.phase.Appending?
    ensures HoldsSuffix(FileOf(s, w.path) + Beginning(LineOf(w), left), History(s, w.path))
            <==> DoesNotShow(s, w, left)
  {
    HistoryIsGood(s, w.path);
    PrintedLineIsGood(w.entry);
    BrokenAppendOf(FileOf(s, w.path), Print(w.entry), History(s, w.path), left);
  }

  lemma RewriteBroken(s: State, w: Write, left: nat)
    requires BaseInv(s) && Whole(s, w.path) && w.phase.Rewriting? && Remembers(s, w) && History(s, w.path) != []
    ensures HoldsSuffix(Beginning(Rotated(w.phase.content, w.keep), left), History(s, w.path))
            <==> DoesNotShow(s, w, left)
  {
    HistoryIsGood(s, w.path);
    KeptIsSuffix(s, w);
    BrokenRewriteExactly(KeptBy(w), History(s, w.path), left);
  }

  lemma TornWhole(n: State, p: Path, file: Text, history: seq<Text>)
    requires FileOf(n, p) == file && History(n, p) == history
    ensures Whole(n, p) <==> HoldsSuffix(file, history)
  {}

  /** From a whole file, an operation that breaks off leaves a whole file exactly when it does not show. */
  lemma TearExactly(s: State, n: State, i: nat, left: nat)
    requires Inv(s) && i < |s.calls| && CanBreak(s.calls[i]) && Whole(s, s.calls[i].path)
    requires n == Apply(s, Tear(i, left))
    ensures Whole(n, s.calls[i].path) <==> DoesNotShow(s, s.calls[i], left)
  {
    var w := s.calls[i];
    TearEffect(s, i, left);
    TornWhole(n, w.path, FileOf(n, w.path), History(s, w.path));
    if w.phase.Appending? {
      AppendBroken(s, w, left);
    } else {
      assert Remembers(s, w);
      RewriteBroken(s, w, left);
    }
  }

  // ---------- all other steps ----------

  lemma QuietWhole(s: State, n: State, p: Path)
    requires FileOf(n, p) == FileOf(s, p) && n.base == s.base && StoryOf(n.calls, p) == StoryOf(s.calls, p)
    ensures Whole(n, p) <==> Whole(s, p)
  {}

  lemma CallWhole(s: State, t: Step, p: Path)
    requires t.Call?
    ensures Whole(Apply(s, t), p) <==> Whole(s, p)
  {
    var n := Apply(s, t);
    assert n.calls[..|n.calls| - 1] == s.calls;
    TellIdle(StoryOf(s.calls, p), n.calls[|s.calls|]);
    QuietWhole(s, n, p);
  }

  lemma PhaseWhole(s: State, i: nat, phase: Phase, p: Path)
    requires i < |s.calls| && !IsSettled(s.calls[i]) && phase != Settled(Torn)
    ensures Whole(SetPhase(s, i, phase), p) <==> Whole(s, p)
  {
    SameStory(SetPhase(s, i, phase).calls, s.calls, p);
    QuietWhole(s, SetPhase(s, i, phase), p);
  }

  lemma CleanupWhole(s: State, i: nat, p: Path)
    ensures Whole(AfterCleanup(s, i), p) <==> Whole(s, p)
  {
    SameStory(AfterCleanup(s, i).calls, s.calls, p);
    QuietWhole(s, AfterCleanup(s, i), p);
  }

  /** A running write that replaces its own file leaves the others alone. */
  lemma OtherWhole(s: State, n: State, i: nat, p: Path)
    requires Inv(s) && i < |s.calls| && Running(s.calls[i]) && p != s.calls[i].path
    requires |n.calls| == |s.calls| && n.calls == s.calls[i := n.calls[i]] && n.calls[i].path == s.calls[i].path
    requires n.base == s.base && FileOf(n, p) == FileOf(s, p)
    ensures Whole(n, p) <==> Whole(s, p)
  {
    RunningIsLast(s, i);
    StoryAfter(s.calls, i, n.calls[i]);
    QuietWhole(s, n, p);
  }

  lemma AppendWhole(s: State, i: nat)
    requires Inv(s) && i < |s.calls| && s.calls[i].phase.Appending? && Whole(s, s.calls[i].path)
    ensures Whole(AfterAppend(s, i, true), s.calls[i].path)
  {
    var w := s.calls[i].(phase := Checking, wrote := true);
    var base, line := if w.path in s.base then s.base[w.path] else [], Print(w.entry);
    assert WroteInv(s.calls[i]);
    RunningIsLast(s, i);
    AppendToStory(s.calls, i, w);
    Regroup(base, StoryOf(s.calls, w.path).written, [line]);
    AppendKeepsSuffix(FileOf(s, w.path), History(s, w.path), line);
  }

  lemma RewriteWhole(s: State, i: nat)
    requires Inv(s) && i < |s.calls| && s.calls[i].phase.Rewriting? && Whole(s, s.calls[i].path)
    ensures Whole(AfterRewrite(s, i, true), s.calls[i].path)
  {
    var w := s.calls[i].(phase := Settled(Completed));
    RewriterIsInStory(s, i, w);
    HistoryIsGood(s, w.path);
    RotateKeepsSuffix(FileOf(s, w.path), History(s, w.path), w.keep);
  }

  lemma AppendStepWhole(s: State, i: nat, succeeds: bool, p: Path)
    requires Inv(s) && Whole(s, p)
    ensures Whole(AfterAppend(s, i, succeeds), p)
  {
    if i < |s.calls| && s.calls[i].phase.Appending? {
      if !succeeds {
        PhaseWhole(s, i, Settled(AppendFailed), p);
      } else if p == s.calls[i].path {
        AppendWhole(s, i);
      } else {
        OtherWhole(s, AfterAppend(s, i, true), i, p);
      }
    }
  }

  lemma RewriteStepWhole(s: State, i: nat, succeeds: bool, p: Path)
    requires Inv(s) && Whole(s, p)
    ensures Whole(AfterRewrite(s, i, succeeds), p)
  {
    if i < |s.calls| && s.calls[i].phase.Rewriting? {
      if !succeeds {
        PhaseWhole(s, i, Settled(RotationFailed), p);
      } else if p == s.calls[i].path {
        RewriteWhole(s, i);
      } else {
        OtherWhole(s, AfterRewrite(s, i, true), i, p);
      }
    }
  }

  lemma StatStepWhole(s: State, i: nat, succeeds: bool, p: Path)
    requires Whole(s, p)
    ensures Whole(AfterStat(s, i, succeeds), p)
  {
    if i < |s.calls| && s.calls[i].phase.Checking? {
      PhaseWhole(s, i, Settled(RotationFailed), p);
      PhaseWhole(s, i, Reading, p);
      PhaseWhole(s, i, Settled(Completed), p);
    }
  }

  lemma ReadStepWhole(s: State, i: nat, succeeds: bool, p: Path)
    requires Whole(s, p)
    ensures Whole(AfterRead(s, i, succeeds), p)
  {
    if i < |s.calls| && s.calls[i].phase.Reading? {
      PhaseWhole(s, i, Settled(RotationFailed), p);
      PhaseWhole(s, i, Rewriting(FileOf(s, s.calls[i].path)), p);
    }
  }

  lemma TearOwn(s: State, i: nat, left: nat)
    requires Inv(s) && i < |s.calls| && CanBreak(s.calls[i]) && Whole(s, s.calls[i].path)
    ensures Whole(AfterTear(s, i, left), s.calls[i].path) <==> !Damages(s, Tear(i, left), s.calls[i].path)
  {
    TearExactly(s, AfterTear(s, i, left), i, left);
    DamagesOwn(s, i, left);
  }

  lemma DamagesOwn(s: State, i: nat, left: nat)
    requires i < |s.calls| && CanBreak(s.calls[i])
    ensures Damages(s, Tear(i, left), s.calls[i].path) <==> !DoesNotShow(s, s.calls[i], left)
  {}

  lemma TearOther(s: State, i: nat, left: nat, p: Path)
    requires Inv(s) && i < |s.calls| && CanBreak(s.calls[i]) && p != s.calls[i].path
    ensures Whole(AfterTear(s, i, left), p) <==> Whole(s, p)
    ensures !Damages(s, Tear(i, left), p)
  {
    OtherWhole(s, AfterTear(s, i, left), i, p);
  }

  lemma TearIdle(s: State, i: nat, left: nat, p: Path)
    requires i >= |s.calls| || !CanBreak(s.calls[i])
    ensures AfterTear(s, i, left) == s && !Damages(s, Tear(i, left), p)
  {}

  lemma TearStepWhole(s: State, i: nat, left: nat, p: Path)
    requires Inv(s) && Whole(s, p)
    ensures Whole(AfterTear(s, i, left), p) <==> !Damages(s, Tear(i, left), p)
  {
    if i >= |s.calls| || !CanBreak(s.calls[i]) {
      TearIdle(s, i, left, p);
    } else if p == s.calls[i].path {
      TearOwn(s, i, left);
    } else {
      TearOther(s, i, left, p);
    }
  }

  lemma StartStepWhole(s: State, i: nat, p: Path)
    requires Whole(s, p)
    ensures Whole(Apply(s, Start(i)), p)
  {
    if i < |s.calls| && CanStart(s, i) {
      PhaseWhole(s, i, Appending, p);
    }
  }

  lemma QuietStepWhole(s: State, t: Step, p: Path)
    requires Whole(s, p) && !t.Append? && !t.Rewrite? && !t.Tear?
    ensures Whole(Apply(s, t), p)
  {
    match t
    case Call(_, _, _, _) => CallWhole(s, t, p);
    case Start(i) => StartStepWhole(s, i, p);
    case Stat(i, succeeds) => StatStepWhole(s, i, succeeds, p);
    case Read(i, succeeds) => ReadStepWhole(s, i, succeeds, p);
    case Cleanup(i) => CleanupWhole(s, i, p);
  }

  lemma OtherStepWhole(s: State, t: Step, p: Path)
    requires Inv(s) && Whole(s, p) && !t.Tear?
    ensures Whole(Apply(s, t), p)
  {
    if t.Append? {
      AppendStepWhole(s, t.id, t.succeeds, p);
    } else if t.Rewrite? {
      RewriteStepWhole(s, t.id, t.succeeds, p);
    } else {
      QuietStepWhole(s, t, p);
    }
  }

  /** A step keeps a file whole exactly when it does not damage it. */
  lemma StepWhole(s: State, t: Step, p: Path)
    requires Inv(s) && Whole(s, p)
    ensures Whole(Apply(s, t), p) <==> !Damages(s, t, p)
  {
    if t.Tear? {
      TearStepWhole(s, t.id, t.left, p);
    } else {
      OtherStepWhole(s, t, p);
    }
  }

  // ---------- runs ----------

  /** After the first `k` steps the file is whole. */
  ghost predicate WholeAt(s: State, ts: seq<Step>, k: nat, p: Path) { k <= |ts| && Whole(Run(s, ts[..k]), p) }

  /** Step `k` damages the file. */
  ghost predicate DamagedAt(s: State, ts: seq<Step>, k: nat, p: Path) { k < |ts| && Damages(Run(s, ts[..k]), ts[k], p) }

  ghost predicate AlwaysWhole(s: State, ts: seq<Step>, p: Path) {
    forall k :: 0 <= k <= |ts| ==> WholeAt(s, ts, k, p)
  }

  ghost predicate NeverDamaged(s: State, ts: seq<Step>, p: Path) {
    forall k :: 0 <= k < |ts| ==> !DamagedAt(s, ts, k, p)
  }

  lemma InitiallyWhole(s: State, p: Path)
    requires Initial(s)
    ensures Whole(s, p)
  {
    FileIsSuffixOfHistory(s, [], p);
  }

  /** Step `k` keeps the file whole exactly when it does not damage it. */
  lemma StepAt(s: State, ts: seq<Step>, k: nat, p: Path)
    requires Initial(s) && k < |ts| && WholeAt(s, ts, k, p)
    ensures WholeAt(s, ts, k + 1, p) <==> !DamagedAt(s, ts, k, p)
  {
    assert ts[..k + 1] == ts[..k] + [ts[k]];
    RunInv(s, ts[..k]);
    RunLast(s, ts[..k], ts[k]);
    StepWhole(Run(s, ts[..k]), ts[k], p);
  }

  lemma {:induction false} HoldsUndamaged(holds: seq<bool>, damaged: seq<bool>, k: nat)
    requires |holds| == |damaged| + 1 && holds[0] && k < |holds|
    requires forall k :: 0 <= k < |damaged| && holds[k] ==> (holds[k + 1] <==> !damaged[k])
    requires forall k :: 0 <= k < |damaged| ==> !damaged[k]
    ensures holds[k]
  {
    if k > 0 {
      HoldsUndamaged(holds, damaged, k - 1);
      assert !damaged[k - 1] && holds[k - 1 + 1];
    }
  }

  /** If something holds at first and each step keeps it exactly when it does no damage, it holds all along
      exactly when no step does damage. */
  lemma UntilDamaged(holds: seq<bool>, damaged: seq<bool>)
    requires |holds| == |damaged| + 1 && holds[0]
    requires forall k :: 0 <= k < |damaged| && holds[k] ==> (holds[k + 1] <==> !damaged[k])
    ensures (forall k :: 0 <= k < |holds| ==> holds[k]) <==> (forall k :: 0 <= k < |damaged| ==> !damaged[k])
  {
    if forall k :: 0 <= k < |holds| ==> holds[k] {
      forall k | 0 <= k < |damaged| ensures !damaged[k] {
        assert holds[k] && holds[k + 1];
      }
    }
    if forall k :: 0 <= k < |damaged| ==> !damaged[k] {
      forall k | 0 <= k < |holds| ensures holds[k] {
        HoldsUndamaged(holds, damaged, k);
      }
    }
  }

  ghost function WholeStates(s: State, ts: seq<Step>, p: Path): (r: seq<bool>)
    ensures |r| == |ts| + 1
    ensures forall k :: 0 <= k <= |ts| ==> (r[k] <==> WholeAt(s, ts, k, p))
  {
    seq(|ts| + 1, k requires 0 <= k < |ts| + 1 => WholeAt(s, ts, k, p))
  }

  ghost function DamagingSteps(s: State, ts: seq<Step>, p: Path): (r: seq<bool>)
    ensures |r| == |ts|
    ensures forall k :: 0 <= k < |ts| ==> (r[k] <==> DamagedAt(s, ts, k, p))
  {
    seq(|ts|, k requires 0 <= k < |ts| => DamagedAt(s, ts, k, p))
  }

  lemma WholeAtFirst(s: State, ts: seq<Step>, p: Path)
    requires Initial(s)
    ensures WholeAt(s, ts, 0, p)
  {
    InitiallyWhole(s, p);
    assert ts[..0] == [];
  }

  /** In every interleaving, a file is a suffix of its history all along exactly when no operation on it
      breaks off at a place that shows. */
  lemma WholeExactly(s: State, ts: seq<Step>, p: Path)
    requires Initial(s)
    ensures AlwaysWhole(s, ts, p) <==> NeverDamaged(s, ts, p)
  {
    var holds, damaged := WholeStates(s, ts, p), DamagingSteps(s, ts, p);
    WholeAtFirst(s, ts, p);
    forall k | 0 <= k < |ts| && holds[k] ensures holds[k + 1] <==> !damaged[k] {
      StepAt(s, ts, k, p);
    }
    UntilDamaged(holds, damaged);
    AsStates(s, ts, p, holds, damaged);
  }

  lemma AsStates(s: State, ts: seq<Step>, p: Path, holds: seq<bool>, damaged: seq<bool>)
    requires |holds| == |ts| + 1 && forall k :: 0 <= k <= |ts| ==> (holds[k] <==> WholeAt(s, ts, k, p))
    requires |damaged| == |ts| && forall k :: 0 <= k < |ts| ==> (damaged[k] <==> DamagedAt(s, ts, k, p))
    ensures (forall k :: 0 <= k < |holds| ==> holds[k]) <==> AlwaysWhole(s, ts, p)
    ensures (forall k :: 0 <= k < |damaged| ==> !damaged[k]) <==> NeverDamaged(s, ts, p)
  {}

  /** Where no record repeats, an append that breaks off shows unless it has left nothing, and a rewrite
      shows unless it has left everything. */
  lemma ShowsUnlessRepeated(s: State, i: nat, left: nat)
    requires Inv(s) && i < |s.calls| && CanBreak(s.calls[i]) && Whole(s, s.calls[i].path)
    requires NoRepeats(History(s, s.calls[i].path))
    requires s.calls[i].phase.Appending? ==> Print(s.calls[i].entry) !in History(s, s.calls[i].path)
    ensures var w := s.calls[i];
            DoesNotShow(s, w, left)
            <==> if w.phase.Appending? then left == 0 else left >= |Rotated(w.phase.content, w.keep)|
  {
    var w := s.calls[i];
    if w.phase.Appending? {
      NewLineContinuesNothing(LinesOf(FileOf(s, w.path)), Print(w.entry), History(s, w.path), left);
    } else {
      assert Remembers(s, w);
      TearEffect(s, i, left);
      KeptIsSuffix(s, w);
      NoRepeatNoBorder(KeptBy(w), History(s, w.path), left);
    }
  }

  /** Two steps from empty files: a write that is about to append. */
  lemma FirstSteps(s: State, p: Path)
    requires s.calls == [] && s.locks == map[]
    ensures Run(s, [Call(p, JNull, 0, 1)] + [Start(0)])
            == s.(calls := [Write(p, JNull, 0, 1, None, Appending, false, false)], locks := map[p := 0])
  {
    var first, second := Call(p, JNull, 0, 1), Start(0);
    assert [] + [first] == [first];
    RunLast(s, [], first);
    RunLast(s, [first], second);
    assert AfterCall(s, p, JNull, 0, 1).calls == [Write(p, JNull, 0, 1, None, Queued, false, false)];
  }

  lemma FirstAppendBroken(r: State, p: Path)
    requires r.calls == [Write(p, JNull, 0, 1, None, Appending, false, false)] && r.files == map[] && r.base == map[]
    ensures !Whole(Apply(r, Tear(0, 1)), p)
  {
    var n := Apply(r, Tear(0, 1));
    var part := Beginning(LineOf(r.calls[0]), 1);
    PrintedLineIsGood(JNull);
    assert part == [Print(JNull)[0]];
    assert FileOf(n, p) == [] + part;
    assert n.calls[..0] == [] && n.calls[0] == r.calls[0].(phase := Settled(Torn));
    assert StoryOf([], p).written == [] && StoryOf(n.calls, p) == Tell(StoryOf(n.calls[..0], p), n.calls[0]);
    StoppedFile([], part, []);
  }

  /** A run that damages a file: the first append breaks off after one unit. */
  lemma DamagingRun(p: Path) returns (s: State, ts: seq<Step>)
    ensures Initial(s) && !Whole(Run(s, ts), p)
  {
    s := State([], map[], map[], map[], _ => 0);
    var start := [Call(p, JNull, 0, 1)] + [Start(0)];
    ts := start + [Tear(0, 1)];
    FirstSteps(s, p);
    RunLast(s, start, Tear(0, 1));
    FirstAppendBroken(Run(s, start), p);
  }
}
