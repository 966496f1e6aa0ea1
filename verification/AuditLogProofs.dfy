/**
 Writes to one path never overlap and run in call order, and the file is a suffix of what was
 written, although each write reads, truncates and rewrites it in separate steps; after an
 interrupted file operation it still ends with everything written since.
 */
module AuditLogProofs {
  import opened Common
  import opened Utf16
  import opened CanonicalJson
  import opened AuditLog
  import opened AuditLogText

  // ---------- the history of a path ----------

  predicate IsTorn(w: Write) { w.phase == Settled(Torn) }

  /** What the writes on a path have done to its file: the lines that reached it whole, in call order,
      and, once an operation broke off, those since the last one that did. */
  datatype Story = Story(written: seq<Text>, torn: bool, since: seq<Text>)

  function Tell(b: Story, w: Write): Story {
    var lines := if w.wrote then [Print(w.entry)] else [];
    if IsTorn(w) then Story(b.written + lines, true, []) else Story(b.written + lines, b.torn, b.since + lines)
  }

  ghost function StoryOf(calls: seq<Write>, p: Path): Story {
    if calls == [] then Story([], false, [])
    else
      var w, before := calls[|calls| - 1], StoryOf(calls[..|calls| - 1], p);
      if w.path == p then Tell(before, w) else before
  }

  ghost function History(s: State, p: Path): seq<Text> {
    (if p in s.base then s.base[p] else []) + StoryOf(s.calls, p).written
  }

  lemma {:induction false} StoryIsGood(calls: seq<Write>, p: Path)
    ensures GoodLines(StoryOf(calls, p).written)
    ensures IsSuffix(StoryOf(calls, p).since, StoryOf(calls, p).written)
  {
    if calls != [] {
      StoryIsGood(calls[..|calls| - 1], p);
      PrintedLineIsGood(calls[|calls| - 1].entry);
    }
  }

  /** Nothing in a story but the writes of its path, their entries, and how they went. */
  ghost predicate SamePart(a: Write, b: Write, p: Path) {
    a.path == b.path && (a.path == p ==> a.entry == b.entry && a.wrote == b.wrote && IsTorn(a) == IsTorn(b))
  }

  lemma {:induction false} SameStory(a: seq<Write>, b: seq<Write>, p: Path)
    requires |a| == |b| && forall i :: 0 <= i < |a| ==> SamePart(a[i], b[i], p)
    ensures StoryOf(a, p) == StoryOf(b, p)
  {
    if a != [] {
      var n := |a| - 1;
      assert SamePart(a[n], b[n], p);
      SameStory(a[..n], b[..n], p);
    }
  }

  predicate Idle(w: Write) { !w.wrote && !IsTorn(w) }

  /** Behind write `i` its path has only idle writes. */
  ghost predicate LastOf(calls: seq<Write>, i: nat) {
    i < |calls| && forall j :: i < j < |calls| && calls[j].path == calls[i].path ==> Idle(calls[j])
  }

  lemma TellIdle(b: Story, w: Write)
    requires Idle(w)
    ensures Tell(b, w) == b
  {
    assert b.written + [] == b.written && b.since + [] == b.since;
  }

  lemma {:induction false} StoryEndsWith(calls: seq<Write>, i: nat)
    requires LastOf(calls, i)
    ensures StoryOf(calls, calls[i].path) == Tell(StoryOf(calls[..i], calls[i].path), calls[i])
  {
    var n := |calls| - 1;
    if i < n {
      StoryEndsWith(calls[..n], i);
      assert calls[..n][..i] == calls[..i];
      if calls[n].path == calls[i].path {
        TellIdle(StoryOf(calls[..n], calls[i].path), calls[n]);
      }
    }
  }

  /** Replacing the last active write of a path replaces the end of its story. */
  lemma StoryAfter(calls: seq<Write>, i: nat, w: Write)
    requires LastOf(calls, i) && w.path == calls[i].path
    ensures StoryOf(calls[i := w], w.path) == Tell(StoryOf(calls[..i], w.path), w)
    ensures StoryOf(calls, w.path) == Tell(StoryOf(calls[..i], w.path), calls[i])
    ensures forall p :: p != w.path ==> StoryOf(calls[i := w], p) == StoryOf(calls, p)
  {
    StoryEndsWith(calls, i);
    StoryEndsWith(calls[i := w], i);
    assert calls[i := w][..i] == calls[..i];
    forall p | p != w.path ensures StoryOf(calls[i := w], p) == StoryOf(calls, p) {
      SameStory(calls[i := w], calls, p);
    }
  }

  // ---------- the lock protocol ----------

  /** Each write waits for its predecessor on the path, or starts a new chain when none is unsettled. */
  ghost predicate Chained(s: State, i: nat)
    requires i < |s.calls|
  {
    match s.calls[i].after
    case Some(k) =>
      && k < i && s.calls[k].path == s.calls[i].path
      && forall j :: k < j < i ==> s.calls[j].path != s.calls[i].path
    case None => forall j :: 0 <= j < i && s.calls[j].path == s.calls[i].path ==> IsSettled(s.calls[j])
  }

  /** A lock entry names the last write on its path; no entry means nothing is unsettled. */
  ghost predicate LockInv(s: State, p: Path) {
    if p in s.locks then
      && s.locks[p] < |s.calls| && s.calls[s.locks[p]].path == p
      && forall j :: s.locks[p] < j < |s.calls| ==> s.calls[j].path != p
    else forall j :: 0 <= j < |s.calls| && s.calls[j].path == p ==> IsSettled(s.calls[j])
  }

  /** Whoever has started has only settled writes before it on its path. */
  ghost predicate InOrder(s: State) {
    forall i, j :: 0 <= i < j < |s.calls| && s.calls[i].path == s.calls[j].path && !s.calls[j].phase.Queued?
      ==> IsSettled(s.calls[i])
  }

  predicate Running(w: Write) { !w.phase.Queued? && !w.phase.Settled? }

  ghost predicate WroteInv(w: Write) {
    match w.phase
    case Queued => !w.wrote
    case Appending => !w.wrote
    case Settled(outcome) => !outcome.Torn? ==> (w.wrote <==> !outcome.AppendFailed?)
    case _ => w.wrote
  }

  ghost predicate LocksInv(s: State) {
    && (forall i :: 0 <= i < |s.calls| ==> Chained(s, i))
    && (forall p :: LockInv(s, p))
    && InOrder(s)
    && (forall i :: 0 <= i < |s.calls| ==> WroteInv(s.calls[i]))
  }

  lemma CallKeepsLocks(s: State, t: Step)
    requires LocksInv(s) && t.Call?
    ensures LocksInv(Apply(s, t))
  {
    var n := Apply(s, t);
    assert LockInv(s, t.path);
    forall i | 0 <= i < |n.calls| ensures Chained(n, i) {
      if i < |s.calls| {
        assert Chained(s, i);
      }
    }
    forall p ensures LockInv(n, p) {
      assert LockInv(s, p);
    }
  }

  /** A write that moves on without being queued again disturbs nobody. */
  lemma PhaseKeepsLocks(s: State, i: nat, w: Write)
    requires LocksInv(s) && i < |s.calls| && WroteInv(w)
    requires w.path == s.calls[i].path && w.after == s.calls[i].after && !w.phase.Queued?
    requires IsSettled(s.calls[i]) ==> IsSettled(w)
    requires s.calls[i].phase.Queued? ==> forall j :: 0 <= j < i && s.calls[j].path == w.path ==> IsSettled(s.calls[j])
    ensures LocksInv(s.(calls := s.calls[i := w]))
  {
    var n := s.(calls := s.calls[i := w]);
    forall k | 0 <= k < |n.calls| ensures Chained(n, k) {
      assert Chained(s, k);
    }
    forall p ensures LockInv(n, p) {
      assert LockInv(s, p);
    }
    assert InOrder(n);
  }

  lemma StartIsNext(s: State, i: nat)
    requires LocksInv(s) && i < |s.calls| && CanStart(s, i)
    ensures forall j :: 0 <= j < i && s.calls[j].path == s.calls[i].path ==> IsSettled(s.calls[j])
  {
    assert Chained(s, i);
  }

  lemma CleanupKeepsLocks(s: State, i: nat)
    requires LocksInv(s) && i < |s.calls| && IsSettled(s.calls[i]) && !s.calls[i].cleaned
    ensures LocksInv(Apply(s, Cleanup(i)))
  {
    var w := s.calls[i].(cleaned := true);
    PhaseKeepsLocks(s, i, w);
    var m := s.(calls := s.calls[i := w]);
    var n := Apply(s, Cleanup(i));
    forall k | 0 <= k < |n.calls| ensures Chained(n, k) {
      assert Chained(m, k);
    }
    forall p ensures LockInv(n, p) {
      assert LockInv(m, p);
    }
  }

  /** A running write that moves on, whatever it does to the files. */
  lemma MoveKeepsLocks(s: State, n: State, i: nat)
    requires LocksInv(s) && i < |s.calls| && Running(s.calls[i])
    requires n.locks == s.locks && |n.calls| == |s.calls| && n.calls == s.calls[i := n.calls[i]]
    requires var w := n.calls[i];
             w.path == s.calls[i].path && w.after == s.calls[i].after && !w.phase.Queued? && WroteInv(w)
    ensures LocksInv(n)
  {
    PhaseKeepsLocks(s, i, n.calls[i]);
    FilesAreNotLocks(s.(calls := s.calls[i := n.calls[i]]), n);
  }

  lemma StartKeepsLocks(s: State, i: nat)
    requires LocksInv(s) && i < |s.calls| && CanStart(s, i)
    ensures LocksInv(SetPhase(s, i, Appending))
  {
    assert WroteInv(s.calls[i]);
    StartIsNext(s, i);
    PhaseKeepsLocks(s, i, s.calls[i].(phase := Appending));
  }

  lemma AppendKeepsLocks(s: State, i: nat, succeeds: bool)
    requires LocksInv(s)
    ensures LocksInv(AfterAppend(s, i, succeeds))
  {
    if i < |s.calls| && s.calls[i].phase.Appending? {
      assert WroteInv(s.calls[i]);
      MoveKeepsLocks(s, AfterAppend(s, i, succeeds), i);
    }
  }

  lemma StatKeepsLocks(s: State, i: nat, succeeds: bool)
    requires LocksInv(s)
    ensures LocksInv(AfterStat(s, i, succeeds))
  {
    if i < |s.calls| && s.calls[i].phase.Checking? {
      assert WroteInv(s.calls[i]);
      MoveKeepsLocks(s, AfterStat(s, i, succeeds), i);
    }
  }

  lemma ReadKeepsLocks(s: State, i: nat, succeeds: bool)
    requires LocksInv(s)
    ensures LocksInv(AfterRead(s, i, succeeds))
  {
    if i < |s.calls| && s.calls[i].phase.Reading? {
      assert WroteInv(s.calls[i]);
      MoveKeepsLocks(s, AfterRead(s, i, succeeds), i);
    }
  }

  lemma RewriteKeepsLocks(s: State, i: nat, succeeds: bool)
    requires LocksInv(s)
    ensures LocksInv(AfterRewrite(s, i, succeeds))
  {
    if i < |s.calls| && s.calls[i].phase.Rewriting? {
      assert WroteInv(s.calls[i]);
      MoveKeepsLocks(s, AfterRewrite(s, i, succeeds), i);
    }
  }

  lemma TearKeepsLocks(s: State, i: nat, left: nat)
    requires LocksInv(s)
    ensures LocksInv(AfterTear(s, i, left))
  {
    if i < |s.calls| && (s.calls[i].phase.Appending? || s.calls[i].phase.Rewriting?) {
      assert WroteInv(s.calls[i]);
      MoveKeepsLocks(s, AfterTear(s, i, left), i);
    }
  }

  lemma StepKeepsLocks(s: State, t: Step)
    requires LocksInv(s)
    ensures LocksInv(Apply(s, t))
  {
    match t
    case Call(_, _, _, _) => CallKeepsLocks(s, t);
    case Start(i) => if i < |s.calls| && CanStart(s, i) { StartKeepsLocks(s, i); }
    case Append(i, succeeds) => AppendKeepsLocks(s, i, succeeds);
    case Stat(i, succeeds) => StatKeepsLocks(s, i, succeeds);
    case Read(i, succeeds) => ReadKeepsLocks(s, i, succeeds);
    case Rewrite(i, succeeds) => RewriteKeepsLocks(s, i, succeeds);
    case Tear(i, left) => TearKeepsLocks(s, i, left);
    case Cleanup(i) =>
      if i < |s.calls| && IsSettled(s.calls[i]) && !s.calls[i].cleaned { CleanupKeepsLocks(s, i); }
  }

  lemma FilesAreNotLocks(s: State, n: State)
    requires LocksInv(s) && n.calls == s.calls && n.locks == s.locks
    ensures LocksInv(n)
  {
    forall k | 0 <= k < |n.calls| ensures Chained(n, k) {
      assert Chained(s, k);
    }
    forall p ensures LockInv(n, p) {
      assert LockInv(s, p);
    }
    assert InOrder(n);
  }

  // ---------- the file ----------

  /** The file is a suffix of the history, or it was damaged and ends with everything written since. */
  ghost predicate FileGood(file: Text, history: seq<Text>, story: Story) {
    HoldsSuffix(file, history) || (story.torn && EndsWith(file, story.since))
  }

  ghost predicate PathGood(s: State, p: Path) { FileGood(FileOf(s, p), History(s, p), StoryOf(s.calls, p)) }

  ghost predicate BaseInv(s: State) { forall p :: p in s.base ==> GoodLines(s.base[p]) }

  /** What a write remembers of the file is still there. */
  ghost predicate Remembers(s: State, w: Write) { w.phase.Rewriting? ==> w.phase.content == FileOf(s, w.path) }

  ghost predicate AllRemember(s: State) { forall i :: 0 <= i < |s.calls| ==> Remembers(s, s.calls[i]) }

  ghost predicate FilesInv(s: State) { BaseInv(s) && (forall p :: PathGood(s, p)) && AllRemember(s) }

  ghost predicate Inv(s: State) { LocksInv(s) && FilesInv(s) }

  lemma HistoryIsGood(s: State, p: Path)
    requires BaseInv(s)
    ensures GoodLines(History(s, p)) && IsSuffix(StoryOf(s.calls, p).since, History(s, p))
  {
    StoryIsGood(s.calls, p);
  }

  /** Steps that touch no file and no story. */
  lemma QuietStep(s: State, n: State)
    requires FilesInv(s) && n.files == s.files && n.base == s.base && AllRemember(n)
    requires forall p :: StoryOf(n.calls, p) == StoryOf(s.calls, p)
    ensures FilesInv(n)
  {
    forall p ensures PathGood(n, p) {
      assert PathGood(s, p);
    }
  }

  lemma PhaseIsQuiet(s: State, i: nat, w: Write)
    requires FilesInv(s) && i < |s.calls| && Remembers(s, w) && SamePart(w, s.calls[i], w.path)
    ensures FilesInv(s.(calls := s.calls[i := w]))
  {
    var n := s.(calls := s.calls[i := w]);
    forall p ensures StoryOf(n.calls, p) == StoryOf(s.calls, p) {
      SameStory(n.calls, s.calls, p);
    }
    forall k | 0 <= k < |n.calls| ensures Remembers(n, n.calls[k]) {
      assert Remembers(s, s.calls[k]);
    }
    QuietStep(s, n);
  }

  /** A write that runs is alone on its path, so nobody else remembers its file. */
  lemma AloneOnPath(s: State, i: nat, j: nat)
    requires LocksInv(s) && i < |s.calls| && j < |s.calls| && i != j && s.calls[i].path == s.calls[j].path
    requires Running(s.calls[i])
    ensures s.calls[j].phase.Queued? || IsSettled(s.calls[j])
  {}

  lemma RunningIsLast(s: State, i: nat)
    requires LocksInv(s) && i < |s.calls| && Running(s.calls[i])
    ensures LastOf(s.calls, i)
  {
    forall j | i < j < |s.calls| && s.calls[j].path == s.calls[i].path ensures Idle(s.calls[j]) {
      assert s.calls[j].phase.Queued? && WroteInv(s.calls[j]);
    }
  }

  lemma OthersRemember(s: State, i: nat, w: Write, file: Text)
    requires Inv(s) && i < |s.calls| && Running(s.calls[i])
    requires w.path == s.calls[i].path && !w.phase.Rewriting?
    ensures AllRemember(s.(calls := s.calls[i := w], files := s.files[w.path := file]))
  {
    var n := s.(calls := s.calls[i := w], files := s.files[w.path := file]);
    forall k | 0 <= k < |n.calls| ensures Remembers(n, n.calls[k]) {
      assert Remembers(s, s.calls[k]);
      if k != i && s.calls[k].path == w.path {
        AloneOnPath(s, i, k);
      }
    }
  }

  /** A running write replaces its file. */
  lemma FileStep(s: State, i: nat, w: Write, file: Text)
    requires Inv(s) && i < |s.calls| && Running(s.calls[i])
    requires w.path == s.calls[i].path && !w.phase.Rewriting?
    requires FileGood(file, History(s.(calls := s.calls[i := w]), w.path), StoryOf(s.calls[i := w], w.path))
    ensures FilesInv(s.(calls := s.calls[i := w], files := s.files[w.path := file]))
  {
    var n := s.(calls := s.calls[i := w], files := s.files[w.path := file]);
    OthersRemember(s, i, w, file);
    RunningIsLast(s, i);
    StoryAfter(s.calls, i, w);
    forall p ensures PathGood(n, p) {
      if p != w.path {
        assert PathGood(s, p);
      }
    }
  }

  lemma GoodAfterAppend(file: Text, base: seq<Text>, b: Story, line: Text)
    requires FileGood(file, base + b.written, b)
    ensures FileGood(file + (line + [NEWLINE]), base + (b.written + [line]),
                     Story(b.written + [line], b.torn, b.since + [line]))
  {
    Regroup(base, b.written, [line]);
    if HoldsSuffix(file, base + b.written) {
      AppendKeepsSuffix(file, base + b.written, line);
    } else {
      AppendKeepsEnd(file, b.since, line);
    }
  }

  lemma AppendToStory(calls: seq<Write>, i: nat, w: Write)
    requires LastOf(calls, i) && Idle(calls[i]) && w.path == calls[i].path && w.wrote && !IsTorn(w)
    ensures var b, line := StoryOf(calls, w.path), Print(w.entry);
            StoryOf(calls[i := w], w.path) == Story(b.written + [line], b.torn, b.since + [line])
  {
    StoryAfter(calls, i, w);
    TellIdle(StoryOf(calls[..i], w.path), calls[i]);
  }

  lemma AppendKeepsFiles(s: State, i: nat)
    requires Inv(s) && i < |s.calls| && s.calls[i].phase.Appending?
    ensures FilesInv(AfterAppend(s, i, true))
  {
    var w := s.calls[i].(phase := Checking, wrote := true);
    var b := StoryOf(s.calls, w.path);
    assert WroteInv(s.calls[i]);
    RunningIsLast(s, i);
    AppendToStory(s.calls, i, w);
    assert PathGood(s, w.path);
    GoodAfterAppend(FileOf(s, w.path), if w.path in s.base then s.base[w.path] else [], b, Print(w.entry));
    FileStep(s, i, w, FileOf(s, w.path) + LineOf(w));
  }

  lemma EndsWithNothing(file: Text)
    ensures EndsWith(file, [])
  {
    assert file == file + Render([]);
  }

  lemma TearKeepsFiles(s: State, i: nat, left: nat)
    requires Inv(s) && i < |s.calls| && (s.calls[i].phase.Appending? || s.calls[i].phase.Rewriting?)
    ensures FilesInv(AfterTear(s, i, left))
  {
    var w := s.calls[i].(phase := Settled(Torn));
    var file := FileOf(AfterTear(s, i, left), w.path);
    RunningIsLast(s, i);
    StoryAfter(s.calls, i, w);
    EndsWithNothing(file);
    FileStep(s, i, w, file);
  }

  lemma GoodAfterRotation(file: Text, history: seq<Text>, story: Story, keep: nat)
    requires FileGood(file, history, story) && GoodLines(history) && IsSuffix(story.since, history) && story.since != []
    ensures FileGood(Rotated(file, keep), history, story)
    ensures 1 <= keep < |story.since| ==> HoldsSuffix(Rotated(file, keep), history)
  {
    if HoldsSuffix(file, history) {
      RotateKeepsSuffix(file, history, keep);
    } else {
      RotateDamaged(file, story.since, keep);
      if HoldsSuffix(Rotated(file, keep), story.since) {
        LongerHistory(Rotated(file, keep), story.since, history);
      }
    }
  }

  /** The story behind a write that is about to rewrite its file ends with its own line. */
  lemma RewriterIsInStory(s: State, i: nat, w: Write)
    requires Inv(s) && i < |s.calls| && s.calls[i].phase.Rewriting? && w == s.calls[i].(phase := Settled(Completed))
    ensures StoryOf(s.calls[i := w], w.path) == StoryOf(s.calls, w.path) && StoryOf(s.calls, w.path).since != []
    ensures s.calls[i].phase.content == FileOf(s, w.path) && PathGood(s, w.path)
  {
    assert WroteInv(s.calls[i]) && Remembers(s, s.calls[i]);
    RunningIsLast(s, i);
    StoryAfter(s.calls, i, w);
    assert PathGood(s, w.path);
  }

  lemma RewriteKeepsFiles(s: State, i: nat)
    requires Inv(s) && i < |s.calls| && s.calls[i].phase.Rewriting?
    ensures FilesInv(AfterRewrite(s, i, true))
  {
    var w := s.calls[i].(phase := Settled(Completed));
    RewriterIsInStory(s, i, w);
    HistoryIsGood(s, w.path);
    GoodAfterRotation(FileOf(s, w.path), History(s, w.path), StoryOf(s.calls, w.path), w.keep);
    FileStep(s, i, w, Rotated(s.calls[i].phase.content, w.keep));
  }

  lemma CallKeepsFiles(s: State, t: Step)
    requires FilesInv(s) && t.Call?
    ensures FilesInv(Apply(s, t))
  {
    var n := Apply(s, t);
    var w := n.calls[|s.calls|];
    assert n.calls[..|n.calls| - 1] == s.calls;
    forall p ensures StoryOf(n.calls, p) == StoryOf(s.calls, p) {
      TellIdle(StoryOf(s.calls, p), w);
    }
    forall k | 0 <= k < |n.calls| ensures Remembers(n, n.calls[k]) {
      if k < |s.calls| {
        assert Remembers(s, s.calls[k]);
      }
    }
    QuietStep(s, n);
  }

  /** Steps by which write `i` changes its phase only. */
  lemma QuietPhase(s: State, i: nat, phase: Phase)
    requires FilesInv(s) && i < |s.calls| && !IsSettled(s.calls[i]) && phase != Settled(Torn)
    requires phase.Rewriting? ==> phase.content == FileOf(s, s.calls[i].path)
    ensures FilesInv(SetPhase(s, i, phase))
  {
    PhaseIsQuiet(s, i, s.calls[i].(phase := phase));
  }

  lemma LocksAreNotFiles(s: State, n: State)
    requires FilesInv(s) && n.calls == s.calls && n.files == s.files && n.base == s.base
    ensures FilesInv(n)
  {
    forall k | 0 <= k < |n.calls| ensures Remembers(n, n.calls[k]) {
      assert Remembers(s, s.calls[k]);
    }
    QuietStep(s, n);
  }

  lemma CleanupKeepsFiles(s: State, i: nat)
    requires FilesInv(s)
    ensures FilesInv(AfterCleanup(s, i))
  {
    if i < |s.calls| && IsSettled(s.calls[i]) && !s.calls[i].cleaned {
      var w := s.calls[i].(cleaned := true);
      PhaseIsQuiet(s, i, w);
      LocksAreNotFiles(s.(calls := s.calls[i := w]), AfterCleanup(s, i));
    }
  }

  lemma StepKeepsFiles(s: State, t: Step)
    requires Inv(s)
    ensures FilesInv(Apply(s, t))
  {
    if t.Call? {
      CallKeepsFiles(s, t);
    } else if t.id < |s.calls| {
      var i, phase := t.id, s.calls[t.id].phase;
      match t
      case Start(_) => if CanStart(s, i) { QuietPhase(s, i, Appending); }
      case Append(_, succeeds) =>
        if phase.Appending? {
          if succeeds { AppendKeepsFiles(s, i); } else { QuietPhase(s, i, Settled(AppendFailed)); }
        }
      case Stat(_, succeeds) =>
        if phase.Checking? {
          QuietPhase(s, i, Settled(RotationFailed));
          QuietPhase(s, i, Reading);
          QuietPhase(s, i, Settled(Completed));
        }
      case Read(_, succeeds) =>
        if phase.Reading? {
          QuietPhase(s, i, Settled(RotationFailed));
          QuietPhase(s, i, Rewriting(FileOf(s, s.calls[i].path)));
        }
      case Rewrite(_, succeeds) =>
        if phase.Rewriting? {
          if succeeds { RewriteKeepsFiles(s, i); } else { QuietPhase(s, i, Settled(RotationFailed)); }
        }
      case Tear(_, left) => if phase.Appending? || phase.Rewriting? { TearKeepsFiles(s, i, left); }
      case Cleanup(_) => CleanupKeepsFiles(s, i);
    }
  }

  // ---------- runs ----------

  /** Files that hold whole lines, and no call yet. */
  ghost predicate Initial(s: State) {
    && s.calls == [] && s.locks == map[] && BaseInv(s)
    && s.files.Keys == s.base.Keys && forall p :: p in s.base ==> s.files[p] == Render(s.base[p])
  }

  ghost function Run(s: State, ts: seq<Step>): State {
    if ts == [] then s else Apply(Run(s, ts[..|ts| - 1]), ts[|ts| - 1])
  }

  lemma InitialInv(s: State)
    requires Initial(s)
    ensures Inv(s)
  {
    forall p ensures PathGood(s, p) {
      var lines := if p in s.base then s.base[p] else [];
      assert History(s, p) == lines;
      assert IsSuffix(lines, lines);
    }
  }

  lemma {:induction false} RunInv(s: State, ts: seq<Step>)
    requires Initial(s)
    ensures Inv(Run(s, ts))
  {
    if ts == [] {
      InitialInv(s);
    } else {
      var r := Run(s, ts[..|ts| - 1]);
      RunInv(s, ts[..|ts| - 1]);
      StepKeepsLocks(r, ts[|ts| - 1]);
      StepKeepsFiles(r, ts[|ts| - 1]);
    }
  }

  /** In every interleaving: at most one write per path is running, everything called before a started
      write has settled, and a missing lock entry means that nothing on the path is unsettled. */
  lemma WritesNeverOverlap(s: State, ts: seq<Step>)
    requires Initial(s)
    ensures var r := Run(s, ts);
            && (forall i, j :: 0 <= i < j < |r.calls| && r.calls[i].path == r.calls[j].path ==>
                  && !(Running(r.calls[i]) && Running(r.calls[j]))
                  && (!r.calls[j].phase.Queued? ==> IsSettled(r.calls[i])))
            && (forall i :: 0 <= i < |r.calls| && r.calls[i].path !in r.locks ==> IsSettled(r.calls[i]))
  {
    RunInv(s, ts);
    var r := Run(s, ts);
    assert InOrder(r);
    forall i | 0 <= i < |r.calls| && r.calls[i].path !in r.locks ensures IsSettled(r.calls[i]) {
      assert LockInv(r, r.calls[i].path);
    }
  }

  // ---------- no lock is left behind ----------

  /** Every lock entry names a write whose clean-up is still to come. */
  ghost predicate Owned(s: State) {
    forall p :: p in s.locks ==> s.locks[p] < |s.calls| && !s.calls[s.locks[p]].cleaned
  }

  lemma CleanupOwned(s: State, i: nat)
    requires LocksInv(s) && Owned(s)
    ensures Owned(AfterCleanup(s, i))
  {
    var n := AfterCleanup(s, i);
    forall p | p in n.locks ensures n.locks[p] < |n.calls| && !n.calls[n.locks[p]].cleaned {
      assert LockInv(s, p);
    }
  }

  lemma CallOwned(s: State, t: Step)
    requires Owned(s) && t.Call?
    ensures Owned(Apply(s, t))
  {}

  lemma OtherOwned(s: State, t: Step)
    requires Owned(s) && !t.Call? && !t.Cleanup?
    ensures Owned(Apply(s, t))
  {
    match t
    case Start(i) =>
    case Append(i, succeeds) => AppendKeepsEntries(s, i, succeeds);
    case Stat(i, succeeds) => StatKeepsEntries(s, i, succeeds);
    case Read(i, succeeds) => RotationKeepsEntries(s, i, succeeds);
    case Rewrite(i, succeeds) => RotationKeepsEntries(s, i, succeeds);
    case Tear(i, left) => TearKeepsEntries(s, i, left);
  }

  /** The lock entries are as before, and no write is cleaned up. */
  ghost predicate KeepsEntries(s: State, n: State) {
    && n.locks == s.locks && |n.calls| == |s.calls|
    && forall i :: 0 <= i < |s.calls| ==> n.calls[i].cleaned == s.calls[i].cleaned
  }

  lemma AppendKeepsEntries(s: State, i: nat, succeeds: bool)
    ensures KeepsEntries(s, AfterAppend(s, i, succeeds))
  {}

  lemma StatKeepsEntries(s: State, i: nat, succeeds: bool)
    ensures KeepsEntries(s, AfterStat(s, i, succeeds))
  {}

  lemma RotationKeepsEntries(s: State, i: nat, succeeds: bool)
    ensures KeepsEntries(s, AfterRead(s, i, succeeds)) && KeepsEntries(s, AfterRewrite(s, i, succeeds))
  {}

  lemma TearKeepsEntries(s: State, i: nat, left: nat)
    ensures KeepsEntries(s, AfterTear(s, i, left))
  {}

  lemma {:induction false} RunOwned(s: State, ts: seq<Step>)
    requires Initial(s)
    ensures Owned(Run(s, ts))
  {
    if ts != [] {
      var n := |ts| - 1;
      var r := Run(s, ts[..n]);
      RunOwned(s, ts[..n]);
      RunInv(s, ts[..n]);
      if ts[n].Call? {
        CallOwned(r, ts[n]);
      } else if ts[n].Cleanup? {
        CleanupOwned(r, ts[n].id);
      } else {
        OtherOwned(r, ts[n]);
      }
    }
  }

  /** In every interleaving: once all writes are over and cleaned up, no lock entry is left. */
  lemma NoLockLeftBehind(s: State, ts: seq<Step>)
    requires Initial(s)
    ensures var r := Run(s, ts);
            (forall i :: 0 <= i < |r.calls| ==> r.calls[i].cleaned) ==> r.locks == map[]
  {
    RunOwned(s, ts);
    var r := Run(s, ts);
    if forall i :: 0 <= i < |r.calls| ==> r.calls[i].cleaned {
      assert forall p :: p !in r.locks;
    }
  }

  // ---------- no write is blocked ----------

  /** How a file operation may end. */
  datatype Fate = Succeeds | Fails | Breaks(left: nat)

  /** The step by which write `i` moves on, when its operation meets `fate`. */
  function NextStep(s: State, i: nat, fate: Fate): Step
    requires i < |s.calls| && !IsSettled(s.calls[i])
  {
    match s.calls[i].phase
    case Queued => Start(i)
    case Appending => if fate.Breaks? then Tear(i, fate.left) else Append(i, fate.Succeeds?)
    case Checking => Stat(i, fate.Succeeds?)
    case Reading => Read(i, fate.Succeeds?)
    case Rewriting(_) => if fate.Breaks? then Tear(i, fate.left) else Rewrite(i, fate.Succeeds?)
  }

  function StepsLeft(w: Write): nat {
    match w.phase
    case Queued => 5
    case Appending => 4
    case Checking => 3
    case Reading => 2
    case Rewriting(_) => 1
    case Settled(_) => 0
  }

  function AllStepsLeft(calls: seq<Write>): nat {
    if calls == [] then 0 else AllStepsLeft(calls[..|calls| - 1]) + StepsLeft(calls[|calls| - 1])
  }

  lemma {:induction false} FewerStepsLeft(calls: seq<Write>, i: nat, w: Write)
    requires i < |calls| && StepsLeft(w) < StepsLeft(calls[i])
    ensures AllStepsLeft(calls[i := w]) < AllStepsLeft(calls)
  {
    var n := |calls| - 1;
    if i == n {
      assert calls[i := w][..n] == calls[..n];
    } else {
      assert calls[i := w][..n] == calls[..n][i := w];
      FewerStepsLeft(calls[..n], i, w);
    }
  }

  ghost predicate FirstUnsettled(s: State, i: nat) {
    && i < |s.calls| && !IsSettled(s.calls[i])
    && forall j :: 0 <= j < i && s.calls[j].path == s.calls[i].path ==> IsSettled(s.calls[j])
  }

  /** Only write `i` has changed, and it is nearer to its end. */
  ghost predicate MovesOn(s: State, n: State, i: nat) {
    && i < |s.calls| && |n.calls| == |s.calls| && n.calls == s.calls[i := n.calls[i]]
    && StepsLeft(n.calls[i]) < StepsLeft(s.calls[i])
  }

  lemma AppendMoves(s: State, i: nat, succeeds: bool)
    requires i < |s.calls| && s.calls[i].phase.Appending?
    ensures MovesOn(s, AfterAppend(s, i, succeeds), i)
  {}

  lemma StatMoves(s: State, i: nat, succeeds: bool)
    requires i < |s.calls| && s.calls[i].phase.Checking?
    ensures MovesOn(s, AfterStat(s, i, succeeds), i)
  {}

  lemma ReadMoves(s: State, i: nat, succeeds: bool)
    requires i < |s.calls| && s.calls[i].phase.Reading?
    ensures MovesOn(s, AfterRead(s, i, succeeds), i)
  {}

  lemma RewriteMoves(s: State, i: nat, succeeds: bool)
    requires i < |s.calls| && s.calls[i].phase.Rewriting?
    ensures MovesOn(s, AfterRewrite(s, i, succeeds), i)
  {}

  lemma TearMoves(s: State, i: nat, left: nat)
    requires i < |s.calls| && (s.calls[i].phase.Appending? || s.calls[i].phase.Rewriting?)
    ensures MovesOn(s, AfterTear(s, i, left), i)
  {}

  lemma MoveEffect(s: State, i: nat, fate: Fate)
    requires i < |s.calls| && !IsSettled(s.calls[i]) && (s.calls[i].phase.Queued? ==> CanStart(s, i))
    ensures MovesOn(s, Apply(s, NextStep(s, i, fate)), i)
  {
    match s.calls[i].phase
    case Queued =>
    case Appending => if fate.Breaks? { TearMoves(s, i, fate.left); } else { AppendMoves(s, i, fate.Succeeds?); }
    case Checking => StatMoves(s, i, fate.Succeeds?);
    case Reading => ReadMoves(s, i, fate.Succeeds?);
    case Rewriting(_) => if fate.Breaks? { TearMoves(s, i, fate.left); } else { RewriteMoves(s, i, fate.Succeeds?); }
  }

  lemma FirstCanStart(s: State, i: nat)
    requires LocksInv(s) && FirstUnsettled(s, i) && s.calls[i].phase.Queued?
    ensures CanStart(s, i)
  {
    assert Chained(s, i);
  }

  /** The first unsettled write of a path is never stuck, whatever its next operation meets. */
  lemma FirstUnsettledMoves(s: State, i: nat, fate: Fate)
    requires LocksInv(s) && FirstUnsettled(s, i)
    ensures var n := Apply(s, NextStep(s, i, fate));
            |n.calls| == |s.calls| && AllStepsLeft(n.calls) < AllStepsLeft(s.calls)
  {
    if s.calls[i].phase.Queued? {
      FirstCanStart(s, i);
    }
    MoveEffect(s, i, fate);
    FewerStepsLeft(s.calls, i, Apply(s, NextStep(s, i, fate)).calls[i]);
  }

  ghost predicate AllSettled(s: State, p: Path) {
    forall i :: 0 <= i < |s.calls| && s.calls[i].path == p ==> IsSettled(s.calls[i])
  }

  lemma {:induction false} FindFirstUnsettled(s: State, p: Path, k: nat) returns (i: nat)
    requires k < |s.calls| && s.calls[k].path == p && !IsSettled(s.calls[k])
    ensures FirstUnsettled(s, i) && s.calls[i].path == p
    decreases k
  {
    if j :| 0 <= j < k && s.calls[j].path == p && !IsSettled(s.calls[j]) {
      i := FindFirstUnsettled(s, p, j);
    } else {
      i := k;
    }
  }

  /** The steps `more` from `s` all move first unsettled writes of `p` on, and their operations meet
      `fate(k)`, `fate(k + 1)` and so on. */
  ghost predicate Moves(s: State, more: seq<Step>, p: Path, fate: nat -> Fate, k: nat)
    decreases |more|
  {
    || more == []
    || (&& (exists i :: IsMove(s, more[0], i, p, fate(k)))
        && Moves(Apply(s, more[0]), more[1..], p, fate, k + 1))
  }

  ghost predicate IsMove(s: State, t: Step, i: int, p: Path, fate: Fate) {
    0 <= i && FirstUnsettled(s, i) && s.calls[i].path == p && t == NextStep(s, i, fate)
  }

  lemma {:induction false} RunConcat(s: State, a: seq<Step>, b: seq<Step>)
    ensures Run(s, a + b) == Run(Run(s, a), b)
  {
    if b == [] {
      assert a + b == a;
    } else {
      var n := |b| - 1;
      assert (a + b)[..|a + b| - 1] == a + b[..n];
      RunConcat(s, a, b[..n]);
    }
  }

  lemma RunLast(s: State, ts: seq<Step>, t: Step)
    ensures Run(s, ts + [t]) == Apply(Run(s, ts), t)
  {
    assert (ts + [t])[..|ts|] == ts;
  }

  lemma RunFirst(s: State, t: Step, more: seq<Step>)
    ensures Run(s, [t] + more) == Run(Apply(s, t), more)
  {
    assert [t][..0] == [];
    RunConcat(s, [t], more);
  }

  lemma {:induction false} EverythingSettles(s: State, p: Path, fate: nat -> Fate, k: nat) returns (more: seq<Step>)
    requires LocksInv(s)
    ensures AllSettled(Run(s, more), p) && |Run(s, more).calls| == |s.calls| && Moves(s, more, p, fate, k)
    decreases AllStepsLeft(s.calls)
  {
    if AllSettled(s, p) {
      more := [];
    } else {
      var j :| 0 <= j < |s.calls| && s.calls[j].path == p && !IsSettled(s.calls[j]);
      var i := FindFirstUnsettled(s, p, j);
      var t := NextStep(s, i, fate(k));
      FirstUnsettledMoves(s, i, fate(k));
      StepKeepsLocks(s, t);
      var later := EverythingSettles(Apply(s, t), p, fate, k + 1);
      more := [t] + later;
      RunFirst(s, t, later);
      assert IsMove(s, more[0], i, p, fate(k)) && more[1..] == later;
    }
  }

  /** From every reachable state the unsettled writes of a path all settle, one step of theirs after the
      other, however their operations end and however earlier ones ended. */
  lemma FailureNeverBlocks(s: State, ts: seq<Step>, p: Path, fate: nat -> Fate) returns (more: seq<Step>)
    requires Initial(s)
    ensures var r := Run(s, ts);
            && Moves(r, more, p, fate, 0)
            && AllSettled(Run(s, ts + more), p) && |Run(s, ts + more).calls| == |r.calls|
  {
    RunInv(s, ts);
    more := EverythingSettles(Run(s, ts), p, fate, 0);
    RunConcat(s, ts, more);
  }

  // ---------- what the file holds ----------

  /** In every interleaving: as long as no operation on it broke off, a file holds a suffix of its history
      that ends with the newest record; and after one did, it ends with every record since, or it holds
      such a suffix again. */
  lemma FileIsSuffixOfHistory(s: State, ts: seq<Step>, p: Path)
    requires Initial(s)
    ensures var r := Run(s, ts);
            var story := StoryOf(r.calls, p);
            && (!story.torn ==> HoldsSuffix(FileOf(r, p), History(r, p)))
            && (story.torn ==> HoldsSuffix(FileOf(r, p), History(r, p)) || EndsWith(FileOf(r, p), story.since))
  {
    RunInv(s, ts);
    assert PathGood(Run(s, ts), p);
  }

  lemma TearEffect(r: State, i: nat, left: nat)
    requires Inv(r) && i < |r.calls| && (r.calls[i].phase.Appending? || r.calls[i].phase.Rewriting?)
    ensures var w, n := r.calls[i], Apply(r, Tear(i, left));
            && History(n, w.path) == History(r, w.path)
            && (w.phase.Rewriting? ==> History(r, w.path) != [])
            && FileOf(n, w.path) == (if w.phase.Appending? then FileOf(r, w.path) + Beginning(LineOf(w), left)
                                     else Beginning(Rotated(w.phase.content, w.keep), left))
  {
    var w := r.calls[i].(phase := Settled(Torn));
    assert WroteInv(r.calls[i]);
    RunningIsLast(r, i);
    StoryAfter(r.calls, i, w);
  }

  /** A rotation that keeps fewer lines than were written since the damage makes the file whole again. */
  lemma RotationHeals(s: State, ts: seq<Step>, i: nat)
    requires Initial(s)
    ensures var r, n := Run(s, ts), Run(s, ts + [Rewrite(i, true)]);
            i < |r.calls| && r.calls[i].phase.Rewriting?
            && 1 <= r.calls[i].keep < |StoryOf(r.calls, r.calls[i].path).since| ==>
              HoldsSuffix(FileOf(n, r.calls[i].path), History(n, r.calls[i].path))
  {
    var r := Run(s, ts);
    RunInv(s, ts);
    RunLast(s, ts, Rewrite(i, true));
    if i < |r.calls| && r.calls[i].phase.Rewriting?
       && 1 <= r.calls[i].keep < |StoryOf(r.calls, r.calls[i].path).since| {
      RewriteHeals(r, i);
    }
  }

  lemma RewriteHeals(r: State, i: nat)
    requires Inv(r) && i < |r.calls| && r.calls[i].phase.Rewriting?
    requires 1 <= r.calls[i].keep < |StoryOf(r.calls, r.calls[i].path).since|
    ensures var n := Apply(r, Rewrite(i, true));
            HoldsSuffix(FileOf(n, r.calls[i].path), History(n, r.calls[i].path))
  {
    var w := r.calls[i].(phase := Settled(Completed));
    RewriteEffect(r, i);
    RewriterIsInStory(r, i, w);
    HistoryIsGood(r, w.path);
    GoodAfterRotation(FileOf(r, w.path), History(r, w.path), StoryOf(r.calls, w.path), w.keep);
  }

  /** At most write `i` has changed, and not in what it was called with. */
  ghost predicate OnlyMoved(s: State, n: State, i: nat) {
    && |n.calls| == |s.calls| && n.size == s.size && n.base == s.base
    && if i >= |s.calls| then n.calls == s.calls
       else
         var v, w := s.calls[i], n.calls[i];
         && n.calls == s.calls[i := w]
         && w.path == v.path && w.entry == v.entry && w.maxBytes == v.maxBytes && w.keep == v.keep
  }

  lemma OnlyAppendMoved(s: State, i: nat, succeeds: bool)
    ensures OnlyMoved(s, AfterAppend(s, i, succeeds), i)
  {}

  lemma OnlyStatMoved(s: State, i: nat, succeeds: bool)
    ensures OnlyMoved(s, AfterStat(s, i, succeeds), i)
  {}

  lemma OnlyReadMoved(s: State, i: nat, succeeds: bool)
    ensures OnlyMoved(s, AfterRead(s, i, succeeds), i)
  {}

  lemma OnlyRewriteMoved(s: State, i: nat, succeeds: bool)
    ensures OnlyMoved(s, AfterRewrite(s, i, succeeds), i)
  {}

  lemma OnlyTearMoved(s: State, i: nat, left: nat)
    ensures OnlyMoved(s, AfterTear(s, i, left), i)
  {}

  lemma OnlyCleanupMoved(s: State, i: nat)
    ensures OnlyMoved(s, AfterCleanup(s, i), i)
  {}

  lemma StepMoves(s: State, t: Step)
    requires !t.Call?
    ensures OnlyMoved(s, Apply(s, t), t.id)
  {
    match t
    case Start(i) =>
    case Append(i, succeeds) => OnlyAppendMoved(s, i, succeeds);
    case Stat(i, succeeds) => OnlyStatMoved(s, i, succeeds);
    case Read(i, succeeds) => OnlyReadMoved(s, i, succeeds);
    case Rewrite(i, succeeds) => OnlyRewriteMoved(s, i, succeeds);
    case Tear(i, left) => OnlyTearMoved(s, i, left);
    case Cleanup(i) => OnlyCleanupMoved(s, i);
  }

  lemma OnlyItselfMoves(r: State, t: Step, i: nat)
    requires i < |r.calls|
    ensures i < |Apply(r, t).calls|
    ensures Apply(r, t).calls[i] != r.calls[i] ==> !t.Call? && t.id == i
  {
    if !t.Call? {
      StepMoves(r, t);
    }
  }

  /** A write completes by finding the file small enough or by rewriting it. */
  lemma HowWritesComplete(r: State, t: Step, i: nat)
    requires i < |r.calls| && !IsSettled(r.calls[i])
    requires |Apply(r, t).calls| > i && Apply(r, t).calls[i].phase == Settled(Completed)
    ensures || (t == Rewrite(i, true) && r.calls[i].phase.Rewriting?)
            || (t == Stat(i, true) && r.calls[i].phase.Checking?
                && r.size(FileOf(r, r.calls[i].path)) <= r.calls[i].maxBytes)
  {
    OnlyItselfMoves(r, t, i);
  }

  lemma RewriteEffect(r: State, i: nat)
    requires i < |r.calls| && r.calls[i].phase.Rewriting?
    ensures FileOf(Apply(r, Rewrite(i, true)), r.calls[i].path) == Rotated(r.calls[i].phase.content, r.calls[i].keep)
  {}

  lemma StatEffect(r: State, i: nat)
    ensures Apply(r, Stat(i, true)).files == r.files
  {}

  lemma CompletedIsSmall(r: State, t: Step, i: nat)
    requires i < |r.calls| && !IsSettled(r.calls[i]) && r.calls[i].keep >= 1
    requires |Apply(r, t).calls| > i && Apply(r, t).calls[i].phase == Settled(Completed)
    ensures var n, w := Apply(r, t), r.calls[i];
            r.size(FileOf(n, w.path)) <= w.maxBytes || HasFewLines(FileOf(n, w.path), w.keep)
  {
    HowWritesComplete(r, t, i);
    if t.Rewrite? {
      RotationLeavesFewLines(r.calls[i].phase.content, r.calls[i].keep);
      RewriteEffect(r, i);
    } else {
      StatEffect(r, i);
    }
  }

  /** When an append completes without a rotation failure, its file is within the size limit or has at
      most `keep` lines, which are the newest of the history unless the file is damaged. */
  lemma CompletedIsBounded(s: State, ts: seq<Step>, t: Step, i: nat)
    requires Initial(s)
    ensures var r, n := Run(s, ts), Run(s, ts + [t]);
            Completes(r, n, i) && r.calls[i].keep >= 1 ==>
              var w := r.calls[i];
              || r.size(FileOf(n, w.path)) <= w.maxBytes
              || (&& HasFewLines(FileOf(n, w.path), w.keep)
                  && (HoldsSuffix(FileOf(n, w.path), History(n, w.path)) ==>
                      HoldsFew(FileOf(n, w.path), History(n, w.path), w.keep)))
  {
    var r, n := Run(s, ts), Run(s, ts + [t]);
    RunLast(s, ts, t);
    RunInv(s, ts + [t]);
    if Completes(r, n, i) && r.calls[i].keep >= 1 {
      var w := r.calls[i];
      CompletedIsSmall(r, t, i);
      HistoryIsGood(n, w.path);
      if HasFewLines(FileOf(n, w.path), w.keep) && HoldsSuffix(FileOf(n, w.path), History(n, w.path)) {
        FewLinesOfHistory(FileOf(n, w.path), History(n, w.path), w.keep);
      }
    }
  }

  /** Between `r` and `n` write `i` completes without a rotation failure. */
  predicate Completes(r: State, n: State, i: nat) {
    i < |r.calls| && i < |n.calls| && !IsSettled(r.calls[i]) && n.calls[i].phase == Settled(Completed)
  }
}
