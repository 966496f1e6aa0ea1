/**
 The audit-log writer: writes to one path are chained behind a promise kept in `writeLocks`,
 each write appends one JSON line and, when the file has grown too large, rewrites it with
 its most recent lines. Every await is a place where other callers may run.
 */
module AuditLog {
  import opened Common
  import opened Utf16
  import opened CanonicalJson

  type Path = string

  const NEWLINE: CodeUnit := 10

  // ---------- file text ----------

  function Render(lines: seq<Text>): Text {
    if lines == [] then [] else lines[0] + ([NEWLINE] + Render(lines[1..]))
  }

  /** `text.split("\n")`. */
  function Split(t: Text): (r: seq<Text>)
    ensures r != []
  {
    if t == [] then [[]] else Prepend(t[0], Split(t[1..]))
  }

  function Prepend(c: CodeUnit, parts: seq<Text>): (r: seq<Text>)
    requires parts != []
    ensures r != []
  {
    if c == NEWLINE then [[]] + parts else [[c] + parts[0]] + parts[1..]
  }

  /** `l.trim().length > 0`. */
  predicate Visible(l: Text) { exists i :: 0 <= i < |l| && !IsSpace(l[i]) }

  function VisibleLines(ls: seq<Text>): seq<Text> {
    if ls == [] then [] else (if Visible(ls[0]) then [ls[0]] else []) + VisibleLines(ls[1..])
  }

  /** `lines.slice(-keep)`; `slice(-0)` is the whole list. */
  function Newest(ls: seq<Text>, keep: nat): seq<Text> {
    if keep == 0 || |ls| <= keep then ls else ls[|ls| - keep..]
  }

  /** `lines.join("\n")`. */
  function Join(ls: seq<Text>): Text {
    if ls == [] then [] else if |ls| == 1 then ls[0] else ls[0] + ([NEWLINE] + Join(ls[1..]))
  }

  function Rotated(content: Text, keep: nat): Text {
    Join(Newest(VisibleLines(Split(content)), keep)) + [NEWLINE]
  }

  // ---------- the protocol ----------

  /** How far a queued write has come. */
  datatype Phase =
    | Queued
    | Appending
    | Checking
    | Reading
    | Rewriting(content: Text)
    | Settled(outcome: Outcome)

  /** `Torn`: the file operation failed halfway and left part of its text in the file. */
  datatype Outcome = AppendFailed | Completed | RotationFailed | Torn

  /** One call of the writer: the promise it chained behind (none: an already resolved one), and
      whether its line has reached the file. */
  datatype Write = Write(
    path: Path, entry: Json, maxBytes: int, keep: nat, after: Option<nat>, phase: Phase, wrote: bool, cleaned: bool)

  /** `calls` lists the writes in call order; a write is known by its position. `base` is what the
      files held before the first call. */
  datatype State = State(
    calls: seq<Write>, locks: map<Path, nat>, files: map<Path, Text>, base: map<Path, seq<Text>>, size: Text -> nat)

  datatype Step =
    | Call(path: Path, entry: Json, maxBytes: int, keep: nat)
    | Start(id: nat)
    | Append(id: nat, succeeds: bool)
    | Stat(id: nat, succeeds: bool)
    | Read(id: nat, succeeds: bool)
    | Rewrite(id: nat, succeeds: bool)
    | Tear(id: nat, left: nat)
    | Cleanup(id: nat)

  function FileOf(s: State, p: Path): Text { if p in s.files then s.files[p] else [] }

  predicate IsSettled(w: Write) { w.phase.Settled? }

  function SetPhase(s: State, i: nat, phase: Phase): State
    requires i < |s.calls|
  {
    s.(calls := s.calls[i := s.calls[i].(phase := phase)])
  }

  predicate CanStart(s: State, i: nat)
    requires i < |s.calls|
  {
    && s.calls[i].phase.Queued?
    && (s.calls[i].after.None? || (s.calls[i].after.value < |s.calls| && IsSettled(s.calls[s.calls[i].after.value])))
  }

  function AfterCall(s: State, path: Path, entry: Json, maxBytes: int, keep: nat): State {
    var after := if path in s.locks then Some(s.locks[path]) else None;
    s.(calls := s.calls + [Write(path, entry, maxBytes, keep, after, Queued, false, false)],
       locks := s.locks[path := |s.calls|])
  }

  function LineOf(w: Write): Text { Print(w.entry) + [NEWLINE] }

  function AfterAppend(s: State, i: nat, succeeds: bool): State {
    if i >= |s.calls| || !s.calls[i].phase.Appending? then s
    else if !succeeds then SetPhase(s, i, Settled(AppendFailed))
    else
      var w := s.calls[i];
      s.(calls := s.calls[i := w.(phase := Checking, wrote := true)],
         files := s.files[w.path := FileOf(s, w.path) + LineOf(w)])
  }

  function AfterStat(s: State, i: nat, succeeds: bool): State {
    if i >= |s.calls| || !s.calls[i].phase.Checking? then s
    else if !succeeds then SetPhase(s, i, Settled(RotationFailed))
    else if s.size(FileOf(s, s.calls[i].path)) > s.calls[i].maxBytes then SetPhase(s, i, Reading)
    else SetPhase(s, i, Settled(Completed))
  }

  function AfterRead(s: State, i: nat, succeeds: bool): State {
    if i >= |s.calls| || !s.calls[i].phase.Reading? then s
    else if !succeeds then SetPhase(s, i, Settled(RotationFailed))
    else SetPhase(s, i, Rewriting(FileOf(s, s.calls[i].path)))
  }

  function AfterRewrite(s: State, i: nat, succeeds: bool): State {
    if i >= |s.calls| || !s.calls[i].phase.Rewriting? then s
    else if !succeeds then SetPhase(s, i, Settled(RotationFailed))
    else
      var w := s.calls[i];
      SetPhase(s, i, Settled(Completed)).(files := s.files[w.path := Rotated(w.phase.content, w.keep)])
  }

  /** The first `left` units of `t`. */
  function Beginning(t: Text, left: nat): Text { if left < |t| then t[..left] else t }

  /** An append leaves part of its line behind the file, a rewrite part of the new text instead of it. */
  function AfterTear(s: State, i: nat, left: nat): State {
    if i >= |s.calls| || !(s.calls[i].phase.Appending? || s.calls[i].phase.Rewriting?) then s
    else
      var w := s.calls[i];
      var file := if w.phase.Appending? then FileOf(s, w.path) + Beginning(LineOf(w), left)
                  else Beginning(Rotated(w.phase.content, w.keep), left);
      SetPhase(s, i, Settled(Torn)).(files := s.files[w.path := file])
  }

  function AfterCleanup(s: State, i: nat): State {
    if i >= |s.calls| || !IsSettled(s.calls[i]) || s.calls[i].cleaned then s
    else
      var path := s.calls[i].path;
      s.(calls := s.calls[i := s.calls[i].(cleaned := true)],
         locks := if path in s.locks && s.locks[path] == i then s.locks - {path} else s.locks)
  }

  /** One step; a step that is not enabled leaves the state alone. */
  function Apply(s: State, t: Step): State {
    match t
    case Call(path, entry, maxBytes, keep) => AfterCall(s, path, entry, maxBytes, keep)
    case Start(i) => if i < |s.calls| && CanStart(s, i) then SetPhase(s, i, Appending) else s
    case Append(i, succeeds) => AfterAppend(s, i, succeeds)
    case Stat(i, succeeds) => AfterStat(s, i, succeeds)
    case Read(i, succeeds) => AfterRead(s, i, succeeds)
    case Rewrite(i, succeeds) => AfterRewrite(s, i, succeeds)
    case Tear(i, left) => AfterTear(s, i, left)
    case Cleanup(i) => AfterCleanup(s, i)
  }

  /** The writer module's state as an object; each method is one stretch of code between awaits. */
  class Writer {
    var calls: seq<Write>
    var writeLocks: map<Path, nat>
    var files: map<Path, Text>
    const base: map<Path, seq<Text>>
    const size: Text -> nat

    ghost function Current(): State
      reads this
    {
      State(calls, writeLocks, files, base, size)
    }

    constructor (base: map<Path, seq<Text>>, size: Text -> nat)
      ensures Current() == State([], map[], map p | p in base :: Render(base[p]), base, size)
    {
      calls, writeLocks := [], map[];
      files := map p | p in base :: Render(base[p]);
      this.base, this.size := base, size;
    }

    method SerializedWrite(path: Path, entry: Json, maxBytes: int, keep: nat) returns (id: nat)
      modifies this
      ensures Current() == Apply(old(Current()), Call(path, entry, maxBytes, keep))
      ensures id == |old(calls)|
    {
      var existing := if path in writeLocks then Some(writeLocks[path]) else None;
      id := |calls|;
      calls := calls + [Write(path, entry, maxBytes, keep, existing, Queued, false, false)];
      writeLocks := writeLocks[path := id];
    }

    method FinallyBlock(id: nat)
      requires id < |calls| && IsSettled(calls[id]) && !calls[id].cleaned
      modifies this
      ensures Current() == Apply(old(Current()), Cleanup(id))
    {
      var path := calls[id].path;
      calls := calls[id := calls[id].(cleaned := true)];
      if path in writeLocks && writeLocks[path] == id {
        writeLocks := writeLocks - {path};
      }
    }

    method StartQueued(id: nat)
      requires id < |calls| && CanStart(Current(), id)
      modifies this
      ensures Current() == Apply(old(Current()), Start(id))
    {
      calls := calls[id := calls[id].(phase := Appending)];
    }

    method AppendLine(id: nat, succeeds: bool)
      requires id < |calls| && calls[id].phase.Appending?
      modifies this
      ensures Current() == Apply(old(Current()), Append(id, succeeds))
    {
      var w := calls[id];
      if succeeds {
        var line := Print(w.entry) + [NEWLINE];
        files := files[w.path := (if w.path in files then files[w.path] else []) + line];
        calls := calls[id := w.(phase := Checking, wrote := true)];
      } else {
        calls := calls[id := w.(phase := Settled(AppendFailed))];
      }
    }

    method CheckSize(id: nat, succeeds: bool)
      requires id < |calls| && calls[id].phase.Checking?
      modifies this
      ensures Current() == Apply(old(Current()), Stat(id, succeeds))
    {
      var w := calls[id];
      if !succeeds {
        calls := calls[id := w.(phase := Settled(RotationFailed))];
      } else if size(if w.path in files then files[w.path] else []) > w.maxBytes {
        calls := calls[id := w.(phase := Reading)];
      } else {
        calls := calls[id := w.(phase := Settled(Completed))];
      }
    }

    method ReadBack(id: nat, succeeds: bool)
      requires id < |calls| && calls[id].phase.Reading?
      modifies this
      ensures Current() == Apply(old(Current()), Read(id, succeeds))
    {
      var w := calls[id];
      var content := if w.path in files then files[w.path] else [];
      calls := calls[id := w.(phase := if succeeds then Rewriting(content) else Settled(RotationFailed))];
    }

    method RewriteFile(id: nat, succeeds: bool)
      requires id < |calls| && calls[id].phase.Rewriting?
      modifies this
      ensures Current() == Apply(old(Current()), Rewrite(id, succeeds))
    {
      var w := calls[id];
      if !succeeds {
        calls := calls[id := w.(phase := Settled(RotationFailed))];
      } else {
        var lines := VisibleLines(Split(w.phase.content));
        var kept := Newest(lines, w.keep);
        files := files[w.path := Join(kept) + [NEWLINE]];
        calls := calls[id := w.(phase := Settled(Completed))];
      }
    }

    /** A file operation that fails halfway: `left` units of its text get into the file. */
    method BreakOff(id: nat, left: nat)
      requires id < |calls| && (calls[id].phase.Appending? || calls[id].phase.Rewriting?)
      modifies this
      ensures Current() == Apply(old(Current()), Tear(id, left))
    {
      var w := calls[id];
      if w.phase.Appending? {
        var part := Beginning(Print(w.entry) + [NEWLINE], left);
        files := files[w.path := (if w.path in files then files[w.path] else []) + part];
      } else {
        var kept := Newest(VisibleLines(Split(w.phase.content)), w.keep);
        files := files[w.path := Beginning(Join(kept) + [NEWLINE], left)];
      }
      calls := calls[id := w.(phase := Settled(Torn))];
    }
  }
}
