/**
 The heartbeat runner and its active-hours window. Times are integers in milliseconds, as the
 ISO texts compare.
 */
module Heartbeat {
  import opened Common

  // ---------- active hours ----------

  /** The remainder operator of the source language: truncated towards zero. */
  function JsRemainder(a: int, b: int): int
    requires b > 0
  {
    if a >= 0 then a % b else -((-a) % b)
  }

  function NormalizeHour(floored: int): int { JsRemainder(JsRemainder(floored, 24) + 24, 24) }

  predicate WithinWindow(hour: int, start: int, end: int) {
    var s, e := NormalizeHour(start), NormalizeHour(end);
    if s == e then true
    else if s < e then hour >= s && hour < e
    else hour >= s || hour < e
  }

  lemma NormalizeHourIsModular(h: int)
    ensures NormalizeHour(h) == h % 24
  {
    if h < 0 {
      var q, r := (-h) / 24, (-h) % 24;
      assert h == -24 * q - r;
      if r == 0 {
        SameResidue(h, 0, -q);
      } else {
        SameResidue(h, 24 - r, -q - 1);
      }
    }
  }

  /** For every start and end: the window is the modular interval from start to end. */
  lemma WindowIsModularInterval(hour: int, start: int, end: int)
    requires 0 <= hour < 24
    ensures start % 24 != end % 24 ==> (WithinWindow(hour, start, end) <==> (hour - start) % 24 < (end - start) % 24)
    ensures start % 24 == end % 24 ==> WithinWindow(hour, start, end)
  {
    NormalizeHourIsModular(start);
    NormalizeHourIsModular(end);
    var s, e := start % 24, end % 24;
    ModularDifference(hour, start);
    ModularDifference(e, start);
    assert (end - start) % 24 == (e - start) % 24 by {
      assert end == 24 * (end / 24) + e;
      SameResidue(end - start, e - start, end / 24);
    }
  }

  lemma SameResidue(a: int, b: int, q: int)
    requires a == b + 24 * q
    ensures a % 24 == b % 24
  {}

  lemma ModularDifference(h: int, start: int)
    requires 0 <= h < 24
    ensures (h - start) % 24 == if h >= start % 24 then h - start % 24 else h - start % 24 + 24
  {
    var s := start % 24;
    assert start == 24 * (start / 24) + s;
    SameResidue(h - start, h - s, -(start / 24));
  }

  // ---------- the runner ----------

  datatype Config = Config(enabled: bool, cooldownMs: int)

  datatype RepoState = RepoState(lastRunAt: Option<int>, lastActionAt: Option<int>, cooldownUntil: Option<int>)

  /** What the agent runtime does when it is asked to run. */
  datatype Execution = ThrowsError | NotCompleted | CompletedQuiet | CompletedAction

  /** One tick: the clock at its start and end, the hour test, and what an execution would do. */
  datatype Tick = Tick(startedAt: int, finishedAt: int, inActiveHours: bool, execution: Execution)

  predicate Executes(c: Config, s: RepoState, t: Tick) {
    c.enabled && t.inActiveHours && !(s.cooldownUntil.Some? && s.cooldownUntil.value > t.startedAt)
  }

  function After(c: Config, s: RepoState, t: Tick): RepoState {
    if !Executes(c, s, t) then s.(lastRunAt := Some(t.finishedAt))
    else
      match t.execution
      case ThrowsError => s
      case NotCompleted => s.(lastRunAt := Some(t.finishedAt))
      case CompletedQuiet => RepoState(Some(t.finishedAt), s.lastActionAt, None)
      case CompletedAction =>
        RepoState(Some(t.finishedAt), Some(t.finishedAt),
                  if c.cooldownMs > 0 then Some(t.finishedAt + c.cooldownMs) else None)
  }

  class Runner {
    const config: Config
    var state: RepoState
    var executions: nat

    constructor (config: Config)
      ensures this.config == config && state == RepoState(None, None, None) && executions == 0
    {
      this.config := config;
      state := RepoState(None, None, None);
      executions := 0;
    }

    method RunOnce(tick: Tick) returns (completed: bool)
      modifies this
      ensures state == After(config, old(state), tick)
      ensures executions == old(executions) + (if Executes(config, old(state), tick) then 1 else 0)
      ensures completed <==> !(Executes(config, old(state), tick) && tick.execution.ThrowsError?)
    {
      if !config.enabled || !tick.inActiveHours
         || (state.cooldownUntil.Some? && state.cooldownUntil.value > tick.startedAt) {
        state := state.(lastRunAt := Some(tick.finishedAt));
        return true;
      }
      executions := executions + 1;
      if tick.execution.ThrowsError? {
        return false;
      }
      if tick.execution.NotCompleted? {
        state := state.(lastRunAt := Some(tick.finishedAt));
        return true;
      }
      var actionRequired := tick.execution.CompletedAction?;
      var cooldownUntil :=
        if actionRequired && config.cooldownMs > 0 then Some(tick.finishedAt + config.cooldownMs) else None;
      state := RepoState(Some(tick.finishedAt), if actionRequired then Some(tick.finishedAt) else state.lastActionAt,
                         cooldownUntil);
      return true;
    }
  }

  // ---------- runs ----------

  /** Ticks that do not overlap, on a clock that does not go back. */
  ghost predicate InTime(ts: seq<Tick>) {
    && (forall i :: 0 <= i < |ts| ==> ts[i].startedAt <= ts[i].finishedAt)
    && (forall i :: 0 <= i < |ts| - 1 ==> ts[i].finishedAt <= ts[i + 1].startedAt)
  }

  ghost function StateBefore(c: Config, ts: seq<Tick>, n: nat): RepoState
    requires n <= |ts|
  {
    if n == 0 then RepoState(None, None, None) else After(c, StateBefore(c, ts, n - 1), ts[n - 1])
  }

  ghost predicate ExecutesAt(c: Config, ts: seq<Tick>, n: nat)
    requires n < |ts|
  {
    Executes(c, StateBefore(c, ts, n), ts[n])
  }

  ghost predicate ActsAt(c: Config, ts: seq<Tick>, n: nat)
    requires n < |ts|
  {
    ExecutesAt(c, ts, n) && ts[n].execution.CompletedAction?
  }

  lemma {:induction false} ClockRuns(ts: seq<Tick>, i: nat, j: nat)
    requires InTime(ts) && i < j < |ts|
    ensures ts[i].finishedAt <= ts[j].startedAt
  {
    if i + 1 < j {
      ClockRuns(ts, i, j - 1);
    }
  }

  /** After an action, either its cooldown is still set or its end has already been passed by an execution. */
  lemma {:induction false} CooldownStands(c: Config, ts: seq<Tick>, i: nat, n: nat)
    requires InTime(ts) && i < n <= |ts| && ActsAt(c, ts, i) && c.cooldownMs > 0
    ensures var until := StateBefore(c, ts, n).cooldownUntil;
            || (until.Some? && until.value >= ts[i].finishedAt + c.cooldownMs)
            || ts[n - 1].finishedAt >= ts[i].finishedAt + c.cooldownMs
  {
    if n > i + 1 {
      CooldownStands(c, ts, i, n - 1);
      ClockRuns(ts, n - 2, n - 1);
    }
  }

  /** In every run, no execution starts before an earlier action's finish time plus the cooldown. */
  lemma CooldownIsKept(c: Config, ts: seq<Tick>, i: nat, j: nat)
    requires InTime(ts) && i < j < |ts| && ActsAt(c, ts, i) && ExecutesAt(c, ts, j)
    ensures ts[j].startedAt >= ts[i].finishedAt + c.cooldownMs
  {
    ClockRuns(ts, i, j);
    if c.cooldownMs > 0 {
      CooldownStands(c, ts, i, j);
      ClockRuns(ts, j - 1, j);
    }
  }

  /** A cooldown that is set is that of an action of the run. */
  lemma {:induction false} CooldownHasAction(c: Config, ts: seq<Tick>, n: nat) returns (i: nat)
    requires n <= |ts| && StateBefore(c, ts, n).cooldownUntil.Some?
    ensures i < n && ActsAt(c, ts, i)
    ensures StateBefore(c, ts, n).cooldownUntil == Some(ts[i].finishedAt + c.cooldownMs)
  {
    if ActsAt(c, ts, n - 1) {
      i := n - 1;
    } else {
      i := CooldownHasAction(c, ts, n - 1);
    }
  }

  /** In every run, a tick executes exactly when the heartbeat is enabled, the hour is active, and it starts no
      sooner than the cooldown after each earlier action. */
  lemma ExecutesExactly(c: Config, ts: seq<Tick>, n: nat)
    requires InTime(ts) && n < |ts|
    ensures ExecutesAt(c, ts, n)
            <==> && c.enabled && ts[n].inActiveHours
                 && forall i :: 0 <= i < n && ActsAt(c, ts, i) ==> ts[n].startedAt >= ts[i].finishedAt + c.cooldownMs
  {
    if ExecutesAt(c, ts, n) {
      forall i | 0 <= i < n && ActsAt(c, ts, i) ensures ts[n].startedAt >= ts[i].finishedAt + c.cooldownMs {
        CooldownIsKept(c, ts, i, n);
      }
    } else if StateBefore(c, ts, n).cooldownUntil.Some? {
      var i := CooldownHasAction(c, ts, n);
    }
  }

  /** Tick `i` is the last of the first `n` that ended with an action. */
  ghost predicate LastAct(c: Config, ts: seq<Tick>, n: nat, i: int)
    requires n <= |ts|
  {
    0 <= i < n && ActsAt(c, ts, i) && forall j :: i < j < n ==> !ActsAt(c, ts, j)
  }

  ghost predicate CompletesAt(c: Config, ts: seq<Tick>, n: nat)
    requires n < |ts|
  {
    ExecutesAt(c, ts, n) && (ts[n].execution.CompletedQuiet? || ts[n].execution.CompletedAction?)
  }

  /** Tick `i` is the last of the first `n` whose execution was completed. */
  ghost predicate LastCompleted(c: Config, ts: seq<Tick>, n: nat, i: int)
    requires n <= |ts|
  {
    0 <= i < n && CompletesAt(c, ts, i) && forall j :: i < j < n ==> !CompletesAt(c, ts, j)
  }

  /** Only a completed execution changes the cooldown. */
  lemma CooldownStays(c: Config, ts: seq<Tick>, n: nat)
    requires 0 < n <= |ts| && !CompletesAt(c, ts, n - 1)
    ensures StateBefore(c, ts, n).cooldownUntil == StateBefore(c, ts, n - 1).cooldownUntil
  {}

  lemma {:induction false} NoCooldownYet(c: Config, ts: seq<Tick>, n: nat)
    requires n <= |ts| && forall i :: 0 <= i < n ==> !CompletesAt(c, ts, i)
    ensures StateBefore(c, ts, n).cooldownUntil.None?
  {
    if n > 0 {
      NoCooldownYet(c, ts, n - 1);
      CooldownStays(c, ts, n);
    }
  }

  /** The recorded cooldown is that of the last completed execution: none when it was quiet. */
  lemma {:induction false} RecordedCooldown(c: Config, ts: seq<Tick>, n: nat, i: nat)
    requires n <= |ts| && LastCompleted(c, ts, n, i)
    ensures StateBefore(c, ts, n).cooldownUntil
            == if ts[i].execution.CompletedAction? && c.cooldownMs > 0 then Some(ts[i].finishedAt + c.cooldownMs)
               else None
  {
    if i < n - 1 {
      RecordedCooldown(c, ts, n - 1, i);
      CooldownStays(c, ts, n);
    }
  }

  /** Only an action changes the time of the last action. */
  lemma ActionTimeStays(c: Config, ts: seq<Tick>, n: nat)
    requires 0 < n <= |ts| && !ActsAt(c, ts, n - 1)
    ensures StateBefore(c, ts, n).lastActionAt == StateBefore(c, ts, n - 1).lastActionAt
  {}

  lemma {:induction false} NoActionYet(c: Config, ts: seq<Tick>, n: nat)
    requires n <= |ts| && forall i :: 0 <= i < n ==> !ActsAt(c, ts, i)
    ensures StateBefore(c, ts, n).lastActionAt.None?
  {
    if n > 0 {
      NoActionYet(c, ts, n - 1);
      ActionTimeStays(c, ts, n);
    }
  }

  /** The recorded time of the last action is that of the last action of the run. */
  lemma {:induction false} RecordedAction(c: Config, ts: seq<Tick>, n: nat, i: nat)
    requires n <= |ts| && LastAct(c, ts, n, i)
    ensures StateBefore(c, ts, n).lastActionAt == Some(ts[i].finishedAt)
  {
    if i < n - 1 {
      RecordedAction(c, ts, n - 1, i);
      ActionTimeStays(c, ts, n);
    }
  }

  /** Every tick is recorded, except one that executed and threw. */
  lemma RecordedRun(c: Config, ts: seq<Tick>, n: nat)
    requires n < |ts|
    ensures StateBefore(c, ts, n + 1).lastRunAt
            == if ExecutesAt(c, ts, n) && ts[n].execution.ThrowsError? then StateBefore(c, ts, n).lastRunAt
               else Some(ts[n].finishedAt)
  {}

  /** The places of some actions of a run, in order. */
  ghost predicate Actions(c: Config, ts: seq<Tick>, at: seq<nat>) {
    && (forall k :: 0 <= k < |at| ==> at[k] < |ts| && ActsAt(c, ts, at[k]))
    && (forall k :: 0 <= k < |at| - 1 ==> at[k] < at[k + 1])
  }

  /** So k actions span at least k - 1 cooldowns. */
  lemma {:induction false} ActionsAreSpread(c: Config, ts: seq<Tick>, at: seq<nat>)
    requires InTime(ts) && at != [] && Actions(c, ts, at)
    ensures ts[at[|at| - 1]].finishedAt - ts[at[0]].finishedAt >= (|at| - 1) * c.cooldownMs
  {
    if |at| > 1 {
      var n := |at| - 2;
      ActionsAreSpread(c, ts, at[..n + 1]);
      CooldownIsKept(c, ts, at[n], at[n + 1]);
      assert (n + 1) * c.cooldownMs == n * c.cooldownMs + c.cooldownMs;
    }
  }
}
