/**
 Starting the registered channels: `startAll` is all or nothing, `startAllBestEffort` keeps
 what it can. Which connects fail, and in which order they settle, is up to the channels.
 */
module ChannelRegistry {
  import opened Common

  type Kind = string

  datatype BlockedReason = StartFailed | RestartFailed | StatusReported(status: string)

  datatype Health = Health(restartCount: nat, lastError: Option<string>, blockedReason: Option<BlockedReason>)

  datatype Channel = Channel(running: bool, health: Health)

  type Channels = map<Kind, Channel>

  datatype Failure = Failure(kind: Kind, message: string)

  /** The error a channel's connect ends with, if it fails. */
  type Outcomes = Kind -> Option<string>

  /** The channels whose stop throws before it returns a promise. */
  type StopThrows = Kind -> bool

  /** A connect that succeeds, as `markConnected` records it. */
  function Connected(c: Channel): Channel {
    Channel(true, c.health.(lastError := None, blockedReason := None))
  }

  function Blocked(c: Channel, error: Option<string>): Channel {
    c.(health := c.health.(lastError := error, blockedReason := Some(StartFailed)))
  }

  function Stopped(c: Channel): Channel { c.(running := false) }

  /** The channels that are not running, in registration order. */
  function Idle(order: seq<Kind>, chs: Channels): seq<Kind> {
    if order == [] then []
    else (if order[0] in chs && !chs[order[0]].running then [order[0]] else []) + Idle(order[1..], chs)
  }

  /** The attempts in `settled` settle one after the other. */
  function Settle(chs: Channels, settled: seq<Kind>, outcome: Outcomes): Channels
    decreases |settled|
  {
    if settled == [] then chs
    else
      var k := settled[0];
      Settle(if k in chs && outcome(k).None? then chs[k := Connected(chs[k])] else chs, settled[1..], outcome)
  }

  function Succeeded(settled: seq<Kind>, outcome: Outcomes): seq<Kind> {
    if settled == [] then []
    else (if outcome(settled[0]).None? then [settled[0]] else []) + Succeeded(settled[1..], outcome)
  }

  function MarkFailed(chs: Channels, attempts: seq<Kind>, outcome: Outcomes): Channels
    decreases |attempts|
  {
    if attempts == [] then chs
    else
      var k := attempts[0];
      MarkFailed(if k in chs && outcome(k).Some? then chs[k := Blocked(chs[k], outcome(k))] else chs,
                 attempts[1..], outcome)
  }

  function Failures(attempts: seq<Kind>, outcome: Outcomes): seq<Failure> {
    if attempts == [] then []
    else (if outcome(attempts[0]).Some? then [Failure(attempts[0], outcome(attempts[0]).value)] else [])
           + Failures(attempts[1..], outcome)
  }

  /** Stops one after the other; the first stop that throws ends it, for its channel too. */
  function Stop(chs: Channels, started: seq<Kind>, throws: StopThrows): Channels
    decreases |started|
  {
    if started == [] then chs
    else
      var k := started[0];
      if k !in chs || !chs[k].running then Stop(chs, started[1..], throws)
      else if throws(k) then chs
      else Stop(chs[k := Stopped(chs[k])], started[1..], throws)
  }

  /** The channel whose stop throws, if one does. */
  function ThrownBy(chs: Channels, started: seq<Kind>, throws: StopThrows): Option<Kind>
    decreases |started|
  {
    if started == [] then None
    else
      var k := started[0];
      if k !in chs || !chs[k].running then ThrownBy(chs, started[1..], throws)
      else if throws(k) then Some(k)
      else ThrownBy(chs[k := Stopped(chs[k])], started[1..], throws)
  }

  /** The channels once everything `startAll` has set going is over.  A stop that throws makes it reject
      before the stops called earlier have cleared their flags; they clear them later all the same. */
  function AfterStartAll(
    chs: Channels, order: seq<Kind>, outcome: Outcomes, settled: seq<Kind>, throws: StopThrows): Channels
  {
    var attempts := Idle(order, chs);
    var tried := MarkFailed(Settle(chs, settled, outcome), attempts, outcome);
    if Failures(attempts, outcome) == [] then tried else Stop(tried, Succeeded(settled, outcome), throws)
  }

  /** The remembered failed starts, attempt by attempt. */
  function FailedAfter(failed: set<Kind>, attempts: seq<Kind>, outcome: Outcomes): set<Kind>
    decreases |attempts|
  {
    if attempts == [] then failed
    else FailedAfter(if outcome(attempts[0]).None? then failed - {attempts[0]} else failed + {attempts[0]},
                     attempts[1..], outcome)
  }

  class Registry {
    var channels: Channels
    var order: seq<Kind>
    var failedStart: set<Kind>

    method SettleAll(settled: seq<Kind>, outcome: Outcomes) returns (startedKinds: seq<Kind>)
      modifies this`channels
      ensures channels == Settle(old(channels), settled, outcome) && startedKinds == Succeeded(settled, outcome)
    {
      startedKinds := [];
      var i := 0;
      while i < |settled|
        invariant 0 <= i <= |settled|
        invariant Settle(channels, settled[i..], outcome) == Settle(old(channels), settled, outcome)
        invariant startedKinds + Succeeded(settled[i..], outcome) == Succeeded(settled, outcome)
      {
        var kind := settled[i];
        assert settled[i..][0] == kind && settled[i..][1..] == settled[i + 1..];
        if outcome(kind).None? {
          if kind in channels {
            channels := channels[kind := Connected(channels[kind])];
          }
          startedKinds := startedKinds + [kind];
        }
        i := i + 1;
      }
    }

    method CollectFailures(attempts: seq<Kind>, outcome: Outcomes) returns (failures: seq<Failure>)
      modifies this`channels
      ensures channels == MarkFailed(old(channels), attempts, outcome) && failures == Failures(attempts, outcome)
    {
      failures := [];
      var i := 0;
      while i < |attempts|
        invariant 0 <= i <= |attempts|
        invariant Collects(old(channels), channels, failures, attempts, i, outcome)
      {
        var kind := attempts[i];
        CollectsNext(old(channels), channels, failures, attempts, i, outcome);
        if outcome(kind).Some? {
          if kind in channels {
            channels := channels[kind := Blocked(channels[kind], outcome(kind))];
          }
          failures := failures + [Failure(kind, outcome(kind).value)];
        }
        i := i + 1;
      }
    }

    /** Stops what was started; a stop whose promise fails still clears the flag, one that throws does not. */
    method StopStarted(started: seq<Kind>, throws: StopThrows) returns (thrown: Option<Kind>)
      modifies this`channels
      ensures channels == Stop(old(channels), started, throws) && thrown == ThrownBy(old(channels), started, throws)
    {
      var i := 0;
      while i < |started|
        invariant 0 <= i <= |started|
        invariant Stop(channels, started[i..], throws) == Stop(old(channels), started, throws)
        invariant ThrownBy(channels, started[i..], throws) == ThrownBy(old(channels), started, throws)
      {
        var kind := started[i];
        assert started[i..][0] == kind && started[i..][1..] == started[i + 1..];
        if kind in channels && channels[kind].running {
          if throws(kind) {
            return Some(kind);
          }
          channels := channels[kind := Stopped(channels[kind])];
        }
        i := i + 1;
      }
      return None;
    }

    /** `settled` is the order in which the attempts settle.  No failures mean success; otherwise the call
        rejects, with the failures or, when a stop throws, with the error of that stop. */
    method StartAll(outcome: Outcomes, settled: seq<Kind>, throws: StopThrows)
      returns (failures: seq<Failure>, thrown: Option<Kind>)
      modifies this`channels
      ensures channels == AfterStartAll(old(channels), order, outcome, settled, throws)
      ensures failures == Failures(Idle(order, old(channels)), outcome)
      ensures thrown == if failures == [] then None
                        else
                          var tried := Settle(old(channels), settled, outcome);
                          ThrownBy(MarkFailed(tried, Idle(order, old(channels)), outcome),
                                   Succeeded(settled, outcome), throws)
    {
      thrown := None;
      var attempts := Idle(order, channels);
      var startedKinds := SettleAll(settled, outcome);
      failures := CollectFailures(attempts, outcome);
      if failures == [] {
        return;
      }
      thrown := StopStarted(startedKinds, throws);
    }

    method StartAllBestEffort(outcome: Outcomes, settled: seq<Kind>) returns (failed: seq<Failure>)
      modifies this`channels, this`failedStart
      ensures channels == MarkFailed(Settle(old(channels), settled, outcome), Idle(order, old(channels)), outcome)
      ensures failed == Failures(Idle(order, old(channels)), outcome)
      ensures failedStart == FailedAfter(old(failedStart), Idle(order, old(channels)), outcome)
    {
      var attempts := Idle(order, channels);
      var startedKinds := SettleAll(settled, outcome);
      failed := CollectFailures(attempts, outcome);
      failedStart := FailedAfter(failedStart, attempts, outcome);
    }
  }

  /** What is left to do after the first `i` attempts leads to what was to be done. */
  ghost predicate Collects(
    before: Channels, now: Channels, failures: seq<Failure>, attempts: seq<Kind>, i: nat, outcome: Outcomes)
  {
    && i <= |attempts|
    && MarkFailed(now, attempts[i..], outcome) == MarkFailed(before, attempts, outcome)
    && failures + Failures(attempts[i..], outcome) == Failures(attempts, outcome)
  }

  lemma CollectsNext(
    before: Channels, now: Channels, failures: seq<Failure>, attempts: seq<Kind>, i: nat, outcome: Outcomes)
    requires i < |attempts| && Collects(before, now, failures, attempts, i, outcome)
    ensures var k := attempts[i];
            Collects(before, if k in now && outcome(k).Some? then now[k := Blocked(now[k], outcome(k))] else now,
                     if outcome(k).Some? then failures + [Failure(k, outcome(k).value)] else failures,
                     attempts, i + 1, outcome)
  {
    var k, rest := attempts[i], attempts[i..];
    assert rest[0] == k && rest[1..] == attempts[i + 1..];
    if outcome(k).Some? {
      Regroup(failures, [Failure(k, outcome(k).value)], Failures(attempts[i + 1..], outcome));
    } else {
      assert Failures(rest, outcome) == [] + Failures(attempts[i + 1..], outcome);
    }
  }

  // ---------- what it means channel by channel ----------

  lemma {:induction false} IdleMeans(order: seq<Kind>, chs: Channels, k: Kind)
    ensures k in Idle(order, chs) <==> k in order && k in chs && !chs[k].running
  {
    if order != [] {
      IdleMeans(order[1..], chs, k);
    }
  }

  lemma {:induction false} SettleAt(chs: Channels, settled: seq<Kind>, outcome: Outcomes, k: Kind)
    ensures k in Settle(chs, settled, outcome) <==> k in chs
    ensures k in chs ==> Settle(chs, settled, outcome)[k]
                         == if k in settled && outcome(k).None? then Connected(chs[k]) else chs[k]
    decreases |settled|
  {
    if settled != [] {
      var j := settled[0];
      SettleAt(if j in chs && outcome(j).None? then chs[j := Connected(chs[j])] else chs, settled[1..], outcome, k);
    }
  }

  lemma {:induction false} MarkFailedAt(chs: Channels, attempts: seq<Kind>, outcome: Outcomes, k: Kind)
    ensures k in MarkFailed(chs, attempts, outcome) <==> k in chs
    ensures k in chs ==> MarkFailed(chs, attempts, outcome)[k]
                         == if k in attempts && outcome(k).Some? then Blocked(chs[k], outcome(k)) else chs[k]
    decreases |attempts|
  {
    if attempts != [] {
      var j := attempts[0];
      MarkFailedAt(if j in chs && outcome(j).Some? then chs[j := Blocked(chs[j], outcome(j))] else chs,
                   attempts[1..], outcome, k);
    }
  }

  lemma {:induction false} StopAt(chs: Channels, started: seq<Kind>, throws: StopThrows, k: Kind)
    ensures k in Stop(chs, started, throws) <==> k in chs
    ensures k in chs ==> Stop(chs, started, throws)[k] == chs[k]
                         || (k in started && Stop(chs, started, throws)[k] == Stopped(chs[k]))
    ensures k in chs && k in started && (forall j :: j in started ==> !throws(j)) ==>
              Stop(chs, started, throws)[k] == Stopped(chs[k])
    decreases |started|
  {
    if started != [] {
      var j := started[0];
      if j !in chs || !chs[j].running {
        StopAt(chs, started[1..], throws, k);
      } else if !throws(j) {
        StopAt(chs[j := Stopped(chs[j])], started[1..], throws, k);
      }
    }
  }

  /** A stop that throws leaves a channel running. */
  lemma {:induction false} ThrownStopLeavesOne(chs: Channels, started: seq<Kind>, throws: StopThrows) returns (k: Kind)
    requires forall i :: 0 <= i < |started| ==> started[i] in chs && chs[started[i]].running
    requires forall i, j :: 0 <= i < j < |started| ==> started[i] != started[j]
    requires exists i :: 0 <= i < |started| && throws(started[i])
    ensures k in started && k in Stop(chs, started, throws) && Stop(chs, started, throws)[k].running
    decreases |started|
  {
    k := started[0];
    if !throws(k) {
      var i :| 0 <= i < |started| && throws(started[i]);
      assert started[1..][i - 1] == started[i];
      k := ThrownStopLeavesOne(chs[k := Stopped(chs[k])], started[1..], throws);
    }
  }

  lemma {:induction false} SucceededMeans(settled: seq<Kind>, outcome: Outcomes, k: Kind)
    ensures k in Succeeded(settled, outcome) <==> k in settled && outcome(k).None?
  {
    if settled != [] {
      SucceededMeans(settled[1..], outcome, k);
    }
  }

  lemma {:induction false} FailuresMeans(attempts: seq<Kind>, outcome: Outcomes)
    ensures Failures(attempts, outcome) == [] <==> forall k :: k in attempts ==> outcome(k).None?
    ensures forall f :: f in Failures(attempts, outcome) <==> f.kind in attempts && outcome(f.kind) == Some(f.message)
  {
    if attempts != [] {
      FailuresMeans(attempts[1..], outcome);
      assert attempts[0] in attempts && forall k :: k in attempts <==> k == attempts[0] || k in attempts[1..];
    }
  }

  /** The failures reported: those of the channels that were not running, in registration order. */
  lemma {:induction false} FailuresInOrder(first: seq<Kind>, rest: seq<Kind>, chs: Channels, outcome: Outcomes)
    ensures Failures(Idle(first + rest, chs), outcome)
            == Failures(Idle(first, chs), outcome) + Failures(Idle(rest, chs), outcome)
  {
    if first == [] {
      assert first + rest == rest;
    } else {
      var k := first[0];
      assert (first + rest)[0] == k && (first + rest)[1..] == first[1..] + rest;
      FailuresInOrder(first[1..], rest, chs, outcome);
      FailuresCons(first, chs, outcome);
      FailuresCons(first + rest, chs, outcome);
      Regroup(if k in chs && !chs[k].running && outcome(k).Some? then [Failure(k, outcome(k).value)] else [],
              Failures(Idle(first[1..], chs), outcome), Failures(Idle(rest, chs), outcome));
    }
  }

  lemma FailureOfOne(k: Kind, chs: Channels, outcome: Outcomes)
    ensures Failures(Idle([k], chs), outcome)
            == if k in chs && !chs[k].running && outcome(k).Some? then [Failure(k, outcome(k).value)] else []
  {
    FailuresCons([k], chs, outcome);
    assert [k][1..] == [];
  }

  lemma FailuresCons(order: seq<Kind>, chs: Channels, outcome: Outcomes)
    requires order != []
    ensures var k := order[0];
            Failures(Idle(order, chs), outcome)
            == (if k in chs && !chs[k].running && outcome(k).Some? then [Failure(k, outcome(k).value)] else [])
               + Failures(Idle(order[1..], chs), outcome)
  {
    var k, rest := order[0], Idle(order[1..], chs);
    if k in chs && !chs[k].running {
      assert ([k] + rest)[1..] == rest;
    } else {
      assert [] + rest == rest;
    }
  }

  /** The stop that throws is the first of the started channels whose stop does. */
  lemma {:induction false} ThrownMeans(chs: Channels, started: seq<Kind>, throws: StopThrows)
    requires forall i :: 0 <= i < |started| ==> started[i] in chs && chs[started[i]].running
    requires forall i, j :: 0 <= i < j < |started| ==> started[i] != started[j]
    ensures var thrown := ThrownBy(chs, started, throws);
            && (thrown.None? <==> forall i :: 0 <= i < |started| ==> !throws(started[i]))
            && (thrown.Some? ==> exists i :: 0 <= i < |started| && thrown == Some(started[i]) && throws(started[i])
                                             && forall j :: 0 <= j < i ==> !throws(started[j]))
    decreases |started|
  {
    if started != [] && !throws(started[0]) {
      var k, rest := started[0], started[1..];
      assert forall i :: 1 <= i < |started| ==> started[i] == rest[i - 1];
      var thrown := ThrownBy(chs[k := Stopped(chs[k])], rest, throws);
      ThrownMeans(chs[k := Stopped(chs[k])], rest, throws);
      if thrown.Some? {
        var i :| 0 <= i < |rest| && thrown == Some(rest[i]) && throws(rest[i])
          && forall j :: 0 <= j < i ==> !throws(rest[j]);
        assert started[i + 1] == rest[i];
      }
    }
  }

  /** The settling order is some order of the attempts, and all channels are in the registration order. */
  ghost predicate IsSettling(chs: Channels, order: seq<Kind>, settled: seq<Kind>) {
    && (forall k :: k in chs <==> k in order)
    && multiset(settled) == multiset(Idle(order, chs))
  }

  lemma SettledMeans(chs: Channels, order: seq<Kind>, settled: seq<Kind>, k: Kind)
    requires IsSettling(chs, order, settled)
    ensures k in settled <==> k in chs && !chs[k].running
  {
    IdleMeans(order, chs, k);
    assert k in settled <==> k in multiset(settled);
    assert k in Idle(order, chs) <==> k in multiset(Idle(order, chs));
  }

  /** No stop that the call may need throws. */
  ghost predicate StopsKeepPromises(outcome: Outcomes, settled: seq<Kind>, throws: StopThrows) {
    forall k :: k in settled && outcome(k).None? ==> !throws(k)
  }

  /** For any set of channels, any choice of failing connects and any settling order: if no connect fails
      every channel runs; every failed one is marked with its error; channels that ran before are left
      alone; and if some connect fails and no stop throws, exactly the channels run that ran before. */
  lemma StartAllIsAllOrNothing(
    chs: Channels, order: seq<Kind>, outcome: Outcomes, settled: seq<Kind>, throws: StopThrows, k: Kind)
    requires IsSettling(chs, order, settled) && k in chs
    ensures var after := AfterStartAll(chs, order, outcome, settled, throws);
            var failures := Failures(Idle(order, chs), outcome);
            && k in after
            && (failures == [] ==> after[k].running)
            && (failures != [] && StopsKeepPromises(outcome, settled, throws) ==> after[k].running == chs[k].running)
            && (chs[k].running ==> after[k] == chs[k])
            && after[k].health.restartCount == chs[k].health.restartCount
            && (!chs[k].running && outcome(k).Some? ==>
                && Failure(k, outcome(k).value) in failures
                && after[k].health.blockedReason == Some(StartFailed) && after[k].health.lastError == outcome(k))
            && (!chs[k].running && outcome(k).None? ==>
                after[k].health.blockedReason.None? && after[k].health.lastError.None?)
  {
    var attempts := Idle(order, chs);
    var s := Settle(chs, settled, outcome);
    var m := MarkFailed(s, attempts, outcome);
    SettledMeans(chs, order, settled, k);
    IdleMeans(order, chs, k);
    SettleAt(chs, settled, outcome, k);
    MarkFailedAt(s, attempts, outcome, k);
    StopAt(m, Succeeded(settled, outcome), throws, k);
    SucceededMeans(settled, outcome, k);
    FailuresMeans(attempts, outcome);
    forall j | j in Succeeded(settled, outcome) && StopsKeepPromises(outcome, settled, throws) ensures !throws(j) {
      SucceededMeans(settled, outcome, j);
    }
  }

  /** Every channel runs, or exactly those that ran before. */
  ghost predicate AllOrNothing(before: Channels, after: Channels) {
    && before.Keys == after.Keys
    && (|| (forall k :: k in after ==> after[k].running)
        || (forall k :: k in after ==> after[k].running == before[k].running))
  }

  lemma {:induction false} SucceededDistinct(settled: seq<Kind>, outcome: Outcomes)
    requires forall i, j :: 0 <= i < j < |settled| ==> settled[i] != settled[j]
    ensures var r := Succeeded(settled, outcome);
            forall i, j :: 0 <= i < j < |r| ==> r[i] != r[j]
  {
    if settled != [] {
      SucceededDistinct(settled[1..], outcome);
      SucceededMeans(settled[1..], outcome, settled[0]);
      assert settled[0] !in settled[1..];
    }
  }

  lemma ThrownStopBreaksIt(
    chs: Channels, order: seq<Kind>, outcome: Outcomes, settled: seq<Kind>, throws: StopThrows, bad: Kind)
    requires IsSettling(chs, order, settled) && forall i, j :: 0 <= i < j < |settled| ==> settled[i] != settled[j]
    requires bad in settled && outcome(bad).None? && throws(bad)
    requires Failures(Idle(order, chs), outcome) != []
    ensures !AllOrNothing(chs, AfterStartAll(chs, order, outcome, settled, throws))
  {
    var attempts := Idle(order, chs);
    var s := Settle(chs, settled, outcome);
    var m := MarkFailed(s, attempts, outcome);
    var started := Succeeded(settled, outcome);
    var after := Stop(m, started, throws);
    forall i | 0 <= i < |started| ensures started[i] in m && m[started[i]].running {
      StartedRuns(chs, order, outcome, settled, started[i]);
    }
    SucceededDistinct(settled, outcome);
    SucceededMeans(settled, outcome, bad);
    var k := ThrownStopLeavesOne(m, started, throws);
    StartedRuns(chs, order, outcome, settled, k);
    var failed := FailedStaysDown(chs, order, outcome, settled, throws);
    assert after[k].running && !chs[k].running && !after[failed].running;
  }

  lemma StartedRuns(chs: Channels, order: seq<Kind>, outcome: Outcomes, settled: seq<Kind>, k: Kind)
    requires IsSettling(chs, order, settled) && k in Succeeded(settled, outcome)
    ensures k in chs && !chs[k].running
    ensures var m := MarkFailed(Settle(chs, settled, outcome), Idle(order, chs), outcome);
            k in m && m[k].running
  {
    SucceededMeans(settled, outcome, k);
    SettledMeans(chs, order, settled, k);
    SettleAt(chs, settled, outcome, k);
    MarkFailedAt(Settle(chs, settled, outcome), Idle(order, chs), outcome, k);
  }

  lemma FailedStaysDown(chs: Channels, order: seq<Kind>, outcome: Outcomes, settled: seq<Kind>, throws: StopThrows)
    returns (k: Kind)
    requires IsSettling(chs, order, settled) && Failures(Idle(order, chs), outcome) != []
    ensures var after := AfterStartAll(chs, order, outcome, settled, throws);
            k in after && !after[k].running
  {
    var attempts := Idle(order, chs);
    var s := Settle(chs, settled, outcome);
    FailuresMeans(attempts, outcome);
    k :| k in attempts && outcome(k).Some?;
    IdleMeans(order, chs, k);
    SettleAt(chs, settled, outcome, k);
    MarkFailedAt(s, attempts, outcome, k);
    StopAt(MarkFailed(s, attempts, outcome), Succeeded(settled, outcome), throws, k);
  }

  lemma SameChannels(
    chs: Channels, order: seq<Kind>, outcome: Outcomes, settled: seq<Kind>, throws: StopThrows, k: Kind)
    ensures k in AfterStartAll(chs, order, outcome, settled, throws) <==> k in chs
  {
    var s := Settle(chs, settled, outcome);
    SettleAt(chs, settled, outcome, k);
    MarkFailedAt(s, Idle(order, chs), outcome, k);
    StopAt(MarkFailed(s, Idle(order, chs), outcome), Succeeded(settled, outcome), throws, k);
  }

  lemma NoFailureMeans(chs: Channels, order: seq<Kind>, outcome: Outcomes, settled: seq<Kind>)
    requires IsSettling(chs, order, settled)
    ensures Failures(Idle(order, chs), outcome) == [] <==> forall k :: k in settled ==> outcome(k).None?
  {
    forall k ensures k in settled <==> k in Idle(order, chs) {
      SettledMeans(chs, order, settled, k);
      IdleMeans(order, chs, k);
    }
    FailuresMeans(Idle(order, chs), outcome);
  }

  lemma NothingThrownKeepsIt(
    chs: Channels, order: seq<Kind>, outcome: Outcomes, settled: seq<Kind>, throws: StopThrows)
    requires IsSettling(chs, order, settled)
    requires StopsKeepPromises(outcome, settled, throws) || Failures(Idle(order, chs), outcome) == []
    ensures AllOrNothing(chs, AfterStartAll(chs, order, outcome, settled, throws))
  {
    var after := AfterStartAll(chs, order, outcome, settled, throws);
    forall k ensures k in after <==> k in chs {
      SameChannels(chs, order, outcome, settled, throws, k);
    }
    forall k | k in chs
      ensures if Failures(Idle(order, chs), outcome) == [] then after[k].running else after[k].running == chs[k].running
    {
      StartAllIsAllOrNothing(chs, order, outcome, settled, throws, k);
    }
  }

  /** `startAll` is all or nothing exactly when no connect fails or no stop of a started channel throws. */
  lemma AllOrNothingExactly(chs: Channels, order: seq<Kind>, outcome: Outcomes, settled: seq<Kind>, throws: StopThrows)
    requires IsSettling(chs, order, settled) && forall i, j :: 0 <= i < j < |settled| ==> settled[i] != settled[j]
    ensures AllOrNothing(chs, AfterStartAll(chs, order, outcome, settled, throws))
            <==> (forall k :: k in settled ==> outcome(k).None?) || StopsKeepPromises(outcome, settled, throws)
  {
    NoFailureMeans(chs, order, outcome, settled);
    if StopsKeepPromises(outcome, settled, throws) || Failures(Idle(order, chs), outcome) == [] {
      NothingThrownKeepsIt(chs, order, outcome, settled, throws);
    } else {
      var bad :| bad in settled && outcome(bad).None? && throws(bad);
      ThrownStopBreaksIt(chs, order, outcome, settled, throws, bad);
    }
  }

  /** Two idle channels, of which the second fails to connect and the stop of the first throws: the first
      runs afterwards and the second does not. */
  lemma ThrownStopExample(idle: Channel, error: string)
    requires !idle.running
    ensures var chs := map["a" := idle, "b" := idle];
            var outcome := (k: Kind) => if k == "b" then Some(error) else None;
            && IsSettling(chs, ["a", "b"], ["a", "b"])
            && !AllOrNothing(chs, AfterStartAll(chs, ["a", "b"], outcome, ["a", "b"], k => k == "a"))
  {
    var chs := map["a" := idle, "b" := idle];
    var outcome := (k: Kind) => if k == "b" then Some(error) else None;
    IdleOfTwo(chs, "a", "b");
    AllOrNothingExactly(chs, ["a", "b"], outcome, ["a", "b"], k => k == "a");
    assert "b" in ["a", "b"] && "a" in ["a", "b"];
  }

  lemma IdleOfTwo(chs: Channels, a: Kind, b: Kind)
    requires a in chs && b in chs && !chs[a].running && !chs[b].running
    ensures Idle([a, b], chs) == [a, b]
  {
    assert [a, b][1..] == [b] && [b][1..] == [];
    assert Idle([b], chs) == [b] + Idle([], chs);
  }

  lemma {:induction false} FailedAfterMeans(failed: set<Kind>, attempts: seq<Kind>, outcome: Outcomes, k: Kind)
    ensures k in FailedAfter(failed, attempts, outcome) <==> if k in attempts then outcome(k).Some? else k in failed
    decreases |attempts|
  {
    if attempts != [] {
      FailedAfterMeans(if outcome(attempts[0]).None? then failed - {attempts[0]} else failed + {attempts[0]},
                       attempts[1..], outcome, k);
    }
  }

  /** Best effort: a channel that ran is left alone; another runs iff its own connect succeeded, and carries
      its own error otherwise. */
  lemma BestEffortIsIndependent(chs: Channels, order: seq<Kind>, outcome: Outcomes, settled: seq<Kind>, k: Kind)
    requires IsSettling(chs, order, settled) && k in chs
    ensures var after := MarkFailed(Settle(chs, settled, outcome), Idle(order, chs), outcome);
            && k in after
            && after[k] == if chs[k].running then chs[k]
                           else
                             Channel(outcome(k).None?,
                                     Health(chs[k].health.restartCount, outcome(k),
                                            if outcome(k).None? then None else Some(StartFailed)))
    ensures forall failed :: k in FailedAfter(failed, Idle(order, chs), outcome)
                             <==> if chs[k].running then k in failed else outcome(k).Some?
  {
    var s := Settle(chs, settled, outcome);
    forall failed ensures k in FailedAfter(failed, Idle(order, chs), outcome)
                          <==> if chs[k].running then k in failed else outcome(k).Some? {
      IdleMeans(order, chs, k);
      FailedAfterMeans(failed, Idle(order, chs), outcome, k);
    }
    SettledMeans(chs, order, settled, k);
    IdleMeans(order, chs, k);
    SettleAt(chs, settled, outcome, k);
    MarkFailedAt(s, Idle(order, chs), outcome, k);
  }
}
