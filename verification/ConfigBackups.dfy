/**
 Configuration writes: the backups are shifted by renames, then the new text replaces the
 configuration by a temporary file and a rename. `states` records the file system after
 every single effect, the places where a crash could leave it.
 */
module ConfigBackups {
  import opened Common

  type Files = map<string, string>

  /** The places of a backup chain by number. */
  type Places = nat -> string

  /** Place `k`: the configuration, `.bak`, `.bak.1`, `.bak.2`, ... */
  function Place(config: string, k: nat): string {
    if k == 0 then config else if k == 1 then config + ".bak" else config + ".bak." + Decimal(k - 1)
  }

  function PlacesOf(config: string): Places { (k: nat) => Place(config, k) }

  ghost predicate Distinct(at: Places) { forall j: nat, k: nat :: at(j) == at(k) ==> j == k }

  /** Different numbers name different files. */
  lemma PlacesAreDistinct(config: string)
    ensures Distinct(PlacesOf(config))
  {
    forall j: nat, k: nat | Place(config, j) == Place(config, k) ensures j == k {
      PlaceInjective(config, j, k);
    }
  }

  lemma PlaceInjective(config: string, j: nat, k: nat)
    requires Place(config, j) == Place(config, k)
    ensures j == k
  {
    var n := |config|;
    var s, t := Place(config, j)[n..], Place(config, k)[n..];
    assert s == (if j == 0 then "" else if j == 1 then ".bak" else ".bak." + Decimal(j - 1));
    assert t == (if k == 0 then "" else if k == 1 then ".bak" else ".bak." + Decimal(k - 1));
    if j >= 2 && k >= 2 {
      assert s[5..] == Decimal(j - 1) && t[5..] == Decimal(k - 1);
      DecimalInjective(j - 1, k - 1);
    }
  }

  function Get(files: Files, path: string): Option<string> {
    if path in files then Some(files[path]) else None
  }

  /** What place `k` holds. */
  function Held(files: Files, at: Places, k: nat): Option<string> { Get(files, at(k)) }

  /** A rename whose missing source is ignored. */
  function Rename(files: Files, from: string, to: string): Files {
    if from in files then (files - {from})[to := files[from]] else files
  }

  ghost predicate IsPlace(at: Places, n: nat, path: string) { exists k: nat :: k <= n && path == at(k) }

  /** Half-way through a rotation: places up to `j` are untouched, `j + 1` is empty, the places above hold
      what was one place below them. */
  ghost predicate HalfShifted(before: Files, after: Files, at: Places, n: nat, j: nat) {
    && (forall k: nat {:trigger Held(after, at, k)} :: k <= j ==> Held(after, at, k) == Held(before, at, k))
    && Held(after, at, j + 1).None?
    && (forall k: nat {:trigger Held(after, at, k)} ::
          j + 2 <= k <= n ==> Held(after, at, k) == Held(before, at, k - 1))
    && (forall path :: !IsPlace(at, n, path) ==> Get(after, path) == Get(before, path))
  }

  /** A complete rotation: every place moved up by one, the configuration copied. */
  ghost predicate Shifted(before: Files, after: Files, at: Places, n: nat) {
    && Held(after, at, 0) == Held(before, at, 0)
    && (forall k: nat {:trigger Held(after, at, k)} :: 1 <= k <= n ==> Held(after, at, k) == Held(before, at, k - 1))
    && (forall path :: !IsPlace(at, n, path) ==> Get(after, path) == Get(before, path))
  }

  /** What place `k` held is still in some place. */
  ghost predicate Survives(before: Files, after: Files, at: Places, n: nat, k: nat) {
    exists i: nat :: i <= n && Held(after, at, i) == Held(before, at, k)
  }

  /** Nothing but the oldest backup is gone, and the configuration is as it was. */
  ghost predicate Retains(before: Files, after: Files, at: Places, n: nat) {
    && Held(after, at, 0) == Held(before, at, 0)
    && forall k: nat {:trigger Survives(before, after, at, n, k)} ::
         k < n && Held(before, at, k).Some? ==> Survives(before, after, at, n, k)
  }

  ghost predicate AllRetain(before: Files, states: seq<Files>, at: Places, n: nat) {
    forall i :: 0 <= i < |states| ==> Retains(before, states[i], at, n)
  }

  lemma AlsoRetains(before: Files, states: seq<Files>, next: Files, at: Places, n: nat) returns (all: seq<Files>)
    requires AllRetain(before, states, at, n) && Retains(before, next, at, n)
    ensures all == states + [next] && AllRetain(before, all, at, n)
  {
    all := states + [next];
  }

  lemma UnlinkShifts(before: Files, at: Places, n: nat)
    requires Distinct(at) && n >= 1
    ensures HalfShifted(before, before - {at(n)}, at, n, n - 1)
  {
    assert IsPlace(at, n, at(n));
  }

  lemma RenameShifts(before: Files, after: Files, at: Places, n: nat, j: nat)
    requires Distinct(at) && 1 <= j < n && HalfShifted(before, after, at, n, j)
    ensures HalfShifted(before, Rename(after, at(j), at(j + 1)), at, n, j - 1)
  {
    var next := Rename(after, at(j), at(j + 1));
    assert IsPlace(at, n, at(j)) && IsPlace(at, n, at(j + 1));
    assert Held(after, at, j) == Held(before, at, j);
    forall k: nat | k <= n ensures Held(next, at, k)
        == if k == j then None else if k == j + 1 then Held(before, at, j) else Held(after, at, k) {
      assert at(k) == at(j) ==> k == j;
      assert at(k) == at(j + 1) ==> k == j + 1;
    }
  }

  lemma CopyShifts(before: Files, after: Files, at: Places, n: nat)
    requires Distinct(at) && n >= 1 && HalfShifted(before, after, at, n, 0) && at(0) in before
    ensures at(0) in after && Shifted(before, after[at(1) := after[at(0)]], at, n)
  {
    assert Held(after, at, 0) == Held(before, at, 0);
    var next := after[at(1) := after[at(0)]];
    assert IsPlace(at, n, at(1));
    forall k: nat | k <= n && k != 1 ensures Held(next, at, k) == Held(after, at, k) {
      assert at(k) == at(1) ==> k == 1;
    }
  }

  lemma HalfShiftedRetains(before: Files, after: Files, at: Places, n: nat, j: nat)
    requires j < n && HalfShifted(before, after, at, n, j)
    ensures Retains(before, after, at, n)
  {
    forall k: nat | k < n && Held(before, at, k).Some?
      ensures Survives(before, after, at, n, k)
    {
      var i := if k <= j then k else k + 1;
      assert Held(after, at, i) == Held(before, at, k);
    }
  }

  lemma ShiftedRetains(before: Files, after: Files, at: Places, n: nat)
    requires Shifted(before, after, at, n)
    ensures Retains(before, after, at, n)
  {
    forall k: nat | k < n && Held(before, at, k).Some?
      ensures Survives(before, after, at, n, k)
    {
      assert Held(after, at, k + 1) == Held(before, at, (k + 1) - 1);
    }
  }

  /** The effect of one write on the places and on every other path. */
  ghost predicate Written(before: Files, after: Files, at: Places, tmp: string, content: string, n: int) {
    && Held(after, at, 0) == Some(content)
    && (n > 1 ==> forall k: nat {:trigger Held(after, at, k)} :: 1 <= k <= n ==>
          Held(after, at, k) == Held(before, at, if at(0) in before then k - 1 else k))
    && (forall path :: path != tmp && path != at(0) && (n > 1 ==> !IsPlace(at, n, path)) ==>
          Get(after, path) == Get(before, path))
    && tmp !in after
  }

  /** Temporary names end with `.tmp`. */
  predicate IsTmp(path: string) { |path| >= 4 && path[|path| - 4..] == ".tmp" }

  lemma TmpIsNoPlace(config: string, tmp: string, n: nat)
    requires tmp != config && IsTmp(tmp)
    ensures !IsPlace(PlacesOf(config), n, tmp)
  {
    assert tmp[|tmp| - 1] == tmp[|tmp| - 4..][3] == 'p';
    forall k: nat | k <= n ensures Place(config, k) != tmp {
      var place := Place(config, k);
      assert k == 1 ==> place[|place| - 1] == 'k';
      assert k >= 2 ==> place[|place| - 1] == Decimal(k - 1)[|Decimal(k - 1)| - 1];
    }
  }

  lemma TmpIsElsewhere(rotated: Files, at: Places, tmp: string, content: string, n: nat, k: nat)
    requires !IsPlace(at, n, tmp) && k <= n
    ensures Held(rotated[tmp := content], at, k) == Held(rotated, at, k)
  {
    assert at(k) != tmp;
  }

  lemma TmpRetains(before: Files, rotated: Files, at: Places, tmp: string, content: string, n: nat)
    requires n > 1 && !IsPlace(at, n, tmp) && Retains(before, rotated, at, n)
    ensures Retains(before, rotated[tmp := content], at, n)
  {
    var next := rotated[tmp := content];
    TmpIsElsewhere(rotated, at, tmp, content, n, 0);
    forall k: nat | k < n && Held(before, at, k).Some?
      ensures Survives(before, next, at, n, k)
    {
      assert Survives(before, rotated, at, n, k);
      var i: nat :| i <= n && Held(rotated, at, i) == Held(before, at, k);
      TmpIsElsewhere(rotated, at, tmp, content, n, i);
    }
  }

  lemma WrittenAfterRename(before: Files, rotated: Files, at: Places, tmp: string, content: string, n: int)
    requires Distinct(at) && tmp != at(0) && (n > 1 ==> !IsPlace(at, n, tmp))
    requires n > 1 && at(0) in before ==> Shifted(before, rotated, at, n)
    requires n <= 1 || at(0) !in before ==> rotated == before
    ensures Written(before, Rename(rotated[tmp := content], tmp, at(0)), at, tmp, content, n)
  {
    var after := Rename(rotated[tmp := content], tmp, at(0));
    if n > 1 {
      assert IsPlace(at, n, at(0));
      forall k: nat | 1 <= k <= n ensures Held(after, at, k) == Held(rotated, at, k) {
        assert IsPlace(at, n, at(k));
        assert at(k) == at(0) ==> k == 0;
      }
    }
  }

  class ConfigStore {
    var files: Files
    ghost var states: seq<Files>

    method RenameStep(from: string, to: string)
      modifies this
      ensures files == Rename(old(files), from, to) && states == old(states) + [files]
    {
      if from in files {
        files := (files - {from})[to := files[from]];
      }
      states := states + [files];
    }

    method UnlinkOldest(at: Places, n: nat)
      requires Distinct(at) && n >= 1
      modifies this
      ensures HalfShifted(old(files), files, at, n, n - 1) && Retains(old(files), files, at, n)
      ensures states == old(states) + [files]
    {
      UnlinkShifts(files, at, n);
      files := files - {at(n)};
      states := states + [files];
      HalfShiftedRetains(old(files), files, at, n, n - 1);
    }

    method RenameUp(at: Places, j: nat, n: nat, ghost before: Files)
      requires Distinct(at) && 1 <= j < n && HalfShifted(before, files, at, n, j)
      modifies this
      ensures HalfShifted(before, files, at, n, j - 1) && Retains(before, files, at, n)
      ensures states == old(states) + [files]
    {
      RenameShifts(before, files, at, n, j);
      RenameStep(at(j), at(j + 1));
      HalfShiftedRetains(before, files, at, n, j - 1);
    }

    method CopyToBackup(at: Places, n: nat, ghost before: Files)
      requires Distinct(at) && n >= 1 && HalfShifted(before, files, at, n, 0) && at(0) in before
      modifies this
      ensures Shifted(before, files, at, n) && Retains(before, files, at, n)
      ensures states == old(states) + [files]
    {
      CopyShifts(before, files, at, n);
      files := files[at(1) := files[at(0)]];
      states := states + [files];
      ShiftedRetains(before, files, at, n);
    }

    /** Shifts the backups; with a missing configuration or fewer than two backups nothing happens. */
    method RotateBackups(at: Places, maxBackups: int)
      requires Distinct(at)
      modifies this
      ensures maxBackups <= 1 || at(0) !in old(files) ==> files == old(files) && states == old(states)
      ensures maxBackups > 1 && at(0) in old(files) ==> Shifted(old(files), files, at, maxBackups)
      ensures old(states) <= states
      ensures maxBackups > 1 ==> AllRetain(old(files), states[|old(states)|..], at, maxBackups)
    {
      if maxBackups <= 1 {
        return;
      }
      if at(0) !in files {
        return;
      }
      ghost var before := files;
      UnlinkOldest(at, maxBackups);
      ghost var added := AlsoRetains(before, [], files, at, maxBackups);
      var i := maxBackups - 2;
      while i >= 1
        invariant 0 <= i <= maxBackups - 2
        invariant HalfShifted(before, files, at, maxBackups, i + 1)
        invariant states == old(states) + added
        invariant AllRetain(before, added, at, maxBackups)
      {
        RenameUp(at, i + 1, maxBackups, before);
        added := AlsoRetains(before, added, files, at, maxBackups);
        i := i - 1;
      }
      RenameUp(at, 1, maxBackups, before);
      added := AlsoRetains(before, added, files, at, maxBackups);
      CopyToBackup(at, maxBackups, before);
      added := AlsoRetains(before, added, files, at, maxBackups);
      assert states[|old(states)|..] == added;
    }

    /** Rotates, writes the temporary file and renames it over the configuration. In every state in between
        the configuration is the old one, complete, and only the oldest backup may be gone. */
    method WriteConfig(config: string, tmp: string, content: string, backupCount: int)
      requires tmp != config && IsTmp(tmp)
      modifies this
      ensures Written(old(files), files, PlacesOf(config), tmp, content, backupCount)
      ensures |states| > |old(states)| && old(states) <= states && states[|states| - 1] == files
      ensures var between := states[|old(states)|..|states| - 1];
              && (forall i :: 0 <= i < |between| ==> Get(between[i], config) == Get(old(files), config))
              && (backupCount > 1 ==> AllRetain(old(files), between, PlacesOf(config), backupCount))
    {
      PlacesAreDistinct(config);
      if backupCount > 1 {
        TmpIsNoPlace(config, tmp, backupCount);
      }
      assert PlacesOf(config)(0) == config;
      WriteAt(PlacesOf(config), tmp, content, backupCount);
    }

    method WriteAt(at: Places, tmp: string, content: string, backupCount: int)
      requires Distinct(at) && tmp != at(0) && (backupCount > 1 ==> !IsPlace(at, backupCount, tmp))
      modifies this
      ensures Written(old(files), files, at, tmp, content, backupCount)
      ensures |states| > |old(states)| && old(states) <= states && states[|states| - 1] == files
      ensures var between := states[|old(states)|..|states| - 1];
              && (forall i :: 0 <= i < |between| ==> Get(between[i], at(0)) == Get(old(files), at(0)))
              && (backupCount > 1 ==> AllRetain(old(files), between, at, backupCount))
    {
      ghost var before, start := files, |states|;
      RotateBackups(at, backupCount);
      ghost var rotated := files;
      assert backupCount > 1 ==> Retains(before, rotated, at, backupCount) by {
        if backupCount > 1 && at(0) in before {
          ShiftedRetains(before, rotated, at, backupCount);
        }
      }
      assert forall i :: start <= i < |states| && backupCount > 1 ==> Retains(before, states[i], at, backupCount) by {
        assert forall i :: start <= i < |states| ==> states[start..][i - start] == states[i];
      }
      files := files[tmp := content];
      states := states + [files];
      if backupCount > 1 {
        TmpRetains(before, rotated, at, tmp, content, backupCount);
      }
      ghost var between := states[start..];
      RenameStep(tmp, at(0));
      assert states[start..|states| - 1] == between;
      WrittenAfterRename(before, rotated, at, tmp, content, backupCount);
    }
  }

  // ---------- sequences of writes ----------

  /** `after` results from writing `contents`, in order, with the same backup count. */
  ghost predicate WrittenAll(before: Files, after: Files, at: Places, tmps: seq<string>, contents: seq<string>, n: nat)
    requires |tmps| == |contents|
    decreases |contents|
  {
    if contents == [] then after == before
    else
      var m := |contents| - 1;
      exists mid :: WrittenAll(before, mid, at, tmps[..m], contents[..m], n)
                    && Written(mid, after, at, tmps[m], contents[m], n)
  }

  /** What place `k` should hold after writing `contents`: the newest versions first, then the older ones
      that were there; a configuration that did not exist is not backed up. */
  ghost function Expected(before: Files, at: Places, contents: seq<string>, k: nat): Option<string> {
    if k < |contents| then Some(contents[|contents| - 1 - k])
    else if contents == [] || at(0) in before then Held(before, at, k - |contents|)
    else Held(before, at, k - |contents| + 1)
  }

  lemma ExpectedStep(before: Files, at: Places, contents: seq<string>, k: nat)
    requires contents != [] && k >= 1
    ensures var m := |contents| - 1;
            Expected(before, at, contents, k)
            == if m > 0 || at(0) in before then Expected(before, at, contents[..m], k - 1)
               else Expected(before, at, contents[..m], k)
  {}

  /** After any sequence of writes the places hold the latest versions, newest first. */
  lemma {:induction false} LatestVersionsFirst(
    before: Files, after: Files, at: Places, tmps: seq<string>, contents: seq<string>, n: nat, k: nat)
    requires n >= 2 && |tmps| == |contents| && WrittenAll(before, after, at, tmps, contents, n) && k <= n
    ensures Held(after, at, k) == Expected(before, at, contents, k)
    decreases |contents|
  {
    if contents != [] {
      var m := |contents| - 1;
      var mid :| WrittenAll(before, mid, at, tmps[..m], contents[..m], n)
                 && Written(mid, after, at, tmps[m], contents[m], n);
      LatestVersionsFirst(before, mid, at, tmps[..m], contents[..m], n, 0);
      assert at(0) in mid <==> m > 0 || at(0) in before;
      if k > 0 {
        LatestVersionsFirst(before, mid, at, tmps[..m], contents[..m], n, k - 1);
        LatestVersionsFirst(before, mid, at, tmps[..m], contents[..m], n, k);
        ExpectedStep(before, at, contents, k);
      }
    }
  }

  /** From an empty start: exactly the last `n + 1` versions, newest first. */
  lemma FreshStartVersions(after: Files, config: string, tmps: seq<string>, contents: seq<string>, n: nat, k: nat)
    requires n >= 2 && |tmps| == |contents| && k <= n
    requires WrittenAll(map[], after, PlacesOf(config), tmps, contents, n)
    ensures Held(after, PlacesOf(config), k) == if k < |contents| then Some(contents[|contents| - 1 - k]) else None
  {
    LatestVersionsFirst(map[], after, PlacesOf(config), tmps, contents, n, k);
  }

  /** By their names: the configuration is the newest version, `.bak` the one before, and `.bak.1` and on, as far
      as backups are kept, the older ones. */
  lemma VersionsByName(after: Files, config: string, tmps: seq<string>, contents: seq<string>, n: nat, v: nat)
    requires n >= 2 && |tmps| == |contents| && WrittenAll(map[], after, PlacesOf(config), tmps, contents, n)
    requires 1 <= v < n
    ensures IsNumeral(Decimal(v)) && Decimal(v)[0] != '0' && ValueOf(Decimal(v)) == v
    ensures var m := |contents|;
            && Get(after, config) == (if m > 0 then Some(contents[m - 1]) else None)
            && Get(after, config + ".bak") == (if m > 1 then Some(contents[m - 2]) else None)
            && Get(after, config + (".bak." + Decimal(v))) == if m > v + 1 then Some(contents[m - v - 2]) else None
  {
    DecimalMeans(v);
    PlaceNames(config, v);
    NamedVersion(after, config, tmps, contents, n, 0, config);
    NamedVersion(after, config, tmps, contents, n, 1, config + ".bak");
    NamedVersion(after, config, tmps, contents, n, v + 1, config + (".bak." + Decimal(v)));
  }

  lemma PlaceNames(config: string, v: nat)
    requires v >= 1
    ensures var at := PlacesOf(config);
            at(0) == config && at(1) == config + ".bak" && at(v + 1) == config + (".bak." + Decimal(v))
  {
    Regroup(config, ".bak.", Decimal(v));
  }

  lemma NamedVersion(
    after: Files, config: string, tmps: seq<string>, contents: seq<string>, n: nat, k: nat, name: string)
    requires n >= 2 && |tmps| == |contents| && WrittenAll(map[], after, PlacesOf(config), tmps, contents, n)
    requires k <= n && PlacesOf(config)(k) == name
    ensures Get(after, name) == if k < |contents| then Some(contents[|contents| - 1 - k]) else None
  {
    FreshStartVersions(after, config, tmps, contents, n, k);
  }
}
