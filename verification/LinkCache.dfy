/**
 The link cache: entries are deleted lazily, on reading and by pruning, yet every answer is
 that of a map that never deletes and only hides what has expired.
 */
module LinkCache {
  import opened Common

  type Url = string

  /** Times are integers in milliseconds, as the ISO texts compare. */
  datatype Entry = Entry(url: Url, title: string, summary: string, contentType: string, fetchedAt: int, expiresAt: int)

  type Entries = map<Url, Entry>

  predicate Expired(e: Entry, now: int) { e.expiresAt < now }

  function Answer(cache: Entries, url: Url, now: int): Option<Entry> {
    if url in cache && !Expired(cache[url], now) then Some(cache[url]) else None
  }

  function Alive(cache: Entries, now: int): Entries {
    map url | url in cache && !Expired(cache[url], now) :: cache[url]
  }

  class Repository {
    var cache: Entries

    constructor ()
      ensures cache == map[]
    {
      cache := map[];
    }

    method Get(url: Url, now: int) returns (r: Option<Entry>)
      modifies this
      ensures r == Answer(old(cache), url, now)
      ensures cache == Step(old(cache), Timed(Read(url), now))
    {
      if url !in cache {
        return None;
      }
      if Expired(cache[url], now) {
        cache := cache - {url};
        return None;
      }
      return Some(cache[url]);
    }

    method Set(entry: Entry)
      modifies this
      ensures cache == old(cache)[entry.url := entry]
    {
      cache := cache[entry.url := entry];
    }

    method PruneExpired(now: int) returns (count: nat)
      modifies this
      ensures cache == Alive(old(cache), now) && count == |old(cache)| - |cache|
    {
      count := 0;
      var rest := cache.Keys;
      while rest != {}
        invariant rest <= cache.Keys <= old(cache).Keys
        invariant forall url :: url in cache ==> cache[url] == old(cache)[url]
        invariant forall url :: url in old(cache) && url !in rest ==> (url in cache <==> !Expired(old(cache)[url], now))
        invariant count == |old(cache)| - |cache|
        decreases rest
      {
        var url :| url in rest;
        if Expired(cache[url], now) {
          assert cache.Keys == (cache - {url}).Keys + {url};
          cache := cache - {url};
          count := count + 1;
        }
        rest := rest - {url};
      }
    }
  }

  // ---------- runs ----------

  datatype Op = Read(url: Url) | Store(entry: Entry) | Prune

  /** An operation and the clock reading it sees. */
  datatype Timed = Timed(op: Op, now: int)

  function Step(cache: Entries, t: Timed): Entries {
    match t.op
    case Read(url) => if url in cache && Expired(cache[url], t.now) then cache - {url} else cache
    case Store(entry) => cache[entry.url := entry]
    case Prune => Alive(cache, t.now)
  }

  ghost function CacheAfter(ts: seq<Timed>): Entries {
    if ts == [] then map[] else Step(CacheAfter(ts[..|ts| - 1]), ts[|ts| - 1])
  }

  /** The reference: everything ever stored, the latest entry of each url. */
  ghost function StoredAfter(ts: seq<Timed>): Entries {
    if ts == [] then map[]
    else
      var op := ts[|ts| - 1].op;
      if op.Store? then StoredAfter(ts[..|ts| - 1])[op.entry.url := op.entry] else StoredAfter(ts[..|ts| - 1])
  }

  ghost predicate ClockRuns(ts: seq<Timed>) { forall i, j :: 0 <= i < j < |ts| ==> ts[i].now <= ts[j].now }

  /** What the cache lacks of the reference had expired by the last clock reading. */
  lemma {:induction false} OnlyExpiredIsMissing(ts: seq<Timed>, url: Url)
    requires ClockRuns(ts)
    ensures url in CacheAfter(ts) ==> url in StoredAfter(ts) && CacheAfter(ts)[url] == StoredAfter(ts)[url]
    ensures url in StoredAfter(ts) && url !in CacheAfter(ts) ==>
              ts != [] && Expired(StoredAfter(ts)[url], ts[|ts| - 1].now)
  {
    if ts != [] {
      OnlyExpiredIsMissing(ts[..|ts| - 1], url);
    }
  }

  /** On a clock that does not go back, every read answers like a map that never deletes. */
  lemma {:induction false} CacheRefinesStore(ts: seq<Timed>, url: Url, now: int)
    requires ClockRuns(ts) && forall i :: 0 <= i < |ts| ==> ts[i].now <= now
    ensures Answer(CacheAfter(ts), url, now) == Answer(StoredAfter(ts), url, now)
  {
    OnlyExpiredIsMissing(ts, url);
  }

  /** What each operation leaves: a read removes the entry it finds expired, pruning all of them, and an entry
      lives up to and including its last moment. */
  lemma StepMeans(cache: Entries, t: Timed, url: Url)
    ensures var after := Step(cache, t);
            && (url in after && !(t.op.Store? && t.op.entry.url == url) ==> url in cache && after[url] == cache[url])
            && (t.op.Store? ==> after == cache[t.op.entry.url := t.op.entry])
            && (t.op == Read(url) || t.op.Prune? ==> (url in after <==> url in cache && t.now <= cache[url].expiresAt))
            && (t.op.Read? && t.op.url != url ==> (url in after <==> url in cache))
  {}

  // ---------- the service ----------

  /** The service stores what it fetched at `fetchedAt` for `cacheTtlMs`. */
  ghost predicate StoredByService(ts: seq<Timed>, cacheTtlMs: int) {
    forall i :: 0 <= i < |ts| && ts[i].op.Store? ==>
      ts[i].op.entry.fetchedAt == ts[i].now && ts[i].op.entry.expiresAt == ts[i].now + cacheTtlMs
  }

  lemma {:induction false} StoredEntryHasTtl(ts: seq<Timed>, cacheTtlMs: int, url: Url)
    requires StoredByService(ts, cacheTtlMs) && url in StoredAfter(ts)
    ensures var e := StoredAfter(ts)[url];
            && e.expiresAt == e.fetchedAt + cacheTtlMs
            && exists i :: 0 <= i < |ts| && ts[i].op == Store(e) && ts[i].now == e.fetchedAt && e.url == url
  {
    var n := |ts| - 1;
    if !(ts[n].op.Store? && ts[n].op.entry.url == url) {
      StoredEntryHasTtl(ts[..n], cacheTtlMs, url);
      var e := StoredAfter(ts)[url];
      var i :| 0 <= i < n && ts[..n][i].op == Store(e) && ts[..n][i].now == e.fetchedAt;
      assert ts[i] == ts[..n][i];
    }
  }

  /** Every summary reported as cached was stored by an earlier operation at most `cacheTtlMs` ago. */
  lemma {:induction false} CachedIsFresh(ts: seq<Timed>, cacheTtlMs: int, url: Url, now: int)
    requires ClockRuns(ts) && (forall i :: 0 <= i < |ts| ==> ts[i].now <= now) && StoredByService(ts, cacheTtlMs)
    requires Answer(CacheAfter(ts), url, now).Some?
    ensures var e := Answer(CacheAfter(ts), url, now).value;
            && now - e.fetchedAt <= cacheTtlMs
            && exists i :: 0 <= i < |ts| && ts[i].op == Store(e) && ts[i].now == e.fetchedAt
  {
    OnlyExpiredIsMissing(ts, url);
    StoredEntryHasTtl(ts, cacheTtlMs, url);
  }

  datatype Candidate = Candidate(url: Url, normalizedUrl: Url)

  datatype Page = Page(statusCode: int, title: string, summary: string, contentType: string)

  /** What the outside does for one candidate: when the cache is read, what fetching and
      summarizing give (None when they throw), and when the entry is stamped. */
  datatype Visit = Visit(readAt: int, page: Option<Page>, storedAt: int)

  datatype Summary = Summary(url: Url, title: string, summary: string, contentType: string, cached: bool)

  predicate Usable(v: Visit) { v.page.Some? && 200 <= v.page.value.statusCode < 400 }

  ghost predicate VisitsInTime(visit: nat -> Visit) {
    forall i: nat :: visit(i).readAt <= visit(i).storedAt <= visit(i + 1).readAt
  }

  function EntryOf(c: Candidate, v: Visit, cacheTtlMs: int): Entry
    requires Usable(v)
  {
    var page := v.page.value;
    Entry(c.normalizedUrl, page.title, page.summary, page.contentType, v.storedAt, v.storedAt + cacheTtlMs)
  }

  /** What the cache answers for a candidate after the operations `log`. */
  ghost function Cached(log: seq<Timed>, c: Candidate, v: Visit): Option<Entry> {
    Answer(CacheAfter(log), c.normalizedUrl, v.readAt)
  }

  /** A live entry is used, otherwise a usable page, otherwise the candidate is passed over. */
  ghost function SummaryOf(log: seq<Timed>, c: Candidate, v: Visit): Option<Summary> {
    match Cached(log, c, v)
    case Some(e) => Some(Summary(c.url, e.title, e.summary, e.contentType, true))
    case None =>
      if !Usable(v) then None
      else
        var page := v.page.value;
        Some(Summary(c.url, page.title, page.summary, page.contentType, false))
  }

  /** The cache is read, and a page that had to be fetched is stored. */
  ghost function OpsOf(log: seq<Timed>, c: Candidate, v: Visit, cacheTtlMs: int): seq<Timed> {
    [Timed(Read(c.normalizedUrl), v.readAt)]
    + (if Cached(log, c, v).None? && Usable(v) then [Timed(Store(EntryOf(c, v, cacheTtlMs)), v.storedAt)] else [])
  }

  ghost function LogAfter(
    log: seq<Timed>, candidates: seq<Candidate>, visit: nat -> Visit, cacheTtlMs: int): seq<Timed>
  {
    if candidates == [] then log
    else
      var n := |candidates| - 1;
      var before := LogAfter(log, candidates[..n], visit, cacheTtlMs);
      before + OpsOf(before, candidates[n], visit(n), cacheTtlMs)
  }

  ghost function SummariesOf(
    log: seq<Timed>, candidates: seq<Candidate>, visit: nat -> Visit, cacheTtlMs: int): seq<Summary>
  {
    if candidates == [] then []
    else
      var n := |candidates| - 1;
      SummariesOf(log, candidates[..n], visit, cacheTtlMs)
      + match SummaryOf(LogAfter(log, candidates[..n], visit, cacheTtlMs), candidates[n], visit(n))
        case None => []
        case Some(s) => [s]
  }

  /** Nothing is stored for the address. */
  ghost predicate StoresNothingFor(ts: seq<Timed>, url: Url) {
    forall i :: 0 <= i < |ts| && ts[i].op.Store? ==> ts[i].op.entry.url != url
  }

  lemma {:induction false} StoredStays(ts: seq<Timed>, more: seq<Timed>, url: Url)
    requires url in StoredAfter(ts) && StoresNothingFor(more, url)
    ensures url in StoredAfter(ts + more) && StoredAfter(ts + more)[url] == StoredAfter(ts)[url]
  {
    if more == [] {
      assert ts + more == ts;
    } else {
      var n := |more| - 1;
      StoredStays(ts, more[..n], url);
      assert (ts + more)[..|ts| + n] == ts + more[..n];
      assert (ts + more)[|ts| + n] == more[n];
    }
  }

  /** A page that was fetched is served from the cache, to every candidate of the same address and whatever
      else is read, stored and pruned in between, until its time to live is over. */
  lemma FetchedIsServed(
    log: seq<Timed>, c: Candidate, v: Visit, more: seq<Timed>, d: Candidate, w: Visit, cacheTtlMs: int)
    requires Cached(log, c, v).None? && Usable(v) && d.normalizedUrl == c.normalizedUrl
    requires StoresNothingFor(more, c.normalizedUrl)
    requires var all := log + OpsOf(log, c, v, cacheTtlMs) + more;
             ClockRuns(all) && UpTo(all, w.readAt)
    requires w.readAt <= v.storedAt + cacheTtlMs
    ensures var page := v.page.value;
            SummaryOf(log + OpsOf(log, c, v, cacheTtlMs) + more, d, w)
            == Some(Summary(d.url, page.title, page.summary, page.contentType, true))
  {
    var stored := log + OpsOf(log, c, v, cacheTtlMs);
    assert stored[|stored| - 1].op == Store(EntryOf(c, v, cacheTtlMs));
    StoredStays(stored, more, c.normalizedUrl);
    CacheRefinesStore(stored + more, c.normalizedUrl, w.readAt);
  }

  /** A page came, with a status from 200 to 399. */
  ghost predicate GaveGoodPage(v: Visit) {
    match v.page
    case None => false
    case Some(page) => 200 <= page.statusCode <= 399
  }

  lemma GoodPageMeans(v: Visit)
    ensures GaveGoodPage(v) <==> Usable(v)
  {}

  /** The summary of a fetched page: nothing is kept back and nothing comes from the cache. */
  ghost predicate FromPage(s: Summary, c: Candidate, v: Visit) {
    && GaveGoodPage(v)
    && s == Summary(c.url, v.page.value.title, v.page.value.summary, v.page.value.contentType, false)
  }

  /** The summary of a cached entry, which operation `k` stored for the same address within the time to live. */
  ghost predicate FromStore(s: Summary, c: Candidate, v: Visit, log: seq<Timed>, cacheTtlMs: int, k: int) {
    && 0 <= k < |log| && log[k].op.Store? && log[k].op.entry.url == c.normalizedUrl
    && var e := log[k].op.entry;
       && e.fetchedAt == log[k].now && v.readAt - log[k].now <= cacheTtlMs
       && s == Summary(c.url, e.title, e.summary, e.contentType, true)
  }

  ghost predicate Sourced(s: Summary, c: Candidate, v: Visit, log: seq<Timed>, cacheTtlMs: int) {
    FromPage(s, c, v) || exists k :: FromStore(s, c, v, log, cacheTtlMs, k)
  }

  lemma LongerLogKeepsSource(s: Summary, c: Candidate, v: Visit, log: seq<Timed>, more: seq<Timed>, cacheTtlMs: int)
    requires Sourced(s, c, v, log, cacheTtlMs)
    ensures Sourced(s, c, v, log + more, cacheTtlMs)
  {
    if !FromPage(s, c, v) {
      var k :| FromStore(s, c, v, log, cacheTtlMs, k);
      assert FromStore(s, c, v, log + more, cacheTtlMs, k);
    }
  }

  ghost predicate UpTo(log: seq<Timed>, now: int) { forall i :: 0 <= i < |log| ==> log[i].now <= now }

  ghost predicate StampedByService(t: Timed, cacheTtlMs: int) {
    t.op.Store? ==> t.op.entry.fetchedAt == t.now && t.op.entry.expiresAt == t.now + cacheTtlMs
  }

  lemma LogGrows(log: seq<Timed>, t: Timed, cacheTtlMs: int)
    requires ClockRuns(log) && StoredByService(log, cacheTtlMs) && UpTo(log, t.now) && StampedByService(t, cacheTtlMs)
    ensures ClockRuns(log + [t]) && StoredByService(log + [t], cacheTtlMs) && UpTo(log + [t], t.now)
    ensures CacheAfter(log + [t]) == Step(CacheAfter(log), t)
  {
    assert (log + [t])[..|log|] == log;
  }

  lemma AnswerHasSource(log: seq<Timed>, c: Candidate, v: Visit, cacheTtlMs: int, s: Summary)
    requires ClockRuns(log) && StoredByService(log, cacheTtlMs) && UpTo(log, v.readAt)
    requires Answer(CacheAfter(log), c.normalizedUrl, v.readAt).Some?
    requires var e := Answer(CacheAfter(log), c.normalizedUrl, v.readAt).value;
             s == Summary(c.url, e.title, e.summary, e.contentType, true)
    ensures Sourced(s, c, v, log, cacheTtlMs)
  {
    var e := CacheAfter(log)[c.normalizedUrl];
    OnlyExpiredIsMissing(log, c.normalizedUrl);
    StoredEntryHasTtl(log, cacheTtlMs, c.normalizedUrl);
    var k :| 0 <= k < |log| && log[k].op == Store(e) && log[k].now == e.fetchedAt && e.url == c.normalizedUrl;
    assert FromStore(s, c, v, log, cacheTtlMs, k);
  }

  /** A log as the service keeps it, up to the clock reading `now`. */
  ghost predicate Kept(log: seq<Timed>, cacheTtlMs: int, now: int) {
    ClockRuns(log) && StoredByService(log, cacheTtlMs) && UpTo(log, now)
  }

  lemma KeptGrows(log: seq<Timed>, t: Timed, cacheTtlMs: int, now: int)
    requires Kept(log, cacheTtlMs, now) && now <= t.now && StampedByService(t, cacheTtlMs)
    ensures Kept(log + [t], cacheTtlMs, t.now)
  {
    LogGrows(log, t, cacheTtlMs);
  }

  lemma CandidateKeepsLog(log: seq<Timed>, c: Candidate, v: Visit, cacheTtlMs: int)
    requires Kept(log, cacheTtlMs, v.readAt) && v.readAt <= v.storedAt
    ensures Kept(log + OpsOf(log, c, v, cacheTtlMs), cacheTtlMs, v.storedAt)
  {
    var read := Timed(Read(c.normalizedUrl), v.readAt);
    KeptGrows(log, read, cacheTtlMs, v.readAt);
    if Cached(log, c, v).None? && Usable(v) {
      var store := Timed(Store(EntryOf(c, v, cacheTtlMs)), v.storedAt);
      KeptGrows(log + [read], store, cacheTtlMs, v.readAt);
      OpsAreTwo(log, read, store);
    } else {
      OpsAreOne(log, [read], v, cacheTtlMs);
    }
  }

  lemma OpsAreTwo(log: seq<Timed>, read: Timed, store: Timed)
    ensures log + ([read] + [store]) == (log + [read]) + [store]
  {}

  lemma OpsAreOne(log: seq<Timed>, ops: seq<Timed>, v: Visit, cacheTtlMs: int)
    requires Kept(log + ops, cacheTtlMs, v.readAt) && v.readAt <= v.storedAt
    ensures ops + [] == ops && Kept(log + ops, cacheTtlMs, v.storedAt)
  {}

  /** The cache behind the operations of one candidate. */
  lemma CandidateCache(log: seq<Timed>, c: Candidate, v: Visit, cacheTtlMs: int)
    ensures var read := Step(CacheAfter(log), Timed(Read(c.normalizedUrl), v.readAt));
            CacheAfter(log + OpsOf(log, c, v, cacheTtlMs))
            == if Cached(log, c, v).None? && Usable(v) then read[c.normalizedUrl := EntryOf(c, v, cacheTtlMs)] else read
  {
    var read, ops := Timed(Read(c.normalizedUrl), v.readAt), OpsOf(log, c, v, cacheTtlMs);
    assert (log + [read])[..|log|] == log;
    if Cached(log, c, v).None? && Usable(v) {
      assert log + ops == (log + [read]) + [ops[1]];
      assert (log + ops)[..|log| + 1] == log + [read];
    } else {
      assert ops == [read];
    }
  }

  class Service {
    const repository: Repository
    const cacheTtlMs: int
    /** Every operation the repository has seen. */
    ghost var log: seq<Timed>

    ghost predicate Valid()
      reads this, repository
    {
      repository.cache == CacheAfter(log) && ClockRuns(log) && StoredByService(log, cacheTtlMs)
    }

    constructor (repository: Repository, cacheTtlMs: int)
      requires repository.cache == map[]
      ensures Valid() && log == [] && this.repository == repository && this.cacheTtlMs == cacheTtlMs
    {
      this.repository := repository;
      this.cacheTtlMs := cacheTtlMs;
      log := [];
    }

    /** One candidate; None when it is passed over. */
    method ProcessCandidate(c: Candidate, v: Visit) returns (r: Option<Summary>)
      requires Valid() && v.readAt <= v.storedAt && UpTo(log, v.readAt)
      modifies this, repository
      ensures Valid() && UpTo(log, v.storedAt)
      ensures r == SummaryOf(old(log), c, v) && log == old(log) + OpsOf(old(log), c, v, cacheTtlMs)
    {
      var cached := repository.Get(c.normalizedUrl, v.readAt);
      CandidateKeepsLog(log, c, v, cacheTtlMs);
      CandidateCache(log, c, v, cacheTtlMs);
      log := log + OpsOf(log, c, v, cacheTtlMs);
      if cached.Some? {
        var e := cached.value;
        return Some(Summary(c.url, e.title, e.summary, e.contentType, true));
      }
      if !Usable(v) {
        return None;
      }
      var page := v.page.value;
      var expiresAt := v.storedAt + cacheTtlMs;
      var entry := Entry(c.normalizedUrl, page.title, page.summary, page.contentType, v.storedAt, expiresAt);
      repository.Set(entry);
      return Some(Summary(c.url, page.title, page.summary, page.contentType, false));
    }

    /** The links of one message, in order. */
    method ProcessText(enabled: bool, candidates: seq<Candidate>, visit: nat -> Visit) returns (summaries: seq<Summary>)
      requires Valid() && VisitsInTime(visit) && UpTo(log, visit(0).readAt)
      modifies this, repository
      ensures Valid()
      ensures !enabled ==> summaries == [] && log == old(log)
      ensures enabled ==>
        && summaries == SummariesOf(old(log), candidates, visit, cacheTtlMs)
        && log == LogAfter(old(log), candidates, visit, cacheTtlMs)
    {
      summaries := [];
      if !enabled {
        return;
      }
      for i := 0 to |candidates|
        invariant Valid() && UpTo(log, visit(i).readAt)
        invariant summaries == SummariesOf(old(log), candidates[..i], visit, cacheTtlMs)
        invariant log == LogAfter(old(log), candidates[..i], visit, cacheTtlMs)
      {
        assert candidates[..i + 1][..i] == candidates[..i];
        var r := ProcessCandidate(candidates[i], visit(i));
        if r.Some? {
          summaries := summaries + [r.value];
        }
      }
      assert candidates[..|candidates|] == candidates;
    }
  }

  // ---------- where summaries come from ----------

  lemma CandidateIsSourced(log: seq<Timed>, c: Candidate, v: Visit, cacheTtlMs: int)
    requires Kept(log, cacheTtlMs, v.readAt) && SummaryOf(log, c, v).Some?
    ensures Sourced(SummaryOf(log, c, v).value, c, v, log, cacheTtlMs)
  {
    if Cached(log, c, v).Some? {
      AnswerHasSource(log, c, v, cacheTtlMs, SummaryOf(log, c, v).value);
    }
  }

  /** `origin` says which candidate each summary is of, in order. */
  ghost predicate Origins(
    summaries: seq<Summary>, origin: seq<nat>, candidates: seq<Candidate>, visit: nat -> Visit,
    log: seq<Timed>, cacheTtlMs: int)
  {
    && |origin| == |summaries| && (forall i, j :: 0 <= i < j < |origin| ==> origin[i] < origin[j])
    && (forall k :: 0 <= k < |origin| ==> origin[k] < |candidates|)
    && forall k :: 0 <= k < |summaries| ==>
         Sourced(summaries[k], candidates[origin[k]], visit(origin[k]), log, cacheTtlMs)
  }

  lemma LongerLogKeepsOrigins(
    summaries: seq<Summary>, origin: seq<nat>, candidates: seq<Candidate>, visit: nat -> Visit,
    log: seq<Timed>, more: seq<Timed>, last: Candidate, cacheTtlMs: int)
    requires Origins(summaries, origin, candidates, visit, log, cacheTtlMs)
    ensures Origins(summaries, origin, candidates + [last], visit, log + more, cacheTtlMs)
  {
    forall k | 0 <= k < |summaries|
      ensures Sourced(summaries[k], (candidates + [last])[origin[k]], visit(origin[k]), log + more, cacheTtlMs)
    {
      LongerLogKeepsSource(summaries[k], candidates[origin[k]], visit(origin[k]), log, more, cacheTtlMs);
    }
  }

  lemma PushOrigin(
    summaries: seq<Summary>, origin: seq<nat>, candidates: seq<Candidate>, visit: nat -> Visit,
    log: seq<Timed>, s: Summary, cacheTtlMs: int)
    requires candidates != [] && Origins(summaries, origin, candidates, visit, log, cacheTtlMs)
    requires var n := |candidates| - 1;
             Sourced(s, candidates[n], visit(n), log, cacheTtlMs) && forall k :: 0 <= k < |origin| ==> origin[k] < n
    ensures Origins(summaries + [s], origin + [|candidates| - 1], candidates, visit, log, cacheTtlMs)
  {}

  /** One candidate more. */
  lemma NextOrigin(
    summaries: seq<Summary>, origin: seq<nat>, candidates: seq<Candidate>, visit: nat -> Visit,
    log: seq<Timed>, cacheTtlMs: int)
    returns (all: seq<nat>)
    requires candidates != []
    requires var n := |candidates| - 1;
             && Kept(log, cacheTtlMs, visit(n).readAt)
             && Origins(summaries, origin, candidates[..n], visit, log, cacheTtlMs)
    ensures var n := |candidates| - 1;
            var r, ops := SummaryOf(log, candidates[n], visit(n)), OpsOf(log, candidates[n], visit(n), cacheTtlMs);
            && all == origin + (if r.Some? then [n] else [])
            && Origins(summaries + (match r case None => [] case Some(s) => [s]), all, candidates, visit, log + ops,
                       cacheTtlMs)
  {
    var n := |candidates| - 1;
    var c, v := candidates[n], visit(n);
    var r, ops := SummaryOf(log, c, v), OpsOf(log, c, v, cacheTtlMs);
    LongerLogKeepsOrigins(summaries, origin, candidates[..n], visit, log, ops, c, cacheTtlMs);
    assert candidates[..n] + [c] == candidates;
    if r.Some? {
      CandidateIsSourced(log, c, v, cacheTtlMs);
      LongerLogKeepsSource(r.value, c, v, log, ops, cacheTtlMs);
      PushOrigin(summaries, origin, candidates, visit, log + ops, r.value, cacheTtlMs);
      all := origin + [n];
    } else {
      all := origin;
      assert summaries + [] == summaries && origin + [] == origin;
    }
  }

  /** Every summary of a message is of one candidate, in candidate order: from its fetched page, or from
      an entry stored for the same address within the time to live.  A candidate without one could not
      be fetched. */
  lemma {:induction false} SummariesAreSourced(
    log: seq<Timed>, candidates: seq<Candidate>, visit: nat -> Visit, cacheTtlMs: int)
    returns (origin: seq<nat>)
    requires VisitsInTime(visit) && Kept(log, cacheTtlMs, visit(0).readAt)
    ensures Origins(SummariesOf(log, candidates, visit, cacheTtlMs), origin, candidates, visit,
                    LogAfter(log, candidates, visit, cacheTtlMs), cacheTtlMs)
    ensures forall i :: 0 <= i < |candidates| && i !in origin ==> !GaveGoodPage(visit(i))
    decreases |candidates|
  {
    if candidates == [] {
      origin := [];
    } else {
      var n := |candidates| - 1;
      var front, before := candidates[..n], LogAfter(log, candidates[..n], visit, cacheTtlMs);
      var earlier := SummariesAreSourced(log, front, visit, cacheTtlMs);
      MessageKeepsLog(log, front, visit, cacheTtlMs);
      origin := NextOrigin(SummariesOf(log, front, visit, cacheTtlMs), earlier, candidates, visit, before, cacheTtlMs);
      forall i | 0 <= i < |candidates| && i !in origin ensures !GaveGoodPage(visit(i)) {
        assert i !in earlier;
        GoodPageMeans(visit(i));
      }
    }
  }

  /** The log stays one that the service keeps. */
  lemma {:induction false} MessageKeepsLog(
    log: seq<Timed>, candidates: seq<Candidate>, visit: nat -> Visit, cacheTtlMs: int)
    requires VisitsInTime(visit) && Kept(log, cacheTtlMs, visit(0).readAt)
    ensures Kept(LogAfter(log, candidates, visit, cacheTtlMs), cacheTtlMs, visit(|candidates|).readAt)
    decreases |candidates|
  {
    if candidates != [] {
      var n := |candidates| - 1;
      MessageKeepsLog(log, candidates[..n], visit, cacheTtlMs);
      CandidateKeepsLog(LogAfter(log, candidates[..n], visit, cacheTtlMs), candidates[n], visit(n), cacheTtlMs);
      KeptLonger(LogAfter(log, candidates, visit, cacheTtlMs), cacheTtlMs, visit(n).storedAt, visit(n + 1).readAt);
    }
  }

  lemma KeptLonger(log: seq<Timed>, cacheTtlMs: int, now: int, later: int)
    requires Kept(log, cacheTtlMs, now) && now <= later
    ensures Kept(log, cacheTtlMs, later)
  {}
}
