/**
 Media understanding: the attachment policy, the chunked provider chain and the service
 that turns their results into enrichment blocks and one decision per attachment.
 */
module MediaPipeline {
  import opened Common

  type MediaType = string

  datatype Attachment = Attachment(
    id: string, filename: Option<string>, mimeType: string, mediaType: MediaType, sizeBytes: int, sourceUrl: string)

  datatype Action = Processed(provider: string) | SkippedSize | SkippedMime | SkippedLimit | Failed(error: string)

  datatype Decision = Decision(attachmentId: string, filename: Option<string>, mimeType: string, action: Action)

  datatype Output = Output(description: string, provider: string)

  /** How one provider call ends: an output, or the message of an error (a time-out included). */
  datatype Settled = Understood(output: Output) | Error(message: string)

  datatype Provider = Provider(providerId: string, supportedMediaTypes: seq<MediaType>)

  /** `lower` is the platform's lower-casing. */
  datatype Config = Config(
    enabled: bool, maxFileSizeBytes: int, allowedMimeTypePrefixes: seq<string>,
    maxAttachmentsPerMessage: int, maxConcurrency: int, lower: string -> string)

  datatype Enrichment = Enrichment(attachmentId: string, mediaType: MediaType, filename: Option<string>, output: Output)

  // ---------- which attachment a decision is about ----------

  datatype Subject = Subject(id: string, filename: Option<string>, mimeType: string)

  function Decide(a: Attachment, action: Action): Decision { Decision(a.id, a.filename, a.mimeType, action) }

  ghost function Asked(attachments: seq<Attachment>): multiset<Subject> {
    multiset(seq(|attachments|, i requires 0 <= i < |attachments| =>
      Subject(attachments[i].id, attachments[i].filename, attachments[i].mimeType)))
  }

  ghost function Answered(decisions: seq<Decision>): multiset<Subject> {
    multiset(seq(|decisions|, i requires 0 <= i < |decisions| =>
      Subject(decisions[i].attachmentId, decisions[i].filename, decisions[i].mimeType)))
  }

  lemma AskedSplits(s: seq<Attachment>, t: seq<Attachment>)
    ensures Asked(s + t) == Asked(s) + Asked(t)
  {
    var all := seq(|s + t|, i requires 0 <= i < |s + t| =>
      Subject((s + t)[i].id, (s + t)[i].filename, (s + t)[i].mimeType));
    assert all == all[..|s|] + all[|s|..];
    assert all[..|s|] == seq(|s|, i requires 0 <= i < |s| => Subject(s[i].id, s[i].filename, s[i].mimeType));
    assert all[|s|..] == seq(|t|, i requires 0 <= i < |t| => Subject(t[i].id, t[i].filename, t[i].mimeType));
  }

  lemma AnsweredSplits(s: seq<Decision>, t: seq<Decision>)
    ensures Answered(s + t) == Answered(s) + Answered(t)
  {
    var all := seq(|s + t|, i requires 0 <= i < |s + t| =>
      Subject((s + t)[i].attachmentId, (s + t)[i].filename, (s + t)[i].mimeType));
    assert all == all[..|s|] + all[|s|..];
    assert all[..|s|] == seq(|s|, i requires 0 <= i < |s| => Subject(s[i].attachmentId, s[i].filename, s[i].mimeType));
    assert all[|s|..] == seq(|t|, i requires 0 <= i < |t| => Subject(t[i].attachmentId, t[i].filename, t[i].mimeType));
  }

  /** Decisions taken one for one, in order. */
  lemma AnsweredInOrder(attachments: seq<Attachment>, decisions: seq<Decision>)
    requires |attachments| == |decisions|
    requires forall i :: 0 <= i < |attachments| ==> decisions[i] == Decide(attachments[i], decisions[i].action)
    ensures Answered(decisions) == Asked(attachments)
  {
    assert seq(|attachments|, i requires 0 <= i < |attachments| =>
      Subject(attachments[i].id, attachments[i].filename, attachments[i].mimeType))
      == seq(|decisions|, i requires 0 <= i < |decisions| =>
      Subject(decisions[i].attachmentId, decisions[i].filename, decisions[i].mimeType));
  }

  // ---------- policy ----------

  predicate MimeAllowed(a: Attachment, c: Config) {
    exists k :: 0 <= k < |c.allowedMimeTypePrefixes| && c.allowedMimeTypePrefixes[k] <= c.lower(a.mimeType)
  }

  predicate Passes(a: Attachment, c: Config) { MimeAllowed(a, c) && a.sizeBytes <= c.maxFileSizeBytes }

  /** The attachments that pass both tests, in order. */
  function Passing(attachments: seq<Attachment>, c: Config): seq<Attachment> {
    if attachments == [] then []
    else
      var last := attachments[|attachments| - 1];
      Passing(attachments[..|attachments| - 1], c) + (if Passes(last, c) then [last] else [])
  }

  /** The first `maxAttachmentsPerMessage` of them. */
  function Eligible(attachments: seq<Attachment>, c: Config): seq<Attachment> {
    var passing := Passing(attachments, c);
    if c.maxAttachmentsPerMessage <= 0 then []
    else if |passing| <= c.maxAttachmentsPerMessage then passing
    else passing[..c.maxAttachmentsPerMessage]
  }

  /** Why `a` is skipped when `before` come ahead of it; None when it is not. */
  function SkipReason(a: Attachment, before: seq<Attachment>, c: Config): Option<Action> {
    if |Passing(before, c)| >= c.maxAttachmentsPerMessage then Some(SkippedLimit)
    else if !MimeAllowed(a, c) then Some(SkippedMime)
    else if a.sizeBytes > c.maxFileSizeBytes then Some(SkippedSize)
    else None
  }

  function Skips(attachments: seq<Attachment>, c: Config): seq<Decision> {
    if attachments == [] then []
    else
      var n := |attachments| - 1;
      Skips(attachments[..n], c) + match SkipReason(attachments[n], attachments[..n], c)
                                   case None => []
                                   case Some(action) => [Decide(attachments[n], action)]
  }

  method ApplyAttachmentPolicy(attachments: seq<Attachment>, c: Config)
    returns (eligible: seq<Attachment>, decisions: seq<Decision>)
    ensures eligible == Eligible(attachments, c) && decisions == Skips(attachments, c)
  {
    eligible, decisions := [], [];
    for i := 0 to |attachments|
      invariant eligible == Eligible(attachments[..i], c) && decisions == Skips(attachments[..i], c)
    {
      var attachment := attachments[i];
      assert attachments[..i + 1][..i] == attachments[..i];
      if |eligible| >= c.maxAttachmentsPerMessage {
        decisions := decisions + [Decide(attachment, SkippedLimit)];
      } else if !MimeAllowed(attachment, c) {
        decisions := decisions + [Decide(attachment, SkippedMime)];
      } else if attachment.sizeBytes > c.maxFileSizeBytes {
        decisions := decisions + [Decide(attachment, SkippedSize)];
      } else {
        eligible := eligible + [attachment];
      }
    }
    assert attachments[..|attachments|] == attachments;
  }

  /** Every attachment is either skipped once or eligible once, duplicate ids included. */
  lemma {:induction false} PolicyConserves(attachments: seq<Attachment>, c: Config)
    ensures Answered(Skips(attachments, c)) + Asked(Eligible(attachments, c)) == Asked(attachments)
  {
    if attachments != [] {
      var n := |attachments| - 1;
      var front, last := attachments[..n], attachments[n];
      PolicyConserves(front, c);
      assert attachments == front + [last];
      AskedSplits(front, [last]);
      PolicyStep(attachments, c);
      match SkipReason(last, front, c)
      case None => AskedSplits(Eligible(front, c), [last]);
      case Some(action) =>
        AnsweredSplits(Skips(front, c), [Decide(last, action)]);
        AnsweredInOrder([last], [Decide(last, action)]);
    }
  }

  lemma PolicyStep(attachments: seq<Attachment>, c: Config)
    requires attachments != []
    ensures var n := |attachments| - 1;
            match SkipReason(attachments[n], attachments[..n], c)
            case None =>
              && Skips(attachments, c) == Skips(attachments[..n], c)
              && Eligible(attachments, c) == Eligible(attachments[..n], c) + [attachments[n]]
            case Some(action) =>
              && Skips(attachments, c) == Skips(attachments[..n], c) + [Decide(attachments[n], action)]
              && Eligible(attachments, c) == Eligible(attachments[..n], c)
  {}

  // ---------- provider chain ----------

  function Flatten<T>(chunks: seq<seq<T>>): seq<T> {
    if chunks == [] then [] else Flatten(chunks[..|chunks| - 1]) + chunks[|chunks| - 1]
  }

  /** Chunks in order, none empty, none over `size`, and only the last one short. */
  method ChunkArray<T>(array_: seq<T>, size: nat) returns (chunks: seq<seq<T>>)
    requires size >= 1
    ensures Flatten(chunks) == array_
    ensures forall k :: 0 <= k < |chunks| ==> 1 <= |chunks[k]| <= size
    ensures forall k :: 0 <= k < |chunks| - 1 ==> |chunks[k]| == size
  {
    chunks := [];
    var i := 0;
    while i < |array_|
      invariant i >= 0
      invariant Flatten(chunks) == array_[..Min(i, |array_|)]
      invariant forall k :: 0 <= k < |chunks| ==> 1 <= |chunks[k]| <= size
      invariant i <= |array_| ==> forall k :: 0 <= k < |chunks| ==> |chunks[k]| == size
      invariant forall k :: 0 <= k < |chunks| - 1 ==> |chunks[k]| == size
      decreases |array_| - i
    {
      ghost var before := chunks;
      chunks := chunks + [array_[i..Min(i + size, |array_|)]];
      assert chunks[..|chunks| - 1] == before;
      i := i + size;
    }
  }

  function Min(a: int, b: int): int { if a <= b then a else b }

  /** The first provider that supports the attachment's media type. */
  function ResolveProvider(a: Attachment, providers: seq<Provider>): (r: Option<Provider>)
    ensures r.None? <==> forall k :: 0 <= k < |providers| ==> a.mediaType !in providers[k].supportedMediaTypes
    ensures r.Some? ==> exists k ::
      && 0 <= k < |providers| && r.value == providers[k] && a.mediaType in providers[k].supportedMediaTypes
      && forall j :: 0 <= j < k ==> a.mediaType !in providers[j].supportedMediaTypes
  {
    if providers == [] then None
    else if a.mediaType in providers[0].supportedMediaTypes then Some(providers[0])
    else
      assert forall k :: 1 <= k < |providers| ==> providers[k] == providers[1..][k - 1];
      ResolveProvider(a, providers[1..])
  }

  /** The end of the call for the attachment at position `k`; `process` is what the providers do. */
  function SettlementOf(
    attachments: seq<Attachment>, providers: seq<Provider>, process: (Provider, nat) -> Settled, k: nat): Settled
    requires k < |attachments|
  {
    match ResolveProvider(attachments[k], providers)
    case None => Error("No provider found for media type \"" + attachments[k].mediaType + "\"")
    case Some(provider) => process(provider, k)
  }

  type Results = map<string, Settled>

  /** The result under `id` is how the call for position `k`, an attachment of that id, ended. */
  ghost predicate Stands(
    attachments: seq<Attachment>, providers: seq<Provider>, process: (Provider, nat) -> Settled,
    results: Results, id: string, k: int)
  {
    0 <= k < |attachments| && attachments[k].id == id && id in results
    && results[id] == SettlementOf(attachments, providers, process, k)
  }

  /** So stands `k`, with no attachment of that id among the first `done` a whole chunk later. */
  ghost predicate Newest(
    attachments: seq<Attachment>, providers: seq<Provider>, process: (Provider, nat) -> Settled,
    results: Results, id: string, k: int, done: nat, size: int)
  {
    && k < done <= |attachments| && Stands(attachments, providers, process, results, id, k)
    && forall j :: k + size <= j < done && 0 <= j ==> attachments[j].id != id
  }

  /**
   Chunk after chunk; the calls of one chunk settle in any order.  Each id ends with the
   settlement of one of its own attachments, and no attachment of that id comes a whole
   chunk later.
   */
  method RunProviderChain(
    attachments: seq<Attachment>, providers: seq<Provider>, process: (Provider, nat) -> Settled, maxConcurrency: int)
    returns (results: Results)
    ensures forall k :: 0 <= k < |attachments| ==> attachments[k].id in results
    ensures forall id :: id in results ==>
      exists k :: Newest(attachments, providers, process, results, id, k, |attachments|, Max(1, maxConcurrency))
  {
    results := map[];
    var size := Max(1, maxConcurrency);
    var chunks := ChunkArray(attachments, size);
    var done: nat := 0;
    for c := 0 to |chunks|
      invariant done <= |attachments| && attachments[..done] == Flatten(chunks[..c])
      invariant forall k :: 0 <= k < done ==> attachments[k].id in results
      invariant forall id :: id in results ==>
        exists k :: Newest(attachments, providers, process, results, id, k, done, size)
    {
      FlattenPrefix(chunks, c + 1);
      assert chunks[..c + 1][..c] == chunks[..c];
      var next := done + |chunks[c]|;
      ghost var before := results;
      results := RunChunk(attachments, providers, process, done, next, results);
      forall id | id in results
        ensures exists k :: Newest(attachments, providers, process, results, id, k, next, size)
      {
        if exists k :: done <= k < next && attachments[k].id == id {
          var k :| done <= k < next && Stands(attachments, providers, process, results, id, k);
          assert Newest(attachments, providers, process, results, id, k, next, size);
        } else {
          var k :| Newest(attachments, providers, process, before, id, k, done, size);
          assert Newest(attachments, providers, process, results, id, k, next, size);
        }
      }
      done := next;
    }
    assert chunks[..|chunks|] == chunks;
  }

  function Max(a: int, b: int): int { if a >= b then a else b }

  lemma {:induction false} FlattenPrefix<T>(chunks: seq<seq<T>>, c: nat)
    requires c <= |chunks|
    ensures |Flatten(chunks[..c])| <= |Flatten(chunks)|
    ensures Flatten(chunks[..c]) == Flatten(chunks)[..|Flatten(chunks[..c])|]
  {
    if c == |chunks| {
      assert chunks[..c] == chunks;
    } else {
      var n := |chunks| - 1;
      FlattenPrefix(chunks[..n], c);
      assert chunks[..n][..c] == chunks[..c];
    }
  }

  function Positions(low: nat, high: nat): (r: set<nat>)
    ensures forall k :: k in r <==> low <= k < high
    decreases high
  {
    if high <= low then {} else Positions(low, high - 1) + {high - 1}
  }

  /** One chunk: positions from `low` to `high`, settling in an order nothing fixes. */
  method RunChunk(
    attachments: seq<Attachment>, providers: seq<Provider>, process: (Provider, nat) -> Settled,
    low: nat, high: nat, before: Results)
    returns (results: Results)
    requires low <= high <= |attachments|
    ensures forall id :: id in results <==> id in before || exists k :: low <= k < high && attachments[k].id == id
    ensures forall id :: id in results ==>
      if exists k :: low <= k < high && attachments[k].id == id
      then exists k :: low <= k < high && Stands(attachments, providers, process, results, id, k)
      else id in before && results[id] == before[id]
  {
    results := before;
    var pending := Positions(low, high);
    while pending != {}
      invariant forall k :: k in pending ==> low <= k < high
      invariant forall id :: id in before ==> id in results
      invariant forall k :: low <= k < high && k !in pending ==> attachments[k].id in results
      invariant forall id :: id in results ==>
        || (exists k :: low <= k < high && k !in pending && Stands(attachments, providers, process, results, id, k))
        || (id in before && results[id] == before[id]
            && forall k :: low <= k < high && k !in pending ==> attachments[k].id != id)
      decreases pending
    {
      var k :| k in pending;
      ghost var was := results;
      results := results[attachments[k].id := SettlementOf(attachments, providers, process, k)];
      pending := pending - {k};
      assert Stands(attachments, providers, process, results, attachments[k].id, k);
      assert forall id, j :: (id != attachments[k].id && Stands(attachments, providers, process, was, id, j) ==>
                                Stands(attachments, providers, process, results, id, j));
    }
  }

  // ---------- the service ----------

  function FinalAction(a: Attachment, results: Results): Action {
    if a.id !in results then Failed("No result from provider")
    else
      match results[a.id]
      case Error(message) => Failed(message)
      case Understood(output) => Processed(output.provider)
  }

  /** An enrichment is about the attachment of a processed decision and from its provider. */
  ghost predicate Describes(e: Enrichment, d: Decision) {
    d.action == Processed(e.output.provider) && e.attachmentId == d.attachmentId && e.filename == d.filename
  }

  function ProcessedOnly(decisions: seq<Decision>): seq<Decision> {
    if decisions == [] then []
    else
      var last := decisions[|decisions| - 1];
      ProcessedOnly(decisions[..|decisions| - 1]) + (if last.action.Processed? then [last] else [])
  }

  /** The enrichments are, one for one and in order, those of the processed decisions. */
  ghost predicate Matches(enrichments: seq<Enrichment>, decisions: seq<Decision>) {
    && |enrichments| == |ProcessedOnly(decisions)|
    && forall k :: 0 <= k < |enrichments| ==> Describes(enrichments[k], ProcessedOnly(decisions)[k])
  }

  lemma PushKeepsMatch(enrichments: seq<Enrichment>, decisions: seq<Decision>, d: Decision)
    requires Matches(enrichments, decisions) && !d.action.Processed?
    ensures Matches(enrichments, decisions + [d])
  {
    assert (decisions + [d])[..|decisions|] == decisions;
  }

  lemma PushBothKeepsMatch(enrichments: seq<Enrichment>, decisions: seq<Decision>, e: Enrichment, d: Decision)
    requires Matches(enrichments, decisions) && Describes(e, d)
    ensures Matches(enrichments + [e], decisions + [d])
  {
    assert (decisions + [d])[..|decisions|] == decisions;
  }

  lemma {:induction false} SkipsAreNotProcessed(attachments: seq<Attachment>, c: Config)
    ensures ProcessedOnly(Skips(attachments, c)) == []
  {
    if attachments != [] {
      var n := |attachments| - 1;
      SkipsAreNotProcessed(attachments[..n], c);
      var skips, before := Skips(attachments, c), Skips(attachments[..n], c);
      if skips != before {
        assert skips[..|skips| - 1] == before;
      }
    }
  }

  /** `e` shows the `i`-th eligible attachment with the output found under its id. */
  ghost predicate IsAbout(e: Enrichment, eligible: seq<Attachment>, results: Results, i: int) {
    && 0 <= i < |eligible| && eligible[i].id in results && results[eligible[i].id] == Understood(e.output)
    && e == Enrichment(eligible[i].id, eligible[i].mediaType, eligible[i].filename, e.output)
  }

  method BuildResult(eligible: seq<Attachment>, decisions: seq<Decision>, results: Results)
    returns (enrichments: seq<Enrichment>, allDecisions: seq<Decision>)
    requires ProcessedOnly(decisions) == []
    ensures |allDecisions| == |decisions| + |eligible| && allDecisions[..|decisions|] == decisions
    ensures forall k :: 0 <= k < |eligible| ==>
      allDecisions[|decisions| + k] == Decide(eligible[k], FinalAction(eligible[k], results))
    ensures Matches(enrichments, allDecisions)
    ensures forall e :: e in enrichments ==> exists i :: IsAbout(e, eligible, results, i)
  {
    enrichments, allDecisions := [], decisions;
    for i := 0 to |eligible|
      invariant |allDecisions| == |decisions| + i && allDecisions[..|decisions|] == decisions
      invariant forall k :: 0 <= k < i ==>
        allDecisions[|decisions| + k] == Decide(eligible[k], FinalAction(eligible[k], results))
      invariant Matches(enrichments, allDecisions)
      invariant forall e :: e in enrichments ==> exists j :: IsAbout(e, eligible, results, j)
    {
      var attachment := eligible[i];
      if attachment.id !in results {
        PushKeepsMatch(enrichments, allDecisions, Decide(attachment, Failed("No result from provider")));
        allDecisions := allDecisions + [Decide(attachment, Failed("No result from provider"))];
      } else {
        match results[attachment.id]
        case Error(message) =>
          PushKeepsMatch(enrichments, allDecisions, Decide(attachment, Failed(message)));
          allDecisions := allDecisions + [Decide(attachment, Failed(message))];
        case Understood(output) =>
          var e := Enrichment(attachment.id, attachment.mediaType, attachment.filename, output);
          assert IsAbout(e, eligible, results, i);
          PushBothKeepsMatch(enrichments, allDecisions, e, Decide(attachment, Processed(output.provider)));
          enrichments := enrichments + [e];
          allDecisions := allDecisions + [Decide(attachment, Processed(output.provider))];
      }
    }
  }

  /**
   The whole pipeline.  Every attachment gets exactly one decision; the enrichments are those
   of the processed decisions; and when the ids of the eligible attachments differ, an eligible
   attachment is decided by its own provider call.
   */
  method ProcessAttachments(
    attachments: seq<Attachment>, c: Config, providers: seq<Provider>, process: (Provider, nat) -> Settled)
    returns (enrichments: seq<Enrichment>, decisions: seq<Decision>)
    ensures Answered(decisions) == Asked(attachments)
    ensures Matches(enrichments, decisions)
    ensures !c.enabled ==> enrichments == [] && forall d :: d in decisions ==> d.action == SkippedMime
    ensures c.enabled ==>
      var skips, eligible := Skips(attachments, c), Eligible(attachments, c);
      && |skips| <= |decisions| && decisions[..|skips|] == skips
      && DecidedByCalls(decisions[|skips|..], eligible, providers, process)
      && (DistinctIds(eligible) ==> DecidedByOwnCalls(decisions[|skips|..], eligible, providers, process))
      && forall e :: e in enrichments ==> exists i, j :: Shows(e, eligible, providers, process, i, j)
  {
    if !c.enabled || |attachments| == 0 {
      enrichments := [];
      decisions := seq(|attachments|, i requires 0 <= i < |attachments| => Decide(attachments[i], SkippedMime));
      AnsweredInOrder(attachments, decisions);
      NoneProcessed(decisions);
      return;
    }
    var eligible, skipped := ApplyAttachmentPolicy(attachments, c);
    SkipsAreNotProcessed(attachments, c);
    if |eligible| == 0 {
      enrichments, decisions := [], skipped;
    } else {
      enrichments, decisions := DecideEligible(eligible, skipped, providers, process, c.maxConcurrency);
    }
    AllAnswered(attachments, c, providers, process, decisions);
  }

  /** The part of the pipeline behind the policy. */
  method DecideEligible(
    eligible: seq<Attachment>, skipped: seq<Decision>, providers: seq<Provider>, process: (Provider, nat) -> Settled,
    maxConcurrency: int)
    returns (enrichments: seq<Enrichment>, decisions: seq<Decision>)
    requires ProcessedOnly(skipped) == []
    ensures Matches(enrichments, decisions)
    ensures |skipped| <= |decisions| && decisions[..|skipped|] == skipped
    ensures DecidedByCalls(decisions[|skipped|..], eligible, providers, process)
    ensures DistinctIds(eligible) ==> DecidedByOwnCalls(decisions[|skipped|..], eligible, providers, process)
    ensures forall e :: e in enrichments ==> exists i, j :: Shows(e, eligible, providers, process, i, j)
  {
    var results := RunProviderChain(eligible, providers, process, maxConcurrency);
    enrichments, decisions := BuildResult(eligible, skipped, results);
    CallsDecide(decisions[|skipped|..], eligible, providers, process, results);
    forall e | e in enrichments
      ensures exists i, j :: Shows(e, eligible, providers, process, i, j)
    {
      var i :| IsAbout(e, eligible, results, i);
      var j :| Stands(eligible, providers, process, results, eligible[i].id, j);
      assert Shows(e, eligible, providers, process, i, j);
    }
  }

  /** `e` shows the `i`-th eligible attachment with what the call for the `j`-th, of the same id, gave. */
  ghost predicate Shows(
    e: Enrichment, eligible: seq<Attachment>, providers: seq<Provider>, process: (Provider, nat) -> Settled,
    i: int, j: int)
  {
    && 0 <= i < |eligible| && 0 <= j < |eligible| && eligible[i].id == eligible[j].id
    && e == Enrichment(eligible[i].id, eligible[i].mediaType, eligible[i].filename, e.output)
    && SettlementOf(eligible, providers, process, j) == Understood(e.output)
  }

  /** `d` is the decision on the `k`-th eligible attachment, as the call for the `j`-th, of the same id, ended. */
  ghost predicate Decided(
    d: Decision, eligible: seq<Attachment>, providers: seq<Provider>, process: (Provider, nat) -> Settled,
    k: nat, j: int)
  {
    && k < |eligible| && 0 <= j < |eligible| && eligible[k].id == eligible[j].id
    && match SettlementOf(eligible, providers, process, j)
       case Error(message) => d == Decide(eligible[k], Failed(message))
       case Understood(output) => d == Decide(eligible[k], Processed(output.provider))
  }

  ghost predicate DecidedBySome(
    d: Decision, eligible: seq<Attachment>, providers: seq<Provider>, process: (Provider, nat) -> Settled, k: nat)
  {
    exists j :: Decided(d, eligible, providers, process, k, j)
  }

  /** Each eligible attachment is decided as the call for one of its id ended. */
  ghost predicate DecidedByCalls(
    rest: seq<Decision>, eligible: seq<Attachment>, providers: seq<Provider>, process: (Provider, nat) -> Settled)
  {
    && |rest| == |eligible|
    && forall k :: 0 <= k < |rest| ==> DecidedBySome(rest[k], eligible, providers, process, k)
  }

  /** Each eligible attachment is decided as its own call ended. */
  ghost predicate DecidedByOwnCalls(
    rest: seq<Decision>, eligible: seq<Attachment>, providers: seq<Provider>, process: (Provider, nat) -> Settled)
  {
    |rest| == |eligible| && forall k :: 0 <= k < |rest| ==> Decided(rest[k], eligible, providers, process, k, k)
  }

  ghost predicate DistinctIds(s: seq<Attachment>) { forall i, j :: 0 <= i < j < |s| ==> s[i].id != s[j].id }

  lemma AllAnswered(
    attachments: seq<Attachment>, c: Config, providers: seq<Provider>, process: (Provider, nat) -> Settled,
    decisions: seq<Decision>)
    requires var skips := Skips(attachments, c);
             && |skips| <= |decisions| && decisions[..|skips|] == skips
             && DecidedByCalls(decisions[|skips|..], Eligible(attachments, c), providers, process)
    ensures Answered(decisions) == Asked(attachments)
  {
    var skips := Skips(attachments, c);
    var rest := decisions[|skips|..];
    assert decisions == skips + rest;
    PolicyConserves(attachments, c);
    AnsweredSplits(skips, rest);
    AnsweredInOrder(Eligible(attachments, c), rest);
  }

  /** Since every eligible id has a result, no decision reports a missing one. */
  lemma CallsDecide(
    rest: seq<Decision>, eligible: seq<Attachment>, providers: seq<Provider>, process: (Provider, nat) -> Settled,
    results: Results)
    requires |rest| == |eligible|
    requires forall k :: 0 <= k < |eligible| ==> rest[k] == Decide(eligible[k], FinalAction(eligible[k], results))
    requires forall k :: 0 <= k < |eligible| ==> eligible[k].id in results
    requires forall id :: id in results ==> exists j :: Stands(eligible, providers, process, results, id, j)
    ensures DecidedByCalls(rest, eligible, providers, process)
    ensures DistinctIds(eligible) ==> DecidedByOwnCalls(rest, eligible, providers, process)
  {
    forall k | 0 <= k < |rest|
      ensures DecidedBySome(rest[k], eligible, providers, process, k)
      ensures DistinctIds(eligible) ==> Decided(rest[k], eligible, providers, process, k, k)
    {
      var j :| Stands(eligible, providers, process, results, eligible[k].id, j);
      assert Decided(rest[k], eligible, providers, process, k, j);
    }
  }

  lemma {:induction false} NoneProcessed(decisions: seq<Decision>)
    requires forall d :: d in decisions ==> d.action == SkippedMime
    ensures ProcessedOnly(decisions) == []
  {
    if decisions != [] {
      NoneProcessed(decisions[..|decisions| - 1]);
    }
  }
}
