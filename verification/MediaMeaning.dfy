/**
 Which attachments of a message are processed and why each other one is not, position by position.
 */
module MediaMeaning {
  import opened Common
  import opened MediaPipeline

  /** The lower-cased type starts with an allowed prefix. */
  ghost predicate TypeAllowed(a: Attachment, c: Config) {
    exists prefix :: prefix in c.allowedMimeTypePrefixes && prefix <= c.lower(a.mimeType)
  }

  ghost predicate Fits(a: Attachment, c: Config) { TypeAllowed(a, c) && !(a.sizeBytes > c.maxFileSizeBytes) }

  /** How many of the first `n` fit. */
  ghost function FitsAmong(attachments: seq<Attachment>, n: nat, c: Config): nat
    requires n <= |attachments|
  {
    if n == 0 then 0 else FitsAmong(attachments, n - 1, c) + if Fits(attachments[n - 1], c) then 1 else 0
  }

  /** The message's limit is reached before position `i`. */
  ghost predicate Full(attachments: seq<Attachment>, i: nat, c: Config)
    requires i <= |attachments|
  {
    FitsAmong(attachments, i, c) >= c.maxAttachmentsPerMessage
  }

  /** `at` are ascending positions below `n`. */
  ghost predicate Ascending(at: seq<nat>, n: nat) {
    (forall k :: 0 <= k < |at| ==> at[k] < n) && forall j, k :: 0 <= j < k < |at| ==> at[j] < at[k]
  }

  /** The positions of the eligible attachments. */
  ghost predicate Takes(attachments: seq<Attachment>, c: Config, taken: seq<nat>, eligible: seq<Attachment>) {
    && Ascending(taken, |attachments|) && |eligible| == |taken|
    && (forall k :: 0 <= k < |taken| ==> eligible[k] == attachments[taken[k]])
    && forall i :: 0 <= i < |attachments| ==>
         (i in taken <==> Fits(attachments[i], c) && !Full(attachments, i, c))
  }

  /** Why position `i` is skipped. */
  ghost function Reason(attachments: seq<Attachment>, i: nat, c: Config): Action
    requires i < |attachments|
  {
    if Full(attachments, i, c) then SkippedLimit
    else if !TypeAllowed(attachments[i], c) then SkippedMime
    else SkippedSize
  }

  /** `d` skips position `i` for its reason. */
  ghost predicate Refuses(attachments: seq<Attachment>, c: Config, i: int, d: Decision) {
    && 0 <= i < |attachments|
    && var a := attachments[i];
       d == Decision(a.id, a.filename, a.mimeType, Reason(attachments, i, c))
  }

  ghost predicate Skipped(attachments: seq<Attachment>, i: int, c: Config) {
    0 <= i < |attachments| && (!Fits(attachments[i], c) || Full(attachments, i, c))
  }

  /** The positions of the skipped attachments. */
  ghost predicate Leaves(attachments: seq<Attachment>, c: Config, left: seq<nat>, decisions: seq<Decision>) {
    && Ascending(left, |attachments|) && |decisions| == |left|
    && (forall k :: 0 <= k < |left| ==> Refuses(attachments, c, left[k], decisions[k]))
    && forall i :: 0 <= i < |attachments| ==> (i in left <==> Skipped(attachments, i, c))
  }

  lemma TypeMeans(a: Attachment, c: Config)
    ensures TypeAllowed(a, c) <==> MimeAllowed(a, c)
  {
    if TypeAllowed(a, c) {
      var prefix :| prefix in c.allowedMimeTypePrefixes && prefix <= c.lower(a.mimeType);
      var k :| 0 <= k < |c.allowedMimeTypePrefixes| && c.allowedMimeTypePrefixes[k] == prefix;
    }
    if k :| 0 <= k < |c.allowedMimeTypePrefixes| && c.allowedMimeTypePrefixes[k] <= c.lower(a.mimeType) {
      assert c.allowedMimeTypePrefixes[k] in c.allowedMimeTypePrefixes;
    }
  }

  lemma {:induction false} PrefixCounts(attachments: seq<Attachment>, n: nat, i: nat, c: Config)
    requires i <= n <= |attachments|
    ensures FitsAmong(attachments[..n], i, c) == FitsAmong(attachments, i, c)
  {
    if i > 0 {
      PrefixCounts(attachments, n, i - 1, c);
    }
  }

  lemma {:induction false} PassingCounts(attachments: seq<Attachment>, c: Config)
    ensures |Passing(attachments, c)| == FitsAmong(attachments, |attachments|, c)
  {
    if attachments != [] {
      var n := |attachments| - 1;
      PassingCounts(attachments[..n], c);
      PrefixCounts(attachments, n, n, c);
      TypeMeans(attachments[n], c);
    }
  }

  /** The reason of the last position. */
  lemma LastReason(attachments: seq<Attachment>, c: Config)
    requires attachments != []
    ensures var n := |attachments| - 1;
            SkipReason(attachments[n], attachments[..n], c)
            == if Fits(attachments[n], c) && !Full(attachments, n, c) then None else Some(Reason(attachments, n, c))
  {
    var n := |attachments| - 1;
    PassingCounts(attachments[..n], c);
    PrefixCounts(attachments, n, n, c);
    TypeMeans(attachments[n], c);
  }

  lemma TakesOn(attachments: seq<Attachment>, c: Config, taken: seq<nat>, eligible: seq<Attachment>)
    returns (all: seq<nat>)
    requires attachments != [] && Takes(attachments[..|attachments| - 1], c, taken, eligible)
    ensures var n := |attachments| - 1;
            var fits := Fits(attachments[n], c) && !Full(attachments, n, c);
            Takes(attachments, c, all, eligible + if fits then [attachments[n]] else [])
  {
    var n := |attachments| - 1;
    var front := attachments[..n];
    forall i | 0 <= i < n ensures Full(front, i, c) <==> Full(attachments, i, c) {
      PrefixCounts(attachments, n, i, c);
    }
    all := taken;
    if Fits(attachments[n], c) && !Full(attachments, n, c) {
      all := taken + [n];
    }
    forall i | 0 <= i < |attachments| ensures i in all <==> Fits(attachments[i], c) && !Full(attachments, i, c) {
      if i < n {
        assert i in taken <==> Fits(front[i], c) && !Full(front, i, c);
      }
    }
  }

  lemma StillFull(attachments: seq<Attachment>, c: Config)
    requires attachments != []
    ensures var n := |attachments| - 1;
            forall i :: 0 <= i < n ==> (Full(attachments[..n], i, c) <==> Full(attachments, i, c))
  {
    var n := |attachments| - 1;
    forall i | 0 <= i < n ensures Full(attachments[..n], i, c) <==> Full(attachments, i, c) {
      PrefixCounts(attachments, n, i, c);
    }
  }

  lemma StillRefuses(attachments: seq<Attachment>, c: Config, i: nat, d: Decision)
    requires attachments != [] && Refuses(attachments[..|attachments| - 1], c, i, d)
    ensures Refuses(attachments, c, i, d)
  {
    StillFull(attachments, c);
  }

  lemma StillSkipped(attachments: seq<Attachment>, c: Config, i: nat)
    requires i < |attachments| - 1
    ensures Skipped(attachments[..|attachments| - 1], i, c) <==> Skipped(attachments, i, c)
  {
    StillFull(attachments, c);
  }

  /** The last position is skipped. */
  lemma LeavesOneMore(attachments: seq<Attachment>, c: Config, left: seq<nat>, decisions: seq<Decision>, d: Decision)
    requires attachments != [] && Leaves(attachments[..|attachments| - 1], c, left, decisions)
    requires Skipped(attachments, |attachments| - 1, c) && Refuses(attachments, c, |attachments| - 1, d)
    ensures Leaves(attachments, c, left + [|attachments| - 1], decisions + [d])
  {
    var n := |attachments| - 1;
    forall k | 0 <= k < |left| ensures Refuses(attachments, c, left[k], decisions[k]) {
      StillRefuses(attachments, c, left[k], decisions[k]);
    }
    forall i | 0 <= i < n ensures i in left <==> Skipped(attachments, i, c) {
      StillSkipped(attachments, c, i);
    }
  }

  /** The last position is not skipped. */
  lemma LeavesNoMore(attachments: seq<Attachment>, c: Config, left: seq<nat>, decisions: seq<Decision>)
    requires attachments != [] && Leaves(attachments[..|attachments| - 1], c, left, decisions)
    requires !Skipped(attachments, |attachments| - 1, c)
    ensures Leaves(attachments, c, left, decisions)
  {
    var n := |attachments| - 1;
    forall k | 0 <= k < |left| ensures Refuses(attachments, c, left[k], decisions[k]) {
      StillRefuses(attachments, c, left[k], decisions[k]);
    }
    forall i | 0 <= i < n ensures i in left <==> Skipped(attachments, i, c) {
      StillSkipped(attachments, c, i);
    }
  }

  /** Taken are exactly the positions that fit, up to the limit; every other one is skipped: for the limit when
      that was reached before it, else for its type when no prefix allows it, else for its size. */
  lemma {:induction false} PolicyMeans(attachments: seq<Attachment>, c: Config)
    returns (taken: seq<nat>, left: seq<nat>)
    ensures Takes(attachments, c, taken, Eligible(attachments, c))
    ensures Leaves(attachments, c, left, Skips(attachments, c))
  {
    taken, left := [], [];
    if attachments != [] {
      var n := |attachments| - 1;
      taken, left := PolicyMeans(attachments[..n], c);
      LastReason(attachments, c);
      PolicyStep(attachments, c);
      assert Eligible(attachments[..n], c) + [] == Eligible(attachments[..n], c);
      taken := TakesOn(attachments, c, taken, Eligible(attachments[..n], c));
      if Skipped(attachments, n, c) {
        var d := Decide(attachments[n], Reason(attachments, n, c));
        LeavesOneMore(attachments, c, left, Skips(attachments[..n], c), d);
        left := left + [n];
      } else {
        LeavesNoMore(attachments, c, left, Skips(attachments[..n], c));
      }
    }
  }

  /** An attachment is handed to the first provider that supports its media type; without one its call ends with
      an error that names the type. */
  lemma SettlementMeans(
    attachments: seq<Attachment>, providers: seq<Provider>, process: (Provider, nat) -> Settled, k: nat, p: nat)
    requires k < |attachments|
    ensures var media := attachments[k].mediaType;
            && ((forall i :: 0 <= i < |providers| ==> media !in providers[i].supportedMediaTypes) ==>
                SettlementOf(attachments, providers, process, k)
                == Error("No provider found for media type \"" + media + "\""))
            && (p < |providers| && media in providers[p].supportedMediaTypes
                && (forall i :: 0 <= i < p ==> media !in providers[i].supportedMediaTypes) ==>
                SettlementOf(attachments, providers, process, k) == process(providers[p], k))
  {}
}
