/**
 What the outbound formatter sends: where a text is cut into code and plain segments, which parts
 of a segment are strong, and what becomes of them for each kind of channel.
 */
module OutboundMeaning {
  import opened Common
  import opened Blanks
  import opened OutboundFormatting

  // ---------- strong text ----------

  predicate TwoAt(s: string, i: int, m: char) { 0 <= i && i + 1 < |s| && s[i] == m && s[i + 1] == m }

  /** A character that may stand next to the markers. */
  predicate MayTouch(c: char, m: char) { !IsBlankChar(c) && c != m }

  /** Two markers at `e` close strong text of two or more characters that opened at the start of `s`. */
  predicate ClosesAt(s: string, e: int, m: char) { 4 <= e < |s| && MayTouch(s[e - 1], m) && TwoAt(s, e, m) }

  /** Strong text at the start of `s`, between markers at 0 and at `e`: the first place that closes it, or, when
      there is none, a single character. */
  ghost predicate StrongUpTo(s: string, e: int, m: char) {
    && TwoAt(s, 0, m) && |s| > 2 && MayTouch(s[2], m)
    && (|| (ClosesAt(s, e, m) && forall d :: 4 <= d < e ==> !ClosesAt(s, d, m))
        || (e == 3 && TwoAt(s, 3, m) && forall d :: 4 <= d < |s| ==> !ClosesAt(s, d, m)))
  }

  lemma {:induction false} FindCloseMeans(s: string, from: nat, m: char)
    requires from >= 3
    ensures var r := FindClose(s, from, m);
            && (r.Some? ==> ClosesAt(s, r.value + 1, m) && forall d :: from < d <= r.value ==> !ClosesAt(s, d, m))
            && (r.None? ==> forall d :: from < d < |s| ==> !ClosesAt(s, d, m))
    decreases |s| - from
  {
    if from < |s| {
      BlankCharMeans(s[from]);
      if !(IsEdge(s[from], m) && PairAt(s, from + 1, m)) {
        assert !ClosesAt(s, from + 1, m);
        FindCloseMeans(s, from + 1, m);
      }
    }
  }

  lemma MatchMeans(s: string, m: char)
    ensures forall e :: StrongUpTo(s, e, m) <==> MatchStrong(s, m).Some? && MatchStrong(s, m).value == e
  {
    if |s| > 2 {
      BlankCharMeans(s[2]);
      FindCloseMeans(s, 3, m);
      var close := FindClose(s, 3, m);
      if close.Some? {
        assert ClosesAt(s, close.value + 1, m) && close.value + 1 < |s|;
      }
    }
  }

  /** Strong text starts at `at`; its closing markers stand `e` behind. */
  ghost predicate StrongAt(s: string, at: int, e: int, m: char) { 0 <= at <= |s| && StrongUpTo(s[at..], e, m) }

  /** No strong text starts before `at`. */
  ghost predicate NoneBefore(s: string, at: int, m: char) { forall i, e :: 0 <= i < at ==> !StrongAt(s, i, e, m) }

  function Shown(inner: string, asterisks: bool): string { if asterisks then "*" + inner + "*" else inner }

  /** The first strong text of `s` starts at `at`; in `out` it stands without its markers, and `rest` is what
      becomes of the text behind it. */
  ghost predicate FirstUnmarked(s: string, out: string, m: char, asterisks: bool, at: int, e: int, rest: string) {
    && NoneBefore(s, at, m) && StrongAt(s, at, e, m) && 2 <= e && at + e + 2 <= |s|
    && out == s[..at] + (Shown(s[at + 2..at + e], asterisks) + rest)
  }

  /** `out` is `s` with its leftmost strong texts, which do not overlap, without their markers or with single
      asterisks instead. */
  ghost predicate IsUnmarked(s: string, out: string, m: char, asterisks: bool)
    decreases |s|
  {
    || (NoneBefore(s, |s| + 1, m) && out == s)
    || exists at, e, rest ::
         FirstUnmarked(s, out, m, asterisks, at, e, rest) && IsUnmarked(s[at + e + 2..], rest, m, asterisks)
  }

  lemma ShiftStrong(s: string, i: int, e: int, m: char)
    requires s != "" && i >= 1
    ensures StrongAt(s, i, e, m) <==> StrongAt(s[1..], i - 1, e, m)
  {
    if i <= |s| {
      assert s[i..] == s[1..][i - 1..];
    }
  }

  lemma ShiftNone(s: string, at: int, m: char)
    requires s != "" && (forall e :: !StrongAt(s, 0, e, m)) && NoneBefore(s[1..], at - 1, m)
    ensures NoneBefore(s, at, m)
  {
    forall i, e | 0 <= i < at ensures !StrongAt(s, i, e, m) {
      if i >= 1 {
        ShiftStrong(s, i, e, m);
      }
    }
  }

  lemma ShiftFirst(s: string, out: string, m: char, asterisks: bool, at: int, e: int, rest: string)
    requires s != "" && (forall d :: !StrongAt(s, 0, d, m)) && FirstUnmarked(s[1..], out, m, asterisks, at, e, rest)
    ensures FirstUnmarked(s, [s[0]] + out, m, asterisks, at + 1, e, rest) && s[1..][at + e + 2..] == s[at + 1 + e + 2..]
  {
    ShiftNone(s, at + 1, m);
    ShiftStrong(s, at + 1, e, m);
    assert s[..at + 1] == [s[0]] + s[1..][..at] && s[1..][at + 2..at + e] == s[at + 1 + 2..at + 1 + e];
  }

  /** A character that starts no strong text stays. */
  lemma UnmarkedCons(s: string, out: string, m: char, asterisks: bool)
    requires s != "" && (forall e :: !StrongAt(s, 0, e, m)) && IsUnmarked(s[1..], out, m, asterisks)
    ensures IsUnmarked(s, [s[0]] + out, m, asterisks)
  {
    if NoneBefore(s[1..], |s[1..]| + 1, m) && out == s[1..] {
      ShiftNone(s, |s| + 1, m);
      assert s == [s[0]] + s[1..];
    } else {
      var at, e, rest :| FirstUnmarked(s[1..], out, m, asterisks, at, e, rest)
        && IsUnmarked(s[1..][at + e + 2..], rest, m, asterisks);
      ShiftFirst(s, out, m, asterisks, at, e, rest);
    }
  }

  lemma NothingStrong(m: char, asterisks: bool)
    ensures IsUnmarked("", "", m, asterisks)
  {
    forall i, e | 0 <= i < 1 ensures !StrongAt("", i, e, m) {
      assert ""[i..] == "";
    }
  }

  lemma FirstAtStart(s: string, e: nat, later: string, m: char, mode: StrongMode)
    requires s != "" && MatchStrong(s, m) == Some(e)
    ensures FirstUnmarked(s, Surround(s[2..e], mode) + later, m, mode.SingleAsterisk?, 0, e, later)
  {
    MatchMeans(s, m);
    assert s[0..] == s && StrongUpTo(s, e, m);
    assert s[..0] == "";
  }

  lemma UnmarkedMatch(s: string, e: nat, later: string, m: char, mode: StrongMode)
    requires s != "" && MatchStrong(s, m) == Some(e) && IsUnmarked(s[e + 2..], later, m, mode.SingleAsterisk?)
    ensures IsUnmarked(s, Surround(s[2..e], mode) + later, m, mode.SingleAsterisk?)
  {
    FirstAtStart(s, e, later, m, mode);
    assert s[0 + e + 2..] == s[e + 2..];
  }

  lemma NoMatch(s: string, m: char)
    requires MatchStrong(s, m).None?
    ensures forall e :: !StrongAt(s, 0, e, m)
  {
    MatchMeans(s, m);
    assert s[0..] == s;
  }

  lemma {:induction false} ReplaceMeans(s: string, m: char, mode: StrongMode)
    ensures IsUnmarked(s, ReplaceStrong(s, m, mode), m, mode.SingleAsterisk?)
    decreases |s|
  {
    if s == "" {
      NothingStrong(m, mode.SingleAsterisk?);
    } else {
      var found := MatchStrong(s, m);
      if found.Some? {
        ReplaceMeans(s[found.value + 2..], m, mode);
        UnmarkedMatch(s, found.value, ReplaceStrong(s[found.value + 2..], m, mode), m, mode);
      } else {
        ReplaceMeans(s[1..], m, mode);
        NoMatch(s, m);
        UnmarkedCons(s, ReplaceStrong(s[1..], m, mode), m, mode.SingleAsterisk?);
      }
    }
  }

  /** A segment is first unmarked of asterisks and then of underscores. */
  ghost predicate SegmentBecomes(s: string, out: string, asterisks: bool) {
    exists between :: IsUnmarked(s, between, '*', asterisks) && IsUnmarked(between, out, '_', asterisks)
  }

  lemma SegmentMeans(s: string, mode: StrongMode)
    ensures SegmentBecomes(s, StrongMarkers(mode)(s), mode.SingleAsterisk?)
  {
    var between := ReplaceStrong(s, '*', mode);
    ReplaceMeans(s, '*', mode);
    ReplaceMeans(between, '_', mode);
  }

  // ---------- code and segments ----------

  /** Three backticks at `i`. */
  predicate ThreeTicks(t: string, i: int) { 0 <= i && i + 2 < |t| && t[i] == '`' && t[i + 1] == '`' && t[i + 2] == '`' }

  predicate OneTick(t: string, i: int) { 0 <= i < |t| && t[i] == '`' }

  /** A code block from the start of `t` to its end or to behind the next three backticks. */
  ghost predicate BlockUpTo(t: string, n: int) {
    && ThreeTicks(t, 0)
    && (|| (6 <= n && ThreeTicks(t, n - 3) && forall i :: 3 <= i < n - 3 ==> !ThreeTicks(t, i))
        || (n == |t| && forall i :: 3 <= i < |t| ==> !ThreeTicks(t, i)))
  }

  /** A code span from the start of `t` to its end or to behind the next backtick. */
  ghost predicate SpanUpTo(t: string, n: int) {
    && OneTick(t, 0) && !ThreeTicks(t, 0)
    && (|| (2 <= n && OneTick(t, n - 1) && forall i :: 1 <= i < n - 1 ==> !OneTick(t, i))
        || (n == |t| && forall i :: 1 <= i < |t| ==> !OneTick(t, i)))
  }

  /** A segment from the start of `t` up to the next backtick or the end. */
  ghost predicate SegmentUpTo(t: string, n: int) {
    && !OneTick(t, 0) && 0 < n <= |t|
    && (forall i :: 0 <= i < n ==> !OneTick(t, i)) && (n == |t| || OneTick(t, n))
  }

  lemma FirstPieceMeans(t: string)
    requires t != ""
    ensures var n := FirstLength(t);
            && FirstPiece(t).text == t[..n]
            && (FirstPiece(t).Code? <==> BlockUpTo(t, n) || SpanUpTo(t, n))
            && (FirstPiece(t).Plain? <==> SegmentUpTo(t, n))
  {
    if FenceAt(t, 0) {
      FenceMeans(t);
    } else if TickAt(t, 0) {
      SpanMeans(t);
    } else {
      PlainMeans(t);
    }
  }

  lemma FenceMeans(t: string)
    requires FenceAt(t, 0)
    ensures BlockUpTo(t, FirstLength(t))
  {
    var end := FindFence(t, 3);
    assert forall i: nat :: FenceAt(t, i) <==> ThreeTicks(t, i);
    if end.None? {
      forall i | 3 <= i < |t| ensures !ThreeTicks(t, i) {
        assert !FenceAt(t, i);
      }
    } else {
      forall i | 3 <= i < end.value ensures !ThreeTicks(t, i) {
        assert !FenceAt(t, i);
      }
    }
  }

  lemma SpanMeans(t: string)
    requires TickAt(t, 0) && !FenceAt(t, 0)
    ensures SpanUpTo(t, FirstLength(t))
  {
    var end := FindTick(t, 1);
    if end.None? {
      forall i | 1 <= i < |t| ensures !OneTick(t, i) {
        assert !TickAt(t, i);
      }
    } else {
      forall i | 1 <= i < end.value ensures !OneTick(t, i) {
        assert !TickAt(t, i);
      }
    }
  }

  lemma PlainMeans(t: string)
    requires t != "" && !TickAt(t, 0)
    ensures SegmentUpTo(t, FirstLength(t))
  {
    forall i | 0 <= i < FirstLength(t) ensures !OneTick(t, i) {
      assert !TickAt(t, i);
    }
  }

  /** `out` is `t` with its code as it is and each segment replaced by what `f` makes of it. */
  ghost predicate Becomes(t: string, out: string, f: string -> string)
    decreases |t|
  {
    if t == "" then out == ""
    else
      exists n, rest :: 0 < n <= |t| && Becomes(t[n..], rest, f)
        && (|| ((BlockUpTo(t, n) || SpanUpTo(t, n)) && out == t[..n] + rest)
            || (SegmentUpTo(t, n) && out == f(t[..n]) + rest))
  }

  lemma {:induction false} FormattedMeans(t: string, f: string -> string)
    ensures Becomes(t, Formatted(t, f), f)
    decreases |t|
  {
    if t != "" {
      var n := FirstLength(t);
      FirstPieceMeans(t);
      FormattedUnfolds(t, f);
      FormattedMeans(t[n..], f);
      var rest := Formatted(t[n..], f);
      assert Becomes(t[n..], rest, f);
    }
  }

  // ---------- channels ----------

  /** For every channel kind and text: "discord" sends the text as it is; every other kind leaves code alone and
      unmarks the strong text of each segment, "slack" and "whatsapp" with single asterisks around it.  `lower`
      is the platform's lower-casing; kinds are taken without the blanks around them. */
  lemma OutboundSends(lower: string -> string, kind: string, text: string) returns (name: string, f: string -> string)
    ensures exists core :: IsTrimmed(kind, core) && name == lower(core)
    ensures name == "discord" ==> OutboundText(lower, kind, text) == text
    ensures name != "discord" ==>
              && Becomes(text, OutboundText(lower, kind, text), f)
              && forall s :: SegmentBecomes(s, f(s), name == "slack" || name == "whatsapp")
  {
    TrimMeans(kind);
    name := lower(TrimString(kind));
    f := s => s;
    if name != "discord" {
      var mode := if name == "slack" || name == "whatsapp" then SingleAsterisk else Strip;
      f := StrongMarkers(mode);
      FormattedMeans(text, f);
      forall s ensures SegmentBecomes(s, f(s), name == "slack" || name == "whatsapp") {
        SegmentMeans(s, mode);
      }
    }
  }
}
