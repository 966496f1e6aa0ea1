/**
 Outbound text formatting: a left-to-right scan sets code spans aside, and only the text
 between them is rewritten for the channel's markdown dialect.
 */
module OutboundFormatting {
  import opened Common

  // ---------- the scanner ----------

  datatype Piece = Plain(text: string) | Code(text: string)

  predicate TickAt(t: string, i: nat) { i < |t| && t[i] == '`' }

  predicate FenceAt(t: string, i: nat) { TickAt(t, i) && TickAt(t, i + 1) && TickAt(t, i + 2) }

  /** `t.indexOf("`", from)`. */
  function FindTick(t: string, from: nat): (r: Option<nat>)
    ensures r.Some? ==> from <= r.value && TickAt(t, r.value) && forall i :: from <= i < r.value ==> !TickAt(t, i)
    ensures r.None? ==> forall i :: from <= i ==> !TickAt(t, i)
    decreases |t| - from
  {
    if from >= |t| then None else if TickAt(t, from) then Some(from) else FindTick(t, from + 1)
  }

  /** `t.indexOf("```", from)`. */
  function FindFence(t: string, from: nat): (r: Option<nat>)
    ensures r.Some? ==> from <= r.value && FenceAt(t, r.value) && forall i :: from <= i < r.value ==> !FenceAt(t, i)
    ensures r.None? ==> forall i :: from <= i ==> !FenceAt(t, i)
    decreases |t| - from
  {
    if from >= |t| then None else if FenceAt(t, from) then Some(from) else FindFence(t, from + 1)
  }

  /** How many characters the first piece of a nonempty text takes. */
  function FirstLength(t: string): (n: nat)
    requires t != ""
    ensures 0 < n <= |t|
  {
    if FenceAt(t, 0) then
      var end := FindFence(t, 3);
      if end.None? then |t| else end.value + 3
    else if TickAt(t, 0) then
      var end := FindTick(t, 1);
      if end.None? then |t| else end.value + 1
    else
      var next := FindTick(t, 0);
      if next.None? then |t| else next.value
  }

  function FirstPiece(t: string): Piece
    requires t != ""
  {
    if TickAt(t, 0) then Code(t[..FirstLength(t)]) else Plain(t[..FirstLength(t)])
  }

  /** The code spans and the text between them, in order. */
  function Scan(t: string): seq<Piece>
    decreases |t|
  {
    if t == "" then [] else [FirstPiece(t)] + Scan(t[FirstLength(t)..])
  }

  function Rewrite(p: Piece, f: string -> string): Piece {
    match p
    case Plain(text) => Plain(f(text))
    case Code(text) => p
  }

  function RewriteAll(ps: seq<Piece>, f: string -> string): seq<Piece> {
    if ps == [] then [] else [Rewrite(ps[0], f)] + RewriteAll(ps[1..], f)
  }

  function Concat(ps: seq<Piece>): string {
    if ps == [] then "" else ps[0].text + Concat(ps[1..])
  }

  /** The text with `f` applied between its code spans. */
  function Formatted(t: string, f: string -> string): string { Concat(RewriteAll(Scan(t), f)) }

  lemma FormattedUnfolds(t: string, f: string -> string)
    requires t != ""
    ensures Formatted(t, f) == Rewrite(FirstPiece(t), f).text + Formatted(t[FirstLength(t)..], f)
  {
    assert RewriteAll(Scan(t), f)[1..] == RewriteAll(Scan(t)[1..], f);
  }

  /** The step the loop takes from `index`: the next piece is rewritten and put out. */
  lemma LoopStep(text: string, index: nat, f: string -> string, output: string, target: string)
    requires index < |text| && output + Formatted(text[index..], f) == target
    ensures var rest := text[index..];
            (output + Rewrite(FirstPiece(rest), f).text) + Formatted(text[index + FirstLength(rest)..], f) == target
  {
    var rest := text[index..];
    FormattedUnfolds(rest, f);
    assert text[index + FirstLength(rest)..] == rest[FirstLength(rest)..];
  }

  /** One round of the loop: what is put out for the next piece, and how long the piece is. */
  method NextPiece(rest: string, transform: string -> string) returns (piece: string, length: nat)
    requires rest != ""
    ensures length == FirstLength(rest) && piece == Rewrite(FirstPiece(rest), transform).text
  {
    if FenceAt(rest, 0) {
      var end := FindFence(rest, 3);
      length := if end.None? then |rest| else end.value + 3;
      return rest[..length], length;
    }
    if TickAt(rest, 0) {
      var end := FindTick(rest, 1);
      length := if end.None? then |rest| else end.value + 1;
      return rest[..length], length;
    }
    var next := FindTick(rest, 0);
    length := if next.None? then |rest| else next.value;
    return transform(rest[..length]), length;
  }

  method TransformOutsideCode(text: string, transform: string -> string) returns (output: string)
    ensures output == Formatted(text, transform)
  {
    output := "";
    var index := 0;
    assert text[0..] == text;
    while index < |text|
      invariant 0 <= index <= |text|
      invariant output + Formatted(text[index..], transform) == Formatted(text, transform)
    {
      LoopStep(text, index, transform, output, Formatted(text, transform));
      var piece, length := NextPiece(text[index..], transform);
      output := output + piece;
      index := index + length;
    }
  }

  // ---------- strong markers ----------

  /** `[^\s*]`, for the marker at hand. */
  predicate IsEdge(c: char, m: char) { !IsSpaceChar(c) && c != m }

  predicate PairAt(s: string, i: nat, m: char) { i + 1 < |s| && s[i] == m && s[i + 1] == m }

  /** The first place at or after `from` where an edge character is followed by two markers. */
  function FindClose(s: string, from: nat, m: char): (r: Option<nat>)
    ensures r.Some? ==> from <= r.value && r.value + 2 < |s| && PairAt(s, r.value + 1, m)
    decreases |s| - from
  {
    if from >= |s| then None
    else if IsEdge(s[from], m) && PairAt(s, from + 1, m) then Some(from)
    else FindClose(s, from + 1, m)
  }

  /** A match of two markers, text with edges, two markers at the start of `s`: where its inner text
      ends. The longer alternative of the pattern is tried first. */
  function MatchStrong(s: string, m: char): (r: Option<nat>)
    ensures r.Some? ==> 3 <= r.value && r.value + 2 <= |s| && PairAt(s, 0, m) && PairAt(s, r.value, m)
  {
    if !PairAt(s, 0, m) || |s| < 3 || !IsEdge(s[2], m) then None
    else
      var close := FindClose(s, 3, m);
      if close.Some? then Some(close.value + 1)
      else if PairAt(s, 3, m) then Some(3)
      else None
  }

  datatype StrongMode = Strip | SingleAsterisk

  function Surround(inner: string, mode: StrongMode): string {
    if mode.SingleAsterisk? then "*" + inner + "*" else inner
  }

  /** The global replacement of one marker. */
  function ReplaceStrong(s: string, m: char, mode: StrongMode): string
    decreases |s|
  {
    if s == "" then ""
    else
      var inner := MatchStrong(s, m);
      if inner.Some? then Surround(s[2..inner.value], mode) + ReplaceStrong(s[inner.value + 2..], m, mode)
      else [s[0]] + ReplaceStrong(s[1..], m, mode)
  }

  function StrongMarkers(mode: StrongMode): string -> string {
    s => ReplaceStrong(ReplaceStrong(s, '*', mode), '_', mode)
  }

  /** The dialect of a channel kind, already trimmed and lower-cased; none keeps the text. */
  function ModeOf(kind: string): Option<StrongMode> {
    if kind == "discord" then None
    else if kind == "slack" || kind == "whatsapp" then Some(SingleAsterisk)
    else Some(Strip)
  }

  /** `lower` is the platform's lower-casing. */
  function OutboundText(lower: string -> string, kind: string, text: string): string {
    match ModeOf(lower(TrimString(kind)))
    case None => text
    case Some(mode) => Formatted(text, StrongMarkers(mode))
  }
}
