/**
 Formatting leaves code alone: scanning the formatted text finds the same code spans with the
 rewritten text between them, and apart from markers no character is lost or added.
 */
module OutboundFormattingProofs {
  import opened Common
  import opened OutboundFormatting

  predicate TickFree(s: string) { forall i :: 0 <= i < |s| ==> s[i] != '`' }

  /** What the scanner needs of a segment transform. */
  ghost predicate KeepsSegments(f: string -> string) {
    forall s :: s != "" && TickFree(s) ==> f(s) != "" && TickFree(f(s))
  }

  // ---------- the scanner ----------

  lemma FirstPieceShape(t: string)
    requires t != ""
    ensures FirstPiece(t).text == t[..FirstLength(t)] != ""
    ensures t == FirstPiece(t).text + t[FirstLength(t)..]
    ensures FirstPiece(t).Plain? ==> TickFree(FirstPiece(t).text) && !TickAt(t, 0)
    ensures FirstPiece(t).Code? ==> TickAt(t, 0)
  {
    if !TickAt(t, 0) {
      forall i | 0 <= i < FirstLength(t) ensures t[i] != '`' {
        assert !TickAt(t, i);
      }
    }
  }

  /** The transform only ever sees nonempty segments without a backtick. */
  lemma {:induction false} SegmentsAreTickFree(t: string)
    ensures forall i :: 0 <= i < |Scan(t)| && Scan(t)[i].Plain? ==> Scan(t)[i].text != "" && TickFree(Scan(t)[i].text)
    decreases |t|
  {
    if t != "" {
      FirstPieceShape(t);
      SegmentsAreTickFree(t[FirstLength(t)..]);
    }
  }

  /** The pieces make up the text, so the identity transform gives it back. */
  lemma {:induction false} PiecesMakeText(t: string)
    ensures Concat(Scan(t)) == t
    decreases |t|
  {
    if t != "" {
      FirstPieceShape(t);
      PiecesMakeText(t[FirstLength(t)..]);
    }
  }

  lemma {:induction false} RewriteNothing(ps: seq<Piece>, f: string -> string)
    requires forall s :: f(s) == s
    ensures RewriteAll(ps, f) == ps
  {
    if ps != [] {
      RewriteNothing(ps[1..], f);
      assert ps == [ps[0]] + ps[1..];
    }
  }

  lemma IdentityKeepsText(t: string, f: string -> string)
    requires forall s :: f(s) == s
    ensures Formatted(t, f) == t
  {
    RewriteNothing(Scan(t), f);
    PiecesMakeText(t);
  }

  /** Formatting keeps emptiness and whether a text starts with a backtick. */
  lemma FormattedHead(t: string, f: string -> string)
    requires KeepsSegments(f)
    ensures Formatted(t, f) == "" <==> t == ""
    ensures TickAt(Formatted(t, f), 0) <==> TickAt(t, 0)
  {
    if t != "" {
      FormattedUnfolds(t, f);
      FirstPieceShape(t);
    }
  }

  /** A closed fence is recognised whatever follows it. */
  lemma FenceAgain(c: string, r: string, r': string)
    requires FenceAt(c + r, 0) && FindFence(c + r, 3) == Some(|c| - 3) && |c| >= 6
    ensures FirstLength(c + r') == |c| && FenceAt(c + r', 0)
  {
    var t, u := c + r, c + r';
    assert forall i :: 0 <= i < |c| ==> t[i] == c[i] && u[i] == c[i];
    assert FenceAt(t, |c| - 3) && FenceAt(u, |c| - 3);
    forall i | 3 <= i < |c| - 3 ensures !FenceAt(u, i) {
      assert !FenceAt(t, i);
    }
    assert FindFence(u, 3) == Some(|c| - 3);
  }

  /** A closed inline span is recognised again unless it becomes a fence. */
  lemma InlineAgain(c: string, r: string, r': string)
    requires |c| >= 2 && TickAt(c + r, 0) && !FenceAt(c + r, 0) && FindTick(c + r, 1) == Some(|c| - 1)
    requires TickAt(r', 0) ==> TickAt(r, 0)
    ensures FirstLength(c + r') == |c| && !FenceAt(c + r', 0)
  {
    var t, u := c + r, c + r';
    assert forall i :: 0 <= i < |c| ==> t[i] == c[i] && u[i] == c[i];
    assert TickAt(t, |c| - 1) && TickAt(u, |c| - 1);
    assert forall i :: 1 <= i < |c| - 1 ==> !TickAt(t, i);
    if |c| == 2 {
      assert TickAt(t, 1);
      assert !TickAt(t, 2);
      assert TickAt(u, 2) <==> TickAt(r', 0);
      assert TickAt(t, 2) <==> TickAt(r, 0);
    } else {
      assert !TickAt(t, 1) && t[1] == u[1];
    }
    forall i | 1 <= i < |c| - 1 ensures !TickAt(u, i) {
      assert !TickAt(t, i);
    }
    assert FindTick(u, 1) == Some(|c| - 1);
  }

  lemma PlainAgain(s: string, r: string)
    requires s != "" && TickFree(s) && (r == "" || TickAt(r, 0))
    ensures FirstLength(s + r) == |s| && FirstPiece(s + r) == Plain(s)
  {
    var u := s + r;
    assert !TickAt(u, 0);
    forall i | 0 <= i < |s| ensures !TickAt(u, i) {
      assert u[i] == s[i];
    }
    if r != "" {
      assert TickAt(u, |s|);
      assert FindTick(u, 0) == Some(|s|);
    } else {
      assert u == s;
      assert FindTick(u, 0).None?;
    }
  }

  /** A code span at the head is found again in front of any rest that starts alike. */
  lemma CodeAgain(t: string, r': string)
    requires TickAt(t, 0)
    requires var r := t[FirstLength(t)..];
             (r' == "" <==> r == "") && (TickAt(r', 0) <==> TickAt(r, 0))
    ensures var c := t[..FirstLength(t)];
            FirstLength(c + r') == |c| && FirstPiece(c + r') == Code(c)
  {
    var n := FirstLength(t);
    var c, r := t[..n], t[n..];
    assert t == c + r;
    if r == "" {
      assert c + r' == t;
    } else if FenceAt(t, 0) {
      FenceAgain(c, r, r');
    } else {
      InlineAgain(c, r, r');
    }
    assert (c + r')[0] == t[0];
    assert (c + r')[..n] == c;
  }

  /** Rescanning the formatted text finds the same code spans, with the rewritten segments between them. */
  lemma {:induction false} RescanFindsSamePieces(t: string, f: string -> string)
    requires KeepsSegments(f)
    ensures Scan(Formatted(t, f)) == RewriteAll(Scan(t), f)
    decreases |t|
  {
    if t != "" {
      var n := FirstLength(t);
      var r := t[n..];
      var p := Rewrite(FirstPiece(t), f);
      var r' := Formatted(r, f);
      var u := Formatted(t, f);
      FirstPieceShape(t);
      FormattedUnfolds(t, f);
      FormattedHead(r, f);
      RescanFindsSamePieces(r, f);
      if TickAt(t, 0) {
        CodeAgain(t, r');
      } else {
        assert r == "" || TickAt(r, 0);
        PlainAgain(p.text, r');
      }
      assert u[FirstLength(u)..] == r';
      assert RewriteAll(Scan(t), f)[1..] == RewriteAll(Scan(r), f);
    }
  }

  ghost predicate AlwaysRescans(f: string -> string) {
    forall t :: Scan(Formatted(t, f)) == RewriteAll(Scan(t), f)
  }

  lemma SegmentAlone(s: string, f: string -> string)
    requires s != "" && TickFree(s) && Scan(Formatted(s, f)) == RewriteAll(Scan(s), f)
    ensures f(s) != "" && TickFree(f(s))
  {
    PlainAgain(s, "");
    assert s + "" == s;
    assert Scan(s) == [Plain(s)];
    assert Formatted(s, f) == f(s) + Concat([]);
    assert Formatted(s, f) == f(s);
    SegmentsAreTickFree(f(s));
    assert RewriteAll(Scan(s), f) == [Plain(f(s))];
    assert Scan(f(s))[0] == Plain(f(s));
  }

  /** Rescanning works for a transform exactly when it keeps segments nonempty and free of backticks. */
  lemma RescanExactly(f: string -> string)
    ensures AlwaysRescans(f) <==> KeepsSegments(f)
  {
    if KeepsSegments(f) {
      forall t ensures Scan(Formatted(t, f)) == RewriteAll(Scan(t), f) {
        RescanFindsSamePieces(t, f);
      }
    }
    if AlwaysRescans(f) {
      forall s | s != "" && TickFree(s) ensures f(s) != "" && TickFree(f(s)) {
        SegmentAlone(s, f);
      }
    }
  }

  function CodeSpans(ps: seq<Piece>): seq<string> {
    if ps == [] then [] else (if ps[0].Code? then [ps[0].text] else []) + CodeSpans(ps[1..])
  }

  /** A transform that empties a segment can change the code spans: here two of them become one. */
  lemma EmptyingJoinsCode(f: string -> string)
    requires f("x") == ""
    ensures Formatted("``x`b`", f) == "```b`"
    ensures CodeSpans(Scan("``x`b`")) == ["``", "`b`"] && CodeSpans(Scan("```b`")) == ["```b`"]
  {
    ExampleScan();
    RewriteThree(Code("``"), Plain("x"), Code("`b`"), f);
    ConcatThree(Code("``"), Plain(""), Code("`b`"));
    CodeOfThree("``", "x", "`b`");
    FenceAlone();
  }

  lemma RewriteThree(a: Piece, b: Piece, c: Piece, f: string -> string)
    ensures RewriteAll([a] + ([b] + [c]), f) == [Rewrite(a, f)] + ([Rewrite(b, f)] + [Rewrite(c, f)])
  {
    assert ([a] + ([b] + [c]))[1..] == [b] + [c] && ([b] + [c])[1..] == [c] && [c][1..] == [];
    assert RewriteAll([c], f) == [Rewrite(c, f)] + RewriteAll([], f);
  }

  lemma CodeOfThree(a: string, b: string, c: string)
    ensures CodeSpans([Code(a)] + ([Plain(b)] + [Code(c)])) == [a, c]
  {
    var last, mid := [Code(c)], [Plain(b)] + [Code(c)];
    assert ([Code(a)] + mid)[1..] == mid && mid[1..] == last && last[1..] == [];
    assert CodeSpans(last) == [c] + CodeSpans([]);
    assert CodeSpans(mid) == CodeSpans(last);
  }

  lemma ConcatThree(a: Piece, b: Piece, c: Piece)
    ensures Concat([a] + ([b] + [c])) == a.text + (b.text + c.text)
  {
    assert ([a] + ([b] + [c]))[1..] == [b] + [c] && ([b] + [c])[1..] == [c] && [c][1..] == [];
    assert Concat([c]) == c.text + Concat([]) && Concat([b] + [c]) == b.text + Concat([c]);
  }

  lemma ExampleScan()
    ensures Scan("``x`b`") == [Code("``")] + ([Plain("x")] + [Code("`b`")])
  {
    var t, u, v := "``x`b`", "x`b`", "`b`";
    assert t[2..] == u && u[1..] == v && v[3..] == "";
    assert FirstLength(t) == 2 && FirstLength(u) == 1 && FirstLength(v) == 3;
    assert t[..2] == "``" && u[..1] == "x" && v[..3] == v;
    assert Scan(v) == [Code(v)];
    assert Scan(u) == [Plain("x")] + Scan(v);
  }

  lemma FenceAlone()
    ensures CodeSpans(Scan("```b`")) == ["```b`"]
  {
    var w := "```b`";
    assert !FenceAt(w, 3) && !FenceAt(w, 4) && FindFence(w, 5).None?;
    assert FirstLength(w) == 5 && w[..5] == w && w[5..] == "";
    assert Scan(w) == [Code(w)];
    assert CodeSpans(Scan(w)) == [w] + CodeSpans([]);
  }

  lemma {:induction false} RewriteKeepsCode(ps: seq<Piece>, f: string -> string)
    ensures CodeSpans(RewriteAll(ps, f)) == CodeSpans(ps)
  {
    if ps != [] {
      RewriteKeepsCode(ps[1..], f);
      assert RewriteAll(ps, f)[1..] == RewriteAll(ps[1..], f);
    }
  }

  // ---------- the strong-marker transform ----------

  lemma {:induction false} ReplaceKeepsSegments(s: string, m: char, mode: StrongMode)
    requires TickFree(s)
    ensures TickFree(ReplaceStrong(s, m, mode))
    ensures s != "" ==> ReplaceStrong(s, m, mode) != ""
    decreases |s|
  {
    if s != "" {
      var inner := MatchStrong(s, m);
      if inner.Some? {
        ReplaceKeepsSegments(s[inner.value + 2..], m, mode);
        assert TickFree(s[2..inner.value]) && s[2..inner.value] != "";
        assert TickFree(Surround(s[2..inner.value], mode)) && Surround(s[2..inner.value], mode) != "";
      } else {
        ReplaceKeepsSegments(s[1..], m, mode);
      }
    }
  }

  lemma StrongMarkersKeepSegments(mode: StrongMode)
    ensures KeepsSegments(StrongMarkers(mode))
  {
    forall s | s != "" && TickFree(s) ensures StrongMarkers(mode)(s) != "" && TickFree(StrongMarkers(mode)(s)) {
      ReplaceKeepsSegments(s, '*', mode);
      ReplaceKeepsSegments(ReplaceStrong(s, '*', mode), '_', mode);
    }
  }

  predicate IsMarker(c: char) { c == '*' || c == '_' }

  /** The characters that are no markers. */
  function Words(s: string): string {
    if s == "" then "" else (if IsMarker(s[0]) then "" else [s[0]]) + Words(s[1..])
  }

  lemma {:induction false} WordsConcat(a: string, b: string)
    ensures Words(a + b) == Words(a) + Words(b)
  {
    if a == "" {
      assert a + b == b;
    } else {
      WordsConcat(a[1..], b);
      assert (a + b)[0] == a[0] && (a + b)[1..] == a[1..] + b;
      Regroup(if IsMarker(a[0]) then "" else [a[0]], Words(a[1..]), Words(b));
    }
  }

  lemma WordsOfPair(m: char)
    requires IsMarker(m)
    ensures Words([m, m]) == "" && Words([m]) == ""
  {
    assert [m][1..] == "" && Words("") == "";
    assert Words([m]) == "" + Words([m][1..]);
    assert [m, m][1..] == [m];
    assert Words([m, m]) == "" + Words([m, m][1..]);
  }

  lemma WordsSurrounded(inner: string, mode: StrongMode)
    ensures Words(Surround(inner, mode)) == Words(inner)
  {
    WordsOfPair('*');
    WordsConcat("*", inner);
    WordsConcat("*" + inner, "*");
  }

  lemma WordsOfStrong(inner: string, rest: string, m: char)
    requires IsMarker(m)
    ensures Words([m, m] + (inner + ([m, m] + rest))) == Words(inner) + Words(rest)
  {
    WordsConcat([m, m], inner + ([m, m] + rest));
    WordsConcat(inner, [m, m] + rest);
    WordsConcat([m, m], rest);
    WordsOfPair(m);
  }

  lemma SplitAtMatch(s: string, m: char)
    requires MatchStrong(s, m).Some?
    ensures var e := MatchStrong(s, m).value;
            s == [m, m] + (s[2..e] + ([m, m] + s[e + 2..]))
  {
    var e := MatchStrong(s, m).value;
    assert s[..2] == [m, m] && s[e..e + 2] == [m, m];
    CutInFour(s, 2, e, e + 2);
  }

  lemma CutInFour(s: string, i: nat, j: nat, k: nat)
    requires i <= j <= k <= |s|
    ensures s == s[..i] + (s[i..j] + (s[j..k] + s[k..]))
  {
    assert s[j..] == s[j..k] + s[k..];
    assert s[i..] == s[i..j] + s[j..];
    assert s == s[..i] + s[i..];
  }

  /** Replacing a marker touches markers only. */
  lemma {:induction false} ReplaceKeepsWords(s: string, m: char, mode: StrongMode)
    requires IsMarker(m)
    ensures Words(ReplaceStrong(s, m, mode)) == Words(s)
    decreases |s|
  {
    if s != "" {
      var found := MatchStrong(s, m);
      if found.Some? {
        var inner, rest := s[2..found.value], s[found.value + 2..];
        ReplaceKeepsWords(rest, m, mode);
        WordsSurrounded(inner, mode);
        WordsConcat(Surround(inner, mode), ReplaceStrong(rest, m, mode));
        SplitAtMatch(s, m);
        WordsOfStrong(inner, rest, m);
      } else {
        ReplaceKeepsWords(s[1..], m, mode);
        WordsConcat([s[0]], ReplaceStrong(s[1..], m, mode));
        WordsConcat([s[0]], s[1..]);
        assert s == [s[0]] + s[1..];
      }
    }
  }

  lemma {:induction false} FormattedKeepsWords(t: string, mode: StrongMode)
    ensures Words(Formatted(t, StrongMarkers(mode))) == Words(t)
    decreases |t|
  {
    if t != "" {
      var f := StrongMarkers(mode);
      var r := t[FirstLength(t)..];
      var text := FirstPiece(t).text;
      FirstPieceShape(t);
      FormattedUnfolds(t, f);
      FormattedKeepsWords(r, mode);
      ReplaceKeepsWords(text, '*', mode);
      ReplaceKeepsWords(ReplaceStrong(text, '*', mode), '_', mode);
      WordsConcat(Rewrite(FirstPiece(t), f).text, Formatted(r, f));
      WordsConcat(text, r);
    }
  }

  /** For every channel kind and every text: the code spans are the same, in order, and the characters
      other than markers are the same, in order. */
  lemma OutboundKeepsCodeAndWords(lower: string -> string, kind: string, text: string)
    ensures CodeSpans(Scan(OutboundText(lower, kind, text))) == CodeSpans(Scan(text))
    ensures Words(OutboundText(lower, kind, text)) == Words(text)
  {
    var dialect := ModeOf(lower(TrimString(kind)));
    if dialect.Some? {
      var mode := dialect.value;
      StrongMarkersKeepSegments(mode);
      RescanFindsSamePieces(text, StrongMarkers(mode));
      RewriteKeepsCode(Scan(text), StrongMarkers(mode));
      FormattedKeepsWords(text, mode);
    }
  }
}
