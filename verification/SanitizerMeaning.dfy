/**
 What the sanitizer makes of a name: its characters spelled out, repeated slashes and hyphens taken
 out, both ends cut off and pairs of dots dropped from the left; and which names it refuses.
 */
module SanitizerMeaning {
  import opened Common
  import opened Sanitizer

  // ---------- characters ----------

  predicate IsWordChar(c: char) { 'a' <= c <= 'z' || 'A' <= c <= 'Z' || '0' <= c <= '9' || c == '_' || c == '@' }

  /** What stands in a directory name for one character. */
  function Spelled(c: char): string {
    if c == '\0' then ""
    else if c == '\\' || c == '/' then "/"
    else if IsWordChar(c) || c == '.' then [c]
    else "-"
  }

  function SpelledOut(n: string): string {
    if n == "" then "" else SpelledOut(n[..|n| - 1]) + Spelled(n[|n| - 1])
  }

  lemma {:induction false} RemoveInParts(a: string, b: string)
    ensures Remove(a + b, '\0') == Remove(a, '\0') + Remove(b, '\0')
  {
    if a == "" {
      assert a + b == b;
    } else {
      RemoveInParts(a[1..], b);
      assert (a + b)[0] == a[0] && (a + b)[1..] == a[1..] + b;
      Regroup(if a[0] == '\0' then "" else [a[0]], Remove(a[1..], '\0'), Remove(b, '\0'));
    }
  }

  lemma {:induction false} SlashesInParts(a: string, b: string)
    ensures SlashesForward(a + b) == SlashesForward(a) + SlashesForward(b)
  {
    if a == "" {
      assert a + b == b;
    } else {
      SlashesInParts(a[1..], b);
      assert (a + b)[0] == a[0] && (a + b)[1..] == a[1..] + b;
      Regroup([if a[0] == '\\' then '/' else a[0]], SlashesForward(a[1..]), SlashesForward(b));
    }
  }

  lemma {:induction false} ReplaceInParts(a: string, b: string)
    ensures ReplaceUnsafe(a + b) == ReplaceUnsafe(a) + ReplaceUnsafe(b)
  {
    if a == "" {
      assert a + b == b;
    } else {
      ReplaceInParts(a[1..], b);
      assert (a + b)[0] == a[0] && (a + b)[1..] == a[1..] + b;
      Regroup([if IsSafeChar(a[0]) then a[0] else '-'], ReplaceUnsafe(a[1..]), ReplaceUnsafe(b));
    }
  }

  lemma ReplacedInParts(a: string, b: string)
    ensures Replaced(a + b) == Replaced(a) + Replaced(b)
  {
    var x, y := Remove(a, '\0'), Remove(b, '\0');
    RemoveInParts(a, b);
    SlashesInParts(x, y);
    ReplaceInParts(SlashesForward(x), SlashesForward(y));
  }

  lemma ReplacedChar(c: char)
    ensures Replaced([c]) == Spelled(c)
  {
    assert [c][1..] == "";
    if c != '\0' {
      assert Remove([c], '\0') == [c];
      var d := if c == '\\' then '/' else c;
      assert SlashesForward([c]) == [d];
      assert [d][1..] == "";
    }
  }

  /** The three rewriting passes are one: every character is spelled out on its own. */
  lemma {:induction false} ReplacedMeans(n: string)
    ensures Replaced(n) == SpelledOut(n)
  {
    if n != "" {
      var k := |n| - 1;
      ReplacedMeans(n[..k]);
      ReplacedInParts(n[..k], [n[k]]);
      ReplacedChar(n[k]);
      assert n == n[..k] + [n[k]];
    }
  }

  // ---------- repetitions ----------

  predicate TwiceAt(s: string, c: char, i: int) { 0 <= i < |s| - 1 && s[i] == c && s[i + 1] == c }

  /** `r` is `s` with repetitions of `c` taken out, in any order, until there are none. */
  ghost predicate IsCollapsed(s: string, c: char, r: string)
    decreases |s|
  {
    if exists i :: TwiceAt(s, c, i) then exists i :: TwiceAt(s, c, i) && IsCollapsed(s[..i] + s[i + 1..], c, r)
    else r == s
  }

  lemma {:induction false} TakenOut(s: string, c: char, i: nat)
    requires TwiceAt(s, c, i)
    ensures Collapse(s[..i] + s[i + 1..], c) == Collapse(s, c)
  {
    var t := s[..i] + s[i + 1..];
    if i == 0 {
      assert t == s[1..];
    } else {
      assert s[1..][..i - 1] + s[1..][i - 1 + 1..] == t[1..];
      TakenOut(s[1..], c, i - 1);
      assert t[0] == s[0] && (t[1] == c <==> s[1] == c);
    }
  }

  lemma {:induction false} CollapseMeans(s: string, c: char, r: string)
    ensures IsCollapsed(s, c, r) <==> r == Collapse(s, c)
    decreases |s|
  {
    if exists i :: TwiceAt(s, c, i) {
      forall i | TwiceAt(s, c, i) ensures IsCollapsed(s[..i] + s[i + 1..], c, r) <==> r == Collapse(s, c) {
        TakenOut(s, c, i);
        CollapseMeans(s[..i] + s[i + 1..], c, r);
      }
    } else {
      forall i | 0 <= i < |s| - 1 ensures s[i] != c || s[i + 1] != c {
        assert !TwiceAt(s, c, i);
      }
      CollapseLength(s, c);
    }
  }

  // ---------- both ends ----------

  predicate OfChars(s: string, chars: set<char>) { forall i :: 0 <= i < |s| ==> s[i] in chars }

  /** `core` is `s` without the dots and slashes in front and then the dots, spaces and hyphens behind. */
  ghost predicate IsCut(s: string, lead: string, core: string, tail: string) {
    && s == lead + (core + tail) && OfChars(lead, {'.', '/'}) && OfChars(tail, {'.', ' ', '-'})
    && (core + tail == "" || (core + tail)[0] !in {'.', '/'})
    && (core == "" || core[|core| - 1] !in {'.', ' ', '-'})
  }

  lemma {:induction false} LeadMeans(s: string) returns (lead: string)
    ensures s == lead + StripLeading(s) && OfChars(lead, {'.', '/'})
  {
    if s != "" && (s[0] == '.' || s[0] == '/') {
      var rest := LeadMeans(s[1..]);
      lead := [s[0]] + rest;
    } else {
      lead := "";
    }
  }

  lemma {:induction false} TailMeans(s: string) returns (tail: string)
    ensures s == StripTrailing(s) + tail && OfChars(tail, {'.', ' ', '-'})
  {
    if s != "" && IsTrailing(s[|s| - 1]) {
      var rest := TailMeans(s[..|s| - 1]);
      tail := rest + [s[|s| - 1]];
    } else {
      tail := "";
    }
  }

  lemma CutMeans(s: string) returns (lead: string, tail: string)
    ensures IsCut(s, lead, StripTrailing(StripLeading(s)), tail)
  {
    lead := LeadMeans(s);
    tail := TailMeans(StripLeading(s));
    StripLeadingHead(s);
    StripTrailingTail(StripLeading(s));
  }

  // ---------- pairs of dots ----------

  /** The first ".." of `s` stands at `i`. */
  ghost predicate FirstDots(s: string, i: int) { TwiceAt(s, '.', i) && forall j :: 0 <= j < i ==> !TwiceAt(s, '.', j) }

  ghost predicate NoDots(s: string) { forall i :: !TwiceAt(s, '.', i) }

  ghost predicate DropsFirst(s: string, i: int, rest: string, r: string) {
    FirstDots(s, i) && r == s[..i] + rest
  }

  /** `r` is `s` without its leftmost pairs of dots, which do not overlap. */
  ghost predicate IsDropped(s: string, r: string)
    decreases |s|
  {
    || (r == s && NoDots(s))
    || exists i, rest :: DropsFirst(s, i, rest, r) && IsDropped(s[i + 2..], rest)
  }

  lemma NoDotsCons(s: string)
    requires s != "" && !TwiceAt(s, '.', 0) && NoDots(s[1..])
    ensures NoDots(s)
  {
    forall i ensures !TwiceAt(s, '.', i) {
      assert i >= 1 ==> !TwiceAt(s[1..], '.', i - 1);
    }
  }

  lemma DropsFirstCons(s: string, i: int, rest: string, r: string)
    requires s != "" && !TwiceAt(s, '.', 0) && DropsFirst(s[1..], i, rest, r)
    ensures DropsFirst(s, i + 1, rest, [s[0]] + r) && s[1..][i + 2..] == s[i + 1 + 2..]
  {
    FirstDotsCons(s, i);
    assert [s[0]] + (s[1..][..i] + rest) == s[..i + 1] + rest;
  }

  lemma DroppedCons(s: string, r: string)
    requires s != "" && !TwiceAt(s, '.', 0) && IsDropped(s[1..], r)
    ensures IsDropped(s, [s[0]] + r)
  {
    var t := s[1..];
    if r == t && NoDots(t) {
      NoDotsCons(s);
      assert s == [s[0]] + t;
    } else {
      var i, rest :| DropsFirst(t, i, rest, r) && IsDropped(t[i + 2..], rest);
      DropsFirstCons(s, i, rest, r);
    }
  }

  lemma FirstDotsCons(s: string, i: int)
    requires s != "" && !TwiceAt(s, '.', 0) && FirstDots(s[1..], i)
    ensures FirstDots(s, i + 1)
  {
    forall j | 0 <= j < i + 1 ensures !TwiceAt(s, '.', j) {
      assert j >= 1 ==> !TwiceAt(s[1..], '.', j - 1);
    }
  }

  lemma {:induction false} DropMeans(s: string)
    ensures IsDropped(s, DropDotDot(s))
    decreases |s|
  {
    if s != "" {
      if TwiceAt(s, '.', 0) {
        DropMeans(s[2..]);
        assert DropsFirst(s, 0, DropDotDot(s[2..]), DropDotDot(s)) && s[0 + 2..] == s[2..];
      } else {
        DropMeans(s[1..]);
        DroppedCons(s, DropDotDot(s[1..]));
      }
    }
  }

  // ---------- the whole sanitizer ----------

  ghost predicate Sanitizes(n: string, slashed: string, collapsed: string, lead: string, core: string, tail: string,
                            out: string)
  {
    && IsCollapsed(SpelledOut(n), '/', slashed) && IsCollapsed(slashed, '-', collapsed)
    && IsCut(collapsed, lead, core, tail) && IsDropped(core, out)
  }

  /** What is made of every name; nothing left is refused. */
  lemma SanitizedMeans(n: string)
    ensures exists slashed, collapsed, lead, core, tail, out ::
              && Sanitizes(n, slashed, collapsed, lead, core, tail, out)
              && SafeName(n) == if out == "" then None else Some(out)
  {
    ReplacedMeans(n);
    var slashed := Collapse(Replaced(n), '/');
    CollapseMeans(Replaced(n), '/', slashed);
    CollapseMeans(slashed, '-', Collapsed(n));
    var lead, tail := CutMeans(Collapsed(n));
    DropMeans(Trimmed(n));
    assert Sanitizes(n, slashed, Collapsed(n), lead, Trimmed(n), tail, DropDotDot(Trimmed(n)));
  }

  // ---------- names as their characters are ----------

  /** The name is placed under its characters as they are spelled out exactly when those make a canonical name. */
  lemma SpelledExactly(n: string)
    ensures SafeName(n) == Some(SpelledOut(n)) <==> Canonical(SpelledOut(n))
  {
    ReplacedMeans(n);
    var r := Replaced(n);
    ReplaceIsSafe(SlashesForward(Remove(n, '\0')));
    SafeCharsStay(r);
    assert SafeName(n) == SafeName(r);
    FixedPointsExactly(r);
  }

  predicate IsWord(s: string) { s != "" && forall i :: 0 <= i < |s| ==> IsWordChar(s[i]) }

  /** Two words with another character between them, such as "my skill", are placed under both with a hyphen. */
  lemma OtherBecomesHyphen(a: string, c: char, b: string)
    requires IsWord(a) && IsWord(b) && !IsWordChar(c) && c !in {'\0', '.', '/', '\\'}
    ensures SafeName(a + ([c] + b)) == Some(a + ("-" + b))
  {
    var n, r := a + ([c] + b), a + ("-" + b);
    ReplacedInParts(a, [c] + b);
    ReplacedInParts([c], b);
    ReplacedChar(c);
    SafeCharsStay(a);
    SafeCharsStay(b);
    ReplacedMeans(n);
    HyphenIsCanonical(a, b);
    SpelledExactly(n);
  }

  lemma HyphenIsCanonical(a: string, b: string)
    requires IsWord(a) && IsWord(b)
    ensures Canonical(a + ("-" + b))
  {
    var r := a + ("-" + b);
    forall i | 0 <= i < |r|
      ensures IsSafeChar(r[i]) && (i == |a| || IsWordChar(r[i]))
    {
      assert r[i] == if i < |a| then a[i] else if i == |a| then '-' else b[i - |a| - 1];
    }
  }

  // ---------- refused names ----------

  /** Null characters, dots and slashes either way. */
  predicate OnlyLeads(c: char) { c in {'\0', '.', '/', '\\'} }

  /** Null characters, dots, and everything that becomes a hyphen. */
  predicate OnlyTrails(c: char) { !IsWordChar(c) && c != '/' && c != '\\' }

  /** The first `k` characters only lead, and all others only trail. */
  ghost predicate NothingBetween(n: string, k: int) {
    && 0 <= k <= |n|
    && (forall i :: 0 <= i < k ==> OnlyLeads(n[i])) && (forall i :: k <= i < |n| ==> OnlyTrails(n[i]))
  }

  lemma {:induction false} TrailingMeans(n: string)
    ensures AllTrailing(Replaced(n)) <==> NothingBetween(n, 0)
  {
    if n != "" {
      var c, rest := n[0], n[1..];
      assert n == [c] + rest;
      ReplacedInParts([c], rest);
      ReplacedChar(c);
      TrailingMeans(rest);
      if c != '\0' {
        TrailingCons(Spelled(c)[0], Replaced(rest));
        assert Replaced(n) == [Spelled(c)[0]] + Replaced(rest);
      } else {
        assert Replaced(n) == Replaced(rest);
      }
      TrailsCons(n);
    }
  }

  lemma TrailsCons(n: string)
    requires n != ""
    ensures NothingBetween(n, 0) <==> OnlyTrails(n[0]) && NothingBetween(n[1..], 0)
  {
    if OnlyTrails(n[0]) && NothingBetween(n[1..], 0) {
      forall i | 0 <= i < |n| ensures OnlyTrails(n[i]) {
        assert i > 0 ==> OnlyTrails(n[1..][i - 1]);
      }
    }
    if NothingBetween(n, 0) {
      assert forall i :: 0 <= i < |n[1..]| ==> n[1..][i] == n[i + 1];
    }
  }

  lemma LeadsCons(n: string, k: nat)
    requires n != ""
    ensures NothingBetween(n, k + 1) <==> OnlyLeads(n[0]) && NothingBetween(n[1..], k)
  {
    var rest := n[1..];
    assert forall i :: 0 <= i < |rest| ==> rest[i] == n[i + 1];
    if OnlyLeads(n[0]) && NothingBetween(rest, k) {
      forall i | 0 <= i < |n| ensures if i < k + 1 then OnlyLeads(n[i]) else OnlyTrails(n[i]) {
        assert i > 0 ==> n[i] == rest[i - 1];
      }
    }
  }

  lemma {:induction false} HollowMeans(n: string)
    ensures Hollow(Replaced(n)) <==> exists k :: NothingBetween(n, k)
  {
    TrailingMeans(n);
    if n == "" {
      assert NothingBetween(n, 0);
    } else {
      var c, rest := n[0], n[1..];
      assert n == [c] + rest;
      ReplacedInParts([c], rest);
      ReplacedChar(c);
      HollowMeans(rest);
      HollowHead(n, c, rest);
      if k :| NothingBetween(n, k) && k > 0 {
        LeadsCons(n, k - 1);
      }
      if k :| NothingBetween(rest, k) {
        LeadsCons(n, k);
      }
    }
  }

  lemma HollowHead(n: string, c: char, rest: string)
    requires Replaced(n) == Spelled(c) + Replaced(rest)
    ensures Hollow(Replaced(n)) <==> AllTrailing(Replaced(n)) || (OnlyLeads(c) && Hollow(Replaced(rest)))
  {
    if c == '\0' {
      assert Replaced(n) == Replaced(rest);
    } else {
      assert Replaced(n)[1..] == Replaced(rest);
    }
  }

  /** Refused are exactly the names of null characters, dots and slashes followed by null characters, dots and
      characters that become hyphens. */
  lemma RefusedMeans(n: string)
    ensures SafeName(n).None? <==> exists k :: NothingBetween(n, k)
  {
    RefusedExactly(n);
    HollowMeans(n);
  }
}
