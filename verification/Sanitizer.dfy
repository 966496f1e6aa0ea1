/**
 The directory-name sanitizer: seven passes over the text, the shape of what they leave, the
 names they leave alone and the names they refuse.
 */
module Sanitizer {
  import opened Common

  // ---------- rewrites ----------

  function Remove(s: string, c: char): string {
    if s == "" then "" else (if s[0] == c then "" else [s[0]]) + Remove(s[1..], c)
  }

  function SlashesForward(s: string): (r: string)
    ensures |r| == |s|
  {
    if s == "" then "" else [if s[0] == '\\' then '/' else s[0]] + SlashesForward(s[1..])
  }

  predicate IsSafeChar(c: char) {
    'a' <= c <= 'z' || 'A' <= c <= 'Z' || '0' <= c <= '9' || c == '.' || c == '_' || c == '@' || c == '/' || c == '-'
  }

  function ReplaceUnsafe(s: string): (r: string)
    ensures |r| == |s|
  {
    if s == "" then "" else [if IsSafeChar(s[0]) then s[0] else '-'] + ReplaceUnsafe(s[1..])
  }

  /** Every run of `c` becomes a single `c`. */
  function Collapse(s: string, c: char): string {
    if s == "" then ""
    else if |s| > 1 && s[0] == c && s[1] == c then Collapse(s[1..], c)
    else [s[0]] + Collapse(s[1..], c)
  }

  function StripLeading(s: string): string {
    if s != "" && (s[0] == '.' || s[0] == '/') then StripLeading(s[1..]) else s
  }

  predicate IsTrailing(c: char) { c == '.' || c == ' ' || c == '-' }

  function StripTrailing(s: string): string {
    if s != "" && IsTrailing(s[|s| - 1]) then StripTrailing(s[..|s| - 1]) else s
  }

  /** Removes ".." from left to right. */
  function DropDotDot(s: string): string {
    if s == "" then ""
    else if |s| > 1 && s[0] == '.' && s[1] == '.' then DropDotDot(s[2..])
    else [s[0]] + DropDotDot(s[1..])
  }

  /** The name without null characters, with forward slashes and safe characters only. */
  function Replaced(name: string): string { ReplaceUnsafe(SlashesForward(Remove(name, '\0'))) }

  function Collapsed(name: string): string { Collapse(Collapse(Replaced(name), '/'), '-') }

  /** What reaches the last pass. */
  function Trimmed(name: string): string { StripTrailing(StripLeading(Collapsed(name))) }

  /** The sanitized name, or none where the sanitizer throws. */
  function SafeName(name: string): Option<string> {
    var safe := DropDotDot(Trimmed(name));
    if safe == "" then None else Some(safe)
  }

  /** ".." does not occur in `s`. */
  predicate NoDotDot(s: string) { forall i :: 0 <= i < |s| - 1 ==> s[i] != '.' || s[i + 1] != '.' }

  // ---------- the shape of a sanitized name ----------

  lemma {:induction false} StripLeadingHead(s: string)
    ensures var r := StripLeading(s);
            r == "" || (r[0] != '.' && r[0] != '/')
  {
    if s != "" && (s[0] == '.' || s[0] == '/') {
      StripLeadingHead(s[1..]);
    }
  }

  lemma {:induction false} StripTrailingPrefix(s: string)
    ensures StripTrailing(s) <= s
  {
    if s != "" && IsTrailing(s[|s| - 1]) {
      StripTrailingPrefix(s[..|s| - 1]);
    }
  }

  lemma DropDotDotHead(s: string)
    requires s != "" && s[0] != '.'
    ensures DropDotDot(s) != "" && DropDotDot(s)[0] == s[0]
  {}

  /** Removing pairs of dots leaves no two adjacent dots behind. */
  lemma {:induction false} DropDotDotLeavesNone(s: string)
    ensures NoDotDot(DropDotDot(s))
    ensures DropDotDot(s) != "" && DropDotDot(s)[0] == '.' ==> s != "" && s[0] == '.'
  {
    if s == "" {
    } else if |s| > 1 && s[0] == '.' && s[1] == '.' {
      DropDotDotLeavesNone(s[2..]);
    } else {
      DropDotDotLeavesNone(s[1..]);
      var r := DropDotDot(s[1..]);
      assert DropDotDot(s) == [s[0]] + r;
    }
  }

  /** A sanitized name contains no "..", and starts with neither a dot nor a slash. */
  lemma SafeNameShape(name: string)
    requires SafeName(name).Some?
    ensures var s := SafeName(name).value;
            s != "" && s[0] != '.' && s[0] != '/' && NoDotDot(s)
  {
    var led, trimmed := StripLeading(Collapsed(name)), Trimmed(name);
    StripLeadingHead(Collapsed(name));
    StripTrailingPrefix(led);
    DropDotDotLeavesNone(trimmed);
    if trimmed != "" {
      DropDotDotHead(trimmed);
    }
  }

  // ---------- the names that are their own sanitized form ----------

  predicate AllSafe(s: string) { forall i :: 0 <= i < |s| ==> IsSafeChar(s[i]) }

  predicate NoPair(s: string, c: char) { forall i :: 0 <= i < |s| - 1 ==> s[i] != c || s[i + 1] != c }

  predicate Canonical(s: string) {
    && s != "" && AllSafe(s) && NoPair(s, '/') && NoPair(s, '-') && NoDotDot(s)
    && s[0] != '.' && s[0] != '/' && !IsTrailing(s[|s| - 1])
  }

  lemma {:induction false} SafeCharsStay(s: string)
    requires AllSafe(s)
    ensures Remove(s, '\0') == s && SlashesForward(s) == s && ReplaceUnsafe(s) == s
  {
    if s != "" {
      SafeCharsStay(s[1..]);
      assert s == [s[0]] + s[1..];
    }
  }

  lemma {:induction false} ReplaceIsSafe(s: string)
    ensures AllSafe(ReplaceUnsafe(s))
  {
    if s != "" {
      ReplaceIsSafe(s[1..]);
    }
  }

  /** Collapsing changes nothing exactly where there is nothing to collapse, and never lengthens. */
  lemma {:induction false} CollapseLength(s: string, c: char)
    ensures |Collapse(s, c)| <= |s|
    ensures |Collapse(s, c)| == |s| <==> NoPair(s, c)
    ensures NoPair(s, c) ==> Collapse(s, c) == s
    ensures AllSafe(s) ==> AllSafe(Collapse(s, c))
  {
    if s != "" {
      CollapseLength(s[1..], c);
      assert s == [s[0]] + s[1..];
      assert NoPair(s, c) <==> NoPair(s[1..], c) && !(|s| > 1 && s[0] == c && s[1] == c);
    }
  }

  lemma {:induction false} CollapseLeavesNoPair(s: string, c: char)
    ensures NoPair(Collapse(s, c), c)
    ensures Collapse(s, c) != "" ==> s != "" && Collapse(s, c)[0] == s[0]
  {
    if s != "" {
      CollapseLeavesNoPair(s[1..], c);
    }
  }

  lemma {:induction false} CollapseKeepsNoPair(s: string, c: char, d: char)
    requires NoPair(s, d) && c != d
    ensures NoPair(Collapse(s, c), d)
  {
    if s != "" {
      CollapseLeavesNoPair(s[1..], c);
      CollapseKeepsNoPair(s[1..], c, d);
    }
  }

  lemma {:induction false} StripLeadingShape(s: string)
    ensures |StripLeading(s)| <= |s|
    ensures s == "" || (s[0] != '.' && s[0] != '/') ==> StripLeading(s) == s
  {
    if s != "" && (s[0] == '.' || s[0] == '/') {
      StripLeadingShape(s[1..]);
    }
  }

  lemma {:induction false} StripTrailingTail(s: string)
    ensures var r := StripTrailing(s);
            r == "" || !IsTrailing(r[|r| - 1])
  {
    if s != "" && IsTrailing(s[|s| - 1]) {
      StripTrailingTail(s[..|s| - 1]);
    }
  }

  lemma {:induction false} DropDotDotShape(s: string)
    ensures |DropDotDot(s)| <= |s| && (AllSafe(s) ==> AllSafe(DropDotDot(s)))
    ensures NoDotDot(s) ==> DropDotDot(s) == s
    ensures s != "" && s[|s| - 1] != '.' ==> DropDotDot(s) != "" && DropDotDot(s)[|DropDotDot(s)| - 1] == s[|s| - 1]
  {
    if s == "" {
    } else if |s| > 1 && s[0] == '.' && s[1] == '.' {
      DropDotDotShape(s[2..]);
    } else {
      DropDotDotShape(s[1..]);
      assert s == [s[0]] + s[1..];
      assert NoDotDot(s) ==> NoDotDot(s[1..]);
    }
  }

  /** On a tidy name only the last pass does anything. */
  lemma TidyNameLosesDotDotOnly(n: string)
    requires n != "" && AllSafe(n) && NoPair(n, '/') && NoPair(n, '-')
    requires n[0] != '.' && n[0] != '/' && !IsTrailing(n[|n| - 1])
    ensures SafeName(n) == Some(DropDotDot(n))
  {
    SafeCharsStay(n);
    CollapseLength(n, '/');
    CollapseLength(n, '-');
    StripLeadingShape(n);
    DropDotDotShape(n);
  }

  lemma CanonicalIsFixed(n: string)
    requires Canonical(n)
    ensures SafeName(n) == Some(n)
  {
    TidyNameLosesDotDotOnly(n);
    DropDotDotShape(n);
  }

  lemma CollapsedIsSafe(n: string)
    ensures AllSafe(Collapsed(n)) && NoPair(Collapsed(n), '/') && NoPair(Collapsed(n), '-')
  {
    ReplaceIsSafe(SlashesForward(Remove(n, '\0')));
    CollapseBoth(Replaced(n));
  }

  lemma CollapseBoth(s: string)
    requires AllSafe(s)
    ensures var r := Collapse(Collapse(s, '/'), '-');
            AllSafe(r) && NoPair(r, '/') && NoPair(r, '-')
  {
    var slashed := Collapse(s, '/');
    CollapseLength(s, '/');
    CollapseLeavesNoPair(s, '/');
    CollapseLength(slashed, '-');
    CollapseLeavesNoPair(slashed, '-');
    CollapseKeepsNoPair(slashed, '-', '/');
  }

  predicate Tidy(s: string) { AllSafe(s) && NoPair(s, '/') && NoPair(s, '-') }

  lemma PartIsTidy(s: string, i: nat, j: nat)
    requires i <= j <= |s| && Tidy(s)
    ensures Tidy(s[i..j])
  {
    assert forall k :: 0 <= k < j - i ==> s[i..j][k] == s[i + k];
  }

  lemma {:induction false} LeadingKeepsTidy(s: string)
    requires Tidy(s)
    ensures Tidy(StripLeading(s))
  {
    if s != "" && (s[0] == '.' || s[0] == '/') {
      PartIsTidy(s, 1, |s|);
      assert s[1..|s|] == s[1..];
      LeadingKeepsTidy(s[1..]);
    }
  }

  lemma TrailingKeepsTidy(s: string)
    requires Tidy(s)
    ensures Tidy(StripTrailing(s))
  {
    StripTrailingPrefix(s);
    PartIsTidy(s, 0, |StripTrailing(s)|);
    assert s[0..|StripTrailing(s)|] == StripTrailing(s);
  }

  lemma StripKeeps(s: string)
    requires Tidy(s)
    ensures var r := StripTrailing(StripLeading(s));
            Tidy(r) && (r == "" || !IsTrailing(r[|r| - 1]))
  {
    LeadingKeepsTidy(s);
    TrailingKeepsTidy(StripLeading(s));
    StripTrailingTail(StripLeading(s));
  }

  lemma TrimmedIsSafe(n: string)
    ensures AllSafe(Trimmed(n)) && NoPair(Trimmed(n), '/') && NoPair(Trimmed(n), '-')
    ensures Trimmed(n) == "" || !IsTrailing(Trimmed(n)[|Trimmed(n)| - 1])
  {
    CollapsedIsSafe(n);
    StripKeeps(Collapsed(n));
  }

  lemma SafeNameIsSafe(n: string)
    ensures SafeName(n).Some? ==> AllSafe(SafeName(n).value)
  {
    TrimmedIsSafe(n);
    DropDotDotShape(Trimmed(n));
  }

  lemma CollapsedWithoutLoss(n: string)
    requires |Collapse(Collapse(n, '/'), '-')| >= |n|
    ensures Collapse(Collapse(n, '/'), '-') == n && NoPair(n, '/') && NoPair(n, '-')
  {
    CollapseLength(n, '/');
    CollapseLength(Collapse(n, '/'), '-');
  }

  lemma NotStripped(n: string)
    requires n != "" && n[0] != '.' && n[0] != '/' && |StripTrailing(StripLeading(n))| >= |n|
    ensures !IsTrailing(n[|n| - 1])
  {
    StripLeadingShape(n);
    StripTrailingPrefix(n);
    StripTrailingTail(n);
  }

  /** No pass lengthens, so where the last gives back the name every pass does. */
  lemma FixedByPasses(n: string, clean: string)
    requires n != "" && n[0] != '.' && n[0] != '/' && clean == Collapse(Collapse(n, '/'), '-')
    requires DropDotDot(StripTrailing(StripLeading(clean))) == n
    ensures NoPair(n, '/') && NoPair(n, '-') && !IsTrailing(n[|n| - 1])
  {
    StripLeadingShape(clean);
    StripTrailingPrefix(StripLeading(clean));
    DropDotDotShape(StripTrailing(StripLeading(clean)));
    CollapsedWithoutLoss(n);
    NotStripped(n);
  }

  lemma FixedIsCanonical(n: string)
    requires SafeName(n) == Some(n)
    ensures Canonical(n)
  {
    SafeNameIsSafe(n);
    SafeNameShape(n);
    SafeCharsStay(n);
    FixedByPasses(n, Collapsed(n));
  }

  /** A name is its own sanitized form exactly when it is canonical. */
  lemma FixedPointsExactly(n: string)
    ensures SafeName(n) == Some(n) <==> Canonical(n)
  {
    if SafeName(n) == Some(n) {
      FixedIsCanonical(n);
    }
    if Canonical(n) {
      CanonicalIsFixed(n);
    }
  }

  // ---------- sanitizing twice ----------

  /** `u` starts with an even number of dots and then `c`. */
  ghost predicate LeadsTo(u: string, c: char) {
    exists k :: 0 <= k < |u| && k % 2 == 0 && u[k] == c && forall i :: 0 <= i < k ==> u[i] == '.'
  }

  /** Somewhere in `t` an even number of dots stands between two `c`. */
  ghost predicate Joins(t: string, c: char) {
    exists i :: 0 <= i < |t| && t[i] == c && LeadsTo(t[i + 1..], c)
  }

  lemma {:induction false} DropLeadsTo(u: string, c: char)
    requires c != '.'
    ensures DropDotDot(u) != "" && DropDotDot(u)[0] == c <==> LeadsTo(u, c)
  {
    if |u| > 1 && u[0] == '.' && u[1] == '.' {
      DropLeadsTo(u[2..], c);
      if LeadsTo(u[2..], c) {
        var k :| 0 <= k < |u[2..]| && k % 2 == 0 && u[2..][k] == c && forall i :: 0 <= i < k ==> u[2..][i] == '.';
        assert forall i :: 2 <= i < k + 2 ==> u[i] == u[2..][i - 2];
        assert u[k + 2] == c && (k + 2) % 2 == 0;
      }
      if LeadsTo(u, c) {
        var k :| 0 <= k < |u| && k % 2 == 0 && u[k] == c && forall i :: 0 <= i < k ==> u[i] == '.';
        assert u[2..][k - 2] == c && (k - 2) % 2 == 0;
      }
    } else if u != "" && u[0] == c {
      assert 0 % 2 == 0;
    }
  }

  lemma JoinsCons(t: string, c: char)
    requires t != ""
    ensures Joins(t, c) <==> (t[0] == c && LeadsTo(t[1..], c)) || Joins(t[1..], c)
  {
    var rest := t[1..];
    if Joins(t, c) {
      var i :| 0 <= i < |t| && t[i] == c && LeadsTo(t[i + 1..], c);
      if i > 0 {
        assert rest[i - 1] == c && rest[i - 1 + 1..] == t[i + 1..];
      }
    }
    if Joins(rest, c) {
      var i :| 0 <= i < |rest| && rest[i] == c && LeadsTo(rest[i + 1..], c);
      assert t[i + 1] == c && t[i + 1 + 1..] == rest[i + 1..];
    }
    if t[0] == c && LeadsTo(rest, c) {
      assert t[0 + 1..] == rest;
    }
  }

  /** Dropping ".." puts two `c` together exactly where an even number of dots stood between them. */
  lemma {:induction false} DropJoins(t: string, c: char)
    requires c != '.'
    ensures NoPair(DropDotDot(t), c) <==> !Joins(t, c)
  {
    if t == "" {
    } else if |t| > 1 && t[0] == '.' && t[1] == '.' {
      DropJoins(t[2..], c);
      JoinsCons(t, c);
      JoinsCons(t[1..], c);
      assert t[1..][1..] == t[2..];
    } else {
      var rest := DropDotDot(t[1..]);
      DropJoins(t[1..], c);
      JoinsCons(t, c);
      DropLeadsTo(t[1..], c);
      PairCons(t[0], rest, c);
    }
  }

  lemma PairCons(x: char, s: string, c: char)
    ensures NoPair([x] + s, c) <==> NoPair(s, c) && !(x == c && s != "" && s[0] == c)
  {
    var t := [x] + s;
    assert t[1..] == s;
    assert NoPair(t, c) <==> NoPair(t[1..], c) && !(|t| > 1 && t[0] == c && t[1] == c);
  }

  /** Sanitizing again changes a result exactly when, in the text that reaches the last pass, an even
      number of dots stands between two slashes or two hyphens. */
  lemma SanitizedTwice(n: string)
    requires SafeName(n).Some?
    ensures var m := SafeName(n).value;
            SafeName(m) == Some(m) <==> !Joins(Trimmed(n), '/') && !Joins(Trimmed(n), '-')
  {
    SafeNameShape(n);
    TrimmedIsSafe(n);
    DropDotDotShape(Trimmed(n));
    DropJoins(Trimmed(n), '/');
    DropJoins(Trimmed(n), '-');
    FixedPointsExactly(SafeName(n).value);
  }

  /** Dropping ".." comes last and can put two slashes together. */
  lemma SanitizerIsNotIdempotent()
    ensures SafeName("a/../b") == Some("a//b") && SafeName("a//b") != Some("a//b")
  {
    var s, d := "a/../b", "a//b";
    TidyNameLosesDotDotOnly(s);
    DropFromExample();
    assert d[1] == '/' && d[2] == '/';
    assert !Canonical(d);
    FixedPointsExactly(d);
  }

  lemma DropFromExample()
    ensures DropDotDot("a/../b") == "a//b"
  {
    DropDotDotShape("/b");
    assert "../b"[2..] == "/b" && "/../b"[1..] == "../b" && "a/../b"[1..] == "/../b";
    assert DropDotDot("../b") == "/b";
    assert DropDotDot("/../b") == "/" + DropDotDot("../b");
    assert DropDotDot("a/../b") == "a" + DropDotDot("/../b");
  }

  // ---------- the names without a sanitized form ----------

  predicate AllTrailing(s: string) { forall i :: 0 <= i < |s| ==> IsTrailing(s[i]) }

  /** Dots and slashes, and then dots, spaces and hyphens only. */
  predicate Hollow(s: string) {
    AllTrailing(s) || (s != "" && (s[0] == '.' || s[0] == '/') && Hollow(s[1..]))
  }

  lemma {:induction false} StripTrailingEmpty(s: string)
    ensures StripTrailing(s) == "" <==> AllTrailing(s)
  {
    if s != "" && IsTrailing(s[|s| - 1]) {
      StripTrailingEmpty(s[..|s| - 1]);
    }
  }

  lemma {:induction false} StripsToNothing(s: string)
    ensures StripTrailing(StripLeading(s)) == "" <==> Hollow(s)
  {
    if s != "" && (s[0] == '.' || s[0] == '/') {
      StripsToNothing(s[1..]);
      assert AllTrailing(s) ==> AllTrailing(s[1..]);
    } else {
      StripTrailingEmpty(s);
    }
  }

  lemma {:induction false} CollapseTrailing(s: string, c: char)
    ensures AllTrailing(Collapse(s, c)) <==> AllTrailing(s)
  {
    if s != "" {
      CollapseTrailing(s[1..], c);
      var rest := Collapse(s[1..], c);
      TrailingCons(s[0], s[1..]);
      assert [s[0]] + s[1..] == s;
      TrailingCons(s[0], rest);
    }
  }

  lemma TrailingCons(x: char, s: string)
    ensures AllTrailing([x] + s) <==> IsTrailing(x) && AllTrailing(s)
  {
    var t := [x] + s;
    assert t[0] == x && forall i :: 0 <= i < |s| ==> t[i + 1] == s[i];
  }

  lemma {:induction false} CollapseHollow(s: string, c: char)
    requires c == '/' || c == '-'
    ensures Hollow(Collapse(s, c)) <==> Hollow(s)
  {
    if s != "" {
      CollapseHollow(s[1..], c);
      CollapseTrailing(s, c);
      if |s| > 1 && s[0] == c && s[1] == c {
        TrailingCons(s[0], s[1..]);
        assert [s[0]] + s[1..] == s;
      } else {
        assert Collapse(s, c)[1..] == Collapse(s[1..], c);
      }
    }
  }

  /** The sanitizer refuses exactly the names that are hollow once their characters are replaced. */
  lemma RefusedExactly(n: string)
    ensures SafeName(n).None? <==> Hollow(Replaced(n))
  {
    TrimmedIsSafe(n);
    DropDotDotShape(Trimmed(n));
    StripsToNothing(Collapsed(n));
    CollapseHollow(Replaced(n), '/');
    CollapseHollow(Collapse(Replaced(n), '/'), '-');
  }

  lemma SafeNameContract(n: string)
    ensures SafeName(n).Some? ==>
              && SafeName(n).value != "" && AllSafe(SafeName(n).value) && NoDotDot(SafeName(n).value)
              && SafeName(n).value[0] != '.' && SafeName(n).value[0] != '/'
              && !IsTrailing(SafeName(n).value[|SafeName(n).value| - 1])
    ensures SafeName(n) == Some(n) <==> Canonical(n)
    ensures SafeName(n).None? <==> Hollow(Replaced(n))
  {
    FixedPointsExactly(n);
    RefusedExactly(n);
    if SafeName(n).Some? {
      SafeNameShape(n);
      TrimmedIsSafe(n);
      DropDotDotShape(Trimmed(n));
    }
  }

  // ---------- the sanitizer ----------

  /** A sanitized name has safe characters only and no "..", starts with neither dot nor slash and ends
      in no dot, space or hyphen; canonical names are left alone, and exactly the hollow ones refused. */
  method SafeDirName(name: string) returns (r: Option<string>)
    ensures r == SafeName(name)
    ensures r.Some? ==>
              && r.value != "" && AllSafe(r.value) && NoDotDot(r.value)
              && r.value[0] != '.' && r.value[0] != '/' && !IsTrailing(r.value[|r.value| - 1])
    ensures r == Some(name) <==> Canonical(name)
    ensures r.None? <==> Hollow(Replaced(name))
  {
    var safe := Remove(name, '\0');
    safe := SlashesForward(safe);
    safe := ReplaceUnsafe(safe);
    safe := Collapse(Collapse(safe, '/'), '-');
    safe := StripLeading(safe);
    safe := StripTrailing(safe);
    safe := DropDotDot(safe);
    SafeNameContract(name);
    if |safe| == 0 {
      return None;
    }
    return Some(safe);
  }
}
