/**
 Sanitized names stay strictly below every base directory, and accepted ids name distinct
 directories.
 */
module SafeInstallDirProofs {
  import opened Common
  import opened Sanitizer
  import opened SafeInstallDir

  // ---------- paths ----------

  lemma {:induction false} SplitKeepsNoDotDot(s: string)
    requires NoDotDot(s)
    ensures SplitSlash(s)[0] <= s
    ensures forall i :: 0 <= i < |SplitSlash(s)| ==> NoDotDot(SplitSlash(s)[i])
  {
    if s != "" {
      var t := s[1..];
      assert forall i :: 0 <= i < |t| ==> t[i] == s[i + 1];
      SplitKeepsNoDotDot(t);
      var rest := SplitSlash(t);
      var head := [s[0]] + rest[0];
      assert s == [s[0]] + t;
      if s[0] != '/' {
        assert head <= s;
        assert NoDotDot(head);
      }
    }
  }

  /** The parts that stay in a path: neither empty nor ".". */
  function Kept(parts: seq<string>): seq<string> {
    if parts == [] then []
    else (if parts[0] == "" || parts[0] == "." then [] else [parts[0]]) + Kept(parts[1..])
  }

  lemma {:induction false} PushAllWithoutUps(stack: seq<string>, parts: seq<string>)
    requires ".." !in parts
    ensures PushAll(stack, parts) == stack + Kept(parts)
    decreases |parts|
  {
    if parts != [] {
      assert parts[0] in parts;
      PushAllWithoutUps(Push(stack, parts[0]), parts[1..]);
    }
  }

  lemma {:induction false} PrefixIsCommon(a: seq<string>, b: seq<string>)
    ensures CommonPrefix(a, a + b) == |a|
  {
    if a != [] {
      PrefixIsCommon(a[1..], b);
      assert (a + b)[1..] == a[1..] + b;
    }
  }

  lemma JoinHead(parts: seq<string>)
    requires parts != [] && parts[0] != ""
    ensures JoinSlash(parts) != "" && JoinSlash(parts)[0] == parts[0][0]
  {}

  lemma SplitFirst(s: string)
    requires s != "" && s[0] != '/'
    ensures SplitSlash(s)[0] != "" && SplitSlash(s)[0][0] == s[0]
  {}

  lemma NoUps(s: string)
    requires NoDotDot(s)
    ensures ".." !in SplitSlash(s)
  {
    assert ".."[0] == '.' && ".."[0 + 1] == '.';
    assert !NoDotDot("..");
    SplitKeepsNoDotDot(s);
  }

  /** Where a sanitized name leads: below the base, by the kept parts of the name. */
  lemma SanitizedPath(base: seq<string>, s: string)
    requires s != "" && s[0] != '.' && s[0] != '/' && NoDotDot(s)
    ensures Kept(SplitSlash(s)) != [] && Kept(SplitSlash(s))[0] == SplitSlash(s)[0]
    ensures Resolve(base, s) == base + Kept(SplitSlash(s))
    ensures !Escapes(Relative(base, Resolve(base, s)))
  {
    var parts := SplitSlash(s);
    SplitFirst(s);
    NoUps(s);
    PushAllWithoutUps(base, parts);
    var kept := Kept(parts);
    PrefixIsCommon(base, kept);
    assert Ups(0) + (base + kept)[|base|..] == kept;
    JoinHead(kept);
  }

  /** The escape error is unreachable: a name is either refused by the sanitizer or placed strictly
      below the base directory. */
  lemma NeverEscapes(cwd: seq<string>, baseDir: string, name: string)
    ensures !InstallDir(cwd, baseDir, name).PathEscape?
    ensures InstallDir(cwd, baseDir, name).InvalidName? <==> SafeName(name).None?
    ensures InstallDir(cwd, baseDir, name).Placed? ==>
              Resolve(cwd, baseDir) < InstallDir(cwd, baseDir, name).path
  {
    if SafeName(name).Some? {
      SafeNameShape(name);
      SanitizedPath(Resolve(cwd, baseDir), SafeName(name).value);
    }
  }

  // ---------- accepted ids ----------

  lemma {:induction false} SplitInjective(s: string, t: string)
    requires SplitSlash(s) == SplitSlash(t)
    ensures s == t
  {
    assert JoinSlash(SplitSlash(s)) == s by { JoinSplit(s); }
    assert JoinSlash(SplitSlash(t)) == t by { JoinSplit(t); }
  }

  lemma JoinCons(c: char, parts: seq<string>)
    requires parts != []
    ensures JoinSlash([[c] + parts[0]] + parts[1..]) == [c] + JoinSlash(parts)
  {
    var longer := [[c] + parts[0]] + parts[1..];
    assert longer[1..] == parts[1..];
  }

  /** Joining undoes splitting. */
  lemma {:induction false} JoinSplit(s: string)
    ensures JoinSlash(SplitSlash(s)) == s
  {
    if s != "" {
      var rest := SplitSlash(s[1..]);
      JoinSplit(s[1..]);
      assert s == [s[0]] + s[1..];
      if s[0] == '/' {
        assert ([""] + rest)[1..] == rest;
      } else {
        JoinCons(s[0], rest);
      }
    }
  }

  lemma {:induction false} SplitWithoutSlash(s: string)
    requires forall i :: 0 <= i < |s| ==> s[i] != '/'
    ensures SplitSlash(s) == [s]
  {
    if s != "" {
      SplitWithoutSlash(s[1..]);
      assert s == [s[0]] + s[1..];
    }
  }

  /** Every part of an accepted id is kept by path resolution. */
  lemma AcceptedPartsAreKept(n: string, policy: Policy, i: nat)
    requires Validate(n, policy) == Accepted && i < |SplitSlash(n)|
    ensures SplitSlash(n)[i] != "" && SplitSlash(n)[i] != "."
  {
    assert !IsReserved(SplitSlash(n)[i]);
    assert "." in RESERVED;
    if n[0] == '@' {
      ScopedParts(n);
      assert SplitSlash(n)[0][0] == '@';
    } else {
      IdPartIsSafe(n);
    }
  }

  lemma {:induction false} KeepAll(parts: seq<string>)
    requires forall i :: 0 <= i < |parts| ==> parts[i] != "" && parts[i] != "."
    ensures Kept(parts) == parts
  {
    if parts != [] {
      assert parts[0] != "" && parts[0] != ".";
      KeepAll(parts[1..]);
    }
  }

  lemma AcceptedPath(cwd: seq<string>, baseDir: string, n: string, policy: Policy)
    requires Validate(n, policy) == Accepted
    ensures InstallDir(cwd, baseDir, n) == Placed(Resolve(cwd, baseDir) + SplitSlash(n))
  {
    forall i | 0 <= i < |SplitSlash(n)| ensures SplitSlash(n)[i] != "" && SplitSlash(n)[i] != "." {
      AcceptedPartsAreKept(n, policy, i);
    }
    KeepAll(SplitSlash(n));
    SafeNameShape(n);
    SanitizedPath(Resolve(cwd, baseDir), n);
  }

  /** Two accepted ids share a directory exactly when their normalized forms are equal. */
  lemma AcceptedIdsAreDistinct(
    lower: string -> string, a: string, b: string, p: Policy, q: Policy, cwd: seq<string>, baseDir: string)
    requires Validate(NormalizeId(lower, a), p) == Accepted && Validate(NormalizeId(lower, b), q) == Accepted
    ensures InstallDir(cwd, baseDir, NormalizeId(lower, a)) == InstallDir(cwd, baseDir, NormalizeId(lower, b))
            <==> NormalizeId(lower, a) == NormalizeId(lower, b)
  {
    var m, n := NormalizeId(lower, a), NormalizeId(lower, b);
    AcceptedPath(cwd, baseDir, m, p);
    AcceptedPath(cwd, baseDir, n, q);
    if InstallDir(cwd, baseDir, m) == InstallDir(cwd, baseDir, n) {
      var base := Resolve(cwd, baseDir);
      assert SplitSlash(m) == (base + SplitSlash(m))[|base|..] && SplitSlash(n) == (base + SplitSlash(n))[|base|..];
      SplitInjective(m, n);
    }
  }

  // ---------- what the verdicts mean ----------

  predicate DotsAndHyphens(n: string) { forall i :: 0 <= i < |n| ==> n[i] == '.' || n[i] == '-' }

  lemma ReservedHeads(s: string)
    requires s in RESERVED
    ensures s == "." || s == ".." || (s != "" && 'a' <= s[0] <= 'z')
  {}

  lemma StemHead(s: string)
    ensures Stem(s) == "" || (Stem(s)[0] == s[0] && s[0] != '.')
  {}

  lemma DotsAreNotReserved(n: string)
    requires DotsAndHyphens(n) && n != "" && n != "." && NoDotDot(n)
    ensures !IsReserved(n)
  {
    StemHead(n);
    assert ".."[0] == '.' && ".."[0 + 1] == '.';
    assert !NoDotDot("..");
    if n in RESERVED {
      ReservedHeads(n);
    }
    if Stem(n) in RESERVED {
      ReservedHeads(Stem(n));
    }
  }

  lemma {:induction false} HollowWithoutSlash(s: string)
    requires Hollow(s) && '/' !in s
    ensures forall i :: 0 <= i < |s| ==> IsTrailing(s[i])
  {
    if s != "" && (s[0] == '.' || s[0] == '/') && Hollow(s[1..]) {
      HollowWithoutSlash(s[1..]);
      assert s == [s[0]] + s[1..];
    }
  }

  lemma IdPartIsSafe(n: string)
    requires IsIdPart(n)
    ensures Replaced(n) == n && '/' !in n && SplitSlash(n) == [n]
  {
    SafeCharsStay(n);
    SplitWithoutSlash(n);
  }

  lemma DotsThrow(n: string, policy: Policy)
    requires n != "" && |n| <= policy.maxLength && DotsAndHyphens(n) && NoDotDot(n) && n != "."
    ensures Validate(n, policy) == Throws
  {
    assert n[0] == '.' || n[0] == '-';
    assert IsIdPart(n);
    IdPartIsSafe(n);
    DotsAreNotReserved(n);
    RefusedExactly(n);
    assert AllTrailing(n);
    assert forall i :: 0 <= i < |n| ==> !IsSpaceChar(n[i]);
  }

  lemma ReplacedHead(n: string)
    requires n != "" && n[0] == '@'
    ensures Replaced(n) != "" && Replaced(n)[0] == '@'
  {
    var removed := Remove(n, '\0');
    assert removed != "" && removed[0] == '@';
    var forward := SlashesForward(removed);
    assert forward != "" && forward[0] == '@';
  }

  lemma ScopedIsNotHollow(n: string)
    requires n != "" && n[0] == '@'
    ensures SafeName(n).Some?
  {
    ReplacedHead(n);
    RefusedExactly(n);
    assert !IsTrailing(Replaced(n)[0]);
  }

  lemma ThrowMeansDots(n: string, policy: Policy)
    requires Validate(n, policy) == Throws && n[0] != '@'
    ensures DotsAndHyphens(n) && n != "."
  {
    IdPartIsSafe(n);
    RefusedExactly(n);
    HollowWithoutSlash(n);
    assert !IsReserved(SplitSlash(n)[0]);
    assert "." in RESERVED;
    assert forall i :: 0 <= i < |n| ==> IsIdChar(n[i]);
  }

  /** The validator throws instead of answering exactly on ids of dots and hyphens only, within the length
      limit, without ".." and other than ".". */
  lemma ThrowsExactly(n: string, policy: Policy)
    ensures Validate(n, policy) == Throws
            <==> n != "" && |n| <= policy.maxLength && DotsAndHyphens(n) && NoDotDot(n) && n != "."
  {
    if n != "" && n[0] == '@' {
      ScopedIsNotHollow(n);
    } else if Validate(n, policy) == Throws {
      ThrowMeansDots(n, policy);
    }
    if n != "" && |n| <= policy.maxLength && DotsAndHyphens(n) && NoDotDot(n) && n != "." {
      DotsThrow(n, policy);
    }
  }

  /** The shortest such id. */
  lemma HyphenThrows(policy: Policy)
    requires policy.maxLength >= 1
    ensures Validate("-", policy) == Throws
  {
    ThrowsExactly("-", policy);
  }

  predicate IsNameChar(c: char) { IsIdChar(c) || c == '/' || c == '@' }

  predicate OfIdChars(s: string) { forall i :: 0 <= i < |s| ==> IsIdChar(s[i]) }

  lemma {:induction false} CharsOfParts(s: string)
    requires forall k :: 0 <= k < |SplitSlash(s)| ==> OfIdChars(SplitSlash(s)[k])
    ensures forall i :: 0 <= i < |s| ==> IsNameChar(s[i])
  {
    if s != "" {
      var parts, rest := SplitSlash(s), SplitSlash(s[1..]);
      if s[0] == '/' {
        assert parts[1..] == rest;
        assert forall k :: 0 <= k < |rest| ==> rest[k] == parts[k + 1];
      } else {
        assert parts[0][0] == s[0] && parts[0][1..] == rest[0];
        assert forall i :: 0 <= i < |rest[0]| ==> rest[0][i] == parts[0][i + 1];
        assert forall k :: 1 <= k < |rest| ==> rest[k] == parts[k];
      }
      CharsOfParts(s[1..]);
      assert s == [s[0]] + s[1..];
    }
  }

  /** A scoped id has two nonempty parts behind the sign. */
  lemma ScopedParts(n: string)
    requires HasAllowedCharacters(n) && n[0] == '@'
    ensures |SplitSlash(n)| == 2 && SplitSlash(n)[0] != "@" && SplitSlash(n)[1] != ""
    ensures forall i :: 0 <= i < |n| ==> IsNameChar(n[i])
  {
    var tail := SplitSlash(n[1..]);
    assert SplitSlash(n) == [['@'] + tail[0]] + tail[1..];
    assert |SplitSlash(n)[0]| == 1 + |tail[0]|;
    CharsOfParts(n[1..]);
    assert n == [n[0]] + n[1..];
  }

  lemma AllowedShape(n: string)
    requires n != "" && HasAllowedCharacters(n)
    ensures !(exists i :: 0 <= i < |n| && IsSpaceChar(n[i])) && !IsAbsolute(n) && SlashCountAllowed(n)
    ensures n[0] == '@' ==> |SplitSlash(n)| == 2 && SplitSlash(n)[0] != "@" && SplitSlash(n)[1] != ""
  {
    if n[0] == '@' {
      ScopedParts(n);
    } else {
      IdPartIsSafe(n);
    }
    assert forall i :: 0 <= i < |n| ==> IsNameChar(n[i]);
  }

  /** Accepted are exactly the canonical names of allowed characters, within the length limit, without a
      reserved segment, and scoped only where scopes are allowed. */
  lemma AcceptedExactly(n: string, policy: Policy)
    ensures Validate(n, policy) == Accepted
            <==> && |n| <= policy.maxLength && HasAllowedCharacters(n) && Canonical(n)
                 && (forall i :: 0 <= i < |SplitSlash(n)| ==> !IsReserved(SplitSlash(n)[i]))
                 && (n[0] == '@' ==> policy.allowScoped)
  {
    FixedPointsExactly(n);
    if n != "" && HasAllowedCharacters(n) {
      AllowedShape(n);
    }
  }
}
