/**
 What the validator answers for every id, and where a name is placed, in terms of characters,
 words and path segments.
 */
module SafeInstallDirMeaning {
  import opened Common
  import opened Blanks
  import opened Sanitizer
  import opened SanitizerMeaning
  import opened SafeInstallDir
  import opened SafeInstallDirProofs

  // ---------- shapes of ids ----------

  predicate IsLowerChar(c: char) { 'a' <= c <= 'z' || '0' <= c <= '9' || c == '.' || c == '_' || c == '-' }

  /** A nonempty text of lower-case letters, digits, dots, underscores and hyphens. */
  predicate IsPlain(s: string) { s != "" && forall i :: 0 <= i < |s| ==> IsLowerChar(s[i]) }

  ghost predicate IsScopedAs(n: string, scope: string, name: string) {
    n == "@" + (scope + ("/" + name)) && IsPlain(scope) && IsPlain(name)
  }

  /** "@scope/name". */
  ghost predicate IsScoped(n: string) { exists scope, name :: IsScopedAs(n, scope, name) }

  ghost predicate HasBlank(n: string) { exists i :: 0 <= i < |n| && IsBlankChar(n[i]) }

  predicate PairOf(n: string, c: char) { exists i :: 0 <= i < |n| - 1 && n[i] == c && n[i + 1] == c }

  /** The names of devices on Windows. */
  predicate IsDevice(s: string) {
    || s in {"con", "prn", "aux", "nul"}
    || (|s| == 4 && (s[..3] == "com" || s[..3] == "lpt") && '1' <= s[3] <= '9')
  }

  /** A device name, alone or with extensions. */
  ghost predicate NamesDevice(s: string) {
    exists k :: 0 <= k <= |s| && IsDevice(s[..k]) && (k == |s| || s[k] == '.')
  }

  lemma ReservedWords(s: string)
    ensures s in RESERVED <==> s == "." || s == ".." || IsDevice(s)
  {
    if |s| == 4 {
      assert s == s[..3] + [s[3]];
    }
    if IsDevice(s) && |s| == 4 {
      DeviceWithNumber(s[..3], s[3]);
    }
  }

  lemma DeviceWithNumber(port: string, c: char)
    requires port == "com" || port == "lpt"
    requires '1' <= c <= '9'
    ensures port + [c] in RESERVED
  {
    var s := port + [c];
    if port == "com" {
      assert s == "com1" || s == "com2" || s == "com3" || s == "com4" || s == "com5"
           || s == "com6" || s == "com7" || s == "com8" || s == "com9";
    } else {
      assert s == "lpt1" || s == "lpt2" || s == "lpt3" || s == "lpt4" || s == "lpt5"
           || s == "lpt6" || s == "lpt7" || s == "lpt8" || s == "lpt9";
    }
  }

  lemma DeviceHasNoDot(s: string, i: nat)
    requires IsDevice(s) && i < |s|
    ensures s[i] != '.'
  {
    if |s| == 4 {
      assert i < 3 ==> s[..3][i] == s[i];
    }
  }

  lemma {:induction false} StemMeans(s: string)
    ensures var k := |Stem(s)|;
            && k <= |s| && Stem(s) == s[..k] && (k == |s| || s[k] == '.')
            && forall i :: 0 <= i < k ==> s[i] != '.'
  {
    if s != "" && s[0] != '.' {
      StemMeans(s[1..]);
      assert s == [s[0]] + s[1..];
    }
  }

  lemma StemIsDevice(s: string)
    ensures IsDevice(Stem(s)) <==> NamesDevice(s)
  {
    StemMeans(s);
    if k :| 0 <= k <= |s| && IsDevice(s[..k]) && (k == |s| || s[k] == '.') {
      forall i | 0 <= i < k ensures s[i] != '.' {
        DeviceHasNoDot(s[..k], i);
        assert s[..k][i] == s[i];
      }
      assert |Stem(s)| == k;
    }
  }

  lemma DeviceNamesItself(s: string)
    requires IsDevice(s)
    ensures NamesDevice(s)
  {
    assert s[..|s|] == s;
  }

  lemma IsReservedMeans(s: string)
    ensures IsReserved(s) <==> s == "." || s == ".." || NamesDevice(s)
  {
    StemMeans(s);
    StemIsDevice(s);
    ReservedWords(s);
    ReservedWords(Stem(s));
    if IsDevice(s) {
      DeviceNamesItself(s);
    }
    assert Stem(s) != "" ==> Stem(s)[0] == s[0] && s[0] != '.';
  }

  // ---------- scopes ----------

  /** Splitting at a slash. */
  lemma FirstInParts(c: char, rest: seq<string>, later: seq<string>)
    requires rest != []
    ensures var both := rest + later;
            [[c] + both[0]] + both[1..] == ([[c] + rest[0]] + rest[1..]) + later
  {
    assert (rest + later)[1..] == rest[1..] + later;
  }

  lemma {:induction false} SplitInParts(a: string, b: string)
    ensures SplitSlash(a + ("/" + b)) == SplitSlash(a) + SplitSlash(b)
  {
    var s := a + ("/" + b);
    if a == "" {
      assert s[0] == '/' && s[1..] == b;
    } else {
      SplitInParts(a[1..], b);
      assert s[0] == a[0] && s[1..] == a[1..] + ("/" + b);
      if a[0] == '/' {
        Regroup([""], SplitSlash(a[1..]), SplitSlash(b));
      } else {
        FirstInParts(a[0], SplitSlash(a[1..]), SplitSlash(b));
      }
    }
  }

  lemma PlainIsWhole(s: string)
    requires IsPlain(s)
    ensures SplitSlash(s) == [s] && IsIdPart(s)
  {
    SplitWithoutSlash(s);
  }

  lemma ScopedSplits(n: string, scope: string, name: string)
    requires IsScopedAs(n, scope, name)
    ensures n[0] == '@' && SplitSlash(n[1..]) == [scope, name] && SplitSlash(n) == ["@" + scope, name]
    ensures HasAllowedCharacters(n)
  {
    assert n[1..] == scope + ("/" + name);
    PlainIsWhole(scope);
    PlainIsWhole(name);
    SplitInParts(scope, name);
  }

  lemma AllowedIsScoped(n: string)
    requires n != "" && n[0] == '@' && HasAllowedCharacters(n)
    ensures IsScoped(n)
  {
    var parts := SplitSlash(n[1..]);
    JoinSplit(n[1..]);
    assert parts[1..] == [parts[1]];
    assert JoinSlash(parts) == parts[0] + ("/" + parts[1]);
    assert n == "@" + n[1..];
    assert IsScopedAs(n, parts[0], parts[1]);
  }

  lemma AllowedMeans(n: string)
    ensures HasAllowedCharacters(n) <==> IsPlain(n) || IsScoped(n)
  {
    if n != "" && n[0] == '@' && HasAllowedCharacters(n) {
      AllowedIsScoped(n);
    }
    if scope, name :| IsScopedAs(n, scope, name) {
      ScopedSplits(n, scope, name);
    }
  }

  // ---------- verdicts ----------

  ghost predicate NameOf(n: string, name: string) {
    || (IsPlain(n) && name == n)
    || exists scope :: IsScopedAs(n, scope, name)
  }

  /** The id, or its part behind the scope, is a dot or names a device. */
  ghost predicate HasReserved(n: string) { exists name :: NameOf(n, name) && (name == "." || NamesDevice(name)) }

  ghost predicate SomeReserved(parts: seq<string>) { exists i :: 0 <= i < |parts| && IsReserved(parts[i]) }

  lemma SignIsNoDevice(s: string)
    requires s == "" || s[0] == '@'
    ensures !IsDevice(s)
  {
    assert |s| == 4 ==> s[..3][0] == s[0];
  }

  lemma ScopeIsNotReserved(scope: string)
    ensures !IsReserved("@" + scope)
  {
    var s := "@" + scope;
    assert s[0] == '@' && "."[0] == '.' && ".."[0] == '.';
    IsReservedMeans(s);
    forall k | 0 <= k <= |s| ensures !IsDevice(s[..k]) {
      SignIsNoDevice(s[..k]);
    }
  }

  lemma PartHasNoPair(n: string, name: string)
    requires NameOf(n, name) && NoDotDot(n)
    ensures name != ".."
  {
    var k := |n| - 2;
    if !IsPlain(n) {
      var scope :| IsScopedAs(n, scope, name);
    }
    assert |name| == 2 ==> n[k] == name[0] && n[k + 1] == name[1];
  }

  lemma ReservedMeans(n: string)
    requires (IsPlain(n) || IsScoped(n)) && NoDotDot(n)
    ensures SomeReserved(SplitSlash(n)) <==> HasReserved(n)
  {
    if IsPlain(n) {
      PlainReserved(n);
    } else {
      var scope, name :| IsScopedAs(n, scope, name);
      ScopedReserved(n, scope, name);
    }
  }

  lemma PlainReserved(n: string)
    requires IsPlain(n) && NoDotDot(n)
    ensures SomeReserved(SplitSlash(n)) <==> HasReserved(n)
  {
    PlainIsWhole(n);
    IsReservedMeans(n);
    PartHasNoPair(n, n);
    assert SplitSlash(n)[0] == n;
    assert n[0] != '@' && NameOf(n, n);
    assert forall scope, name :: IsScopedAs(n, scope, name) ==> n[0] == '@';
  }

  lemma ScopedReserved(n: string, scope: string, name: string)
    requires IsScopedAs(n, scope, name) && NoDotDot(n)
    ensures SomeReserved(SplitSlash(n)) <==> HasReserved(n)
  {
    ScopedSplits(n, scope, name);
    ScopeIsNotReserved(scope);
    IsReservedMeans(name);
    PartHasNoPair(n, name);
    assert SplitSlash(n)[1] == name && NameOf(n, name);
    assert !IsPlain(n);
    forall other | NameOf(n, other) ensures other == name {
      var s :| IsScopedAs(n, s, other);
      ScopedSplits(n, s, other);
    }
  }

  /** Another name would stand for the same directory. */
  predicate IsAlias(n: string)
    requires n != ""
  {
    PairOf(n, '-') || n[0] == '.' || n[|n| - 1] == '.' || n[|n| - 1] == '-'
  }

  lemma PairMeans(n: string, c: char)
    ensures PairOf(n, c) <==> !NoPair(n, c)
  {}

  lemma AliasMeans(n: string)
    requires (IsPlain(n) || IsScoped(n)) && NoDotDot(n)
    ensures Canonical(n) <==> !IsAlias(n)
  {
    AllowedMeans(n);
    AllowedShape(n);
    PairMeans(n, '-');
    if IsPlain(n) {
      SlashesApart(n);
    } else {
      var scope, name :| IsScopedAs(n, scope, name);
      ScopedShape(n, scope, name);
    }
  }

  lemma SlashesApart(n: string)
    requires IsPlain(n)
    ensures AllSafe(n) && NoPair(n, '/') && n[0] != '/' && n[|n| - 1] != ' '
  {}

  lemma ScopedShape(n: string, scope: string, name: string)
    requires IsScopedAs(n, scope, name)
    ensures AllSafe(n) && NoPair(n, '/') && n[0] != '/' && n[|n| - 1] != ' '
  {
    var at := 1 + |scope|;
    forall i | 0 <= i < |n| ensures IsSafeChar(n[i]) && n[i] != ' ' && (n[i] == '/' <==> i == at) {
      assert n[i] == if i == 0 then '@' else if i < at then scope[i - 1] else if i == at then '/' else name[i - at - 1];
    }
  }

  lemma BlanksMean(n: string)
    ensures HasBlank(n) <==> exists i :: 0 <= i < |n| && IsSpaceChar(n[i])
  {
    if i :| 0 <= i < |n| && IsBlankChar(n[i]) {
      BlankCharMeans(n[i]);
    }
    if i :| 0 <= i < |n| && IsSpaceChar(n[i]) {
      BlankCharMeans(n[i]);
    }
  }

  /** The verdict on an allowed id. */
  lemma AllowedVerdict(n: string, policy: Policy)
    requires n != "" && |n| <= policy.maxLength && (IsPlain(n) || IsScoped(n))
    ensures Validate(n, policy)
            == if PairOf(n, '.') then Traversal
               else if HasReserved(n) then ReservedSegment
               else if n[0] == '@' && !policy.allowScoped then ScopeNotAllowed
               else if DotsAndHyphens(n) then Throws
               else if IsAlias(n) then AliasesOther
               else Accepted
  {
    AllowedMeans(n);
    AllowedShape(n);
    PairMeans(n, '.');
    ThrowsExactly(n, policy);
    if NoDotDot(n) {
      ReservedMeans(n);
      AliasMeans(n);
      FixedPointsExactly(n);
      assert SomeReserved(SplitSlash(n)) <==> exists i :: 0 <= i < |SplitSlash(n)| && IsReserved(SplitSlash(n)[i]);
      DotsAloneAreNamed(n);
    }
  }

  /** A lone dot is reserved. */
  lemma DotsAloneAreNamed(n: string)
    requires n != "" && NoDotDot(n)
    ensures n == "." ==> HasReserved(n)
  {
    if n == "." {
      assert IsPlain(n) && NameOf(n, n);
    }
  }

  /** The verdict on every normalized id. The checks for absolute paths, for slashes and for malformed scopes
      never speak: the check of the characters comes first. */
  lemma VerdictMeans(n: string, policy: Policy)
    ensures Validate(n, policy)
            == if n == "" then EmptyId
               else if |n| > policy.maxLength then TooLong
               else if HasBlank(n) then HasSpaces
               else if !IsPlain(n) && !IsScoped(n) then DisallowedCharacters
               else if PairOf(n, '.') then Traversal
               else if HasReserved(n) then ReservedSegment
               else if n[0] == '@' && !policy.allowScoped then ScopeNotAllowed
               else if DotsAndHyphens(n) then Throws
               else if IsAlias(n) then AliasesOther
               else Accepted
  {
    BlanksMean(n);
    AllowedMeans(n);
    if n != "" && |n| <= policy.maxLength && (IsPlain(n) || IsScoped(n)) {
      AllowedVerdict(n, policy);
    }
  }

  // ---------- normalized ids ----------

  /** `s` without null characters and with slashes for backslashes. */
  function Unified(s: string): string {
    if s == "" then ""
    else
      var c := s[|s| - 1];
      Unified(s[..|s| - 1]) + if c == '\0' then "" else if c == '\\' then "/" else [c]
  }

  lemma {:induction false} UnifiedMeans(s: string)
    ensures SlashesForward(Remove(s, '\0')) == Unified(s)
  {
    if s != "" {
      var k := |s| - 1;
      var c := s[k];
      UnifiedMeans(s[..k]);
      assert s == s[..k] + [c];
      RemoveInParts(s[..k], [c]);
      SlashesInParts(Remove(s[..k], '\0'), Remove([c], '\0'));
      assert [c][1..] == "";
    }
  }

  lemma NormalizeMeans(lower: string -> string, id: string)
    ensures exists core :: IsTrimmed(id, core) && NormalizeId(lower, id) == Unified(lower(core))
  {
    TrimMeans(id);
    UnifiedMeans(lower(TrimString(id)));
  }

  // ---------- paths ----------

  lemma {:induction false} PushInParts(stack: seq<string>, p: seq<string>, q: seq<string>)
    ensures PushAll(stack, p + q) == PushAll(PushAll(stack, p), q)
    decreases |p|
  {
    if p == [] {
      assert p + q == q;
    } else {
      PushInParts(Push(stack, p[0]), p[1..], q);
      assert (p + q)[0] == p[0] && (p + q)[1..] == p[1..] + q;
    }
  }

  /** Paths resolve part by part: one segment names a child, ".." the parent, "." and the empty one stay. */
  lemma ResolveMeans(from: seq<string>, a: string, b: string, segment: string)
    requires '/' !in segment
    ensures Resolve(from, "/" + b) == Resolve([], b)
    ensures a != "" && !("/" <= b) ==> Resolve(from, a + ("/" + b)) == Resolve(Resolve(from, a), b)
    ensures Resolve(from, segment)
            == if segment == "" || segment == "." then from
               else if segment == ".." then from[..if from == [] then 0 else |from| - 1]
               else from + [segment]
  {
    SplitWithoutSlash(segment);
    assert PushAll(from, [segment]) == Push(from, segment);
    assert ("/" + b)[1..] == b;
    assert ([""] + SplitSlash(b))[1..] == SplitSlash(b);
    if a != "" && !("/" <= b) {
      assert b == "" || b[0] != '/';
      SplitInParts(a, b);
      PushInParts(if IsAbsolute(a) then [] else from, SplitSlash(a), SplitSlash(b));
      assert (a + ("/" + b))[0] == a[0];
    }
  }

  ghost predicate IsSegment(part: string) { part != "" && part != "." && part != ".." && '/' !in part }

  lemma {:induction false} SplitHasNoSlash(s: string, i: nat)
    requires i < |SplitSlash(s)|
    ensures '/' !in SplitSlash(s)[i]
  {
    if s != "" {
      var rest := SplitSlash(s[1..]);
      if s[0] == '/' {
        if i > 0 {
          SplitHasNoSlash(s[1..], i - 1);
        }
      } else {
        SplitHasNoSlash(s[1..], i);
      }
    }
  }

  lemma {:induction false} KeptAreSegments(parts: seq<string>)
    requires forall i :: 0 <= i < |parts| ==> '/' !in parts[i] && parts[i] != ".."
    ensures forall i :: 0 <= i < |Kept(parts)| ==> IsSegment(Kept(parts)[i])
  {
    if parts != [] {
      assert '/' !in parts[0] && parts[0] != "..";
      KeptAreSegments(parts[1..]);
    }
  }

  /** Every name is refused by the sanitizer or placed at its sanitized form, one or more segments below the
      base directory. */
  lemma PlacedMeans(cwd: seq<string>, baseDir: string, name: string) returns (segments: seq<string>)
    ensures SafeName(name).None? ==> InstallDir(cwd, baseDir, name) == InvalidName
    ensures SafeName(name).Some? ==>
              && InstallDir(cwd, baseDir, name) == Placed(Resolve(Resolve(cwd, baseDir), SafeName(name).value))
              && InstallDir(cwd, baseDir, name) == Placed(Resolve(cwd, baseDir) + segments)
              && segments != [] && forall i :: 0 <= i < |segments| ==> IsSegment(segments[i])
  {
    segments := [];
    if SafeName(name).Some? {
      var s := SafeName(name).value;
      SafeNameShape(name);
      SanitizedPath(Resolve(cwd, baseDir), s);
      segments := Kept(SplitSlash(s));
      NoUps(s);
      forall i | 0 <= i < |SplitSlash(s)| ensures '/' !in SplitSlash(s)[i] && SplitSlash(s)[i] != ".." {
        SplitHasNoSlash(s, i);
        assert SplitSlash(s)[i] in SplitSlash(s);
      }
      KeptAreSegments(SplitSlash(s));
    }
  }
}
