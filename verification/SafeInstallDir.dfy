/**
 Install directories: the id validator and the POSIX path resolution behind them. `resolve`
 works on the segments of normalized absolute paths.
 */
module SafeInstallDir {
  import opened Common
  import opened Sanitizer

  // ---------- POSIX paths ----------

  function SplitSlash(s: string): (r: seq<string>)
    ensures r != []
  {
    if s == "" then [""]
    else
      var rest := SplitSlash(s[1..]);
      if s[0] == '/' then [""] + rest else [[s[0]] + rest[0]] + rest[1..]
  }

  function JoinSlash(parts: seq<string>): string {
    if parts == [] then "" else if |parts| == 1 then parts[0] else parts[0] + ("/" + JoinSlash(parts[1..]))
  }

  function Push(stack: seq<string>, part: string): seq<string> {
    if part == "" || part == "." then stack
    else if part == ".." then (if stack == [] then [] else stack[..|stack| - 1])
    else stack + [part]
  }

  function PushAll(stack: seq<string>, parts: seq<string>): seq<string>
    decreases |parts|
  {
    if parts == [] then stack else PushAll(Push(stack, parts[0]), parts[1..])
  }

  predicate IsAbsolute(path: string) { path != "" && path[0] == '/' }

  /** `resolve(from, path)` as segments of an absolute path. */
  function Resolve(from: seq<string>, path: string): seq<string> {
    PushAll(if IsAbsolute(path) then [] else from, SplitSlash(path))
  }

  function CommonPrefix(a: seq<string>, b: seq<string>): (n: nat)
    ensures n <= |a| && n <= |b| && a[..n] == b[..n]
  {
    if a == [] || b == [] || a[0] != b[0] then 0 else 1 + CommonPrefix(a[1..], b[1..])
  }

  function Ups(n: nat): seq<string> { seq(n, _ => "..") }

  /** `relative(from, to)`. */
  function Relative(from: seq<string>, to: seq<string>): string {
    var n := CommonPrefix(from, to);
    JoinSlash(Ups(|from| - n) + to[n..])
  }

  predicate Escapes(rel: string) {
    rel == "" || rel == ".." || (|rel| >= 3 && rel[..3] == "../") || IsAbsolute(rel)
  }

  datatype Placement = Placed(path: seq<string>) | InvalidName | PathEscape

  /** `cwd` is the current directory that `resolve(baseDir)` starts from. */
  function InstallDir(cwd: seq<string>, baseDir: string, name: string): Placement {
    match SafeName(name)
    case None => InvalidName
    case Some(sanitized) =>
      var base := Resolve(cwd, baseDir);
      var full := Resolve(base, sanitized);
      if Escapes(Relative(base, full)) then PathEscape else Placed(full)
  }

  // ---------- install ids ----------

  /** `lower` is the language's own lower-casing. */
  function NormalizeId(lower: string -> string, id: string): string {
    SlashesForward(Remove(lower(TrimString(id)), '\0'))
  }

  predicate IsIdChar(c: char) { 'a' <= c <= 'z' || '0' <= c <= '9' || c == '.' || c == '_' || c == '-' }

  predicate IsIdPart(s: string) { s != "" && forall i :: 0 <= i < |s| ==> IsIdChar(s[i]) }

  predicate HasAllowedCharacters(n: string) {
    if n != "" && n[0] == '@' then
      var parts := SplitSlash(n[1..]);
      |parts| == 2 && IsIdPart(parts[0]) && IsIdPart(parts[1])
    else IsIdPart(n)
  }

  const RESERVED: set<string> :=
    {".", "..", "con", "prn", "aux", "nul",
     "com1", "com2", "com3", "com4", "com5", "com6", "com7", "com8", "com9",
     "lpt1", "lpt2", "lpt3", "lpt4", "lpt5", "lpt6", "lpt7", "lpt8", "lpt9"}

  /** The part of a segment before its first dot. */
  function Stem(s: string): string { if s == "" || s[0] == '.' then "" else [s[0]] + Stem(s[1..]) }

  predicate IsReserved(segment: string) { Stem(segment) in RESERVED || segment in RESERVED }

  datatype Policy = Policy(maxLength: int, allowScoped: bool)

  datatype Verdict =
    | Accepted
    | EmptyId
    | TooLong
    | HasSpaces
    | DisallowedCharacters
    | AbsolutePath
    | Traversal
    | DisallowedSlashes
    | ReservedSegment
    | ScopeNotAllowed
    | MalformedScope
    | AliasesOther
    | Throws

  predicate SlashCountAllowed(n: string) {
    '/' in n ==> n != "" && n[0] == '@' && |SplitSlash(n)| == 2
  }

  /** The verdict on a normalized id. */
  ghost function Validate(n: string, policy: Policy): Verdict {
    if n == "" then EmptyId
    else if |n| > policy.maxLength then TooLong
    else if exists i :: 0 <= i < |n| && IsSpaceChar(n[i]) then HasSpaces
    else if !HasAllowedCharacters(n) then DisallowedCharacters
    else if IsAbsolute(n) then AbsolutePath
    else if !NoDotDot(n) then Traversal
    else if !SlashCountAllowed(n) then DisallowedSlashes
    else if exists i :: 0 <= i < |SplitSlash(n)| && IsReserved(SplitSlash(n)[i]) then ReservedSegment
    else if n[0] == '@' && !policy.allowScoped then ScopeNotAllowed
    else if n[0] == '@' && (|SplitSlash(n)| < 2 || SplitSlash(n)[0] == "@" || SplitSlash(n)[1] == "")
    then MalformedScope
    else if SafeName(n).None? then Throws
    else if SafeName(n) != Some(n) then AliasesOther
    else Accepted
  }

  method ValidateInstallId(lower: string -> string, id: string, policy: Policy) returns (verdict: Verdict)
    ensures verdict == Validate(NormalizeId(lower, id), policy)
  {
    var n := NormalizeId(lower, id);
    if |n| == 0 {
      return EmptyId;
    }
    if |n| > policy.maxLength {
      return TooLong;
    }
    if exists i :: 0 <= i < |n| && IsSpaceChar(n[i]) {
      return HasSpaces;
    }
    if !HasAllowedCharacters(n) {
      return DisallowedCharacters;
    }
    if IsAbsolute(n) {
      return AbsolutePath;
    }
    if !NoDotDot(n) {
      return Traversal;
    }
    if !SlashCountAllowed(n) {
      return DisallowedSlashes;
    }
    var segments := SplitSlash(n);
    for k := 0 to |segments|
      invariant !exists i :: 0 <= i < k && IsReserved(segments[i])
    {
      if IsReserved(segments[k]) {
        return ReservedSegment;
      }
    }
    if n[0] == '@' {
      if !policy.allowScoped {
        return ScopeNotAllowed;
      }
      if |segments| < 2 || segments[0] == "@" || segments[1] == "" {
        return MalformedScope;
      }
    }
    var safe := SafeDirName(n);
    if safe.None? {
      return Throws;
    }
    if safe.value != n {
      return AliasesOther;
    }
    return Accepted;
  }
}
