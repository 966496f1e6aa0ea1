/**
 A reader for JSON texts, after the grammar of RFC 8259: white space between tokens, the three
 words, strings with all escapes, arrays and objects.  A number is the longest run of number
 characters; which runs are numbers is not looked into.  The reader knows nothing of the printer.
 */
module JsonReader {
  import opened Common
  import opened Utf16
  import opened CanonicalJson

  // ---------- white space and words ----------

  /** Section 2: space, tab, line feed and carriage return. */
  predicate IsBlank(c: CodeUnit) { c == 0x20 || c == 0x09 || c == 0x0A || c == 0x0D }

  function SkipBlanks(t: Text): (r: Text)
    ensures |r| <= |t|
    ensures t == [] || !IsBlank(t[0]) ==> r == t
  {
    if t != [] && IsBlank(t[0]) then SkipBlanks(t[1..]) else t
  }

  /** What follows the word `w` at the start of `t`. */
  function After(w: Text, t: Text): (r: Option<Text>)
    ensures r.Some? <==> w <= t
    ensures r.Some? ==> t == w + r.value
  {
    if w <= t then Some(t[|w|..]) else None
  }

  // ---------- strings ----------

  /** Section 7: the character of a two-character escape. */
  function ShortEscaped(letter: CodeUnit): Option<CodeUnit> {
    if letter == 0x22 then Some(0x22) // "
    else if letter == 0x5C then Some(0x5C) // \
    else if letter == 0x2F then Some(0x2F) // /
    else if letter == 0x62 then Some(0x08) // b
    else if letter == 0x66 then Some(0x0C) // f
    else if letter == 0x6E then Some(0x0A) // n
    else if letter == 0x72 then Some(0x0D) // r
    else if letter == 0x74 then Some(0x09) // t
    else None
  }

  function HexDigit(c: CodeUnit): (r: Option<int>)
    ensures r.Some? ==> 0 <= r.value < 16
  {
    if 0x30 <= c <= 0x39 then Some(c - 0x30)
    else if 0x41 <= c <= 0x46 then Some(c - 0x41 + 10)
    else if 0x61 <= c <= 0x66 then Some(c - 0x61 + 10)
    else None
  }

  function FourHexDigits(a: CodeUnit, b: CodeUnit, c: CodeUnit, d: CodeUnit): Option<CodeUnit> {
    var (p, q, r, s) := (HexDigit(a), HexDigit(b), HexDigit(c), HexDigit(d));
    if p.None? || q.None? || r.None? || s.None? then None
    else Some(((p.value * 16 + q.value) * 16 + r.value) * 16 + s.value)
  }

  /** The next character of a string that has not ended, and what follows it. Unescaped control
      characters and lone surrogates are no characters. */
  function ReadCharacter(t: Text): (r: Option<(Text, Text)>)
    requires t != []
    ensures r.Some? ==> |r.value.1| < |t|
  {
    if t[0] == 0x5C then
      if |t| >= 6 && t[1] == 0x75 then
        var c := FourHexDigits(t[2], t[3], t[4], t[5]);
        if c.None? then None else Some(([c.value], t[6..]))
      else if |t| >= 2 && ShortEscaped(t[1]).Some? then Some(([ShortEscaped(t[1]).value], t[2..]))
      else None
    else if t[0] < 0x20 then None
    else if 0xD800 <= t[0] < 0xDC00 then
      if |t| >= 2 && 0xDC00 <= t[1] < 0xE000 then Some((t[..2], t[2..])) else None
    else if 0xDC00 <= t[0] < 0xE000 then None
    else Some(([t[0]], t[1..]))
  }

  /** The rest of a string behind its opening quote, and what follows the closing one. */
  function ReadString(t: Text): (r: Option<(Text, Text)>)
    ensures r.Some? ==> |r.value.1| < |t|
    decreases |t|
  {
    if t == [] then None
    else if t[0] == 0x22 then Some(([], t[1..]))
    else
      match ReadCharacter(t)
      case None => None
      case Some((c, rest)) =>
        match ReadString(rest)
        case None => None
        case Some((s, after)) => Some((c + s, after))
  }

  // ---------- values ----------

  function NumberLength(t: Text): (n: nat)
    ensures n <= |t|
    ensures forall i :: 0 <= i < n ==> IsNumberUnit(t[i])
  {
    if t == [] || !IsNumberUnit(t[0]) then 0 else 1 + NumberLength(t[1..])
  }

  function ReadValue(t: Text): (r: Option<(Json, Text)>)
    ensures r.Some? ==> |r.value.1| < |t|
    decreases |t|, 1
  {
    var s := SkipBlanks(t);
    if s == [] then None
    else if s[0] == 0x6E then ReadWord([0x6E, 0x75, 0x6C, 0x6C], JNull, s) // null
    else if s[0] == 0x74 then ReadWord([0x74, 0x72, 0x75, 0x65], JBool(true), s) // true
    else if s[0] == 0x66 then ReadWord([0x66, 0x61, 0x6C, 0x73, 0x65], JBool(false), s) // false
    else if s[0] == 0x22 then
      match ReadString(s[1..])
      case None => None
      case Some((text, rest)) => Some((JString(text), rest))
    else if s[0] == 0x5B then ReadArray(s[1..])
    else if s[0] == 0x7B then ReadObject(s[1..])
    else if NumberLength(s) > 0 then Some((JNumber(s[..NumberLength(s)]), s[NumberLength(s)..]))
    else None
  }

  function ReadWord(w: Text, j: Json, t: Text): (r: Option<(Json, Text)>)
    requires w != []
    ensures r.Some? ==> |r.value.1| < |t|
  {
    match After(w, t)
    case None => None
    case Some(rest) => Some((j, rest))
  }

  /** An array behind its opening bracket. */
  function ReadArray(t: Text): (r: Option<(Json, Text)>)
    ensures r.Some? ==> |r.value.1| < |t|
    decreases |t|, 3
  {
    var s := SkipBlanks(t);
    if s != [] && s[0] == 0x5D then Some((JArray([]), s[1..]))
    else
      match ReadItems(t)
      case None => None
      case Some((items, rest)) => Some((JArray(items), rest))
  }

  /** One or more items, separated by commas, and the closing bracket. */
  function ReadItems(t: Text): (r: Option<(seq<Json>, Text)>)
    ensures r.Some? ==> |r.value.1| < |t|
    decreases |t|, 2
  {
    match ReadValue(t)
    case None => None
    case Some((item, rest)) =>
      var s := SkipBlanks(rest);
      if s != [] && s[0] == 0x5D then Some(([item], s[1..]))
      else if s != [] && s[0] == 0x2C then
        match ReadItems(s[1..])
        case None => None
        case Some((items, after)) => Some(([item] + items, after))
      else None
  }

  /** An object behind its opening brace. */
  function ReadObject(t: Text): (r: Option<(Json, Text)>)
    ensures r.Some? ==> |r.value.1| < |t|
    decreases |t|, 3
  {
    var s := SkipBlanks(t);
    if s != [] && s[0] == 0x7D then Some((JObject([]), s[1..]))
    else
      match ReadMembers(t)
      case None => None
      case Some((members, rest)) => Some((JObject(members), rest))
  }

  /** A string, a colon and a value. */
  function ReadMember(t: Text): (r: Option<(JMember, Text)>)
    ensures r.Some? ==> |r.value.1| < |t|
    decreases |t|, 1
  {
    var s := SkipBlanks(t);
    if s == [] || s[0] != 0x22 then None
    else
      match ReadString(s[1..])
      case None => None
      case Some((key, behind)) =>
        var u := SkipBlanks(behind);
        if u == [] || u[0] != 0x3A then None
        else
          match ReadValue(u[1..])
          case None => None
          case Some((value, rest)) => Some((JMember(key, value), rest))
  }

  /** One or more members, separated by commas, and the closing brace. */
  function ReadMembers(t: Text): (r: Option<(seq<JMember>, Text)>)
    ensures r.Some? ==> |r.value.1| < |t|
    decreases |t|, 2
  {
    match ReadMember(t)
    case None => None
    case Some((member, rest)) =>
      var s := SkipBlanks(rest);
      if s != [] && s[0] == 0x7D then Some(([member], s[1..]))
      else if s != [] && s[0] == 0x2C then
        match ReadMembers(s[1..])
        case None => None
        case Some((members, after)) => Some(([member] + members, after))
      else None
  }

  /** The tree that a whole text stands for. */
  function Parse(t: Text): Option<Json> {
    match ReadValue(t)
    case None => None
    case Some((j, rest)) => if SkipBlanks(rest) == [] then Some(j) else None
  }
}
