/**
 The canonical JSON text behind action digests and approval signatures: a value tree is
 rewritten into a normal form whose records list their members in one fixed order, and
 the normal form is printed as `JSON.stringify` prints it.
 */
module CanonicalJson {
  import opened Utf16

  /** The texts that finite numbers print as; a finite number is modelled by its text. */
  type NumberText = t: Text | t != [] && forall i :: 0 <= i < |t| ==> IsNumberUnit(t[i])
    witness [0x30]

  predicate IsNumberUnit(c: CodeUnit) {
    IsDigit(c) || c == 0x2B || c == 0x2D || c == 0x2E || c == 0x65
  }

  /** JavaScript values that reach the canonical printer. A valid `Date` is its ISO text,
      a hole in an array is `Undefined`. */
  datatype Value =
    | Undefined
    | Function
    | Symbol
    | Null
    | Bool(b: bool)
    | Number(text: NumberText)
    | NonFinite
    | BigInt(digits: Text)
    | Str(s: Text)
    | Date(iso: Text)
    | Array(items: seq<Value>)
    | Object(members: seq<Member>)

  datatype Member = Member(key: Text, value: Value)

  /** What `JSON.stringify` is given: a tree whose records are in enumeration order. */
  datatype Json =
    | JNull
    | JBool(b: bool)
    | JNumber(text: NumberText)
    | JString(s: Text)
    | JArray(items: seq<Json>)
    | JObject(members: seq<JMember>)

  datatype JMember = JMember(key: Text, value: Json)

  // ---------- normalization ----------

  /** `__proto__`; assigning it on a fresh record never creates a member. */
  const PROTO: Text := [0x5F, 0x5F, 0x70, 0x72, 0x6F, 0x74, 0x6F, 0x5F, 0x5F]

  predicate Kept(m: Member) {
    !m.value.Undefined? && !m.value.Function? && !m.value.Symbol? && m.key != PROTO
  }

  /** The largest array index, 4294967294. */
  const MAX_INDEX: Text := [0x34, 0x32, 0x39, 0x34, 0x39, 0x36, 0x37, 0x32, 0x39, 0x34]

  /** Keys that a record enumerates first, in numeric order. */
  predicate IsArrayIndex(k: Text) {
    && 1 <= |k| <= 10
    && (forall i :: 0 <= i < |k| ==> IsDigit(k[i]))
    && (k[0] == 0x30 ==> |k| == 1)
    && (|k| == 10 ==> !LexLess(MAX_INDEX, k))
  }

  /** The order in which the rebuilt record enumerates its members: array indices ascending,
      then the other keys as they were inserted, which is in code-unit order. */
  predicate KeyBefore(a: Text, b: Text) {
    if IsArrayIndex(a) && IsArrayIndex(b) then |a| < |b| || (|a| == |b| && LexLess(a, b))
    else if IsArrayIndex(a) || IsArrayIndex(b) then IsArrayIndex(a)
    else LexLess(a, b)
  }

  function InsertMember(m: JMember, ms: seq<JMember>): seq<JMember> {
    if ms == [] || KeyBefore(m.key, ms[0].key) then [m] + ms
    else [ms[0]] + InsertMember(m, ms[1..])
  }

  function Normalize(v: Value): Json {
    match v
    case Undefined => JNull
    case Function => JNull
    case Symbol => JNull
    case Null => JNull
    case Bool(b) => JBool(b)
    case Number(text) => JNumber(text)
    case NonFinite => JNull
    case BigInt(digits) => JString(digits)
    case Str(s) => JString(s)
    case Date(iso) => JString(iso)
    case Array(items) => JArray(NormalizeItems(items))
    case Object(members) => JObject(NormalizeMembers(members))
  }

  function NormalizeItems(items: seq<Value>): seq<Json> {
    if items == [] then [] else [Normalize(items[0])] + NormalizeItems(items[1..])
  }

  function NormalizeMembers(ms: seq<Member>): seq<JMember> {
    if ms == [] then []
    else if !Kept(ms[0]) then NormalizeMembers(ms[1..])
    else InsertMember(JMember(ms[0].key, Normalize(ms[0].value)), NormalizeMembers(ms[1..]))
  }

  // ---------- printing ----------

  const QUOTE: CodeUnit := 0x22
  const BACKSLASH: CodeUnit := 0x5C

  function HexUnit(n: int): (c: CodeUnit)
    requires 0 <= n < 16
  {
    if n < 10 then 0x30 + n else 0x61 + n - 10
  }

  /** Four lower-case hexadecimal digits. */
  function Hex4(c: CodeUnit): Text {
    var n1 := c / 16;
    var n2 := n1 / 16;
    [HexUnit(n2 / 16), HexUnit(n2 % 16), HexUnit(n1 % 16), HexUnit(c % 16)]
  }

  /** The letter of a two-character escape (section 7 of RFC 8259), if `c` has one. */
  function ShortEscape(c: CodeUnit): (e: CodeUnit)
  {
    if c == QUOTE || c == BACKSLASH then c
    else if c == 8 then 0x62
    else if c == 9 then 0x74
    else if c == 10 then 0x6E
    else if c == 12 then 0x66
    else if c == 13 then 0x72
    else 0
  }

  function EscapeUnit(c: CodeUnit): Text {
    if ShortEscape(c) != 0 then [BACKSLASH, ShortEscape(c)]
    else if c < 0x20 || IsSurrogate(c) then [BACKSLASH, 0x75] + Hex4(c)
    else [c]
  }

  /** The inside of a string literal; a surrogate pair is copied, a lone surrogate escaped. */
  function Escape(s: Text): Text {
    if s == [] then []
    else if IsPair(s) then [s[0], s[1]] + Escape(s[2..])
    else EscapeUnit(s[0]) + Escape(s[1..])
  }

  predicate IsPair(s: Text) { |s| > 1 && IsHigh(s[0]) && IsLow(s[1]) }

  function Quoted(s: Text): Text { [QUOTE] + Escape(s) + [QUOTE] }

  const NULL_TEXT: Text := [0x6E, 0x75, 0x6C, 0x6C]
  const TRUE_TEXT: Text := [0x74, 0x72, 0x75, 0x65]
  const FALSE_TEXT: Text := [0x66, 0x61, 0x6C, 0x73, 0x65]
  const COMMA: CodeUnit := 0x2C

  function Print(j: Json): Text
    decreases j, 1
  {
    match j
    case JNull => NULL_TEXT
    case JBool(b) => if b then TRUE_TEXT else FALSE_TEXT
    case JNumber(text) => text
    case JString(s) => Quoted(s)
    case JArray(items) =>
      if items == [] then [0x5B, 0x5D]
      else [0x5B] + (Print(items[0]) + PrintItems(items[1..]))
    case JObject(members) =>
      if members == [] then [0x7B, 0x7D]
      else [0x7B] + (PrintMember(members[0]) + PrintMembers(members[1..]))
  }

  /** The items after the first, each behind its comma, and the closing bracket. */
  function PrintItems(items: seq<Json>): Text
    decreases items, 0
  {
    if items == [] then [0x5D]
    else [COMMA] + (Print(items[0]) + PrintItems(items[1..]))
  }

  function PrintMember(m: JMember): Text
    decreases m, 0
  {
    Quoted(m.key) + ([COLON] + Print(m.value))
  }

  function PrintMembers(ms: seq<JMember>): Text
    decreases ms, 0
  {
    if ms == [] then [0x7D]
    else [COMMA] + (PrintMember(ms[0]) + PrintMembers(ms[1..]))
  }

  function StableStringify(v: Value): Text { Print(Normalize(v)) }

  // ---------- reference meaning ----------

  /** What a value means to the digest: records are finite maps, so member order is gone. */
  datatype Meaning =
    | MNull
    | MBool(b: bool)
    | MNumber(text: NumberText)
    | MString(s: Text)
    | MArray(items: seq<Meaning>)
    | MObject(fields: map<Text, Meaning>)

  ghost function MeaningOf(v: Value): Meaning {
    match v
    case Undefined => MNull
    case Function => MNull
    case Symbol => MNull
    case Null => MNull
    case Bool(b) => MBool(b)
    case Number(text) => MNumber(text)
    case NonFinite => MNull
    case BigInt(digits) => MString(digits)
    case Str(s) => MString(s)
    case Date(iso) => MString(iso)
    case Array(items) => MArray(ItemMeanings(items))
    case Object(members) => MObject(FieldMeanings(members))
  }

  ghost function ItemMeanings(items: seq<Value>): seq<Meaning> {
    if items == [] then [] else [MeaningOf(items[0])] + ItemMeanings(items[1..])
  }

  ghost function FieldMeanings(ms: seq<Member>): map<Text, Meaning> {
    if ms == [] then map[]
    else if MeansNothing(ms[0]) then FieldMeanings(ms[1..])
    else FieldMeanings(ms[1..])[ms[0].key := MeaningOf(ms[0].value)]
  }

  /** Members without a meaning: undefined, functions, symbols, and the key `__proto__`. */
  ghost predicate MeansNothing(m: Member) {
    m.value.Undefined? || m.value.Function? || m.value.Symbol? || m.key == Lit("__proto__")
  }

  /** Own keys of a JavaScript object are pairwise distinct, at every depth. */
  ghost predicate Valid(v: Value) {
    match v
    case Array(items) => forall i :: 0 <= i < |items| ==> Valid(items[i])
    case Object(ms) =>
      && (forall i, j :: 0 <= i < j < |ms| ==> ms[i].key != ms[j].key)
      && (forall i :: 0 <= i < |ms| ==> Valid(ms[i].value))
    case _ => true
  }
}
