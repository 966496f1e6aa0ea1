/**
 JavaScript text: a sequence of UTF-16 code units, lone surrogates included.
 */
module Utf16 {

  type CodeUnit = x: int | 0 <= x < 0x1_0000

  type Text = seq<CodeUnit>

  /** The text of an ASCII literal. */
  function Lit(s: string): (t: Text)
    ensures |t| == |s|
    ensures forall i :: 0 <= i < |s| ==> t[i] == s[i] as int % 0x1_0000
  {
    seq(|s|, i requires 0 <= i < |s| => s[i] as int % 0x1_0000)
  }

  const COLON: CodeUnit := 0x3A

  predicate IsHigh(c: CodeUnit) { 0xD800 <= c < 0xDC00 }

  predicate IsLow(c: CodeUnit) { 0xDC00 <= c < 0xE000 }

  predicate IsSurrogate(c: CodeUnit) { IsHigh(c) || IsLow(c) }

  predicate IsDigit(c: CodeUnit) { 0x30 <= c <= 0x39 }

  /** The white space and line terminators that `String.prototype.trim` strips. */
  predicate IsSpace(c: CodeUnit) {
    || 9 <= c <= 13 || c == 0x20 || c == 0xA0 || c == 0x1680 || 0x2000 <= c <= 0x200A
    || c == 0x2028 || c == 0x2029 || c == 0x202F || c == 0x205F || c == 0x3000 || c == 0xFEFF
  }

  function TrimStart(t: Text): Text {
    if t != [] && IsSpace(t[0]) then TrimStart(t[1..]) else t
  }

  function TrimEnd(t: Text): Text {
    if t != [] && IsSpace(t[|t| - 1]) then TrimEnd(t[..|t| - 1]) else t
  }

  function Trim(t: Text): Text { TrimEnd(TrimStart(t)) }

  function LowerUnit(c: CodeUnit): CodeUnit { if 0x41 <= c <= 0x5A then c + 0x20 else c }

  /** Lower-cases the ASCII letters. */
  function Lower(t: Text): (r: Text)
    ensures |r| == |t|
    ensures forall i :: 0 <= i < |t| ==> r[i] == LowerUnit(t[i])
  {
    seq(|t|, i requires 0 <= i < |t| => LowerUnit(t[i]))
  }

  /** No lone surrogate: the texts on which UTF-8 encoding loses nothing. */
  ghost predicate WellFormed(t: Text) {
    || t == []
    || (!IsSurrogate(t[0]) && WellFormed(t[1..]))
    || (|t| > 1 && IsHigh(t[0]) && IsLow(t[1]) && WellFormed(t[2..]))
  }

  lemma {:induction false} WellFormedConcat(s: Text, t: Text)
    requires WellFormed(s) && WellFormed(t)
    ensures WellFormed(s + t)
  {
    if s == [] {
      assert s + t == t;
    } else if !IsSurrogate(s[0]) {
      WellFormedConcat(s[1..], t);
      assert (s + t)[1..] == s[1..] + t;
    } else {
      WellFormedConcat(s[2..], t);
      assert (s + t)[2..] == s[2..] + t;
    }
  }

  /** Text with neither surrogates nor control characters. */
  ghost predicate Plain(t: Text) { forall i :: 0 <= i < |t| ==> 0x20 <= t[i] && !IsSurrogate(t[i]) }

  lemma {:induction false} PlainIsWellFormed(t: Text)
    requires Plain(t)
    ensures WellFormed(t)
  {
    if t != [] {
      PlainIsWellFormed(t[1..]);
    }
  }

  /** Code-unit order, as `Array.prototype.sort` compares strings. */
  predicate LexLess(a: Text, b: Text) {
    b != [] && (a == [] || a[0] < b[0] || (a[0] == b[0] && LexLess(a[1..], b[1..])))
  }

  lemma {:induction false} LexTransitive(a: Text, b: Text, c: Text)
    requires LexLess(a, b) && LexLess(b, c)
    ensures LexLess(a, c)
  {
    if a != [] && a[0] == b[0] == c[0] {
      LexTransitive(a[1..], b[1..], c[1..]);
    }
  }

  lemma {:induction false} LexIrreflexive(a: Text)
    ensures !LexLess(a, a)
  {
    if a != [] {
      LexIrreflexive(a[1..]);
    }
  }

  lemma {:induction false} LexTotal(a: Text, b: Text)
    ensures a == b || LexLess(a, b) || LexLess(b, a)
  {
    if a != [] && b != [] && a[0] == b[0] {
      LexTotal(a[1..], b[1..]);
      assert a == [a[0]] + a[1..] && b == [b[0]] + b[1..];
    }
  }
}
