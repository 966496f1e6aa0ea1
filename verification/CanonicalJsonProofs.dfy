/**
 The canonical text is exact: two values print alike if and only if they mean the same.
 */
module CanonicalJsonProofs {
  import opened Common
  import opened Utf16
  import opened CanonicalJson
  import opened JsonReader

  // ---------- reading printed strings ----------

  lemma SplitConcat<T>(a: seq<T>, x: seq<T>, b: seq<T>, y: seq<T>)
    requires a + x == b + y && |a| == |b|
    ensures a == b && x == y
  {
    assert a == (a + x)[..|a|] && b == (b + y)[..|b|];
    assert x == (a + x)[|a|..] && y == (b + y)[|b|..];
  }

  /** The four digits of a code unit are read back as that unit. */
  lemma Hex4Reads(c: CodeUnit)
    ensures FourHexDigits(Hex4(c)[0], Hex4(c)[1], Hex4(c)[2], Hex4(c)[3]) == Some(c)
  {
    var n1 := c / 16;
    var n2 := n1 / 16;
    assert c == n1 * 16 + c % 16 && n1 == n2 * 16 + n1 % 16 && n2 == n2 / 16 * 16 + n2 % 16;
  }

  lemma ReadEscapedUnit(c: CodeUnit, y: Text)
    ensures EscapeUnit(c) != [] && EscapeUnit(c)[0] != 0x22
    ensures ReadCharacter(EscapeUnit(c) + y) == Some(([c], y))
  {
    var t := EscapeUnit(c) + y;
    if EscapeUnit(c)[0] == 0x5C && EscapeUnit(c)[1] == 0x75 {
      Hex4Reads(c);
      assert t[6..] == y && t[2] == Hex4(c)[0] && t[3] == Hex4(c)[1] && t[4] == Hex4(c)[2] && t[5] == Hex4(c)[3];
    } else if EscapeUnit(c)[0] == 0x5C {
      assert t[2..] == y;
    } else {
      assert t[1..] == y;
    }
  }

  lemma EscapePairSplit(a: Text, x: Text)
    requires IsPair(a)
    ensures Escape(a) + x == a[..2] + (Escape(a[2..]) + x)
  {}

  lemma EscapeUnitSplit(a: Text, x: Text)
    requires a != [] && !IsPair(a)
    ensures Escape(a) + x == EscapeUnit(a[0]) + (Escape(a[1..]) + x)
  {}

  /** A printed string is read back, whatever follows its closing quote. */
  lemma {:induction false} ReadEscaped(a: Text, x: Text)
    ensures ReadString(Escape(a) + ([0x22] + x)) == Some((a, x))
  {
    var tail := [0x22] + x;
    var t := Escape(a) + tail;
    if a == [] {
      assert t == tail && t[1..] == x;
    } else if IsPair(a) {
      EscapePairSplit(a, tail);
      ReadEscaped(a[2..], x);
      assert t[..2] == a[..2] && t[2..] == Escape(a[2..]) + tail && a == a[..2] + a[2..];
    } else {
      EscapeUnitSplit(a, tail);
      ReadEscapedUnit(a[0], Escape(a[1..]) + tail);
      ReadEscaped(a[1..], x);
      assert t[0] == EscapeUnit(a[0])[0] && a == [a[0]] + a[1..];
    }
  }

  /** A closing quote is found at the same place in both texts. */
  lemma EscapePrefix(a: Text, b: Text, x: Text, y: Text)
    requires Escape(a) + ([QUOTE] + x) == Escape(b) + ([QUOTE] + y)
    ensures a == b && x == y
  {
    ReadEscaped(a, x);
    ReadEscaped(b, y);
  }

  lemma ReadQuoted(a: Text, x: Text)
    ensures (Quoted(a) + x)[0] == 0x22 && ReadString((Quoted(a) + x)[1..]) == Some((a, x))
  {
    assert (Quoted(a) + x)[1..] == Escape(a) + ([QUOTE] + x);
    ReadEscaped(a, x);
  }

  // ---------- reading printed trees ----------

  /** A text that cannot continue a number. */
  predicate Delimited(x: Text) { x == [] || !IsNumberUnit(x[0]) }

  lemma {:induction false} NumberLengthOf(a: Text, x: Text)
    requires (forall i :: 0 <= i < |a| ==> IsNumberUnit(a[i])) && Delimited(x)
    ensures NumberLength(a + x) == |a|
  {
    if a == [] {
      assert a + x == x;
    } else {
      NumberLengthOf(a[1..], x);
      assert (a + x)[1..] == a[1..] + x;
    }
  }

  /** The first code unit tells the constructor, except that all numbers share theirs. */
  lemma PrintHead(j: Json)
    ensures Print(j) != []
    ensures j.JNull? ==> Print(j)[0] == 0x6E
    ensures j.JBool? ==> Print(j)[0] == if j.b then 0x74 else 0x66
    ensures j.JNumber? ==> IsNumberUnit(Print(j)[0])
    ensures j.JString? ==> Print(j)[0] == 0x22
    ensures j.JArray? ==> Print(j)[0] == 0x5B
    ensures j.JObject? ==> Print(j)[0] == 0x7B
  {}

  lemma PrintIsNotBlank(j: Json, x: Text)
    ensures Print(j) + x != [] && (Print(j) + x)[0] == Print(j)[0] && SkipBlanks(Print(j) + x) == Print(j) + x
    ensures Print(j)[0] != 0x5D && Print(j)[0] != 0x7D
  {
    PrintHead(j);
  }

  lemma ReadPrintedNumber(j: Json, x: Text)
    requires j.JNumber? && Delimited(x)
    ensures ReadValue(Print(j) + x) == Some((j, x))
  {
    var t := Print(j) + x;
    PrintIsNotBlank(j, x);
    PrintHead(j);
    NumberLengthOf(j.text, x);
    assert t[..|j.text|] == j.text && t[|j.text|..] == x;
  }

  lemma ReadPrintedWord(j: Json, x: Text)
    requires j.JNull? || j.JBool?
    ensures ReadValue(Print(j) + x) == Some((j, x))
  {
    var w, t := Print(j), Print(j) + x;
    PrintIsNotBlank(j, x);
    PrintHead(j);
    assert w <= t && t[|w|..] == x;
  }

  lemma ReadPrintedString(j: Json, x: Text)
    requires j.JString?
    ensures ReadValue(Print(j) + x) == Some((j, x))
  {
    PrintIsNotBlank(j, x);
    ReadQuoted(j.s, x);
  }

  /** Every printed tree is read back, before a delimiter or the end of the text. */
  lemma {:induction false} ReadPrinted(j: Json, x: Text)
    requires Delimited(x)
    ensures ReadValue(Print(j) + x) == Some((j, x))
    decreases j, 1
  {
    match j
    case JNumber(_) => ReadPrintedNumber(j, x);
    case JString(_) => ReadPrintedString(j, x);
    case JArray(_) => ReadPrintedArray(j, x);
    case JObject(_) => ReadPrintedObject(j, x);
    case _ => ReadPrintedWord(j, x);
  }

  lemma {:induction false} ReadPrintedArray(j: Json, x: Text)
    requires j.JArray?
    ensures ReadValue(Print(j) + x) == Some((j, x))
    decreases j, 0
  {
    var a, t := j.items, Print(j) + x;
    PrintIsNotBlank(j, x);
    if a == [] {
      assert t[1..][0] == 0x5D && t[1..][1..] == x;
    } else {
      var tail := PrintItems(a[1..]) + x;
      assert t[1..] == Print(a[0]) + tail;
      PrintIsNotBlank(a[0], tail);
      ReadPrintedItems(a, x);
    }
  }

  lemma ItemsHead(a: seq<Json>, x: Text)
    ensures (PrintItems(a) + x)[0] == (if a == [] then 0x5D else 0x2C)
    ensures (PrintItems(a) + x)[1..] == if a == [] then x else Print(a[0]) + (PrintItems(a[1..]) + x)
  {}

  lemma {:induction false} ReadPrintedItems(a: seq<Json>, x: Text)
    requires a != []
    ensures ReadItems(Print(a[0]) + (PrintItems(a[1..]) + x)) == Some((a, x))
    decreases a, 2
  {
    var rest := a[1..];
    var tail := PrintItems(rest) + x;
    ItemsHead(rest, x);
    ReadPrinted(a[0], tail);
    assert a == [a[0]] + rest;
    if rest == [] {
      assert a == [a[0]];
    } else {
      ReadPrintedItems(rest, x);
    }
  }

  lemma {:induction false} ReadPrintedObject(j: Json, x: Text)
    requires j.JObject?
    ensures ReadValue(Print(j) + x) == Some((j, x))
    decreases j, 0
  {
    var a, t := j.members, Print(j) + x;
    PrintIsNotBlank(j, x);
    if a == [] {
      assert t[1..][0] == 0x7D && t[1..][1..] == x;
    } else {
      var tail := PrintMembers(a[1..]) + x;
      assert t[1..] == PrintMember(a[0]) + tail;
      assert (PrintMember(a[0]) + tail)[0] == 0x22;
      ReadPrintedMembers(a, x);
    }
  }

  lemma MembersHead(a: seq<JMember>, x: Text)
    ensures (PrintMembers(a) + x)[0] == (if a == [] then 0x7D else 0x2C)
    ensures (PrintMembers(a) + x)[1..] == if a == [] then x else PrintMember(a[0]) + (PrintMembers(a[1..]) + x)
  {}

  lemma {:induction false} ReadPrintedMember(m: JMember, x: Text)
    requires Delimited(x)
    ensures ReadMember(PrintMember(m) + x) == Some((m, x))
    decreases m, 0
  {
    var behind := [0x3A] + (Print(m.value) + x);
    MemberSplit(m, x);
    ReadQuoted(m.key, behind);
    ReadPrinted(m.value, x);
    ReadMemberOf(PrintMember(m) + x, m.key, behind, m.value, x);
  }

  lemma MemberSplit(m: JMember, x: Text)
    ensures PrintMember(m) + x == Quoted(m.key) + ([0x3A] + (Print(m.value) + x))
    ensures ([0x3A] + (Print(m.value) + x))[1..] == Print(m.value) + x
  {}

  lemma ReadMemberOf(t: Text, key: Text, behind: Text, value: Json, rest: Text)
    requires t != [] && t[0] == 0x22 && ReadString(t[1..]) == Some((key, behind))
    requires behind != [] && behind[0] == 0x3A && ReadValue(behind[1..]) == Some((value, rest))
    ensures ReadMember(t) == Some((JMember(key, value), rest))
  {}

  lemma {:induction false} ReadPrintedMembers(a: seq<JMember>, x: Text)
    requires a != []
    ensures ReadMembers(PrintMember(a[0]) + (PrintMembers(a[1..]) + x)) == Some((a, x))
    decreases a, 2
  {
    var rest := a[1..];
    var tail := PrintMembers(rest) + x;
    MembersHead(rest, x);
    ReadPrintedMember(a[0], tail);
    assert a == [a[0]] + rest;
    if rest == [] {
      assert a == [a[0]];
    } else {
      ReadPrintedMembers(rest, x);
    }
  }

  /** The printed text is JSON: a reader of the grammar gets back the tree. */
  lemma ParsePrint(j: Json)
    ensures Parse(Print(j)) == Some(j)
  {
    assert Print(j) + [] == Print(j);
    ReadPrinted(j, []);
  }

  /** Unique parsing: a text starts with the print of at most one tree that a delimiter or the
      end of the text follows. */
  lemma PrintPrefix(v: Json, w: Json, x: Text, y: Text)
    requires Print(v) + x == Print(w) + y && Delimited(x) && Delimited(y)
    ensures v == w && x == y
  {
    ReadPrinted(v, x);
    ReadPrinted(w, y);
  }

  lemma PrintInjective(v: Json, w: Json)
    requires Print(v) == Print(w)
    ensures v == w
  {
    ParsePrint(v);
    ParsePrint(w);
  }

  // ---------- no shorter text ----------

  lemma {:induction false} EscapeCons(c: CodeUnit, s: Text)
    ensures |Escape([c] + s)| <= |EscapeUnit(c)| + |Escape(s)|
  {
    assert ([c] + s)[1..] == s;
    if IsPair([c] + s) {
      assert ([c] + s)[2..] == s[1..];
    }
  }

  lemma ReadCharacterShort(t: Text)
    requires t != [] && t[0] != 0x22 && ReadCharacter(t).Some?
    ensures var (c, rest) := ReadCharacter(t).value;
            if |c| == 1 then |EscapeUnit(c[0])| + |rest| <= |t|
            else |c| == 2 && IsPair(c) && 2 + |rest| <= |t|
  {}

  lemma {:induction false} ReadStringShort(t: Text)
    requires ReadString(t).Some?
    ensures var (s, rest) := ReadString(t).value;
            |Escape(s)| + 1 + |rest| <= |t|
    decreases |t|
  {
    if t[0] != 0x22 {
      var (c, rest) := ReadCharacter(t).value;
      ReadCharacterShort(t);
      ReadStringShort(rest);
      var (s, _) := ReadString(rest).value;
      if |c| == 1 {
        assert c == [c[0]];
        EscapeCons(c[0], s);
      } else {
        assert (c + s)[2..] == s;
      }
    }
  }

  lemma {:induction false} ReadValueShort(t: Text)
    requires ReadValue(t).Some?
    ensures var (j, rest) := ReadValue(t).value;
            |Print(j)| + |rest| <= |t|
    decreases |t|, 1
  {
    var s := SkipBlanks(t);
    if s[0] == 0x22 {
      ReadStringShort(s[1..]);
    } else if s[0] == 0x5B {
      if !(SkipBlanks(s[1..]) != [] && SkipBlanks(s[1..])[0] == 0x5D) {
        ReadItemsShort(s[1..]);
      }
    } else if s[0] == 0x7B {
      if !(SkipBlanks(s[1..]) != [] && SkipBlanks(s[1..])[0] == 0x7D) {
        ReadMembersShort(s[1..]);
      }
    }
  }

  lemma {:induction false} ReadItemsShort(t: Text)
    requires ReadItems(t).Some?
    ensures var (a, rest) := ReadItems(t).value;
            a != [] && |Print(a[0])| + |PrintItems(a[1..])| + |rest| <= |t|
    decreases |t|, 2
  {
    ReadValueShort(t);
    var (item, behind) := ReadValue(t).value;
    var s := SkipBlanks(behind);
    if s[0] != 0x5D {
      ReadItemsShort(s[1..]);
      var (items, _) := ReadItems(s[1..]).value;
      assert ([item] + items)[1..] == items;
    }
  }

  lemma {:induction false} ReadMemberShort(t: Text)
    requires ReadMember(t).Some?
    ensures var (m, rest) := ReadMember(t).value;
            |PrintMember(m)| + |rest| <= |t|
    decreases |t|, 1
  {
    var s := SkipBlanks(t);
    ReadStringShort(s[1..]);
    var (key, behind) := ReadString(s[1..]).value;
    ReadValueShort(SkipBlanks(behind)[1..]);
  }

  lemma {:induction false} ReadMembersShort(t: Text)
    requires ReadMembers(t).Some?
    ensures var (a, rest) := ReadMembers(t).value;
            a != [] && |PrintMember(a[0])| + |PrintMembers(a[1..])| + |rest| <= |t|
    decreases |t|, 2
  {
    ReadMemberShort(t);
    var (member, behind) := ReadMember(t).value;
    var s := SkipBlanks(behind);
    if s[0] != 0x7D {
      ReadMembersShort(s[1..]);
      var (members, _) := ReadMembers(s[1..]).value;
      assert ([member] + members)[1..] == members;
    }
  }

  /** No JSON text of a tree is shorter than the printed one: no white space, no needless escape. */
  lemma PrintIsShortest(t: Text, j: Json)
    requires Parse(t) == Some(j)
    ensures |Print(j)| <= |t|
  {
    ReadValueShort(t);
  }

  /** What that leaves open: control characters without a letter of their own get lower-case digits. */
  lemma EscapeDigits(c: CodeUnit)
    requires c < 0x20 && c != 8 && c != 9 && c != 10 && c != 12 && c != 13
    ensures Escape([c]) == [0x5C, 0x75, 0x30, 0x30, 0x30 + c / 16, (if c % 16 < 10 then 0x30 else 0x57) + c % 16]
  {
    assert [c][1..] == [] && Escape([c]) == EscapeUnit(c) + Escape([]);
  }

  // ---------- the key order ----------

  /** Code-unit order: at the first difference, or at the end of `a`. */
  ghost predicate SortsBefore(a: Text, b: Text) {
    exists i :: 0 <= i <= |a| && i < |b| && a[..i] == b[..i] && (i == |a| || a[i] < b[i])
  }

  lemma {:induction false} LexMeans(a: Text, b: Text)
    ensures LexLess(a, b) <==> SortsBefore(a, b)
  {
    if b != [] && a != [] && a[0] == b[0] {
      LexMeans(a[1..], b[1..]);
      if SortsBefore(a[1..], b[1..]) {
        var c, d := a[1..], b[1..];
        var i :| 0 <= i <= |c| && i < |d| && c[..i] == d[..i] && (i == |c| || c[i] < d[i]);
        assert a[..i + 1] == [a[0]] + a[1..][..i] && b[..i + 1] == [b[0]] + b[1..][..i];
      }
      if SortsBefore(a, b) {
        var i :| 0 <= i <= |a| && i < |b| && a[..i] == b[..i] && (i == |a| || a[i] < b[i]);
        assert a[1..][..i - 1] == a[..i][1..] && b[1..][..i - 1] == b[..i][1..];
      }
    } else if b != [] && (a == [] || a[0] < b[0]) {
      assert a[..0] == b[..0];
    } else {
      assert forall i :: 0 < i <= |a| && i < |b| && a[..i] == b[..i] ==> a[..i][0] == b[..i][0];
    }
  }

  function Pow10(n: nat): nat { if n == 0 then 1 else 10 * Pow10(n - 1) }

  predicate AllDigits(k: Text) { forall i :: 0 <= i < |k| ==> 0x30 <= k[i] <= 0x39 }

  /** The number that decimal digits stand for. */
  function NumberOf(k: Text): nat
    requires AllDigits(k)
  {
    if k == [] then 0 else (k[0] - 0x30) * Pow10(|k| - 1) + NumberOf(k[1..])
  }

  lemma {:induction false} NumberBound(k: Text)
    requires AllDigits(k)
    ensures NumberOf(k) < Pow10(|k|)
    ensures k != [] && k[0] != 0x30 ==> Pow10(|k| - 1) <= NumberOf(k)
  {
    if k != [] {
      NumberBound(k[1..]);
      DigitBound(k[0] - 0x30, Pow10(|k| - 1));
    }
  }

  lemma DigitBound(d: int, p: nat)
    requires 0 <= d <= 9
    ensures 0 <= d * p <= 9 * p && (d > 0 ==> p <= d * p)
  {}

  lemma {:induction false} LexOfNumbers(a: Text, b: Text)
    requires AllDigits(a) && AllDigits(b) && |a| == |b|
    ensures LexLess(a, b) <==> NumberOf(a) < NumberOf(b)
  {
    if a != [] {
      LexOfNumbers(a[1..], b[1..]);
      NumberBound(a[1..]);
      NumberBound(b[1..]);
      DigitsApart(a[0] - 0x30, b[0] - 0x30, Pow10(|a| - 1));
    }
  }

  lemma DigitsApart(d: int, e: int, p: nat)
    ensures d < e ==> (d + 1) * p <= e * p && (d + 1) * p == d * p + p
    ensures e < d ==> (e + 1) * p <= d * p && (e + 1) * p == e * p + p
  {}

  lemma {:induction false} Pow10Grows(m: nat, n: nat)
    requires m <= n
    ensures Pow10(m) <= Pow10(n)
  {
    if m < n {
      Pow10Grows(m, n - 1);
    }
  }

  /** A text that is a natural number below 4294967295, written without leading zeros. */
  ghost predicate IsIndexText(k: Text) {
    k != [] && AllDigits(k) && (k[0] == 0x30 ==> |k| == 1) && NumberOf(k) < 4294967295
  }

  lemma OneDigitMore(d: nat, k: Text, n: nat, p: nat)
    requires d <= 9 && AllDigits(k) && NumberOf(k) == n && Pow10(|k|) == p
    ensures AllDigits([0x30 + d] + k) && NumberOf([0x30 + d] + k) == d * p + n && Pow10(|k| + 1) == 10 * p
  {
    assert ([0x30 + d] + k)[1..] == k;
  }

  const LOW_DIGITS: Text := [0x37, 0x32, 0x39, 0x34]

  lemma LowDigits()
    ensures AllDigits(LOW_DIGITS) && NumberOf(LOW_DIGITS) == 7294 && Pow10(4) == 10_000
  {
    OneDigitMore(4, [], 0, 1);
    OneDigitMore(9, [0x34], 4, 10);
    OneDigitMore(2, [0x39, 0x34], 94, 100);
    OneDigitMore(7, [0x32, 0x39, 0x34], 294, 1000);
    assert [0x39] + [0x34] == [0x39, 0x34] && [0x32] + [0x39, 0x34] == [0x32, 0x39, 0x34];
    assert [0x37] + [0x32, 0x39, 0x34] == LOW_DIGITS;
  }

  lemma HighDigits(low: Text)
    requires |low| == 4 && AllDigits(low) && NumberOf(low) == 7294 && Pow10(4) == 10_000
    ensures Pow10(9) == 1_000_000_000 && Pow10(10) == 10_000_000_000
    ensures var k := [0x34] + ([0x32] + ([0x39] + ([0x34] + ([0x39] + ([0x36] + low)))));
            AllDigits(k) && NumberOf(k) == 4294967294
  {
    OneDigitMore(6, low, 7294, 10_000);
    OneDigitMore(9, [0x36] + low, 67294, 100_000);
    OneDigitMore(4, [0x39] + ([0x36] + low), 967294, 1_000_000);
    var seven := [0x34] + ([0x39] + ([0x36] + low));
    OneDigitMore(9, seven, 4967294, 10_000_000);
    OneDigitMore(2, [0x39] + seven, 94967294, 100_000_000);
    OneDigitMore(4, [0x32] + ([0x39] + seven), 294967294, 1_000_000_000);
  }

  lemma MaxIndexNumber()
    ensures Pow10(9) == 1_000_000_000 && Pow10(10) == 10_000_000_000
    ensures AllDigits(MAX_INDEX) && NumberOf(MAX_INDEX) == 4294967294
  {
    LowDigits();
    HighDigits(LOW_DIGITS);
    assert [0x34] + ([0x32] + ([0x39] + ([0x34] + ([0x39] + ([0x36] + LOW_DIGITS))))) == MAX_INDEX;
  }

  lemma TenDigitIndex(k: Text)
    requires |k| == 10 && AllDigits(k)
    ensures !LexLess(MAX_INDEX, k) <==> NumberOf(k) < 4294967295
  {
    MaxIndexNumber();
    LexOfNumbers(MAX_INDEX, k);
  }

  lemma OtherLengths(k: Text)
    requires k != [] && AllDigits(k) && |k| != 10
    ensures |k| < 10 ==> NumberOf(k) < 4294967295
    ensures |k| > 10 && k[0] != 0x30 ==> NumberOf(k) >= 4294967295
  {
    MaxIndexNumber();
    NumberBound(k);
    if |k| < 10 {
      Pow10Grows(|k|, 9);
    } else {
      Pow10Grows(10, |k| - 1);
    }
  }

  lemma IndexMeans(k: Text)
    ensures IsArrayIndex(k) <==> IsIndexText(k)
  {
    if k != [] && AllDigits(k) {
      if |k| == 10 {
        TenDigitIndex(k);
      } else {
        OtherLengths(k);
      }
    }
  }

  lemma ShorterIsLess(a: Text, b: Text)
    requires IsIndexText(a) && IsIndexText(b) && |a| < |b|
    ensures NumberOf(a) < NumberOf(b)
  {
    NumberBound(a);
    NumberBound(b);
    Pow10Grows(|a|, |b| - 1);
  }

  /** Printed records list the array indices first, by number, and then the other keys by code units. */
  lemma KeyOrderMeans(a: Text, b: Text)
    ensures KeyBefore(a, b)
            <==> if IsIndexText(a) && IsIndexText(b) then NumberOf(a) < NumberOf(b)
                 else if IsIndexText(a) || IsIndexText(b) then IsIndexText(a)
                 else SortsBefore(a, b)
  {
    IndexMeans(a);
    IndexMeans(b);
    LexMeans(a, b);
    if IsIndexText(a) && IsIndexText(b) {
      if |a| < |b| {
        ShorterIsLess(a, b);
      } else if |b| < |a| {
        ShorterIsLess(b, a);
      } else {
        LexOfNumbers(a, b);
      }
    }
  }

  lemma KeyOrderIsTotal(a: Text, b: Text)
    ensures a == b || KeyBefore(a, b) || KeyBefore(b, a)
    ensures !KeyBefore(a, a)
  {
    LexTotal(a, b);
    LexIrreflexive(a);
  }

  lemma KeyOrderIsTransitive(a: Text, b: Text, c: Text)
    requires KeyBefore(a, b) && KeyBefore(b, c)
    ensures KeyBefore(a, c)
  {
    if LexLess(a, b) && LexLess(b, c) {
      LexTransitive(a, b, c);
    }
  }

  ghost predicate KeysAscend(ms: seq<JMember>) {
    forall i, j :: 0 <= i < j < |ms| ==> KeyBefore(ms[i].key, ms[j].key)
  }

  ghost predicate HasKey(ms: seq<JMember>, k: Text) { exists i :: 0 <= i < |ms| && ms[i].key == k }

  lemma {:induction false} InsertKeepsOrder(m: JMember, ms: seq<JMember>)
    requires KeysAscend(ms) && !HasKey(ms, m.key)
    ensures KeysAscend(InsertMember(m, ms))
    ensures forall k :: HasKey(InsertMember(m, ms), k) <==> k == m.key || HasKey(ms, k)
  {
    var r := InsertMember(m, ms);
    if ms == [] || KeyBefore(m.key, ms[0].key) {
      forall j | 0 < j < |ms| ensures ms != [] && KeyBefore(m.key, ms[j].key) {
        KeyOrderIsTransitive(m.key, ms[0].key, ms[j].key);
      }
      assert forall i :: 0 < i < |r| ==> r[i] == ms[i - 1];
      forall k | HasKey(ms, k) ensures HasKey(r, k) {
        var i :| 0 <= i < |ms| && ms[i].key == k;
        assert r[i + 1].key == k;
      }
      assert r[0].key == m.key;
    } else {
      var rest := ms[1..];
      assert forall i :: 0 <= i < |rest| ==> rest[i] == ms[i + 1];
      InsertKeepsOrder(m, rest);
      KeyOrderIsTotal(m.key, ms[0].key);
      assert KeyBefore(ms[0].key, m.key);
      var tail := InsertMember(m, rest);
      assert r == [ms[0]] + tail;
      forall j | 0 <= j < |tail| ensures KeyBefore(ms[0].key, tail[j].key) {
        assert HasKey(tail, tail[j].key);
      }
      forall k ensures HasKey(r, k) <==> k == m.key || HasKey(ms, k) {
        HasKeyCons(ms[0], tail, k);
        HasKeyCons(ms[0], rest, k);
        assert ms == [ms[0]] + rest;
      }
    }
  }

  lemma HasKeyCons(m: JMember, ms: seq<JMember>, k: Text)
    ensures HasKey([m] + ms, k) <==> m.key == k || HasKey(ms, k)
  {
    var r := [m] + ms;
    assert r[0] == m;
    if HasKey(ms, k) {
      var i :| 0 <= i < |ms| && ms[i].key == k;
      assert r[i + 1].key == k;
    }
  }

  /** Records list their keys in ascending order at every depth. */
  ghost predicate Ordered(j: Json) {
    match j
    case JArray(items) => forall i :: 0 <= i < |items| ==> Ordered(items[i])
    case JObject(ms) => KeysAscend(ms) && forall i :: 0 <= i < |ms| ==> Ordered(ms[i].value)
    case _ => true
  }

  lemma {:induction false} NormalizeIsOrdered(v: Value)
    requires Valid(v)
    ensures Ordered(Normalize(v))
    decreases v, 1
  {
    match v
    case Array(items) => NormalizeItemsOrdered(items);
    case Object(ms) => NormalizeMembersOrdered(ms);
    case _ =>
  }

  lemma {:induction false} NormalizeItemsOrdered(items: seq<Value>)
    requires forall i :: 0 <= i < |items| ==> Valid(items[i])
    ensures forall i :: 0 <= i < |NormalizeItems(items)| ==> Ordered(NormalizeItems(items)[i])
    decreases items, 0
  {
    if items != [] {
      NormalizeIsOrdered(items[0]);
      NormalizeItemsOrdered(items[1..]);
    }
  }

  ghost predicate AllOrdered(ms: seq<JMember>) { forall i :: 0 <= i < |ms| ==> Ordered(ms[i].value) }

  lemma {:induction false} InsertAllOrdered(m: JMember, ms: seq<JMember>)
    requires Ordered(m.value) && AllOrdered(ms)
    ensures AllOrdered(InsertMember(m, ms))
  {
    if ms != [] && !KeyBefore(m.key, ms[0].key) {
      InsertAllOrdered(m, ms[1..]);
    }
  }

  lemma {:induction false} NormalizeMembersOrdered(ms: seq<Member>)
    requires Valid(Object(ms))
    ensures KeysAscend(NormalizeMembers(ms)) && AllOrdered(NormalizeMembers(ms))
    ensures forall k :: HasKey(NormalizeMembers(ms), k) ==> exists i :: 0 <= i < |ms| && ms[i].key == k
    decreases ms, 0
  {
    if ms != [] {
      var rest := ms[1..];
      assert forall i :: 0 <= i < |rest| ==> rest[i] == ms[i + 1];
      NormalizeMembersOrdered(rest);
      if Kept(ms[0]) {
        NormalizeIsOrdered(ms[0].value);
        var m := JMember(ms[0].key, Normalize(ms[0].value));
        InsertKeepsOrder(m, NormalizeMembers(rest));
        InsertAllOrdered(m, NormalizeMembers(rest));
      }
    }
  }

  // ---------- normal form and meaning ----------

  ghost function JsonMeaning(j: Json): Meaning {
    match j
    case JNull => MNull
    case JBool(b) => MBool(b)
    case JNumber(text) => MNumber(text)
    case JString(s) => MString(s)
    case JArray(items) => MArray(JsonItemMeanings(items))
    case JObject(ms) => MObject(JsonFieldMeanings(ms))
  }

  ghost function JsonItemMeanings(items: seq<Json>): (r: seq<Meaning>)
    ensures |r| == |items|
  {
    if items == [] then [] else [JsonMeaning(items[0])] + JsonItemMeanings(items[1..])
  }

  ghost function JsonFieldMeanings(ms: seq<JMember>): map<Text, Meaning> {
    if ms == [] then map[]
    else JsonFieldMeanings(ms[1..])[ms[0].key := JsonMeaning(ms[0].value)]
  }

  lemma {:induction false} FieldsHaveKeys(ms: seq<JMember>, k: Text)
    ensures k in JsonFieldMeanings(ms) <==> HasKey(ms, k)
  {
    if ms != [] {
      FieldsHaveKeys(ms[1..], k);
      HasKeyCons(ms[0], ms[1..], k);
      assert ms == [ms[0]] + ms[1..];
    }
  }

  lemma {:induction false} InsertMeaning(m: JMember, ms: seq<JMember>)
    requires !HasKey(ms, m.key)
    ensures JsonFieldMeanings(InsertMember(m, ms)) == JsonFieldMeanings(ms)[m.key := JsonMeaning(m.value)]
  {
    if ms == [] || KeyBefore(m.key, ms[0].key) {
      assert ([m] + ms)[1..] == ms;
    } else {
      HasKeyCons(ms[0], ms[1..], m.key);
      assert ms == [ms[0]] + ms[1..];
      InsertMeaning(m, ms[1..]);
      assert ([ms[0]] + InsertMember(m, ms[1..]))[1..] == InsertMember(m, ms[1..]);
    }
  }

  lemma {:induction false} NormalizeKeepsMeaning(v: Value)
    requires Valid(v)
    ensures JsonMeaning(Normalize(v)) == MeaningOf(v)
    decreases v, 1
  {
    match v
    case Array(items) => NormalizeItemsMeaning(items);
    case Object(ms) => NormalizeMembersMeaning(ms);
    case _ =>
  }

  lemma {:induction false} NormalizeItemsMeaning(items: seq<Value>)
    requires forall i :: 0 <= i < |items| ==> Valid(items[i])
    ensures JsonItemMeanings(NormalizeItems(items)) == ItemMeanings(items)
    decreases items, 0
  {
    if items != [] {
      NormalizeKeepsMeaning(items[0]);
      NormalizeItemsMeaning(items[1..]);
      assert NormalizeItems(items)[1..] == NormalizeItems(items[1..]);
    }
  }

  lemma KeptMeansSomething(m: Member)
    ensures Kept(m) <==> !MeansNothing(m)
  {
    var proto := Lit("__proto__");
    assert |proto| == |PROTO| == 9;
    assert forall i :: 0 <= i < 9 ==> proto[i] == PROTO[i];
    assert proto == PROTO;
  }

  lemma {:induction false} NormalizeMembersMeaning(ms: seq<Member>)
    requires Valid(Object(ms))
    ensures JsonFieldMeanings(NormalizeMembers(ms)) == FieldMeanings(ms)
    decreases ms, 0
  {
    if ms != [] {
      var rest := ms[1..];
      assert forall i :: 0 <= i < |rest| ==> rest[i] == ms[i + 1];
      NormalizeMembersMeaning(rest);
      KeptMeansSomething(ms[0]);
      if Kept(ms[0]) {
        NormalizeKeepsMeaning(ms[0].value);
        NormalizeMembersOrdered(rest);
        InsertMeaning(JMember(ms[0].key, Normalize(ms[0].value)), NormalizeMembers(rest));
      }
    }
  }

  /** An ordered tree is determined by its meaning. */
  lemma {:induction false} OrderedDetermined(j: Json, k: Json)
    requires Ordered(j) && Ordered(k) && JsonMeaning(j) == JsonMeaning(k)
    ensures j == k
    decreases j, 1
  {
    match j
    case JArray(items) => ItemsDetermined(j.items, k.items);
    case JObject(ms) => MembersDetermined(j.members, k.members);
    case _ =>
  }

  lemma {:induction false} ItemsDetermined(a: seq<Json>, b: seq<Json>)
    requires forall i :: 0 <= i < |a| ==> Ordered(a[i])
    requires forall i :: 0 <= i < |b| ==> Ordered(b[i])
    requires JsonItemMeanings(a) == JsonItemMeanings(b)
    ensures a == b
    decreases a, 0
  {
    if a != [] {
      assert |a| == |b|;
      assert JsonItemMeanings(a)[0] == JsonItemMeanings(b)[0];
      assert JsonItemMeanings(a)[1..] == JsonItemMeanings(b)[1..];
      OrderedDetermined(a[0], b[0]);
      ItemsDetermined(a[1..], b[1..]);
      assert a == [a[0]] + a[1..] && b == [b[0]] + b[1..];
    }
  }

  lemma FirstKeyIsLeast(ms: seq<JMember>, k: Text)
    requires KeysAscend(ms) && HasKey(ms, k)
    ensures k == ms[0].key || KeyBefore(ms[0].key, k)
  {}

  lemma NoFieldsOnlyIfEmpty(ms: seq<JMember>)
    ensures JsonFieldMeanings(ms) == map[] <==> ms == []
  {
    if ms != [] {
      assert ms[0].key in JsonFieldMeanings(ms);
    }
  }

  lemma FieldsWithoutFirst(ms: seq<JMember>)
    requires KeysAscend(ms) && ms != []
    ensures JsonFieldMeanings(ms[1..]) == JsonFieldMeanings(ms) - {ms[0].key}
  {
    var first := ms[0].key;
    FieldsHaveKeys(ms[1..], first);
    KeyOrderIsTotal(first, first);
    assert first !in JsonFieldMeanings(ms[1..]);
    AddThenRemove(JsonFieldMeanings(ms[1..]), first, JsonMeaning(ms[0].value));
  }

  lemma AddThenRemove<K, V>(m: map<K, V>, k: K, v: V)
    requires k !in m
    ensures m[k := v] - {k} == m
  {}

  lemma {:induction false} MembersDetermined(a: seq<JMember>, b: seq<JMember>)
    requires KeysAscend(a) && AllOrdered(a) && KeysAscend(b) && AllOrdered(b)
    requires JsonFieldMeanings(a) == JsonFieldMeanings(b)
    ensures a == b
    decreases a, 0
  {
    NoFieldsOnlyIfEmpty(a);
    NoFieldsOnlyIfEmpty(b);
    if a != [] {
      var p, q := a[0].key, b[0].key;
      assert p in JsonFieldMeanings(a) && q in JsonFieldMeanings(b);
      FieldsHaveKeys(b, p);
      FieldsHaveKeys(a, q);
      FirstKeyIsLeast(b, p);
      FirstKeyIsLeast(a, q);
      if p != q {
        KeyOrderIsTransitive(p, q, p);
        KeyOrderIsTotal(p, p);
      }
      assert JsonFieldMeanings(a)[p] == JsonFieldMeanings(b)[p];
      OrderedDetermined(a[0].value, b[0].value);
      FieldsWithoutFirst(a);
      FieldsWithoutFirst(b);
      MembersDetermined(a[1..], b[1..]);
      assert a == [a[0]] + a[1..] && b == [b[0]] + b[1..];
    }
  }

  /** The canonical text is exact. */
  lemma CanonicalTextExact(v: Value, w: Value)
    requires Valid(v) && Valid(w)
    ensures StableStringify(v) == StableStringify(w) <==> MeaningOf(v) == MeaningOf(w)
  {
    NormalizeKeepsMeaning(v);
    NormalizeKeepsMeaning(w);
    if StableStringify(v) == StableStringify(w) {
      PrintInjective(Normalize(v), Normalize(w));
    }
    if MeaningOf(v) == MeaningOf(w) {
      NormalizeIsOrdered(v);
      NormalizeIsOrdered(w);
      OrderedDetermined(Normalize(v), Normalize(w));
    }
  }

  // ---------- shape of the printed text ----------

  /** Well-formed UTF-16 without control characters: no line break, nothing lost in UTF-8. */
  ghost predicate Clean(t: Text) { WellFormed(t) && forall i :: 0 <= i < |t| ==> 0x20 <= t[i] }

  lemma CleanConcat(s: Text, t: Text)
    requires Clean(s) && Clean(t)
    ensures Clean(s + t)
  {
    WellFormedConcat(s, t);
  }

  lemma PlainIsClean(t: Text)
    requires Plain(t)
    ensures Clean(t)
  {
    PlainIsWellFormed(t);
  }

  lemma {:induction false} EscapeIsClean(s: Text)
    ensures Clean(Escape(s))
  {
    if s == [] {
    } else if IsPair(s) {
      EscapeIsClean(s[2..]);
      assert [s[0], s[1]][2..] == [];
      assert WellFormed([s[0], s[1]]);
      CleanConcat([s[0], s[1]], Escape(s[2..]));
    } else {
      EscapeIsClean(s[1..]);
      PlainIsClean(EscapeUnit(s[0]));
      CleanConcat(EscapeUnit(s[0]), Escape(s[1..]));
    }
  }

  lemma QuotedIsClean(s: Text)
    ensures Clean(Quoted(s))
  {
    EscapeIsClean(s);
    PlainIsClean([QUOTE]);
    CleanConcat([QUOTE], Escape(s));
    CleanConcat([QUOTE] + Escape(s), [QUOTE]);
  }

  /** Every printed tree is clean, so it is one line and UTF-8 encodes it without loss. */
  lemma {:induction false} PrintIsClean(j: Json)
    ensures Clean(Print(j))
    decreases j, 1
  {
    match j
    case JString(s) => QuotedIsClean(s);
    case JArray(items) =>
      if items == [] {
        PlainIsClean(Print(j));
      } else {
        PrintIsClean(items[0]);
        PrintItemsClean(items[1..]);
        CleanConcat(Print(items[0]), PrintItems(items[1..]));
        PlainIsClean([0x5B]);
        CleanConcat([0x5B], Print(items[0]) + PrintItems(items[1..]));
      }
    case JObject(ms) =>
      if ms == [] {
        PlainIsClean(Print(j));
      } else {
        PrintMemberClean(ms[0]);
        PrintMembersClean(ms[1..]);
        CleanConcat(PrintMember(ms[0]), PrintMembers(ms[1..]));
        PlainIsClean([0x7B]);
        CleanConcat([0x7B], PrintMember(ms[0]) + PrintMembers(ms[1..]));
      }
    case _ => PlainIsClean(Print(j));
  }

  lemma {:induction false} PrintItemsClean(items: seq<Json>)
    ensures Clean(PrintItems(items))
    decreases items, 0
  {
    if items == [] {
      PlainIsClean(PrintItems(items));
    } else {
      PrintIsClean(items[0]);
      PrintItemsClean(items[1..]);
      CleanConcat(Print(items[0]), PrintItems(items[1..]));
      PlainIsClean([COMMA]);
      CleanConcat([COMMA], Print(items[0]) + PrintItems(items[1..]));
    }
  }

  lemma {:induction false} PrintMemberClean(m: JMember)
    ensures Clean(PrintMember(m))
    decreases m, 0
  {
    PrintIsClean(m.value);
    QuotedIsClean(m.key);
    PlainIsClean([COLON]);
    CleanConcat([COLON], Print(m.value));
    CleanConcat(Quoted(m.key), [COLON] + Print(m.value));
  }

  lemma {:induction false} PrintMembersClean(ms: seq<JMember>)
    ensures Clean(PrintMembers(ms))
    decreases ms, 0
  {
    if ms == [] {
      PlainIsClean(PrintMembers(ms));
    } else {
      PrintMemberClean(ms[0]);
      PrintMembersClean(ms[1..]);
      CleanConcat(PrintMember(ms[0]), PrintMembers(ms[1..]));
      PlainIsClean([COMMA]);
      CleanConcat([COMMA], PrintMember(ms[0]) + PrintMembers(ms[1..]));
    }
  }
}
