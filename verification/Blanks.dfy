/** The white space of the source language, listed one by one. */
module Blanks {
  import opened Common
  import opened Utf16

  /** White space and line ends of the language. */
  predicate IsBlank(c: CodeUnit) {
    || c in {0x09, 0x0A, 0x0B, 0x0C, 0x0D, 0x20, 0xA0, 0x1680, 0x2028, 0x2029, 0x202F, 0x205F, 0x3000, 0xFEFF}
    || 0x2000 <= c <= 0x200A
  }

  lemma BlankMeans(c: CodeUnit)
    ensures IsBlank(c) <==> IsSpace(c)
  {}

  predicate IsBlankChar(c: char) { c as int < 0x1_0000 && IsBlank(c as int) }

  lemma BlankCharMeans(c: char)
    ensures IsBlankChar(c) <==> IsSpaceChar(c)
  {}

  predicate AllBlankChars(s: string) { forall i :: 0 <= i < |s| ==> IsBlankChar(s[i]) }

  /** `s` is `core` with blanks around it. */
  ghost predicate IsPaddedText(s: string, before: string, core: string, behind: string) {
    AllBlankChars(before) && AllBlankChars(behind) && s == before + (core + behind)
  }

  /** `core` is `s` without the blanks around it. */
  ghost predicate IsTrimmed(s: string, core: string) {
    && (core == "" || (!IsBlankChar(core[0]) && !IsBlankChar(core[|core| - 1])))
    && exists before, behind :: IsPaddedText(s, before, core, behind)
  }

  lemma PadBefore(c: char, s: string, core: string)
    requires IsTrimmed(s, core) && IsBlankChar(c)
    ensures IsTrimmed([c] + s, core)
  {
    var before, behind :| IsPaddedText(s, before, core, behind);
    assert [c] + s == ([c] + before) + (core + behind);
    assert IsPaddedText([c] + s, [c] + before, core, behind);
  }

  lemma PadBehind(s: string, c: char, core: string)
    requires IsTrimmed(s, core) && IsBlankChar(c)
    ensures IsTrimmed(s + [c], core)
  {
    var before, behind :| IsPaddedText(s, before, core, behind);
    assert s + [c] == before + (core + (behind + [c]));
    assert IsPaddedText(s + [c], before, core, behind + [c]);
  }

  lemma Unpadded(s: string)
    requires s == "" || (!IsBlankChar(s[0]) && !IsBlankChar(s[|s| - 1]))
    ensures IsTrimmed(s, s)
  {
    assert s == "" + (s + "");
    assert IsPaddedText(s, "", s, "");
  }

  lemma {:induction false} TrimMeans(s: string)
    ensures IsTrimmed(s, TrimString(s))
    decreases |s|
  {
    if s == "" {
      Unpadded(s);
    } else {
      var n := |s| - 1;
      BlankCharMeans(s[0]);
      BlankCharMeans(s[n]);
      if IsSpaceChar(s[0]) {
        TrimMeans(s[1..]);
        PadBefore(s[0], s[1..], TrimString(s[1..]));
        assert s == [s[0]] + s[1..];
      } else if IsSpaceChar(s[n]) {
        TrimMeans(s[..n]);
        PadBehind(s[..n], s[n], TrimString(s[..n]));
        assert s == s[..n] + [s[n]];
      } else {
        Unpadded(s);
      }
    }
  }
}
