/** Description cleanup (clean_description in src/_packagedcode/pypi.py).

    Some metadata formats indent every line of a long description by eight
    spaces.  The cleanup strips the text, splits it into lines and, when one of
    the first two lines carries that padding, removes it from every line that
    carries it.
 */
module Descriptions {
  import opened Basics

  /** The line boundaries of Python's str.splitlines(). */
  predicate IsLineBreak(c: char) {
    c == '\n' || c == '\r' || c == '\U{0B}' || c == '\U{0C}' || c == '\U{1C}'
    || c == '\U{1D}' || c == '\U{1E}' || c == '\U{85}' || c == '\U{2028}' || c == '\U{2029}'
  }

  predicate NoBreaks(l: string) {
    forall j :: 0 <= j < |l| ==> !IsLineBreak(l[j])
  }

  /** The index of the first line boundary of s, or |s|. */
  function FirstBreak(s: string): (k: nat)
    ensures k <= |s|
    ensures k < |s| ==> IsLineBreak(s[k])
    ensures forall j :: 0 <= j < k ==> !IsLineBreak(s[j])
  {
    if s == [] || IsLineBreak(s[0]) then 0 else 1 + FirstBreak(s[1..])
  }

  /** "\r\n" is one boundary; every other boundary is one character. */
  function BreakWidth(s: string, k: nat): nat
    requires k < |s|
  {
    if s[k] == '\r' && k + 1 < |s| && s[k + 1] == '\n' then 2 else 1
  }

  /** Python s.splitlines(False): no trailing empty line after a final boundary. */
  function SplitLines(s: string): seq<string>
    decreases |s|
  {
    if s == [] then []
    else
      var k := FirstBreak(s);
      if k == |s| then [s] else [s[..k]] + SplitLines(s[k + BreakWidth(s, k)..])
  }

  const Padding: string := "        "

  /** One line with its padding removed if it has it. */
  function CleanLine(l: string): string {
    if StartsWith(l, Padding) then l[8..] else l
  }

  /** `any(l.startswith(space_padding) for l in lines[:2])` */
  predicate NeedsCleaning(lines: seq<string>) {
    (|lines| >= 1 && StartsWith(lines[0], Padding)) || (|lines| >= 2 && StartsWith(lines[1], Padding))
  }

  /** clean_description(description); None is modelled as Option.None. */
  function CleanDescription(description: Option<string>): string {
    var text := Strip(description.GetOr(""));
    var lines := SplitLines(text);
    if !NeedsCleaning(lines) then text
    else Join("\n", CleanLines(lines))
  }

  /** `[l[8:] if l.startswith(space_padding) else l for l in lines]` */
  function CleanLines(lines: seq<string>): (r: seq<string>)
    ensures |r| == |lines|
    ensures forall i :: 0 <= i < |lines| ==> r[i] == CleanLine(lines[i])
  {
    seq(|lines|, i requires 0 <= i < |lines| => CleanLine(lines[i]))
  }

  // ----- splitting and joining lines -----

  lemma FirstBreakAfterLine(l: string, rest: string)
    requires NoBreaks(l)
    requires rest != [] && IsLineBreak(rest[0])
    ensures FirstBreak(l + rest) == |l|
  {
    var k := FirstBreak(l + rest);
    assert (l + rest)[|l|] == rest[0];
  }

  lemma {:induction false} SplitLinesNoBreaks(s: string)
    ensures forall i :: 0 <= i < |SplitLines(s)| ==> NoBreaks(SplitLines(s)[i])
    decreases |s|
  {
    if s != [] {
      var k := FirstBreak(s);
      if k < |s| {
        SplitLinesNoBreaks(s[k + BreakWidth(s, k)..]);
      }
    }
  }

  /** When the text does not end with a line boundary, its last line ends
      with the text's last character. */
  lemma {:induction false} SplitLinesLast(s: string)
    requires s != [] && !IsLineBreak(s[|s| - 1])
    ensures var ls := SplitLines(s);
      ls != [] && ls[|ls| - 1] != [] && ls[|ls| - 1][|ls[|ls| - 1]| - 1] == s[|s| - 1]
    decreases |s|
  {
    var k := FirstBreak(s);
    if k == |s| {
      assert SplitLines(s) == [s];
    } else {
      var w := BreakWidth(s, k);
      assert IsLineBreak(s[k + w - 1]);
      assert k + w < |s|;
      var rest := s[k + w..];
      assert rest[|rest| - 1] == s[|s| - 1];
      SplitLinesLast(rest);
      var ls, lr := SplitLines(s), SplitLines(rest);
      assert ls == [s[..k]] + lr;
      assert ls[|ls| - 1] == lr[|lr| - 1];
    }
  }

  /** Splitting lines joined with "\n" gives the lines back, provided no line
      contains a boundary and the last line is not empty. */
  lemma {:induction false} SplitJoin(ls: seq<string>)
    requires forall i :: 0 <= i < |ls| ==> NoBreaks(ls[i])
    requires ls == [] || ls[|ls| - 1] != []
    ensures SplitLines(Join("\n", ls)) == ls
  {
    if |ls| == 1 {
      assert FirstBreak(ls[0]) == |ls[0]|;
    } else if |ls| > 1 {
      var rest := Join("\n", ls[1..]);
      var s := ls[0] + "\n" + rest;
      assert s == ls[0] + ("\n" + rest);
      FirstBreakAfterLine(ls[0], "\n" + rest);
      assert s[..|ls[0]|] == ls[0];
      assert s[|ls[0]| + 1..] == rest;
      SplitJoin(ls[1..]);
      assert SplitLines(s) == [ls[0]] + ls[1..];
    }
  }

  // ----- properties of the cleanup -----

  /** A missing or empty description becomes the empty text. */
  lemma EmptyDescription(description: Option<string>)
    requires description.None? || description == Some("")
    ensures CleanDescription(description) == ""
  {
    assert description.GetOr("") == "";
    assert Strip("") == "";
    assert SplitLines("") == [];
  }

  /** After stripping, the first line cannot start with a space, so cleaning
      happens exactly when the second line starts with the eight-space
      padding. */
  lemma CleaningDecidedBySecondLine(description: Option<string>)
    ensures var lines := SplitLines(Strip(description.GetOr("")));
      NeedsCleaning(lines) <==> |lines| >= 2 && StartsWith(lines[1], Padding)
  {
    var text := Strip(description.GetOr(""));
    var lines := SplitLines(text);
    if text != [] {
      var k := FirstBreak(text);
      assert k >= 1;
      assert lines[0] == text[..k];
      assert lines[0][0] == text[0];
      assert !StartsWith(lines[0], Padding);
    }
  }

  /** When cleaning happens, the output has the same number of lines as the
      stripped input, and each line loses its first eight characters exactly
      when it starts with eight spaces.  Otherwise the output is the stripped
      input. */
  lemma CleanDescriptionLines(description: Option<string>)
    ensures var text := Strip(description.GetOr(""));
      var lines := SplitLines(text);
      var r := CleanDescription(description);
      (!NeedsCleaning(lines) ==> r == text)
      && (NeedsCleaning(lines) ==>
            |SplitLines(r)| == |lines|
            && forall i :: 0 <= i < |lines| ==>
                 SplitLines(r)[i] == (if StartsWith(lines[i], Padding) then lines[i][8..] else lines[i]))
  {
    var text := Strip(description.GetOr(""));
    var lines := SplitLines(text);
    var r := CleanDescription(description);
    if NeedsCleaning(lines) {
      assert text != [];
      CleanedTextSplits(text);
      assert r == Join("\n", CleanLines(lines));
      var split := SplitLines(r);
      assert split == CleanLines(lines);
      forall i | 0 <= i < |lines|
        ensures split[i] == (if StartsWith(lines[i], Padding) then lines[i][8..] else lines[i])
      {
        assert split[i] == CleanLine(lines[i]);
      }
    }
  }

  /** The cleaned lines of a stripped, non-empty text, joined with "\n",
      split back into themselves. */
  lemma CleanedTextSplits(text: string)
    requires text != [] && !IsSpace(text[|text| - 1])
    ensures var cleaned := CleanLines(SplitLines(text));
      SplitLines(Join("\n", cleaned)) == cleaned
  {
    var cleaned := CleanLines(SplitLines(text));
    CleanedLinesNoBreaks(text);
    LastCleanedLineNonEmpty(text);
    SplitJoin(cleaned);
  }

  /** Cleaning the lines of a text introduces no line boundary. */
  lemma CleanedLinesNoBreaks(text: string)
    ensures var cleaned := CleanLines(SplitLines(text));
      forall i :: 0 <= i < |cleaned| ==> NoBreaks(cleaned[i])
  {
    var lines := SplitLines(text);
    var cleaned := CleanLines(lines);
    SplitLinesNoBreaks(text);
    forall i | 0 <= i < |cleaned| ensures NoBreaks(cleaned[i]) {
      CleanLineNoBreaks(lines[i]);
    }
  }

  lemma CleanLineNoBreaks(l: string)
    requires NoBreaks(l)
    ensures NoBreaks(CleanLine(l))
  {
    if StartsWith(l, Padding) {
      assert forall j :: 0 <= j < |l| - 8 ==> l[8..][j] == l[j + 8];
    }
  }

  /** A text that does not end in white space keeps a non-empty last line
      after cleaning. */
  lemma LastCleanedLineNonEmpty(text: string)
    requires text != [] && !IsSpace(text[|text| - 1])
    ensures var cleaned := CleanLines(SplitLines(text));
      cleaned != [] && cleaned[|cleaned| - 1] != []
  {
    var lines := SplitLines(text);
    SplitLinesLast(text);
    var last := lines[|lines| - 1];
    if StartsWith(last, Padding) {
      assert last[|last| - 1] == text[|text| - 1];
      assert last[..8] == Padding;
      assert last[7] == ' ';
      assert |last| > 8;
    }
  }

  /** The cleanup is not idempotent: a second line indented by sixteen spaces
      loses eight on each application, so cleaning the cleaned text changes it
      again. */
  lemma CleanDescriptionNotIdempotent(rest: string)
    requires rest != [] && NoBreaks(rest) && !IsSpace(rest[|rest| - 1])
    ensures CleanDescription(Some("a\n" + Padding + Padding + rest)) == "a\n" + Padding + rest
    ensures CleanDescription(Some("a\n" + Padding + rest)) == "a\n" + rest
    ensures CleanDescription(Some(CleanDescription(Some("a\n" + Padding + Padding + rest))))
         != CleanDescription(Some("a\n" + Padding + Padding + rest))
  {
    var t16 := Padding + Padding + rest;
    var t8 := Padding + rest;
    assert "a\n" + Padding + Padding + rest == "a\n" + t16;
    assert "a\n" + Padding + rest == "a\n" + t8;
    assert t16[|t16| - 1] == rest[|rest| - 1] && t8[|t8| - 1] == rest[|rest| - 1];
    assert NoBreaks(t16) && StartsWith(t16, Padding) && t16[8..] == t8;
    CleanSecondLine(t16);
    assert NoBreaks(t8) && StartsWith(t8, Padding) && t8[8..] == rest;
    CleanSecondLine(t8);
    assert |"a\n" + rest| < |"a\n" + t8|;
  }

  /** The text "a\n" + t whose second line t is padded loses the padding. */
  lemma CleanSecondLine(t: string)
    requires t != [] && NoBreaks(t) && !IsSpace(t[|t| - 1]) && StartsWith(t, Padding)
    ensures CleanDescription(Some("a\n" + t)) == "a\n" + t[8..]
  {
    StripTwo(t);
    LinesOfTwo(t);
    var lines := ["a", t];
    assert NeedsCleaning(lines);
    var cleaned := CleanLines(lines);
    assert cleaned == ["a", t[8..]];
    JoinTwo(t[8..]);
  }

  lemma JoinTwo(t: string)
    ensures Join("\n", ["a", t]) == "a\n" + t
  {
    assert Join("\n", [t]) == t;
    assert ["a", t][1..] == [t];
  }

  /** "a\n" + t, with t free of line boundaries and not empty, splits into
      ["a", t]. */
  lemma LinesOfTwo(t: string)
    requires t != [] && NoBreaks(t)
    ensures SplitLines("a\n" + t) == ["a", t]
  {
    var ls := ["a", t];
    assert NoBreaks(ls[0]) && NoBreaks(ls[1]);
    SplitJoin(ls);
    JoinTwo(t);
  }

  /** "a\n" + t, with t not ending in white space, strips to itself. */
  lemma StripTwo(t: string)
    requires t != [] && !IsSpace(t[|t| - 1])
    ensures Strip("a\n" + t) == "a\n" + t
  {
    var s := "a\n" + t;
    assert !IsSpace(s[0]);
    StripLeftOfUnpadded(s);
    assert s[|s| - 1] == t[|t| - 1];
    StripRightOfUnpadded(s);
  }
}
