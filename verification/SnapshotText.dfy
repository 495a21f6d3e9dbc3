/** What an agent reads in the text of a snapshot: lines, indentation and refs, read back without knowing how the text
    was made (refs/generator.py:264-385). */
module SnapshotText {
  import opened Options
  import opened SnapshotLines
  import opened SnapshotTree
  import opened SnapshotRefs
  import opened SnapshotCompiler
  import RefEncoding

  // ----- the reader

  /** The number of leading blanks. */
  function Indent(s: string): nat {
    if s != "" && s[0] == ' ' then 1 + Indent(s[1..]) else 0
  }

  function SplitLines(s: string): (parts: seq<string>)
    ensures parts != []
  {
    if s == "" then [""]
    else
      var rest := SplitLines(s[1..]);
      if s[0] == '\n' then [""] + rest else [[s[0]] + rest[0]] + rest[1..]
  }

  /** What follows the first occurrence of a mark. */
  function After(s: string, mark: string): Option<string> {
    if StartsWith(s, mark) then Some(s[|mark|..])
    else if s == "" then None
    else After(s[1..], mark)
  }

  const REF_MARK := " [ref="

  // ----- indentation

  lemma {:induction false} SpacesAreCounted(depth: nat, rest: string)
    ensures Indent(Spaces(depth) + rest) == 2 * depth + Indent(rest)
  {
    if depth > 0 {
      assert Spaces(depth) + rest == Spaces(depth - 1) + ("  " + rest);
      assert ("  " + rest)[1..] == " " + rest && (" " + rest)[1..] == rest;
      SpacesAreCounted(depth - 1, "  " + rest);
    } else {
      assert Spaces(0) + rest == rest;
    }
  }

  lemma DescriptionIsIndented(depth: nat, content: string)
    ensures Indent(DescriptionLine(depth, content)) == 2 * depth
    ensures |DescriptionLine(depth, content)| >= 2 * depth
    ensures DescriptionLine(depth, content)[2 * depth..] == "- " + content
  {
    SpacesAreCounted(depth, "- " + content);
    assert DescriptionLine(depth, content) == Spaces(depth) + ("- " + content);
    SpacesLength(depth);
  }

  lemma {:induction false} SpacesLength(depth: nat)
    ensures |Spaces(depth)| == 2 * depth
  {
    if depth > 0 {
      SpacesLength(depth - 1);
    }
  }

  /** Which lines of the input are shown, in either mode. A description is shown under a kept line or, in a full snapshot or
      for a property, at the top; an unmatched one in an interactive snapshot only if it is a property. */
  lemma ShownIff(lines: seq<Line>, cfg: Config, i: nat)
    requires i < |lines|
    ensures |Emitted(lines, cfg, i)| <= 1
    ensures lines[i].Matched? && !StartsWith(lines[i].role, "/") ==> (Emitted(lines, cfg, i) != [] <==> Kept(cfg, lines[i]))
    ensures lines[i].Blank? ==> Emitted(lines, cfg, i) == []
    ensures lines[i].Matched? && StartsWith(lines[i].role, "/") ==> !Kept(cfg, lines[i])
    ensures lines[i].Matched? && StartsWith(lines[i].role, "/") ==>
              (Emitted(lines, cfg, i) != [] <==> KeptAncestors(lines, cfg, i) != [] || Ancestors(lines, i) == [])
    ensures lines[i].Unmatched? && !cfg.interactive ==>
              (Emitted(lines, cfg, i) != [] <==> KeptAncestors(lines, cfg, i) != [] || Ancestors(lines, i) == [])
    ensures lines[i].Unmatched? && cfg.interactive ==>
              (Emitted(lines, cfg, i) != [] <==> KeptAncestors(lines, cfg, i) != [] && StartsWith(lines[i].text, "- /"))
  {
    hide DescriptionLine, KeptAncestors, Ancestors, ShouldKeep, RefAt, Nth;
  }

  /** A kept line of a full snapshot, and a description in either mode, is indented by two blanks for each kept line that
      encloses it; a kept line of an interactive snapshot is not indented. After that come a dash, the role and the name. */
  lemma IndentIsDepth(lines: seq<Line>, cfg: Config, i: nat)
    requires i < |lines| && Emitted(lines, cfg, i) != []
    ensures Indent(Emitted(lines, cfg, i)[0])
            == if cfg.interactive && Opens(lines[i]) then 0 else 2 * |KeptAncestors(lines, cfg, i)|
  {
    hide Emitted, ShouldKeep, KeptAncestors;
    if Opens(lines[i]) {
      hide Spaces, Head, Marks;
      ShownIff(lines, cfg, i);
      OpeningText(lines, cfg, i);
      HeadShows(lines[i].role, lines[i].name);
      IndentedLine(Emitted(lines, cfg, i)[0], ShownDepth(lines, cfg, i), Head(lines[i].role, lines[i].name), Marks(lines, cfg, i),
                   lines[i].tail);
    } else {
      DescriptionText(lines, cfg, i);
    }
  }

  ghost function ShownDepth(lines: seq<Line>, cfg: Config, i: nat): nat
    requires i < |lines|
  {
    if cfg.interactive then 0 else OutDepth(lines, cfg, i)
  }

  function Head(role: string, name: Option<string>): string {
    "- " + role + NamePart(name)
  }

  ghost function Marks(lines: seq<Line>, cfg: Config, i: nat): string
    requires i < |lines| && Opens(lines[i])
  {
    if HasRef(cfg, lines[i]) then RefPart(RefAt(lines, cfg, i), Nth(lines, cfg, i), lines[i].name) else ""
  }

  lemma OpeningText(lines: seq<Line>, cfg: Config, i: nat)
    requires i < |lines| && Kept(cfg, lines[i])
    ensures Emitted(lines, cfg, i)
            == [Spaces(ShownDepth(lines, cfg, i)) + Head(lines[i].role, lines[i].name) + Marks(lines, cfg, i) + lines[i].tail]
  {
    hide OutDepth, ShouldKeep, RefAt, Nth, RefPart, NamePart;
    var depth, role, name := ShownDepth(lines, cfg, i), lines[i].role, NamePart(lines[i].name);
    assert Spaces(0) + "- " + role == "- " + role;
    assert Spaces(depth) + ("- " + role + name) == (Spaces(depth) + "- " + role) + name;
  }

  /** Leading blanks are counted, and what comes after them is what was put there. */
  lemma IndentedText(depth: nat, head: string, rest: string)
    requires head != "" && head[0] != ' '
    ensures var text := Spaces(depth) + head + rest;
            Indent(text) == 2 * depth && |text| >= 2 * depth && StartsWith(text[2 * depth..], head)
  {
    SpacesAreCounted(depth, head + rest);
    SpacesLength(depth);
    var text := Spaces(depth) + head + rest;
    assert text == Spaces(depth) + (head + rest);
    assert text[2 * depth..] == head + rest;
  }

  lemma DescriptionText(lines: seq<Line>, cfg: Config, i: nat)
    requires i < |lines| && !Opens(lines[i]) && Emitted(lines, cfg, i) != []
    ensures Indent(Emitted(lines, cfg, i)[0]) == 2 * OutDepth(lines, cfg, i)
  {
    var depth := OutDepth(lines, cfg, i);
    hide OutDepth, DescriptionLine;
    if lines[i].Matched? {
      DescriptionIsIndented(depth, lines[i].role + lines[i].suffix);
    } else {
      DescriptionIsIndented(depth, lines[i].text);
      if |lines[i].text| >= 2 {
        DescriptionIsIndented(depth, lines[i].text[2..]);
      }
    }
  }

  /** A description is shown as it is, with a dash in front if it has none. */
  lemma TextShowsDescription(lines: seq<Line>, cfg: Config, i: nat)
    requires i < |lines| && Emitted(lines, cfg, i) != []
    ensures lines[i].Unmatched? || (lines[i].Matched? && StartsWith(lines[i].role, "/")) ==>
              var text := Emitted(lines, cfg, i)[0];
              && Indent(text) <= |text|
              && text[Indent(text)..]
                 == if lines[i].Matched? then "- " + lines[i].role + lines[i].suffix
                    else if StartsWith(lines[i].text, "- ") then lines[i].text
                    else "- " + lines[i].text
  {
    var depth := OutDepth(lines, cfg, i);
    hide OutDepth, DescriptionLine, ShouldKeep, RefAt, Nth, NamePart, RefPart, Indent;
    if lines[i].Matched? {
      DescriptionIsIndented(depth, lines[i].role + lines[i].suffix);
      assert "- " + (lines[i].role + lines[i].suffix) == "- " + lines[i].role + lines[i].suffix;
    } else if lines[i].Unmatched? {
      var text := lines[i].text;
      DescriptionIsIndented(depth, text);
      if |text| >= 2 {
        DescriptionIsIndented(depth, text[2..]);
        assert StartsWith(text, "- ") ==> "- " + text[2..] == text;
        assert StartsWith(text, "- /") ==> text[..3][..2] == text[..2] == "- ";
      }
    }
  }

  // ----- from the text back to the lines

  ghost predicate NoBreak(s: string) {
    forall k :: 0 <= k < |s| ==> s[k] != '\n'
  }

  lemma {:induction false} SplitOne(s: string)
    requires NoBreak(s)
    ensures SplitLines(s) == [s]
  {
    if s != "" {
      SplitOne(s[1..]);
      assert [s[0]] + s[1..] == s;
    }
  }

  lemma {:induction false} SplitAppend(a: string, b: string)
    requires NoBreak(b)
    ensures SplitLines(a + "\n" + b) == SplitLines(a) + [b]
  {
    var all := a + "\n" + b;
    if a == "" {
      assert all[1..] == b;
      SplitOne(b);
    } else {
      assert all[1..] == a[1..] + "\n" + b && all[0] == a[0];
      SplitAppend(a[1..], b);
    }
  }

  lemma {:induction false} SplitJoin(out: seq<string>)
    requires out != [] && forall k :: 0 <= k < |out| ==> NoBreak(out[k])
    ensures SplitLines(JoinLines(out)) == out
  {
    if |out| == 1 {
      SplitOne(out[0]);
    } else {
      SplitJoin(out[..|out| - 1]);
      SplitAppend(JoinLines(out[..|out| - 1]), out[|out| - 1]);
    }
  }

  /** No text of the line contains a line break; the generator has split its input at them. */
  ghost predicate OnOneLine(l: Line) {
    match l
    case Blank => true
    case Unmatched(_, text) => NoBreak(text)
    case Matched(_, role, name, suffix, _, _, tail) => NoBreak(role) && NoBreak(OrEmpty(name)) && NoBreak(suffix) && NoBreak(tail)
  }

  ghost predicate OnSingleLines(lines: seq<Line>, cfg: Config) {
    (forall k :: 0 <= k < |lines| ==> OnOneLine(lines[k])) && forall s: string :: NoBreak(cfg.hash(s))
  }

  lemma NoBreakJoins(a: string, b: string)
    ensures NoBreak(a + b) <==> NoBreak(a) && NoBreak(b)
  {
    forall k | NoBreak(a + b) && 0 <= k < |b|
      ensures b[k] != '\n'
    {
      assert (a + b)[|a| + k] == b[k];
    }
    assert forall k :: 0 <= k < |a| ==> (a + b)[k] == a[k];
  }

  lemma PartsHaveNoBreak(depth: nat, role: string, name: Option<string>, ref: string, nth: nat)
    requires NoBreak(role) && NoBreak(OrEmpty(name)) && NoBreak(ref)
    ensures NoBreak(Spaces(depth)) && NoBreak(Head(role, name)) && NoBreak(RefPart(ref, nth, name))
  {
    RefEncoding.DecimalDigits(nth);
    hide RefEncoding.Decimal;
    SpacesHaveNoBreak(depth);
  }

  lemma {:induction false} SpacesHaveNoBreak(depth: nat)
    ensures NoBreak(Spaces(depth))
  {
    if depth > 0 {
      SpacesHaveNoBreak(depth - 1);
    }
  }

  lemma DescriptionHasNoBreak(depth: nat, content: string)
    requires NoBreak(content)
    ensures NoBreak(DescriptionLine(depth, content))
  {
    SpacesHaveNoBreak(depth);
  }

  lemma EmittedHasNoBreak(lines: seq<Line>, cfg: Config, i: nat)
    requires i < |lines| && OnSingleLines(lines, cfg) && Emitted(lines, cfg, i) != []
    ensures |Emitted(lines, cfg, i)| == 1 && NoBreak(Emitted(lines, cfg, i)[0])
  {
    ShownIff(lines, cfg, i);
    assert OnOneLine(lines[i]);
    var depth := OutDepth(lines, cfg, i);
    hide ShouldKeep, OutDepth, NoBreak, DescriptionLine;
    if Opens(lines[i]) {
      hide RefAt, Nth, Spaces, Head, RefPart, Marks;
      OpeningText(lines, cfg, i);
      hide Emitted;
      var line := lines[i];
      var depth, head, marks := ShownDepth(lines, cfg, i), Head(line.role, line.name), Marks(lines, cfg, i);
      MarksHaveNoBreak(lines, cfg, i);
      NoBreakJoins(Spaces(depth), head);
      NoBreakJoins(Spaces(depth) + head, marks);
      NoBreakJoins(Spaces(depth) + head + marks, line.tail);
    } else if lines[i].Matched? {
      NoBreakJoins(lines[i].role, lines[i].suffix);
      DescriptionHasNoBreak(depth, lines[i].role + lines[i].suffix);
    } else {
      var text := lines[i].text;
      DescriptionHasNoBreak(depth, text);
      if |text| >= 2 {
        NoBreakJoins(text[..2], text[2..]);
        assert text[..2] + text[2..] == text;
        DescriptionHasNoBreak(depth, text[2..]);
      }
    }
  }

  lemma MarksHaveNoBreak(lines: seq<Line>, cfg: Config, i: nat)
    requires i < |lines| && Opens(lines[i]) && OnSingleLines(lines, cfg)
    ensures NoBreak(Marks(lines, cfg, i)) && NoBreak(Spaces(ShownDepth(lines, cfg, i)))
    ensures NoBreak(Head(lines[i].role, lines[i].name))
  {
    hide ShouldKeep, Nth, ShownDepth, Identity, Spaces, Head, RefPart, NoBreak;
    assert OnOneLine(lines[i]);
    assert NoBreak(RefAt(lines, cfg, i));
    hide RefAt;
    PartsHaveNoBreak(ShownDepth(lines, cfg, i), lines[i].role, lines[i].name, RefAt(lines, cfg, i), Nth(lines, cfg, i));
    NothingHasNoBreak();
  }

  lemma NothingHasNoBreak()
    ensures NoBreak("")
  {
  }

  lemma {:induction false} OutputHasNoBreak(lines: seq<Line>, cfg: Config, n: nat)
    requires n <= |lines| && OnSingleLines(lines, cfg)
    ensures forall k :: 0 <= k < |Output(lines, cfg, n)| ==> NoBreak(Output(lines, cfg, n)[k])
  {
    hide Emitted, NoBreak, OnSingleLines;
    if n > 0 {
      OutputHasNoBreak(lines, cfg, n - 1);
      if Emitted(lines, cfg, n - 1) != [] {
        EmittedHasNoBreak(lines, cfg, n - 1);
      }
    }
  }

  /** Line i, if it is shown, is shown at the place given by the number of lines shown before it. */
  lemma {:induction false} ShownAt(lines: seq<Line>, cfg: Config, i: nat, n: nat)
    requires i < n <= |lines| && Emitted(lines, cfg, i) != []
    ensures |Output(lines, cfg, i)| < |Output(lines, cfg, n)|
    ensures Output(lines, cfg, n)[|Output(lines, cfg, i)|] == Emitted(lines, cfg, i)[0]
    decreases n
  {
    hide Emitted;
    if i < n - 1 {
      ShownAt(lines, cfg, i, n - 1);
    }
  }

  /** A snapshot that shows nothing says so. */
  lemma NothingIsSaid(lines: seq<Line>, cfg: Config)
    requires forall i :: 0 <= i < |lines| ==> Emitted(lines, cfg, i) == []
    ensures TreeText(Output(lines, cfg, |lines|)) == "(empty)"
  {
    NoOutput(lines, cfg, |lines|);
  }

  lemma {:induction false} NoOutput(lines: seq<Line>, cfg: Config, n: nat)
    requires n <= |lines| && forall i :: 0 <= i < |lines| ==> Emitted(lines, cfg, i) == []
    ensures Output(lines, cfg, n) == []
  {
    hide Emitted;
    if n > 0 {
      NoOutput(lines, cfg, n - 1);
    }
  }

  /** The line of the text that shows line i. */
  ghost function ShownLine(lines: seq<Line>, cfg: Config, i: nat): string
    requires i < |lines|
  {
    var shown, at := SplitLines(TreeText(Output(lines, cfg, |lines|))), |Output(lines, cfg, i)|;
    if at < |shown| then shown[at] else ""
  }

  lemma TextIsRead(lines: seq<Line>, cfg: Config, i: nat)
    requires i < |lines| && Emitted(lines, cfg, i) != []
    requires OnSingleLines(lines, cfg)
    ensures ShownLine(lines, cfg, i) == Emitted(lines, cfg, i)[0]
  {
    hide Emitted, NoBreak, JoinLines, SplitLines, OnSingleLines;
    OutputHasNoBreak(lines, cfg, |lines|);
    ShownAt(lines, cfg, i, |lines|);
    SplitJoin(Output(lines, cfg, |lines|));
  }

  /** In the text of a full snapshot the indentation of the lines tells the nesting of the page: of two lines that are kept,
      one encloses the other on the page if and only if every kept line that follows it in the text, up to and with the
      other, is indented deeper. */
  lemma TextShowsNesting(lines: seq<Line>, cfg: Config, j: nat, i: nat)
    requires j < i < |lines| && Kept(cfg, lines[j]) && Kept(cfg, lines[i]) && !cfg.interactive
    requires OnSingleLines(lines, cfg)
    ensures Encloses(lines, j, i)
            <==> forall k :: j < k <= i && Kept(cfg, lines[k]) ==>
                               Indent(ShownLine(lines, cfg, j)) < Indent(ShownLine(lines, cfg, k))
  {
    hide Emitted, ShownLine, OnSingleLines, Indent, Encloses, ShouldKeep;
    OutputNestingIsInputNesting(lines, cfg, j, i);
    forall k | j <= k <= i && Kept(cfg, lines[k])
      ensures Indent(ShownLine(lines, cfg, k)) == 2 * OutDepth(lines, cfg, k)
    {
      ShownIff(lines, cfg, k);
      TextIsRead(lines, cfg, k);
      IndentIsDepth(lines, cfg, k);
    }
  }

  // ----- names and refs

  lemma StartShows(s: string, mark: string)
    requires |mark| >= 2
    ensures StartsWith(s, mark) ==> |s| >= 2 && s[1] == mark[1]
  {
  }

  lemma {:induction false} FirstMark(before: string, mark: string, after: string)
    requires |mark| >= 2 && mark[0] != mark[1] && forall k :: 0 <= k < |before| ==> before[k] != mark[1]
    ensures After(before + mark + after, mark) == Some(after)
    decreases |before|
  {
    var all := before + mark + after;
    if before == "" {
      assert all[..|mark|] == mark && all[|mark|..] == after;
    } else {
      assert all[1] != mark[1] by {
        assert |before| == 1 ==> all[1] == mark[0];
      }
      StartShows(all, mark);
      assert all[1..] == before[1..] + mark + after;
      FirstMark(before[1..], mark, after);
    }
  }

  lemma {:induction false} NoMark(s: string, mark: string)
    requires |mark| >= 2 && forall k :: 0 <= k < |s| ==> s[k] != mark[1]
    ensures After(s, mark) == None
  {
    StartShows(s, mark);
    if s != "" {
      NoMark(s[1..], mark);
    }
  }

  ghost predicate NoBracket(s: string) {
    forall k :: 0 <= k < |s| ==> s[k] != '['
  }

  lemma SpacesHaveNoBracket(depth: nat)
    ensures NoBracket(Spaces(depth))
  {
  }

  /** Whatever follows it, the first ref in the text of a line is the line's own, and behind it stands its occurrence number if
      that is not the first and the line has a name; a line without a ref shows none. */
  lemma TextShowsItsRef(lines: seq<Line>, cfg: Config, i: nat)
    requires i < |lines| && Kept(cfg, lines[i]) && NoBracket(lines[i].role) && NoBracket(OrEmpty(lines[i].name))
    ensures Emitted(lines, cfg, i) != []
    ensures HasRef(cfg, lines[i]) ==>
              After(Emitted(lines, cfg, i)[0], REF_MARK)
              == Some(RefAt(lines, cfg, i) + "]"
                      + (if Nth(lines, cfg, i) > 0 && OrEmpty(lines[i].name) != ""
                         then " [nth=" + RefEncoding.Decimal(Nth(lines, cfg, i)) + "]" else "")
                      + lines[i].tail)
    ensures !HasRef(cfg, lines[i]) && NoBracket(lines[i].tail) ==> After(Emitted(lines, cfg, i)[0], REF_MARK) == None
  {
    hide ShouldKeep, RefAt, Nth, OutDepth, NoBracket, Spaces, Head, After, RefPart;
    OpeningText(lines, cfg, i);
    hide Emitted;
    var before := Spaces(ShownDepth(lines, cfg, i)) + Head(lines[i].role, lines[i].name);
    NothingBefore(ShownDepth(lines, cfg, i), lines[i].role, lines[i].name);
    if HasRef(cfg, lines[i]) {
      RefIsFirst(before, RefAt(lines, cfg, i), Nth(lines, cfg, i), lines[i].name, lines[i].tail);
    } else if NoBracket(lines[i].tail) {
      assert before + "" + lines[i].tail == before + lines[i].tail;
      NoRefIsShown(before, lines[i].tail);
    }
  }

  lemma NoRefIsShown(before: string, tail: string)
    requires NoBracket(before) && NoBracket(tail)
    ensures After(before + tail, REF_MARK) == None
  {
    NoMark(before + tail, REF_MARK);
  }

  lemma RefIsFirst(before: string, ref: string, nth: nat, name: Option<string>, tail: string)
    requires NoBracket(before)
    ensures After(before + RefPart(ref, nth, name) + tail, REF_MARK)
            == Some(ref + "]" + (if nth > 0 && OrEmpty(name) != "" then " [nth=" + RefEncoding.Decimal(nth) + "]" else "") + tail)
  {
    hide RefEncoding.Decimal, After;
    var rest := ref + "]" + (if nth > 0 && OrEmpty(name) != "" then " [nth=" + RefEncoding.Decimal(nth) + "]" else "") + tail;
    MarkIsFirst(ref, nth, name, tail);
    hide RefPart;
    assert before + RefPart(ref, nth, name) + tail == before + (RefPart(ref, nth, name) + tail);
    assert before + (REF_MARK + rest) == before + REF_MARK + rest;
    FirstMark(before, REF_MARK, rest);
  }

  lemma MarkIsFirst(ref: string, nth: nat, name: Option<string>, tail: string)
    ensures RefPart(ref, nth, name) + tail
            == REF_MARK + (ref + "]" + (if nth > 0 && OrEmpty(name) != "" then " [nth=" + RefEncoding.Decimal(nth) + "]" else "") + tail)
  {
    hide RefEncoding.Decimal;
  }

  lemma NothingBefore(depth: nat, role: string, name: Option<string>)
    requires NoBracket(role) && NoBracket(OrEmpty(name))
    ensures NoBracket(Spaces(depth) + Head(role, name))
  {
    SpacesHaveNoBracket(depth);
  }

  lemma HeadShows(role: string, name: Option<string>)
    ensures Head(role, name) == "- " + role + if OrEmpty(name) != "" then " \"" + OrEmpty(name) + "\"" else ""
    ensures Head(role, name) != "" && Head(role, name)[0] != ' '
  {
  }

  lemma IndentedLine(text: string, depth: nat, head: string, marks: string, tail: string)
    requires text == Spaces(depth) + head + marks + tail && head != "" && head[0] != ' '
    ensures Indent(text) == 2 * depth <= |text| && StartsWith(text[Indent(text)..], head)
  {
    hide Indent, StartsWith, Spaces;
    assert text == Spaces(depth) + head + (marks + tail);
    IndentedText(depth, head, marks + tail);
  }

  /** What a kept line shows first, behind its indentation: a dash, its role and, in quotes, its name. */
  lemma TextShowsRoleAndName(lines: seq<Line>, cfg: Config, i: nat)
    requires i < |lines| && Kept(cfg, lines[i])
    ensures Emitted(lines, cfg, i) != []
    ensures var text, name := Emitted(lines, cfg, i)[0], OrEmpty(lines[i].name);
            && Indent(text) <= |text|
            && StartsWith(text[Indent(text)..], "- " + lines[i].role + if name != "" then " \"" + name + "\"" else "")
  {
    hide ShouldKeep, OutDepth, Spaces, Indent, StartsWith, Head, Marks, OrEmpty;
    OpeningText(lines, cfg, i);
    HeadShows(lines[i].role, lines[i].name);
    IndentedLine(Emitted(lines, cfg, i)[0], ShownDepth(lines, cfg, i), Head(lines[i].role, lines[i].name), Marks(lines, cfg, i),
                 lines[i].tail);
    hide Emitted;
  }
}
