/** The characters that count as white space or end a line, written out, and what
    lines any of these breaks make. */
module TextForms {
  import opened Text

  /** White space: tab to carriage return, the four separators, blank, next line, the
      no-break space, and the blanks of other scripts. */
  lemma SpaceCodes(c: char)
    ensures IsSpace(c) <==>
            c as int in {9, 10, 11, 12, 13, 28, 29, 30, 31, 32, 133, 160, 5760, 8192, 8193, 8194, 8195, 8196, 8197, 8198, 8199, 8200, 8201,
                         8202, 8232, 8233, 8239, 8287, 12288}
  {
  }

  /** The ends of lines: line feed, vertical tab, form feed, carriage return, three of
      the separators, next line, and the two separators of lines and paragraphs. */
  predicate EndsLine(c: char) {
    c as int in {10, 11, 12, 13, 28, 29, 30, 133, 8232, 8233}
  }

  predicate BreakFree(s: string) {
    forall i :: 0 <= i < |s| ==> !EndsLine(s[i])
  }

  // One such character, or a carriage return with its line feed.
  predicate LineBreak(b: string) {
    (|b| == 1 && EndsLine(b[0])) || b == "\r\n"
  }

  // The lines, each with its break.
  function Broken(lines: seq<string>, breaks: seq<string>): string
    requires |lines| == |breaks|
  {
    if lines == [] then "" else lines[0] + breaks[0] + Broken(lines[1..], breaks[1..])
  }

  // A line feed never follows a carriage return that is a break by itself.
  predicate Unambiguous(lines: seq<string>, breaks: seq<string>)
    requires |lines| == |breaks|
  {
    && (forall i :: 0 <= i < |lines| ==> BreakFree(lines[i]) && LineBreak(breaks[i]))
    && (forall i :: 0 <= i < |lines| - 1 && breaks[i] == "\r" && lines[i + 1] == "" ==> breaks[i + 1] != "\n")
  }

  lemma BreakFreeIsOneLine(s: string)
    ensures BreakFree(s) <==> OneLine(s)
  {
  }

  lemma SplitAtBreak(line: string, b: string, rest: string)
    requires BreakFree(line) && LineBreak(b) && (b == "\r" ==> rest == "" || rest[0] != '\n')
    ensures SplitLines(line + b + rest) == [line] + SplitLines(rest)
  {
    var s := line + b + rest;
    assert s[|line|] == b[0];
    assert forall i :: 0 <= i < |line| ==> s[i] == line[i];
    assert LineEnd(s) == |line|;
    assert s[..|line|] == line;
    assert s[|line| + |b|..] == rest;
    assert |b| == 2 ==> s[|line| + 1] == b[1];
    assert |b| == 1 && rest != "" ==> s[|line| + 1] == rest[0];
  }

  lemma StartOfBroken(lines: seq<string>, breaks: seq<string>, tail: string)
    requires |lines| == |breaks| && Unambiguous(lines, breaks) && BreakFree(tail)
    ensures var s := Broken(lines, breaks) + tail; s != "" && s[0] == '\n' ==> lines != [] && lines[0] == "" && breaks[0] == "\n"
  {
    if lines != [] {
      var s := Broken(lines, breaks) + tail;
      if lines[0] != "" {
        assert s[0] == lines[0][0];
      } else {
        assert s[0] == breaks[0][0];
      }
    }
  }

  /** Lines that end in any of these breaks, and a last one that may end in none, are
      split into exactly those lines. */
  lemma {:induction false} SplitAnyBreaks(lines: seq<string>, breaks: seq<string>, tail: string)
    requires |lines| == |breaks| && Unambiguous(lines, breaks) && BreakFree(tail)
    ensures SplitLines(Broken(lines, breaks) + tail) == lines + if tail == "" then [] else [tail]
  {
    hide BreakFree, LineBreak, SplitLines;
    if lines == [] {
      assert Broken(lines, breaks) + tail == tail;
      BreakFreeIsOneLine(tail);
      OnlyLine(tail);
    } else {
      var rest := Broken(lines[1..], breaks[1..]) + tail;
      SplitAnyBreaks(lines[1..], breaks[1..], tail);
      StartOfBroken(lines[1..], breaks[1..], tail);
      SplitAtBreak(lines[0], breaks[0], rest);
      assert Broken(lines, breaks) + tail == lines[0] + breaks[0] + rest;
    }
  }

  lemma OnlyLine(tail: string)
    requires OneLine(tail)
    ensures SplitLines(tail) == if tail == "" then [] else [tail]
  {
    if tail != "" {
      assert LineEnd(tail) == |tail|;
    }
  }
}
