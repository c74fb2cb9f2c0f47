/** What the reader refuses, and how: the error names the kind of fault and the line. */
module YamlErrors {
  import opened Wrappers
  import opened Text
  import opened Scalars
  import opened YamlParser
  import opened YamlPrinter
  import opened YamlRoundTrip
  import opened YamlReading

  /** A line that is kept, but indented by an odd number of blanks, is refused, whatever
      else the file holds: the error names the first such line. */
  lemma {:induction false} OddLineIsNamed(raw: seq<string>, k: nat, from: nat)
    requires from <= k < |raw| && !IsSkipped(raw[k]) && Indent(raw[k]) % 2 == 1
    requires forall j :: from <= j < k ==> IsSkipped(raw[j]) || Indent(raw[j]) % 2 == 0
    ensures TokenizeFrom(raw, from) == Err(OddIndentation(k + 1))
    ensures from == 0 ==> LoadLines(raw) == Err(OddIndentation(k + 1))
    decreases k - from
  {
    hide IsSkipped, Indent, CutLine;
    if from < k {
      OddLineIsNamed(raw, k, from + 1);
    }
  }

  lemma {:induction false} SolidTokens(raw: seq<string>, k: nat)
    requires k <= |raw| && AllSolid(raw)
    ensures var r := TokenizeFrom(raw, k);
            r.Ok? && |r.value| == |raw| - k && forall j :: 0 <= j < |raw| - k ==> r.value[j] == CutLine(raw[k + j], k + j + 1)
    decreases |raw| - k
  {
    hide IsSkipped, Indent, CutLine, OneLine;
    if k < |raw| {
      SolidTokens(raw, k + 1);
      assert Solid(raw[k]);
      var rest := TokenizeFrom(raw, k + 1).value;
      var all := [CutLine(raw[k], k + 1)] + rest;
      forall j | 0 <= j < |raw| - k ensures all[j] == CutLine(raw[k + j], k + j + 1) {
        if j > 0 {
          assert all[j] == rest[j - 1] == CutLine(raw[k + 1 + (j - 1)], k + 1 + (j - 1) + 1);
        }
      }
    }
  }

  // The mapping at the margin goes through its entries up to the line `n`.
  lemma {:induction false} FlatPrefix(lines: seq<Line>, keys: seq<string>, texts: seq<string>, i: nat, result: seq<Entry>)
    returns (m: seq<Entry>)
    requires FlatFile(keys, texts) && i <= |keys| <= |lines|
    requires forall j :: 0 <= j < |keys| ==> lines[j] == CutLine(FlatLine(keys[j], texts[j]), lines[j].lineno)
    ensures MappingAt(lines, i, 0, result) == MappingAt(lines, |keys|, 0, m)
    decreases |keys| - i
  {
    hide Put, EntryAt, CutLine, PlainKey, ScalarText, ParseScalar, IsItem, FlatLine;
    if i == |keys| {
      m := result;
    } else {
      FlatEntry(lines, i, keys[i], texts[i]);
      MappingStep(lines, i, 0, result);
      m := FlatPrefix(lines, keys, texts, i + 1, Put(result, keys[i], ParseScalar(texts[i])));
    }
  }

  /** What is wrong with a line behind entries at the margin, if anything: it is deeper
      than they are, an item, without a colon, or without a key. */
  function Fault(bad: string, lineno: nat): Option<ParseError> {
    if bad != "" && bad[0] == ' ' then Some(UnexpectedIndentation(lineno))
    else if |bad| >= 2 && bad[0] == '-' && bad[1] == ' ' then Some(TrailingContent(lineno))
    else if ':' !in bad then Some(ExpectedEntry(lineno))
    else if bad[0] == ':' then Some(EmptyKey(lineno))
    else None
  }

  lemma FaultStops(lines: seq<Line>, n: nat, bad: string, m: seq<Entry>)
    requires n < |lines| && bad != "" && !IsSkipped(bad) && lines[n] == CutLine(bad, lines[n].lineno)
    requires Fault(bad, lines[n].lineno).Some?
    ensures var r := MappingAt(lines, n, 0, m);
            if Fault(bad, lines[n].lineno) == Some(TrailingContent(lines[n].lineno)) then r == Ok(Parsed(m, n))
            else r == Err(Fault(bad, lines[n].lineno).value)
  {
    hide Strip, ParseScalar, Put;
    if bad[0] != ' ' {
      assert Indent(bad) == 0 && bad[0..] == bad;
      ColonInside(bad);
      assert "- "[0] == '-' && "- "[1] == ' ';
      if bad[0] == ':' {
        assert IndexOf(bad, ':') == 0 && bad[..0] == "";
        NothingStrips();
      }
    }
  }

  lemma ColonInside(bad: string)
    ensures IndexOf(bad, ':') == |bad| <==> ':' !in bad
  {
  }

  lemma NothingStrips()
    ensures Strip("") == ""
  {
  }

  /** In a file of good entries at the margin, the first bad line decides: whatever comes
      after it, loading fails with its fault and its number. */
  lemma BadLineIsNamed(keys: seq<string>, texts: seq<string>, bad: string, rest: seq<string>)
    requires FlatFile(keys, texts) && AllSolid(rest) && Solid(bad) && Fault(bad, |keys| + 1).Some?
    ensures LoadLines(FlatLines(keys, texts) + [bad] + rest) == Err(Fault(bad, |keys| + 1).value)
  {
    hide Solid, PlainKey, ScalarText, CutLine, FlatLine, Fault, MappingAt, EntryAt, ParseScalar, Strip, IsItem, IsSkipped, Indent;
    var good := FlatLines(keys, texts);
    var raw := good + [bad] + rest;
    FlatIsSolid(keys, texts);
    SolidConcat(good, [bad]);
    SolidConcat(good + [bad], rest);
    SolidTokens(raw, 0);
    var lines := TokenizeFrom(raw, 0).value;
    var n := |keys|;
    forall j | 0 <= j < n ensures lines[j] == CutLine(FlatLine(keys[j], texts[j]), lines[j].lineno) {
      assert lines[j] == CutLine(raw[0 + j], 0 + j + 1);
      CutKeepsNumber(raw[j], j + 1);
    }
    assert raw[n] == bad;
    assert lines[n] == CutLine(raw[0 + n], 0 + n + 1);
    CutKeepsNumber(bad, n + 1);
    var m := FlatPrefix(lines, keys, texts, 0, []);
    SolidIsKept(bad);
    FaultStops(lines, n, bad, m);
    FlatEntry(lines, 0, keys[0], texts[0]);
  }

  lemma SolidIsKept(bad: string)
    requires Solid(bad)
    ensures !IsSkipped(bad) && bad != ""
  {
    NothingStrips();
  }

  // ---------- lists ----------

  predicate FlatTexts(texts: seq<string>) {
    texts != [] && forall i :: 0 <= i < |texts| ==> ScalarText(texts[i])
  }

  function ItemLines(texts: seq<string>): (lines: seq<string>)
    ensures |lines| == |texts|
    ensures forall i :: 0 <= i < |texts| ==> lines[i] == "- " + texts[i]
  {
    seq(|texts|, i requires 0 <= i < |texts| => "- " + texts[i])
  }

  lemma ItemAt(lines: seq<Line>, i: nat, s: string)
    requires i < |lines| && ScalarText(s) && lines[i] == CutLine("- " + s, lines[i].lineno)
    ensures lines[i].indent == 0 && IsItem(lines[i].content) && |lines[i].content| >= 2
    ensures BodyAt(lines, i, Strip(lines[i].content[2..])) == Ok(Parsed(ParseScalar(s), i + 1))
  {
    hide Strip, ParseScalar, OneLine;
    var raw := "- " + s;
    assert raw[0] == '-' && Indent(raw) == 0 && raw[0..] == raw && raw[2..] == s;
    assert Strip(s) == s;
  }

  lemma {:induction false} ItemsPrefix(lines: seq<Line>, texts: seq<string>, i: nat, result: seq<Value>) returns (m: seq<Value>)
    requires FlatTexts(texts) && i <= |texts| <= |lines|
    requires forall j :: 0 <= j < |texts| ==> lines[j] == CutLine("- " + texts[j], lines[j].lineno)
    ensures ListAt(lines, i, 0, result) == ListAt(lines, |texts|, 0, m)
    decreases |texts| - i
  {
    hide CutLine, ScalarText, ParseScalar, IsItem, BodyAt, Strip;
    if i == |texts| {
      m := result;
    } else {
      ItemAt(lines, i, texts[i]);
      m := ItemsPrefix(lines, texts, i + 1, result + [ParseScalar(texts[i])]);
    }
  }

  /** A list at the margin goes on only with items at the margin: loading fails at the
      first line that is deeper, or no item, whatever comes after it. */
  lemma ListEndIsNamed(texts: seq<string>, bad: string, rest: seq<string>)
    requires FlatTexts(texts) && AllSolid(rest) && Solid(bad)
    requires bad[0] == ' ' || !(|bad| >= 2 && bad[0] == '-' && bad[1] == ' ')
    ensures LoadLines(ItemLines(texts) + [bad] + rest) == Err(TrailingContent(|texts| + 1))
  {
    hide Solid, ScalarText, CutLine, ListAt, ParseScalar, Strip, IsItem, IsSkipped, Indent;
    var good := ItemLines(texts);
    var raw := good + [bad] + rest;
    ItemsAreSolid(texts);
    SolidConcat(good, [bad]);
    SolidConcat(good + [bad], rest);
    SolidTokens(raw, 0);
    var lines := TokenizeFrom(raw, 0).value;
    var n := |texts|;
    forall j | 0 <= j < n ensures lines[j] == CutLine("- " + texts[j], lines[j].lineno) {
      assert lines[j] == CutLine(raw[0 + j], 0 + j + 1);
      CutKeepsNumber(raw[j], j + 1);
    }
    assert raw[n] == bad;
    assert lines[n] == CutLine(raw[0 + n], 0 + n + 1);
    CutKeepsNumber(bad, n + 1);
    var m := ItemsPrefix(lines, texts, 0, []);
    SolidIsKept(bad);
    NoItemStops(lines, n, bad, m);
    ItemAt(lines, 0, texts[0]);
  }

  lemma NoItemStops(lines: seq<Line>, n: nat, bad: string, m: seq<Value>)
    requires n < |lines| && bad != "" && lines[n] == CutLine(bad, lines[n].lineno)
    requires bad[0] == ' ' || !(|bad| >= 2 && bad[0] == '-' && bad[1] == ' ')
    ensures ListAt(lines, n, 0, m) == Ok(Parsed(m, n))
  {
    hide Strip, ParseScalar;
    assert "- "[0] == '-' && "- "[1] == ' ';
    if bad[0] != ' ' {
      assert Indent(bad) == 0 && bad[0..] == bad;
    }
  }

  lemma ItemsAreSolid(texts: seq<string>)
    requires FlatTexts(texts)
    ensures AllSolid(ItemLines(texts))
  {
    hide Solid, Trimmed;
    forall i | 0 <= i < |texts| ensures Solid(ItemLines(texts)[i]) {
      var content := "- " + texts[i];
      assert OneLine(content) && !IsSpace(content[0]) by { DashAndText(texts[i]); }
      SolidContent(0, content);
      assert Spaces(0) + content == content;
    }
  }

  lemma DashAndText(s: string)
    requires OneLine(s)
    ensures OneLine("- " + s) && !IsSpace('-')
  {
  }

  /** Behind the last line there is no block. */
  lemma EndIsNamed(lines: seq<Line>, indent: nat)
    ensures BlockAt(lines, |lines|, indent) == Err(UnexpectedEnd)
  {
  }
}
