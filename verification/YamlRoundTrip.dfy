/** Round trips of whole files: printed lines with blank lines between them are
    tokenized into the printed entries and parsed back in full. */
module YamlRoundTrip {
  import opened Wrappers
  import opened Text
  import opened Scalars
  import opened YamlParser
  import opened YamlPrinter

  // The lines the tokenizer does not drop.
  function Kept(raw: seq<string>): seq<string> {
    if raw == [] then []
    else if IsSkipped(raw[0]) then Kept(raw[1..])
    else [raw[0]] + Kept(raw[1..])
  }

  lemma {:induction false} KeptConcat(a: seq<string>, b: seq<string>)
    ensures Kept(a + b) == Kept(a) + Kept(b)
  {
    hide IsSkipped;
    if a == [] {
      assert a + b == b;
    } else {
      KeptConcat(a[1..], b);
      assert (a + b)[1..] == a[1..] + b;
    }
  }

  // A line the tokenizer keeps as it is.
  predicate Solid(raw: string) {
    !IsSkipped(raw) && Indent(raw) % 2 == 0 && OneLine(raw)
  }

  predicate SolidOrBlank(raw: seq<string>) {
    forall k :: 0 <= k < |raw| ==> Solid(raw[k]) || raw[k] == ""
  }

  predicate AllSolid(raw: seq<string>) {
    forall k :: 0 <= k < |raw| ==> Solid(raw[k])
  }

  lemma {:induction false} KeptSolid(raw: seq<string>)
    requires AllSolid(raw)
    ensures Kept(raw) == raw
  {
    hide IsSkipped;
    if raw != [] {
      KeptSolid(raw[1..]);
    }
  }

  lemma {:induction false} TokensRead(raw: seq<string>, k: nat)
    requires k <= |raw| && SolidOrBlank(raw)
    ensures var r := TokenizeFrom(raw, k);
            r.Ok? && |r.value| == |Kept(raw[k..])| && Reads(r.value, 0, Kept(raw[k..]))
    decreases |raw| - k
  {
    hide IsSkipped, CutLine;
    if k < |raw| {
      TokensRead(raw, k + 1);
      assert raw[k..][1..] == raw[k + 1..] && raw[k..][0] == raw[k];
      var rest := TokenizeFrom(raw, k + 1).value;
      if !IsSkipped(raw[k]) {
        var cut := CutLine(raw[k], k + 1);
        CutKeepsNumber(raw[k], k + 1);
        ReadsOneMore(cut, raw[k], rest, Kept(raw[k + 1..]));
      } else {
        assert Kept(raw[k..]) == Kept(raw[k + 1..]);
      }
    }
  }

  lemma CutKeepsNumber(raw: string, lineno: nat)
    ensures CutLine(raw, lineno).lineno == lineno
  {
  }

  lemma ReadsOneMore(cut: Line, raw: string, lines: seq<Line>, more: seq<string>)
    requires cut == CutLine(raw, cut.lineno) && Reads(lines, 0, more)
    ensures Reads([cut] + lines, 0, [raw] + more)
  {
    hide CutLine;
    var all := [cut] + lines;
    forall j | 0 <= j < |[raw] + more|
      ensures all[0 + j] == CutLine(([raw] + more)[j], all[0 + j].lineno)
    {
      if j > 0 {
        assert lines[0 + (j - 1)] == CutLine(more[j - 1], lines[0 + (j - 1)].lineno);
      }
    }
  }

  // ---------- printed lines are solid ----------

  lemma SolidContent(indent: nat, content: string)
    requires indent % 2 == 0
    requires content != "" && !IsSpace(content[0]) && content[0] != '#' && OneLine(content)
    ensures Solid(Spaces(indent) + content)
  {
    IndentOf(indent, content);
    StripIgnoresPrefix(Spaces(indent), content);
    assert TextStart(content) == 0;
    assert Strip(content)[0] == content[0];
  }

  lemma SolidKeyLine(indent: nat, key: string, text: string)
    requires indent % 2 == 0 && PlainKey(key) && OneLine(text)
    ensures Solid(Spaces(indent) + key + ":" + text)
  {
    hide Solid, IsItem, Contains, Trimmed;
    KeyLine(key, text);
    var content := key + ":" + text;
    SolidContent(indent, content);
    assert Spaces(indent) + content == Spaces(indent) + key + ":" + text;
  }

  lemma SolidConcat(a: seq<string>, b: seq<string>)
    requires AllSolid(a) && AllSolid(b)
    ensures AllSolid(a + b)
  {
    hide Solid;
  }

  lemma SolidItem(show: Show, v: Value, indent: nat)
    requires indent % 2 == 0 && SafeScalar(v)
    ensures Solid(Spaces(indent) + "- " + RenderScalar(show, v))
  {
    hide Solid, SafeScalar, RenderScalar, Trimmed;
    var text := RenderScalar(show, v);
    SafeScalarParses(show, v);
    var content := "- " + text;
    assert content[0] == '-';
    assert forall i :: 2 <= i < |content| ==> content[i] == text[i - 2];
    SolidContent(indent, content);
    assert Spaces(indent) + "- " + text == Spaces(indent) + content;
  }

  lemma SolidItems(show: Show, items: seq<Value>, indent: nat)
    requires indent % 2 == 0 && WellFormed(List(items))
    ensures AllSolid(RenderItems(show, items, indent))
  {
    hide Solid, SafeScalar, RenderScalar;
    forall k | 0 <= k < |items| ensures Solid(RenderItems(show, items, indent)[k]) {
      SolidItem(show, items[k], indent);
    }
  }

  lemma FlowTextOneLine(show: Show, v: Value)
    requires WellFormed(v) && (v.Dict? ==> v.entries == []) && (v.List? ==> v.items == [])
    ensures OneLine(" " + FlowText(show, v))
  {
    hide SafeScalar, RenderScalar;
    if !v.Dict? && !v.List? {
      SafeScalarParses(show, v);
    }
  }

  lemma {:induction false} SolidEntry(show: Show, e: Entry, indent: nat)
    requires indent % 2 == 0 && PlainKey(e.key) && WellFormed(e.value)
    ensures AllSolid(RenderEntry(show, e, indent))
    decreases e, 0
  {
    hide Solid, RenderScalar, PlainKey, SafeScalar, RenderItems, NeedsQuotes;
    var head := Spaces(indent) + e.key + ":";
    SolidKeyLine(indent, e.key, "");
    assert head + "" == head;
    if e.value.Dict? && e.value.entries != [] {
      SolidMapping(show, e.value.entries, indent + 2);
      SolidConcat([head], RenderMapping(show, e.value.entries, indent + 2));
    } else if e.value.List? && e.value.items != [] {
      SolidItems(show, e.value.items, indent + 2);
      SolidConcat([head], RenderItems(show, e.value.items, indent + 2));
    } else {
      FlowLine(show, e, indent);
      FlowTextOneLine(show, e.value);
      SolidKeyLine(indent, e.key, " " + FlowText(show, e.value));
    }
  }

  lemma {:induction false} SolidMapping(show: Show, entries: seq<Entry>, indent: nat)
    requires indent % 2 == 0 && WellFormedEntries(entries)
    ensures AllSolid(RenderMapping(show, entries, indent))
    decreases entries, 1
  {
    hide Solid, RenderEntry;
    if entries != [] {
      RestIsWellFormed(entries);
      SolidEntry(show, entries[0], indent);
      SolidMapping(show, entries[1..], indent);
      SolidConcat(RenderEntry(show, entries[0], indent), RenderMapping(show, entries[1..], indent));
    }
  }

  // ---------- whole files ----------

  lemma SolidOneLines(raw: seq<string>)
    requires SolidOrBlank(raw)
    ensures OneLineEach(raw)
  {
    hide IsSkipped;
  }

  /** Printing a non-empty well-formed mapping at any indentation and loading the
      lines gives the mapping back, keys in order and every line used, exactly when
      the indentation is even. */
  lemma MappingLoadsBack(show: Show, entries: seq<Entry>, indent: nat)
    requires WellFormedEntries(entries) && entries != []
    ensures LoadLines(RenderMapping(show, entries, indent)) == Ok(Dict(entries)) <==> indent % 2 == 0
  {
    hide RenderMapping, MappingAt, BlockAt, Solid, WellFormedEntries;
    var raw := RenderMapping(show, entries, indent);
    if indent % 2 == 0 {
      SolidMapping(show, entries, indent);
      EntriesLoadBack(show, entries, indent);
    } else {
      OddLineFails(show, entries, indent);
    }
  }

  lemma EntriesLoadBack(show: Show, entries: seq<Entry>, indent: nat)
    requires WellFormedEntries(entries) && entries != []
    requires AllSolid(RenderMapping(show, entries, indent))
    ensures LoadLines(RenderMapping(show, entries, indent)) == Ok(Dict(entries))
  {
    hide RenderMapping, MappingAt, Solid, BlockAt, WellFormedEntries, ListAt;
    var raw := RenderMapping(show, entries, indent);
    KeptSolid(raw);
    TokensRead(raw, 0);
    assert raw[0..] == raw;
    var lines := TokenizeFrom(raw, 0).value;
    NestedRoundTrip(show, lines, 0, indent, entries);
  }

  // At an odd indentation the first line is refused.
  lemma OddLineFails(show: Show, entries: seq<Entry>, indent: nat)
    requires WellFormedEntries(entries) && entries != []
    requires indent % 2 != 0
    ensures TokenizeFrom(RenderMapping(show, entries, indent), 0) == Err(OddIndentation(1))
  {
    hide RenderMapping, Strip, WellFormed, PlainKey;
    var raw := RenderMapping(show, entries, indent);
    var e := entries[0];
    FirstLine(show, entries, indent);
    var text :| raw[0] == Spaces(indent) + e.key + ":" + text;
    KeyLine(e.key, text);
    var content := e.key + ":" + text;
    assert raw[0] == Spaces(indent) + content;
    IndentOf(indent, content);
    StripIgnoresPrefix(Spaces(indent), content);
    StripKeepsStart(content);
  }

  lemma FirstLine(show: Show, entries: seq<Entry>, indent: nat)
    requires entries != []
    ensures exists text :: RenderMapping(show, entries, indent)[0] == Spaces(indent) + entries[0].key + ":" + text
  {
    hide RenderScalar;
    var e := entries[0];
    var head := Spaces(indent) + e.key + ":";
    if e.value.Dict? && e.value.entries != [] {
      assert RenderEntry(show, e, indent)[0] == head + "";
    } else if e.value.List? && e.value.items != [] {
      assert RenderEntry(show, e, indent)[0] == head + "";
    } else {
      FlowLine(show, e, indent);
      assert RenderEntry(show, e, indent)[0] == head + (" " + FlowText(show, e.value));
    }
  }

  /** The same round trip through the text of a file. */
  lemma TextLoadsBack(show: Show, entries: seq<Entry>, indent: nat)
    requires WellFormedEntries(entries) && indent % 2 == 0
    ensures Load(Document(RenderMapping(show, entries, indent))) == Ok(Dict(entries))
  {
    hide WellFormedEntries, Document, Assemble;
    var raw := RenderMapping(show, entries, indent);
    if entries == [] {
      SplitDocument(raw);
      assert IsSkipped("");
      assert TokenizeFrom([""], 0) == Ok([]);
      assert Assemble(Ok([])) == Ok(Dict([])) by { EmptyAssembles(); }
    } else {
      SolidMapping(show, entries, indent);
      SolidOneLines(raw);
      SplitDocument(raw);
      MappingLoadsBack(show, entries, indent);
    }
  }

  lemma EmptyAssembles()
    ensures Assemble(Ok([])) == Ok(Dict([]))
  {
  }
}
