/** A block syntax for every value: lists in lists, mappings in lists, any text on one
    line in quotes. What is written so is read back, so the reader can give every
    value that holds no float and no line break. */
module YamlWriter {
  import opened Wrappers
  import opened Text
  import opened Scalars
  import opened YamlParser
  import opened YamlPrinter
  import opened YamlRoundTrip

  // ---------- what is written ----------

  /** A text with a backslash in front of every double quote. */
  function Escape(s: string): string {
    if s == "" then "" else (if s[0] == '\"' then "\\\"" else [s[0]]) + Escape(s[1..])
  }

  // What stands on one line: a scalar, with texts in quotes, or an empty list or mapping.
  predicate IsFlow(v: Value) {
    (v.List? ==> v.items == []) && (v.Dict? ==> v.entries == [])
  }

  function Flow(v: Value): string
    requires IsFlow(v)
  {
    match v
    case Null => "null"
    case Bool(flag) => if flag then "true" else "false"
    case Int(number) => IntText(number)
    case Float(literal) => literal
    case Str(text) => "\"" + Escape(text) + "\""
    case List(_) => "[]"
    case Dict(_) => "{}"
  }

  function BlockLines(v: Value, indent: nat): (lines: seq<string>)
    ensures lines != []
    decreases v, 2
  {
    if IsFlow(v) then [Spaces(indent) + Flow(v)]
    else if v.Dict? then EntriesLines(v.entries, indent)
    else ItemsLines(v.items, indent)
  }

  function EntriesLines(entries: seq<Entry>, indent: nat): (lines: seq<string>)
    ensures entries != [] ==> lines != []
    decreases entries, 1
  {
    if entries == [] then [] else EntryLines(entries[0], indent) + EntriesLines(entries[1..], indent)
  }

  function EntryLines(e: Entry, indent: nat): (lines: seq<string>)
    ensures lines != []
    decreases e, 0
  {
    var head := Spaces(indent) + e.key + ":";
    if IsFlow(e.value) then [head + (" " + Flow(e.value))] else [head + ""] + BlockLines(e.value, indent + 2)
  }

  function ItemsLines(items: seq<Value>, indent: nat): (lines: seq<string>)
    ensures items != [] ==> lines != []
    decreases items, 1
  {
    if items == [] then [] else ItemLines(items[0], indent) + ItemsLines(items[1..], indent)
  }

  function ItemLines(v: Value, indent: nat): (lines: seq<string>)
    ensures lines != []
    decreases v, 3
  {
    if IsFlow(v) then [Spaces(indent) + ("- " + Flow(v))] else [Spaces(indent) + ("- " + "")] + BlockLines(v, indent + 2)
  }

  /** Values with plain keys, each once, and texts on one line; no floats. */
  predicate Writable(v: Value) {
    match v
    case Float(_) => false
    case Str(text) => OneLine(text)
    case List(items) => forall i :: 0 <= i < |items| ==> Writable(items[i])
    case Dict(entries) => WritableEntries(entries)
    case _ => true
  }

  predicate WritableEntries(entries: seq<Entry>) {
    && DistinctKeys(entries)
    && forall i :: 0 <= i < |entries| ==> PlainKey(entries[i].key) && Writable(entries[i].value)
  }

  predicate WritableItems(items: seq<Value>) {
    forall i :: 0 <= i < |items| ==> Writable(items[i])
  }

  // ---------- texts in quotes ----------

  lemma {:induction false} EscapeRoundTrip(s: string)
    ensures Unescape(Escape(s), '\"') == s
    ensures OneLine(s) ==> OneLine(Escape(s))
  {
    if s != "" {
      EscapeRoundTrip(s[1..]);
      var rest := Escape(s[1..]);
      assert s == [s[0]] + s[1..];
      assert OneLine(s) ==> OneLine(s[1..]);
      if s[0] == '\"' {
        var all := "\\\"" + rest;
        assert all[0] == '\\' && all[1] == '\"' && all[2..] == rest;
      } else {
        var all := [s[0]] + rest;
        assert all[1..] == rest;
        NoQuoteFirst(s[1..]);
      }
    }
  }

  // An escaped text never starts with a bare quote.
  lemma NoQuoteFirst(s: string)
    ensures Escape(s) != "" ==> Escape(s)[0] != '\"'
  {
  }

  lemma FlowReads(v: Value)
    requires IsFlow(v) && Writable(v)
    ensures Flow(v) != "" && Trimmed(Flow(v)) && OneLine(Flow(v)) && ParseScalar(Flow(v)) == v
  {
    hide ParseScalar, Lower, Escape, Unescape;
    match v
    case Str(text) =>
      QuotedReads(text);
    case List(_) => EmptyFlow();
    case Dict(_) => EmptyFlow();
    case _ => PlainReads(v);
  }

  lemma PlainReads(v: Value)
    requires v.Null? || v.Bool? || v.Int?
    ensures Flow(v) != "" && Trimmed(Flow(v)) && OneLine(Flow(v)) && ParseScalar(Flow(v)) == v
  {
    hide ParseScalar, Lower, OneLine, Trimmed;
    SafeScalarParses(_ => "", v);
  }

  lemma QuotedReads(text: string)
    requires OneLine(text)
    ensures var s := "\"" + Escape(text) + "\""; Trimmed(s) && OneLine(s) && ParseScalar(s) == Str(text)
  {
    hide Lower, Escape, Unescape, IsNullWord, IsIntLiteral, IsFloatLiteral;
    EscapeRoundTrip(text);
    var s := "\"" + Escape(text) + "\"";
    NotAWord(s);
    assert s[1..|s| - 1] == Escape(text);
    assert forall i :: 0 <= i < |s| ==> s[i] == if i == 0 || i == |s| - 1 then '\"' else Escape(text)[i - 1];
  }

  // ---------- the round trip ----------

  // Nothing after these lines is as deep as `indent`.
  predicate EndsBefore(lines: seq<Line>, next: nat, indent: nat) {
    next < |lines| ==> lines[next].indent < indent
  }

  lemma {:induction false} BlockReads(lines: seq<Line>, i: nat, v: Value, indent: nat)
    requires Writable(v) && (v.List? || v.Dict?)
    requires Reads(lines, i, BlockLines(v, indent)) && EndsBefore(lines, i + |BlockLines(v, indent)|, indent)
    ensures lines[i].indent == indent && BlockAt(lines, i, indent) == Ok(Parsed(v, i + |BlockLines(v, indent)|))
    decreases v, 2
  {
    hide ParseScalar, Strip, Flow, CutLine, EntryLines, ItemLines, PlainKey, EntryAt, BodyAt, Put;
    if IsFlow(v) {
      FlowBlock(lines, i, v, indent);
    } else if v.Dict? {
      EntriesRead(lines, i, v.entries, indent, []);
      assert [] + v.entries == v.entries;
      WritableSplits(v);
    } else {
      ItemsRead(lines, i, v.items, indent, []);
      assert [] + v.items == v.items;
    }
  }

  lemma WritableSplits(v: Value)
    requires v.Dict? && Writable(v)
    ensures WritableEntries(v.entries)
  {
  }

  lemma FlowBlock(lines: seq<Line>, i: nat, v: Value, indent: nat)
    requires IsFlow(v) && (v.List? || v.Dict?) && Reads(lines, i, BlockLines(v, indent))
    ensures lines[i].indent == indent && BlockAt(lines, i, indent) == Ok(Parsed(v, i + 1))
  {
    hide ParseScalar;
    EmptyFlow();
    var raw := BlockLines(v, indent);
    assert raw == [Spaces(indent) + Flow(v)];
    assert lines[i + 0] == CutLine(raw[0], lines[i + 0].lineno);
    CutSpaces(indent, Flow(v), lines[i].lineno);
  }

  lemma {:induction false} EntriesRead(lines: seq<Line>, i: nat, entries: seq<Entry>, indent: nat, result: seq<Entry>)
    requires WritableEntries(entries) && DistinctKeys(result + entries)
    requires Reads(lines, i, EntriesLines(entries, indent)) && StopsAt(lines, i + |EntriesLines(entries, indent)|, indent)
    ensures entries != [] ==> lines[i].indent == indent && !IsItem(lines[i].content)
    ensures entries != [] ==> lines[i].content != "{}" && lines[i].content != "[]"
    ensures MappingAt(lines, i, indent, result) == MappingAt(lines, i + |EntriesLines(entries, indent)|, indent, result + entries)
    decreases entries, 1
  {
    hide ParseScalar, Strip, Flow, CutLine, EntryLines, PlainKey, EntryAt, Put, IsItem, Writable;
    if entries == [] {
      assert result + entries == result;
    } else {
      var e, rest := entries[0], entries[1..];
      var first, more := EntryLines(e, indent), EntriesLines(rest, indent);
      ReadsConcat(lines, i, first, more);
      RestIsWritable(entries);
      PutAppends(result, entries);
      EntriesRead(lines, i + |first|, rest, indent, result + [e]);
      assert StopsAt(lines, i + |first|, indent);
      EntryReads(lines, i, e, indent);
      MappingStep(lines, i, indent, result);
    }
  }

  lemma RestIsWritable(entries: seq<Entry>)
    requires entries != [] && WritableEntries(entries)
    ensures WritableEntries(entries[1..])
  {
    hide PlainKey, Writable;
  }

  lemma {:induction false} EntryReads(lines: seq<Line>, i: nat, e: Entry, indent: nat)
    requires PlainKey(e.key) && Writable(e.value)
    requires Reads(lines, i, EntryLines(e, indent)) && StopsAt(lines, i + |EntryLines(e, indent)|, indent)
    ensures lines[i].indent == indent && !IsItem(lines[i].content)
    ensures lines[i].content != "{}" && lines[i].content != "[]"
    ensures EntryAt(lines, i) == Ok(Parsed(e, i + |EntryLines(e, indent)|))
    decreases e, 0
  {
    hide ParseScalar, Strip, Flow, CutLine, PlainKey, EntryAt, BlockLines, IsItem, Writable, BlockAt;
    var head := Spaces(indent) + e.key + ":";
    var raw := EntryLines(e, indent);
    assert lines[i + 0] == CutLine(raw[0], lines[i + 0].lineno);
    if IsFlow(e.value) {
      FlowReads(e.value);
      EntryOnLine(lines, i, e.key, " " + Flow(e.value), indent);
      BodyText(Flow(e.value));
    } else {
      EntryOnLine(lines, i, e.key, "", indent);
      ReadsConcat(lines, i, [head + ""], BlockLines(e.value, indent + 2));
      NoFlowIsBlock(e.value);
      BlockReads(lines, i + 1, e.value, indent + 2);
      assert Strip("") == "" by { EmptyText(); }
    }
  }

  lemma NoFlowIsBlock(v: Value)
    requires !IsFlow(v)
    ensures v.List? || v.Dict?
  {
  }

  lemma EmptyText()
    ensures Strip("") == ""
  {
  }

  lemma {:induction false} ItemsRead(lines: seq<Line>, i: nat, items: seq<Value>, indent: nat, result: seq<Value>)
    requires WritableItems(items)
    requires Reads(lines, i, ItemsLines(items, indent)) && EndsBefore(lines, i + |ItemsLines(items, indent)|, indent)
    ensures items != [] ==> lines[i].indent == indent && IsItem(lines[i].content)
    ensures ListAt(lines, i, indent, result) == Ok(Parsed(result + items, i + |ItemsLines(items, indent)|))
    decreases items, 1
  {
    hide ParseScalar, Strip, Flow, CutLine, ItemLines, IsItem, Writable, BodyAt;
    if items == [] {
      assert result + items == result;
    } else {
      var v, rest := items[0], items[1..];
      var first, more := ItemLines(v, indent), ItemsLines(rest, indent);
      ReadsConcat(lines, i, first, more);
      ItemsRead(lines, i + |first|, rest, indent, result + [v]);
      assert result + [v] + rest == result + items;
      ItemReads(lines, i, v, indent);
    }
  }

  lemma {:induction false} ItemReads(lines: seq<Line>, i: nat, v: Value, indent: nat)
    requires Writable(v)
    requires Reads(lines, i, ItemLines(v, indent)) && StopsAt(lines, i + |ItemLines(v, indent)|, indent)
    ensures lines[i].indent == indent && IsItem(lines[i].content) && |lines[i].content| >= 2
    ensures BodyAt(lines, i, Strip(lines[i].content[2..])) == Ok(Parsed(v, i + |ItemLines(v, indent)|))
    decreases v, 3
  {
    hide ParseScalar, Strip, Flow, CutLine, BlockLines, Writable, BlockAt;
    var raw := ItemLines(v, indent);
    assert lines[i + 0] == CutLine(raw[0], lines[i + 0].lineno);
    if IsFlow(v) {
      FlowReads(v);
      CutSpaces(indent, "- " + Flow(v), lines[i].lineno);
      assert lines[i].content[2..] == Flow(v);
    } else {
      CutSpaces(indent, "- " + "", lines[i].lineno);
      assert lines[i].content[2..] == "";
      EmptyText();
      ReadsConcat(lines, i, [raw[0]], BlockLines(v, indent + 2));
      NoFlowIsBlock(v);
      BlockReads(lines, i + 1, v, indent + 2);
    }
  }

  // ---------- whole files ----------

  lemma {:induction false} SolidBlock(v: Value, indent: nat)
    requires Writable(v) && (v.List? || v.Dict?) && indent % 2 == 0
    ensures AllSolid(BlockLines(v, indent))
    decreases v, 2
  {
    hide Solid, Flow, EntryLines, ItemLines, PlainKey;
    if IsFlow(v) {
      SolidFlow(v, indent);
    } else if v.Dict? {
      SolidEntries(v.entries, indent);
    } else {
      SolidItemLines(v.items, indent);
    }
  }

  lemma SolidFlow(v: Value, indent: nat)
    requires IsFlow(v) && (v.List? || v.Dict?) && indent % 2 == 0
    ensures Solid(Spaces(indent) + Flow(v))
  {
    hide Solid;
    SolidContent(indent, Flow(v));
  }

  lemma {:induction false} SolidEntries(entries: seq<Entry>, indent: nat)
    requires WritableEntries(entries) && indent % 2 == 0
    ensures AllSolid(EntriesLines(entries, indent))
    decreases entries, 1
  {
    hide Solid, EntryLines, PlainKey, Writable;
    if entries != [] {
      RestIsWritable(entries);
      SolidEntryLines(entries[0], indent);
      SolidEntries(entries[1..], indent);
      SolidConcat(EntryLines(entries[0], indent), EntriesLines(entries[1..], indent));
    }
  }

  lemma {:induction false} SolidEntryLines(e: Entry, indent: nat)
    requires PlainKey(e.key) && Writable(e.value) && indent % 2 == 0
    ensures AllSolid(EntryLines(e, indent))
    decreases e, 0
  {
    hide Solid, Flow, BlockLines, PlainKey, Writable, OneLine;
    var head := Spaces(indent) + e.key + ":";
    if IsFlow(e.value) {
      FlowReads(e.value);
      BlankAndText(Flow(e.value));
      SolidKeyLine(indent, e.key, " " + Flow(e.value));
    } else {
      NoFlowIsBlock(e.value);
      assert OneLine("") by { NothingOnLine(); }
      SolidKeyLine(indent, e.key, "");
      SolidBlock(e.value, indent + 2);
      SolidConcat([head + ""], BlockLines(e.value, indent + 2));
    }
  }

  lemma BlankAndText(s: string)
    requires OneLine(s)
    ensures OneLine(" " + s)
  {
  }

  lemma NothingOnLine()
    ensures OneLine("")
  {
  }

  lemma {:induction false} SolidItemLines(items: seq<Value>, indent: nat)
    requires WritableItems(items) && indent % 2 == 0
    ensures AllSolid(ItemsLines(items, indent))
    decreases items, 1
  {
    hide Solid, ItemLines, Writable;
    if items != [] {
      SolidItemLine(items[0], indent);
      SolidItemLines(items[1..], indent);
      SolidConcat(ItemLines(items[0], indent), ItemsLines(items[1..], indent));
    }
  }

  lemma {:induction false} SolidItemLine(v: Value, indent: nat)
    requires Writable(v) && indent % 2 == 0
    ensures AllSolid(ItemLines(v, indent))
    decreases v, 3
  {
    hide Solid, Flow, BlockLines, Writable;
    if IsFlow(v) {
      FlowReads(v);
      DashOnLine(Flow(v));
      SolidContent(indent, "- " + Flow(v));
    } else {
      NoFlowIsBlock(v);
      DashOnLine("");
      SolidContent(indent, "- " + "");
      SolidBlock(v, indent + 2);
      SolidConcat([Spaces(indent) + ("- " + "")], BlockLines(v, indent + 2));
    }
  }

  lemma DashOnLine(s: string)
    requires OneLine(s)
    ensures var content := "- " + s; content != "" && !IsSpace(content[0]) && content[0] != '#' && OneLine(content)
  {
    var content := "- " + s;
    assert forall i :: 2 <= i < |content| ==> content[i] == s[i - 2];
  }

  /** Every list and every mapping, however nested, with plain keys and texts on one line,
      has a text that is loaded as exactly that value. */
  lemma EveryValueCanBeWritten(v: Value)
    requires Writable(v) && (v.List? || v.Dict?)
    ensures Load(Document(BlockLines(v, 0))) == Ok(v)
  {
    hide BlockLines, BlockAt, Solid, Document, Writable, TokenizeFrom, Kept, Assemble, SplitLines;
    var raw := BlockLines(v, 0);
    SolidBlock(v, 0);
    SolidOneLines(raw);
    SplitDocument(raw);
    KeptSolid(raw);
    TokensRead(raw, 0);
    assert raw[0..] == raw;
    var lines := TokenizeFrom(raw, 0).value;
    BlockReads(lines, 0, v, 0);
    WholeBlock(lines, v);
  }

  lemma WholeBlock(lines: seq<Line>, v: Value)
    requires lines != [] && lines[0].indent == 0 && BlockAt(lines, 0, 0) == Ok(Parsed(v, |lines|))
    ensures Assemble(Ok(lines)) == Ok(v)
  {
    hide BlockAt;
  }
}
