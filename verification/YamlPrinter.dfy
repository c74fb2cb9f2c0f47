/** The printer of nested settings, and the round trip through the reader: what
    is printed from a well-formed mapping is read back as that mapping. */
module YamlPrinter {
  import opened Wrappers
  import opened Text
  import opened Scalars
  import opened YamlParser

  // ---------- what is printed ----------

  function RenderItems(show: Show, items: seq<Value>, indent: nat): (lines: seq<string>)
    ensures |lines| == |items|
  {
    seq(|items|, i requires 0 <= i < |items| => Spaces(indent) + "- " + RenderScalar(show, items[i]))
  }

  function RenderEntry(show: Show, e: Entry, indent: nat): (lines: seq<string>)
    ensures lines != []
    decreases e, 0
  {
    var head := Spaces(indent) + e.key + ":";
    var v := e.value;
    if v.Dict? then
      if v.entries == [] then [head + " {}"] else [head] + RenderMapping(show, v.entries, indent + 2)
    else if v.List? then
      if v.items == [] then [head + " []"] else [head] + RenderItems(show, v.items, indent + 2)
    else [head + " " + RenderScalar(show, v)]
  }

  function RenderMapping(show: Show, entries: seq<Entry>, indent: nat): (lines: seq<string>)
    ensures entries != [] ==> lines != []
    decreases entries, 1
  {
    if entries == [] then [] else RenderEntry(show, entries[0], indent) + RenderMapping(show, entries[1..], indent)
  }

  lemma Regroup(a: seq<string>, b: seq<string>, c: seq<string>)
    ensures a + b + c == a + (b + c)
  {
  }

  lemma {:induction false} RenderMappingConcat(show: Show, a: seq<Entry>, b: seq<Entry>, indent: nat)
    ensures RenderMapping(show, a + b, indent) == RenderMapping(show, a, indent) + RenderMapping(show, b, indent)
  {
    hide RenderEntry, RenderScalar;
    if a == [] {
      assert a + b == b;
    } else {
      RenderMappingConcat(show, a[1..], b, indent);
      assert (a + b)[1..] == a[1..] + b && (a + b)[0] == a[0];
      Regroup(RenderEntry(show, a[0], indent), RenderMapping(show, a[1..], indent), RenderMapping(show, b, indent));
    }
  }

  lemma RenderMappingUpTo(show: Show, entries: seq<Entry>, k: nat, indent: nat)
    requires k < |entries|
    ensures RenderMapping(show, entries[..k + 1], indent)
            == RenderMapping(show, entries[..k], indent) + RenderEntry(show, entries[k], indent)
  {
    RenderMappingConcat(show, entries[..k], [entries[k]], indent);
    assert entries[..k + 1] == entries[..k] + [entries[k]];
    assert RenderMapping(show, [entries[k]], indent) == RenderEntry(show, entries[k], indent) + [];
  }

  lemma ItemsUpTo(show: Show, items: seq<Value>, indent: nat, i: nat)
    requires i < |items|
    ensures RenderItems(show, items, indent)[..i + 1]
            == RenderItems(show, items, indent)[..i] + [Spaces(indent) + "- " + RenderScalar(show, items[i])]
    ensures RenderItems(show, items, indent)[..|items|] == RenderItems(show, items, indent)
  {
    hide RenderScalar;
  }

  lemma TwoMoreSpaces(indent: nat)
    ensures Spaces(indent) + "  " == Spaces(indent + 2)
  {
  }

  method RenderYamlMapping(show: Show, entries: seq<Entry>, indent: nat) returns (lines: seq<string>)
    ensures lines == RenderMapping(show, entries, indent)
    decreases entries
  {
    hide RenderScalar, RenderMapping, RenderItems, Spaces;
    lines := [];
    NothingPrinted(show, entries, indent);
    var prefix := Spaces(indent);
    for k := 0 to |entries|
      invariant lines == RenderMapping(show, entries[..k], indent)
    {
      RenderMappingUpTo(show, entries, k, indent);
      var key, value := entries[k].key, entries[k].value;
      ghost var before := lines;
      var head := prefix + key + ":";
      if value.Dict? {
        if value.entries != [] {
          var nested := RenderYamlMapping(show, value.entries, indent + 2);
          Regroup(lines, [head], nested);
          lines := lines + [head];
          lines := lines + nested;
        } else {
          lines := lines + [head + " {}"];
        }
      } else if value.List? {
        if value.items != [] {
          lines := lines + [head];
          ghost var block := RenderItems(show, value.items, indent + 2);
          for i := 0 to |value.items|
            invariant lines == before + [head] + block[..i]
          {
            TwoMoreSpaces(indent);
            ItemsUpTo(show, value.items, indent + 2, i);
            lines := lines + [prefix + "  " + "- " + RenderScalar(show, value.items[i])];
          }
          ItemsUpTo(show, value.items, indent + 2, 0);
          Regroup(before, [head], block);
        } else {
          lines := lines + [head + " []"];
        }
      } else {
        lines := lines + [head + " " + RenderScalar(show, value)];
      }
      assert lines == before + RenderEntry(show, entries[k], indent);
    }
    assert entries[..|entries|] == entries;
  }

  lemma NothingPrinted(show: Show, entries: seq<Entry>, indent: nat)
    ensures RenderMapping(show, entries[..0], indent) == []
  {
  }

  /** What is printed of the values that are not read back: a float as Python shows it; a
      list or mapping inside a list as Python shows it, in quotes when that holds a colon,
      a hash or a newline. */
  lemma ShownByPython(show: Show, key: string, literal: string, inner: Value)
    requires inner.List? || inner.Dict?
    ensures RenderEntry(show, Entry(key, Float(literal)), 0) == [key + ":" + " " + show(Float(literal))]
    ensures var shown := show(inner);
            var quoted := exists i :: 0 <= i < |shown| && (shown[i] == ':' || shown[i] == '#' || shown[i] == '\n');
            RenderEntry(show, Entry(key, List([inner])), 0) == [key + ":", "  - " + if quoted then "\"" + shown + "\"" else shown]
  {
    assert Spaces(0) + key + ":" == key + ":";
    assert Spaces(2) + "- " == "  - ";
    var line := "  - " + Quoted(show(inner));
    assert RenderItems(show, [inner], 2) == [line];
    assert [key + ":"] + [line] == [key + ":", line];
  }

  // ---------- what survives ----------

  // A key the reader finds again at the start of its line.
  predicate PlainKey(key: string) {
    && key != "" && Trimmed(key) && OneLine(key)
    && !Contains(key, ':') && key[0] != '#' && !IsItem(key)
  }

  predicate WellFormed(v: Value) {
    match v
    case Float(_) => false
    case List(items) => forall i :: 0 <= i < |items| ==> SafeScalar(items[i])
    case Dict(entries) => WellFormedEntries(entries)
    case _ => SafeScalar(v)
  }

  predicate WellFormedEntries(entries: seq<Entry>) {
    && DistinctKeys(entries)
    && forall i :: 0 <= i < |entries| ==> PlainKey(entries[i].key) && WellFormed(entries[i].value)
  }

  // ---------- printed lines as tokens ----------

  // The lines from `i` on are the cuts of these raw lines.
  predicate Reads(lines: seq<Line>, i: nat, raw: seq<string>) {
    && i + |raw| <= |lines|
    && forall j :: 0 <= j < |raw| ==> lines[i + j] == CutLine(raw[j], lines[i + j].lineno)
  }

  // Nothing after these lines is deeper than `indent`.
  predicate StopsAt(lines: seq<Line>, next: nat, indent: nat) {
    next < |lines| ==> lines[next].indent <= indent
  }

  lemma ReadsConcat(lines: seq<Line>, i: nat, a: seq<string>, b: seq<string>)
    requires Reads(lines, i, a + b)
    ensures Reads(lines, i, a) && Reads(lines, i + |a|, b)
  {
    assert forall j :: 0 <= j < |a| ==> (a + b)[j] == a[j];
    forall j | 0 <= j < |b|
      ensures lines[i + |a| + j] == CutLine(b[j], lines[i + |a| + j].lineno)
    {
      assert (a + b)[|a| + j] == b[j];
      assert lines[i + (|a| + j)] == CutLine((a + b)[|a| + j], lines[i + (|a| + j)].lineno);
    }
  }

  // What the reader sees of a line that starts with a plain key.
  lemma KeyLine(key: string, text: string)
    requires PlainKey(key)
    ensures var content := key + ":" + text;
            && IndexOf(content, ':') == |key| && content[..|key|] == key && content[|key| + 1..] == text
            && !IsItem(content) && content != "{}" && content != "[]"
            && !IsSpace(content[0]) && content[0] != '#'
  {
    IndexOfFirst(key, ':', text);
    var content := key + ":" + text;
    assert content == key + [':'] + text;
    assert content[0] == key[0] && content[|key|] == ':';
    assert content[1] == if |key| > 1 then key[1] else ':';
    assert "- "[0] == '-' && "- "[1] == ' ';
    assert "{}"[0] == '{' && "{}"[1] == '}' && "[]"[0] == '[' && "[]"[1] == ']';
  }

  lemma CutSpaces(n: nat, content: string, lineno: nat)
    requires content != "" && content[0] != ' '
    ensures CutLine(Spaces(n) + content, lineno) == Line(n, content, lineno)
  {
    IndentOf(n, content);
  }

  // An entry whose line is `key:` followed by some text.
  lemma EntryOnLine(lines: seq<Line>, i: nat, key: string, text: string, indent: nat)
    requires PlainKey(key) && i < |lines|
    requires lines[i] == CutLine(Spaces(indent) + key + ":" + text, lines[i].lineno)
    ensures lines[i].indent == indent && lines[i].content == key + ":" + text
    ensures !IsItem(lines[i].content) && lines[i].content != "{}" && lines[i].content != "[]"
    ensures EntryAt(lines, i) ==
            var body := BodyAt(lines, i, Strip(text));
            if body.Ok? then Ok(Parsed(Entry(key, body.value.value), body.value.next)) else Err(body.error)
  {
    hide Strip, BodyAt, CutLine, OneLine;
    KeyLine(key, text);
    CutSpaces(indent, key + ":" + text, lines[i].lineno);
    assert Spaces(indent) + (key + ":" + text) == Spaces(indent) + key + ":" + text;
    assert Strip(key) == key;
  }

  lemma BodyText(text: string)
    requires Trimmed(text)
    ensures Strip(" " + text) == text
  {
    StripIgnoresPrefix(" ", text);
  }

  // ---------- the round trip ----------

  lemma {:induction false} ItemsRoundTrip(show: Show, lines: seq<Line>, i: nat, indent: nat, items: seq<Value>, k: nat)
    requires WellFormed(List(items)) && k <= |items|
    requires Reads(lines, i, RenderItems(show, items, indent))
    requires i + |items| < |lines| ==> lines[i + |items|].indent < indent
    ensures ListAt(lines, i + k, indent, items[..k]) == Ok(Parsed(items, i + |items|))
    decreases |items| - k
  {
    hide ParseScalar, Strip, SafeScalar, RenderScalar, CutLine, RenderItems;
    if k == |items| {
      assert items[..k] == items;
    } else {
      ItemOnLine(show, lines, i, indent, items, k);
      assert items[..k + 1] == items[..k] + [items[k]];
      ItemsRoundTrip(show, lines, i, indent, items, k + 1);
    }
  }

  lemma ItemOnLine(show: Show, lines: seq<Line>, i: nat, indent: nat, items: seq<Value>, k: nat)
    requires WellFormed(List(items)) && k < |items|
    requires Reads(lines, i, RenderItems(show, items, indent))
    ensures lines[i + k].indent == indent && IsItem(lines[i + k].content)
    ensures BodyAt(lines, i + k, Strip(lines[i + k].content[2..])) == Ok(Parsed(items[k], i + k + 1))
  {
    hide ParseScalar, Strip, SafeScalar, RenderScalar, CutLine;
    var text := RenderScalar(show, items[k]);
    SafeScalarParses(show, items[k]);
    assert RenderItems(show, items, indent)[k] == Spaces(indent) + ("- " + text);
    CutSpaces(indent, "- " + text, lines[i + k].lineno);
    assert lines[i + k].content[2..] == text;
    assert Strip(text) == text;
  }

  lemma {:induction false} EntryRoundTrip(show: Show, lines: seq<Line>, i: nat, indent: nat, e: Entry)
    requires PlainKey(e.key) && WellFormed(e.value)
    requires Reads(lines, i, RenderEntry(show, e, indent))
    requires StopsAt(lines, i + |RenderEntry(show, e, indent)|, indent)
    ensures lines[i].indent == indent && !IsItem(lines[i].content)
    ensures lines[i].content != "{}" && lines[i].content != "[]"
    ensures EntryAt(lines, i) == Ok(Parsed(e, i + |RenderEntry(show, e, indent)|))
    decreases e, 0
  {
    hide ParseScalar, Strip, SafeScalar, RenderScalar, PlainKey, EntryAt, RenderItems, IsItem, NeedsQuotes, CutLine;
    var head := Spaces(indent) + e.key + ":";
    var raw := RenderEntry(show, e, indent);
    assert lines[i + 0] == CutLine(raw[0], lines[i].lineno);
    assert head == head + "";
    if e.value.Dict? && e.value.entries != [] {
      EntryOnLine(lines, i, e.key, "", indent);
      ReadsConcat(lines, i, [head], RenderMapping(show, e.value.entries, indent + 2));
      NestedRoundTrip(show, lines, i + 1, indent + 2, e.value.entries);
    } else if e.value.List? && e.value.items != [] {
      EntryOnLine(lines, i, e.key, "", indent);
      ReadsConcat(lines, i, [head], RenderItems(show, e.value.items, indent + 2));
      NestedItems(show, lines, i + 1, indent + 2, e.value.items);
    } else {
      var text := FlowText(show, e.value);
      FlowTextParses(show, e.value);
      FlowLine(show, e, indent);
      EntryOnLine(lines, i, e.key, " " + text, indent);
      BodyText(text);
    }
  }

  // What is printed on the line of a key whose value needs no line of its own.
  function FlowText(show: Show, v: Value): string
    requires (v.Dict? ==> v.entries == []) && (v.List? ==> v.items == [])
  {
    if v.Dict? then "{}" else if v.List? then "[]" else RenderScalar(show, v)
  }

  lemma FlowLine(show: Show, e: Entry, indent: nat)
    requires var v := e.value; (v.Dict? ==> v.entries == []) && (v.List? ==> v.items == [])
    ensures RenderEntry(show, e, indent) == [Spaces(indent) + e.key + ":" + (" " + FlowText(show, e.value))]
  {
    hide RenderScalar;
    var head := Spaces(indent) + e.key + ":";
    var text := FlowText(show, e.value);
    assert head + " " + text == head + (" " + text);
    if e.value.Dict? {
      assert " " + text == " {}";
    } else if e.value.List? {
      assert " " + text == " []";
    }
  }

  lemma FlowTextParses(show: Show, v: Value)
    requires WellFormed(v) && (v.Dict? ==> v.entries == []) && (v.List? ==> v.items == [])
    ensures FlowText(show, v) != "" && Trimmed(FlowText(show, v)) && ParseScalar(FlowText(show, v)) == v
  {
    hide ParseScalar, SafeScalar, RenderScalar;
    if v.Dict? || v.List? {
      EmptyFlow();
    } else {
      SafeScalarParses(show, v);
    }
  }

  lemma EmptyFlow()
    ensures ParseScalar("{}") == Dict([]) && ParseScalar("[]") == List([])
  {
    NotAWord("{}");
    NotAWord("[]");
  }

  // A printed list below its key.
  lemma NestedItems(show: Show, lines: seq<Line>, i: nat, indent: nat, items: seq<Value>)
    requires WellFormed(List(items)) && items != []
    requires Reads(lines, i, RenderItems(show, items, indent))
    requires i + |items| < |lines| ==> lines[i + |items|].indent < indent
    ensures lines[i].indent == indent
    ensures BlockAt(lines, i, indent) == Ok(Parsed(List(items), i + |items|))
  {
    hide ParseScalar, Strip, SafeScalar, RenderScalar, CutLine, RenderItems, BodyAt;
    ItemOnLine(show, lines, i, indent, items, 0);
    assert lines[i + 0] == lines[i];
    ItemsRoundTrip(show, lines, i, indent, items, 0);
    assert items[..0] == [];
  }

  // A printed mapping below its key.
  lemma {:induction false} NestedRoundTrip(show: Show, lines: seq<Line>, i: nat, indent: nat, entries: seq<Entry>)
    requires WellFormedEntries(entries) && entries != []
    requires Reads(lines, i, RenderMapping(show, entries, indent))
    requires var next := i + |RenderMapping(show, entries, indent)|; next < |lines| ==> lines[next].indent < indent
    ensures lines[i].indent == indent
    ensures BlockAt(lines, i, indent) == Ok(Parsed(Dict(entries), i + |RenderMapping(show, entries, indent)|))
    decreases entries, 2
  {
    hide ParseScalar, Strip, SafeScalar, RenderScalar, EntryAt, RenderEntry, Put;
    MappingRoundTrip(show, lines, i, indent, entries, []);
    assert [] + entries == entries;
  }

  /** Reading printed entries adds exactly those entries, in order, and moves past
      exactly their lines. */
  lemma {:induction false} MappingRoundTrip(show: Show, lines: seq<Line>, i: nat, indent: nat, entries: seq<Entry>, result: seq<Entry>)
    requires WellFormedEntries(entries) && DistinctKeys(result + entries)
    requires Reads(lines, i, RenderMapping(show, entries, indent))
    requires StopsAt(lines, i + |RenderMapping(show, entries, indent)|, indent)
    ensures entries != [] ==> lines[i].indent == indent && !IsItem(lines[i].content)
    ensures entries != [] ==> lines[i].content != "{}" && lines[i].content != "[]"
    ensures MappingAt(lines, i, indent, result)
            == MappingAt(lines, i + |RenderMapping(show, entries, indent)|, indent, result + entries)
    decreases entries, 1
  {
    hide ParseScalar, Strip, SafeScalar, RenderScalar, EntryAt, RenderEntry, Put, IsItem, PlainKey;
    if entries == [] {
      assert result + entries == result;
    } else {
      var e, rest := entries[0], entries[1..];
      var first, more := RenderEntry(show, e, indent), RenderMapping(show, rest, indent);
      ReadsConcat(lines, i, first, more);
      RestIsWellFormed(entries);
      PutAppends(result, entries);
      MappingRoundTrip(show, lines, i + |first|, indent, rest, result + [e]);
      EntryRoundTrip(show, lines, i, indent, e);
    }
  }

  lemma PutAppends(result: seq<Entry>, entries: seq<Entry>)
    requires entries != [] && DistinctKeys(result + entries)
    ensures Put(result, entries[0].key, entries[0].value) == result + [entries[0]]
    ensures (result + [entries[0]]) + entries[1..] == result + entries
  {
    var all := result + entries;
    assert all[|result|] == entries[0];
    assert forall j :: 0 <= j < |result| ==> all[j] == result[j];
  }

  lemma RestIsWellFormed(entries: seq<Entry>)
    requires entries != [] && WellFormedEntries(entries)
    ensures WellFormedEntries(entries[1..])
  {
    hide PlainKey, WellFormed;
  }
}
