/** The fallback reader of config files: lines are cut into indentation and
    content, then three mutually recursive parsers walk over the lines. The
    functions say what the parsers compute; the methods are the loops. */
module YamlParser {
  import opened Wrappers
  import opened Text
  import opened Scalars

  datatype Line = Line(indent: nat, content: string, lineno: nat)

  datatype ParseError =
    | OddIndentation(lineno: nat)
    | UnexpectedEnd
    | UnexpectedIndentation(lineno: nat)
    | ExpectedEntry(lineno: nat)
    | EmptyKey(lineno: nat)
    | TrailingContent(lineno: nat)

  /** A value together with the index of the first line that is not part of it. */
  datatype Parsed<+T> = Parsed(value: T, next: nat)

  predicate IsItem(content: string) {
    StartsWith(content, "- ")
  }

  /** The position of the entry with this key, or the length when there is none. */
  function KeyIndex(entries: seq<Entry>, key: string): (k: nat)
    ensures k <= |entries|
    ensures forall i :: 0 <= i < k ==> entries[i].key != key
    ensures k < |entries| ==> entries[k].key == key
  {
    if entries == [] || entries[0].key == key then 0 else 1 + KeyIndex(entries[1..], key)
  }

  /** `result[key] = value` on an insertion-ordered dictionary. */
  function Put(entries: seq<Entry>, key: string, value: Value): seq<Entry> {
    var k := KeyIndex(entries, key);
    if k < |entries| then entries[k := Entry(key, value)] else entries + [Entry(key, value)]
  }

  predicate DistinctKeys(entries: seq<Entry>) {
    forall i, j :: 0 <= i < j < |entries| ==> entries[i].key != entries[j].key
  }

  // ---------- lines ----------

  // Blank lines and comments are dropped.
  predicate IsSkipped(raw: string) {
    Strip(raw) == "" || StartsWith(Strip(raw), "#")
  }

  function CutLine(raw: string, lineno: nat): Line {
    Line(Indent(raw), raw[Indent(raw)..], lineno)
  }

  function TokenizeFrom(raw: seq<string>, k: nat): Result<seq<Line>, ParseError>
    decreases |raw| - k
  {
    if k >= |raw| then Ok([])
    else if IsSkipped(raw[k]) then TokenizeFrom(raw, k + 1)
    else if Indent(raw[k]) % 2 != 0 then Err(OddIndentation(k + 1))
    else
      var rest :- TokenizeFrom(raw, k + 1);
      Ok([CutLine(raw[k], k + 1)] + rest)
  }

  // The outcome of a tokenizer that has `parsed` behind it and `rest` before it.
  ghost function After(parsed: seq<Line>, rest: Result<seq<Line>, ParseError>): Result<seq<Line>, ParseError> {
    if rest.Ok? then Ok(parsed + rest.value) else rest
  }

  lemma AfterOneMore(parsed: seq<Line>, line: Line, rest: Result<seq<Line>, ParseError>)
    ensures After(parsed + [line], rest) == After(parsed, After([line], rest))
    ensures After([], rest) == rest
    ensures After(parsed, Ok([])) == Ok(parsed)
  {
    if rest.Ok? {
      assert parsed + [line] + rest.value == parsed + ([line] + rest.value);
      assert [] + rest.value == rest.value;
    }
    assert parsed + [] == parsed;
  }

  method Tokenize(raw: seq<string>) returns (r: Result<seq<Line>, ParseError>)
    ensures r == TokenizeFrom(raw, 0)
  {
    hide Strip;
    var parsed: seq<Line> := [];
    AfterOneMore(parsed, Line(0, "", 0), TokenizeFrom(raw, 0));
    for k := 0 to |raw|
      invariant TokenizeFrom(raw, 0) == After(parsed, TokenizeFrom(raw, k))
    {
      if IsSkipped(raw[k]) {
        continue;
      }
      if Indent(raw[k]) % 2 != 0 {
        return Err(OddIndentation(k + 1));
      }
      AfterOneMore(parsed, CutLine(raw[k], k + 1), TokenizeFrom(raw, k + 1));
      parsed := parsed + [CutLine(raw[k], k + 1)];
    }
    AfterOneMore(parsed, Line(0, "", 0), Ok([]));
    return Ok(parsed);
  }

  // ---------- what the parsers compute ----------

  function BlockAt(lines: seq<Line>, index: nat, indent: nat): (r: Result<Parsed<Value>, ParseError>)
    ensures r.Ok? ==> index <= r.value.next <= |lines|
    decreases |lines| - index, 2
  {
    if index >= |lines| then Err(UnexpectedEnd)
    else if IsItem(lines[index].content) then
      var items :- ListAt(lines, index, indent, []);
      Ok(Parsed(List(items.value), items.next))
    else if lines[index].content == "{}" || lines[index].content == "[]" then
      Ok(Parsed(ParseScalar(lines[index].content), index + 1))
    else
      var entries :- MappingAt(lines, index, indent, []);
      Ok(Parsed(Dict(entries.value), entries.next))
  }

  // Where a mapping stops: the end, a shallower line, or an item at its own
  // indentation.
  predicate MappingEnd(lines: seq<Line>, index: nat, indent: nat) {
    || index >= |lines|
    || lines[index].indent < indent
    || (lines[index].indent == indent && IsItem(lines[index].content))
  }

  function MappingAt(lines: seq<Line>, index: nat, indent: nat, result: seq<Entry>):
    (r: Result<Parsed<seq<Entry>>, ParseError>)
    ensures r.Ok? ==> index <= r.value.next
    ensures r.Ok? && index <= |lines| ==> r.value.next <= |lines|
    decreases |lines| - index, 1, 1
  {
    if MappingEnd(lines, index, indent) then Ok(Parsed(result, index))
    else if lines[index].indent != indent then Err(UnexpectedIndentation(lines[index].lineno))
    else
      var entry :- EntryAt(lines, index);
      MappingAt(lines, entry.next, indent, Put(result, entry.value.key, entry.value.value))
  }

  // One entry: the line with the key, and the deeper block below it when the line
  // holds no value.
  function EntryAt(lines: seq<Line>, index: nat): (r: Result<Parsed<Entry>, ParseError>)
    requires index < |lines|
    ensures r.Ok? ==> index < r.value.next <= |lines|
    decreases |lines| - index, 1, 0
  {
    var line := lines[index];
    var colon := IndexOf(line.content, ':');
    if colon == |line.content| then Err(ExpectedEntry(line.lineno))
    else
      var key := Strip(line.content[..colon]);
      if key == "" then Err(EmptyKey(line.lineno))
      else
        var value :- BodyAt(lines, index, Strip(line.content[colon + 1..]));
        Ok(Parsed(Entry(key, value.value), value.next))
  }

  // The value of the line at `index`: the text on it, or else the block below it.
  function BodyAt(lines: seq<Line>, index: nat, text: string): (r: Result<Parsed<Value>, ParseError>)
    requires index < |lines|
    ensures r.Ok? ==> index < r.value.next <= |lines|
    decreases |lines| - index, 0
  {
    if text != "" then Ok(Parsed(ParseScalar(text), index + 1))
    else if index + 1 >= |lines| || lines[index + 1].indent <= lines[index].indent then Ok(Parsed(Null, index + 1))
    else BlockAt(lines, index + 1, lines[index + 1].indent)
  }

  // Where a list stops: at the first line that is not an item at its indentation.
  predicate ListEnd(lines: seq<Line>, index: nat, indent: nat) {
    index >= |lines| || lines[index].indent != indent || !IsItem(lines[index].content)
  }

  function ListAt(lines: seq<Line>, index: nat, indent: nat, result: seq<Value>):
    (r: Result<Parsed<seq<Value>>, ParseError>)
    ensures r.Ok? ==> index <= r.value.next
    ensures r.Ok? && index <= |lines| ==> r.value.next <= |lines|
    decreases |lines| - index, 1, 1
  {
    if ListEnd(lines, index, indent) then Ok(Parsed(result, index))
    else
      var item :- BodyAt(lines, index, Strip(lines[index].content[2..]));
      ListAt(lines, item.next, indent, result + [item.value])
  }

  function LoadLines(raw: seq<string>): Result<Value, ParseError> {
    Assemble(TokenizeFrom(raw, 0))
  }

  // The whole file as one block.
  function Assemble(tokens: Result<seq<Line>, ParseError>): Result<Value, ParseError> {
    var lines :- tokens;
    if lines == [] then Ok(Dict([]))
    else
      var block :- BlockAt(lines, 0, lines[0].indent);
      if block.next != |lines| then Err(TrailingContent(lines[block.next].lineno)) else Ok(block.value)
  }

  function Load(text: string): Result<Value, ParseError> {
    LoadLines(SplitLines(text))
  }

  // ---------- the parsers ----------

  method ParseBlock(lines: seq<Line>, index: nat, indent: nat) returns (r: Result<Parsed<Value>, ParseError>)
    ensures r == BlockAt(lines, index, indent)
    decreases |lines| - index, 1
  {
    hide ParseScalar, Strip, Put;
    if index >= |lines| {
      return Err(UnexpectedEnd);
    }
    if IsItem(lines[index].content) {
      var items :- ParseList(lines, index, indent);
      return Ok(Parsed(List(items.value), items.next));
    }
    if lines[index].content == "{}" || lines[index].content == "[]" {
      return Ok(Parsed(ParseScalar(lines[index].content), index + 1));
    }
    var entries :- ParseMapping(lines, index, indent);
    return Ok(Parsed(Dict(entries.value), entries.next));
  }

  // One turn of the mapping loop.
  lemma MappingStep(lines: seq<Line>, index: nat, indent: nat, result: seq<Entry>)
    requires !MappingEnd(lines, index, indent) && lines[index].indent == indent
    ensures var entry := EntryAt(lines, index);
            MappingAt(lines, index, indent, result) ==
            if entry.Err? then Err(entry.error)
            else MappingAt(lines, entry.value.next, indent, Put(result, entry.value.value.key, entry.value.value.value))
  {
    hide ParseScalar, Strip, Put;
  }

  method ParseMapping(lines: seq<Line>, start: nat, indent: nat)
    returns (r: Result<Parsed<seq<Entry>>, ParseError>)
    ensures r == MappingAt(lines, start, indent, [])
    decreases |lines| - start, 0
  {
    hide ParseScalar, Strip, Put, IsItem;
    var result: seq<Entry> := [];
    var index := start;
    while index < |lines|
      invariant start <= index
      invariant MappingAt(lines, start, indent, []) == MappingAt(lines, index, indent, result)
    {
      var line := lines[index];
      if line.indent < indent {
        break;
      }
      if line.indent != indent {
        return Err(UnexpectedIndentation(line.lineno));
      }
      if IsItem(line.content) {
        break;
      }
      MappingStep(lines, index, indent, result);
      var colon := IndexOf(line.content, ':');
      if colon == |line.content| {
        return Err(ExpectedEntry(line.lineno));
      }
      var key := Strip(line.content[..colon]);
      if key == "" {
        return Err(EmptyKey(line.lineno));
      }
      var remainder := Strip(line.content[colon + 1..]);
      ghost var at := index;
      index := index + 1;
      var value: Value := Null;
      if remainder != "" {
        value := ParseScalar(remainder);
      } else if index < |lines| && lines[index].indent > indent {
        var block :- ParseBlock(lines, index, lines[index].indent);
        value, index := block.value, block.next;
      }
      assert EntryAt(lines, at) == Ok(Parsed(Entry(key, value), index));
      result := Put(result, key, value);
    }
    return Ok(Parsed(result, index));
  }

  method ParseList(lines: seq<Line>, start: nat, indent: nat)
    returns (r: Result<Parsed<seq<Value>>, ParseError>)
    ensures r == ListAt(lines, start, indent, [])
    decreases |lines| - start, 0
  {
    hide ParseScalar, Strip, Put;
    var result: seq<Value> := [];
    var index := start;
    while index < |lines|
      invariant start <= index
      invariant ListAt(lines, start, indent, []) == ListAt(lines, index, indent, result)
    {
      var line := lines[index];
      if line.indent < indent {
        break;
      }
      if line.indent != indent || !IsItem(line.content) {
        break;
      }
      var item := Strip(line.content[2..]);
      index := index + 1;
      if item != "" {
        result := result + [ParseScalar(item)];
        continue;
      }
      if index >= |lines| || lines[index].indent <= indent {
        result := result + [Null];
        continue;
      }
      var block :- ParseBlock(lines, index, lines[index].indent);
      result, index := result + [block.value], block.next;
    }
    return Ok(Parsed(result, index));
  }

  method LoadSimpleYaml(text: string) returns (r: Result<Value, ParseError>)
    ensures r == Load(text)
  {
    hide ParseScalar, Strip, Put;
    var lines :- Tokenize(SplitLines(text));
    if lines == [] {
      return Ok(Dict([]));
    }
    var block :- ParseBlock(lines, 0, lines[0].indent);
    if block.next != |lines| {
      return Err(TrailingContent(lines[block.next].lineno));
    }
    return Ok(block.value);
  }

  // ---------- what a successful parse has consumed ----------

  // Every line from `from` up to `to` lies at `indent` or deeper.
  predicate Within(lines: seq<Line>, from: nat, to: nat, indent: nat) {
    from <= to <= |lines| && forall j :: from <= j < to ==> lines[j].indent >= indent
  }

  /** A block started at its own first line takes at least that line, and nothing
      but lines at its indentation or deeper. */
  lemma {:induction false} BlockExtent(lines: seq<Line>, index: nat)
    requires index < |lines|
    ensures var indent := lines[index].indent;
            var r := BlockAt(lines, index, indent);
            r.Ok? ==> index < r.value.next && Within(lines, index, r.value.next, indent)
    decreases |lines| - index, 2
  {
    hide ParseScalar, Strip, Put;
    MappingExtent(lines, index, lines[index].indent, []);
    ListExtent(lines, index, lines[index].indent, []);
  }

  lemma {:induction false} BodyExtent(lines: seq<Line>, index: nat, text: string)
    requires index < |lines|
    ensures var r := BodyAt(lines, index, text);
            r.Ok? ==> Within(lines, index, r.value.next, lines[index].indent)
    decreases |lines| - index, 0
  {
    hide ParseScalar, Strip, Put;
    if index + 1 < |lines| {
      BlockExtent(lines, index + 1);
    }
  }

  /** A mapping takes only lines at its indentation or deeper, and it stops nowhere
      but at the end, at a shallower line, or at an item at its own indentation. */
  lemma {:induction false} MappingExtent(lines: seq<Line>, index: nat, indent: nat, result: seq<Entry>)
    requires index <= |lines|
    ensures var r := MappingAt(lines, index, indent, result);
            r.Ok? ==> Within(lines, index, r.value.next, indent) && MappingEnd(lines, r.value.next, indent)
    decreases |lines| - index, 1
  {
    hide ParseScalar, Strip, Put;
    if !MappingEnd(lines, index, indent) {
      var entry := EntryAt(lines, index);
      if entry.Ok? {
        BodyExtent(lines, index, Strip(lines[index].content[IndexOf(lines[index].content, ':') + 1..]));
        MappingExtent(lines, entry.value.next, indent, Put(result, entry.value.value.key, entry.value.value.value));
      }
    }
  }

  /** A list takes only lines at its indentation or deeper, and it stops at the
      first line that is not an item at its indentation. */
  lemma {:induction false} ListExtent(lines: seq<Line>, index: nat, indent: nat, result: seq<Value>)
    requires index <= |lines|
    ensures var r := ListAt(lines, index, indent, result);
            r.Ok? ==> Within(lines, index, r.value.next, indent) && ListEnd(lines, r.value.next, indent)
    decreases |lines| - index, 1
  {
    hide ParseScalar, Strip, Put;
    if !ListEnd(lines, index, indent) {
      var text := Strip(lines[index].content[2..]);
      var item := BodyAt(lines, index, text);
      if item.Ok? {
        BodyExtent(lines, index, text);
        ListExtent(lines, item.value.next, indent, result + [item.value.value]);
      }
    }
  }
}
