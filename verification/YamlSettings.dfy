/** Which settings survive in a file: everything the reader returns lies on one line,
    and one text setting comes back exactly when key and text fit the line syntax. */
module YamlSettings {
  import opened Wrappers
  import opened Text
  import opened Scalars
  import opened YamlParser
  import opened YamlPrinter
  import opened YamlRoundTrip

  // ---------- whatever is read lies on one line ----------

  /** No key and no text in this value holds a line break. */
  predicate OneLineValue(v: Value) {
    match v
    case Str(text) => OneLine(text)
    case List(items) => forall i :: 0 <= i < |items| ==> OneLineValue(items[i])
    case Dict(entries) => OneLineEntries(entries)
    case _ => true
  }

  predicate OneLineEntries(entries: seq<Entry>) {
    forall i :: 0 <= i < |entries| ==> OneLine(entries[i].key) && OneLineValue(entries[i].value)
  }

  predicate OneLineItems(items: seq<Value>) {
    forall i :: 0 <= i < |items| ==> OneLineValue(items[i])
  }

  predicate OneLineContents(lines: seq<Line>) {
    forall i :: 0 <= i < |lines| ==> OneLine(lines[i].content)
  }

  lemma PartOfLine(s: string, from: nat, to: nat)
    requires from <= to <= |s| && OneLine(s)
    ensures OneLine(s[from..to]) && OneLine(s[from..]) && OneLine(s[..to])
  {
    assert forall i :: 0 <= i < to - from ==> s[from..to][i] == s[from + i];
    assert forall i :: 0 <= i < |s| - from ==> s[from..][i] == s[from + i];
  }

  lemma {:induction false} UnescapeOneLine(s: string, quote: char)
    requires OneLine(s) && !IsBreak(quote)
    ensures OneLine(Unescape(s, quote))
  {
    hide IsBreak;
    if s != "" {
      PartOfLine(s, 1, |s|);
      if |s| >= 2 {
        PartOfLine(s, 2, |s|);
        UnescapeOneLine(s[2..], quote);
      }
      UnescapeOneLine(s[1..], quote);
    }
  }

  lemma ScalarOneLine(s: string)
    requires OneLine(s)
    ensures OneLineValue(ParseScalar(s))
  {
    hide IsNullWord, Lower, IsIntLiteral, IsFloatLiteral, Unescape, OneLine;
    if |s| >= 2 {
      PartOfLine(s, 1, |s| - 1);
      UnescapeOneLine(s[1..|s| - 1], '\"');
      UnescapeOneLine(s[1..|s| - 1], '\'');
    }
  }

  lemma PutOneLine(entries: seq<Entry>, key: string, value: Value)
    requires OneLineEntries(entries) && OneLine(key) && OneLineValue(value)
    ensures OneLineEntries(Put(entries, key, value))
  {
    hide OneLine, OneLineValue;
  }

  lemma {:induction false} TokensOneLine(raw: seq<string>, k: nat)
    requires OneLineEach(raw)
    ensures TokenizeFrom(raw, k).Ok? ==> OneLineContents(TokenizeFrom(raw, k).value)
    decreases |raw| - k
  {
    hide IsSkipped, OneLine;
    if k < |raw| {
      TokensOneLine(raw, k + 1);
      PartOfLine(raw[k], Indent(raw[k]), |raw[k]|);
    }
  }

  lemma {:induction false} BlockOneLine(lines: seq<Line>, index: nat, indent: nat)
    requires OneLineContents(lines)
    ensures var r := BlockAt(lines, index, indent); r.Ok? ==> OneLineValue(r.value.value)
    decreases |lines| - index, 3
  {
    hide OneLine, ParseScalar, Strip, IsItem;
    if index < |lines| {
      ScalarOneLine(lines[index].content);
      ListOneLine(lines, index, indent, []);
      MappingOneLine(lines, index, indent, []);
    }
  }

  lemma {:induction false} MappingOneLine(lines: seq<Line>, index: nat, indent: nat, result: seq<Entry>)
    requires OneLineContents(lines) && OneLineEntries(result)
    ensures var r := MappingAt(lines, index, indent, result); r.Ok? ==> OneLineEntries(r.value.value)
    decreases |lines| - index, 2
  {
    hide OneLineEntries, OneLineContents, Put, EntryAt;
    if !MappingEnd(lines, index, indent) && lines[index].indent == indent {
      MappingStep(lines, index, indent, result);
      EntryOneLine(lines, index);
      var entry := EntryAt(lines, index);
      if entry.Ok? {
        PutOneLine(result, entry.value.value.key, entry.value.value.value);
        MappingOneLine(lines, entry.value.next, indent, Put(result, entry.value.value.key, entry.value.value.value));
      }
    }
  }

  lemma {:induction false} EntryOneLine(lines: seq<Line>, index: nat)
    requires OneLineContents(lines) && index < |lines|
    ensures var r := EntryAt(lines, index); r.Ok? ==> OneLine(r.value.value.key) && OneLineValue(r.value.value.value)
    decreases |lines| - index, 1
  {
    hide OneLine, OneLineValue, Strip, BodyAt;
    var content := lines[index].content;
    var colon := IndexOf(content, ':');
    if colon < |content| {
      PartOfLine(content, 0, colon);
      PartOfLine(content, colon + 1, |content|);
      BodyOneLine(lines, index, Strip(content[colon + 1..]));
    }
  }

  lemma {:induction false} BodyOneLine(lines: seq<Line>, index: nat, text: string)
    requires OneLineContents(lines) && index < |lines| && OneLine(text)
    ensures var r := BodyAt(lines, index, text); r.Ok? ==> OneLineValue(r.value.value)
    decreases |lines| - index, 0
  {
    hide OneLine, ParseScalar, BlockAt;
    ScalarOneLine(text);
    if index + 1 < |lines| {
      BlockOneLine(lines, index + 1, lines[index + 1].indent);
    }
  }

  lemma {:induction false} ListOneLine(lines: seq<Line>, index: nat, indent: nat, result: seq<Value>)
    requires OneLineContents(lines) && OneLineItems(result)
    ensures var r := ListAt(lines, index, indent, result); r.Ok? ==> OneLineItems(r.value.value)
    decreases |lines| - index, 2
  {
    hide OneLine, OneLineValue, Strip, BodyAt;
    if !ListEnd(lines, index, indent) {
      var content := lines[index].content;
      PartOfLine(content, 2, |content|);
      BodyOneLine(lines, index, Strip(content[2..]));
      var item := BodyAt(lines, index, Strip(content[2..]));
      if item.Ok? {
        ListOneLine(lines, item.value.next, indent, result + [item.value.value]);
      }
    }
  }

  /** Whatever is loaded from a file, no key and no text in it holds a line break. */
  lemma LoadedIsOneLine(text: string)
    ensures Load(text).Ok? ==> OneLineValue(Load(text).value)
  {
    hide OneLineValue, OneLineContents, BlockAt;
    var tokens := TokenizeFrom(SplitLines(text), 0);
    TokensOneLine(SplitLines(text), 0);
    if tokens.Ok? && tokens.value != [] {
      BlockOneLine(tokens.value, 0, tokens.value[0].indent);
    }
    EmptyIsOneLine();
  }

  lemma EmptyIsOneLine()
    ensures OneLineValue(Dict([]))
  {
  }

  // ---------- which settings survive ----------

  // What loading a single line as one setting says about that line.
  lemma OneLineLoads(raw: string, key: string, value: Value)
    requires LoadLines([raw]) == Ok(Dict([Entry(key, value)]))
    ensures Indent(raw) % 2 == 0 && !IsSkipped(raw)
    ensures var content := raw[Indent(raw)..];
            var colon := IndexOf(content, ':');
            !IsItem(content) && colon < |content| && key == Strip(content[..colon]) && key != ""
  {
    hide Strip, ParseScalar;
    var content := raw[Indent(raw)..];
    assert TokenizeFrom([raw], 1) == Ok([]);
    OneToken(raw);
    if !IsSkipped(raw) && Indent(raw) % 2 == 0 {
      var lines := [CutLine(raw, 1)];
      assert TokenizeFrom([raw], 0) == Ok(lines);
      OneLineBlock(lines);
    }
  }

  lemma OneToken(raw: string)
    ensures TokenizeFrom([raw], 0) ==
            if IsSkipped(raw) then Ok([])
            else if Indent(raw) % 2 != 0 then Err(OddIndentation(1))
            else Ok([CutLine(raw, 1)])
  {
    hide IsSkipped, CutLine;
    assert TokenizeFrom([raw], 1) == Ok([]);
    assert [CutLine(raw, 1)] + [] == [CutLine(raw, 1)];
  }

  lemma OneLineBlock(lines: seq<Line>)
    requires |lines| == 1
    ensures var r := BlockAt(lines, 0, lines[0].indent);
            var content := lines[0].content;
            var colon := IndexOf(content, ':');
            r.Ok? && r.value.value.Dict? && r.value.value.entries != [] ==>
              && !IsItem(content) && colon < |content| && Strip(content[..colon]) != ""
              && |r.value.value.entries| == 1 && r.value.value.entries[0].key == Strip(content[..colon])
  {
    hide Strip, ParseScalar;
    EmptyFlow();
    var indent := lines[0].indent;
    if !IsItem(lines[0].content) {
      MappingStep(lines, 0, indent, []);
      var entry := EntryAt(lines, 0);
      if entry.Ok? {
        assert entry.value.next == 1;
        assert Put([], entry.value.value.key, entry.value.value.value) == [entry.value.value];
      }
    }
  }

  // One setting whose key and text lie on one line is printed as one line.
  lemma PrintedSetting(show: Show, key: string, text: string)
    ensures RenderMapping(show, [Entry(key, Str(text))], 0) == [key + ":" + (" " + Quoted(text))]
    ensures OneLine(key) && OneLine(text) ==> OneLine(key + ":" + (" " + Quoted(text)))
  {
    hide Quoted, OneLine;
    var e := Entry(key, Str(text));
    FlowLine(show, e, 0);
    assert Spaces(0) + key + ":" == key + ":";
    assert RenderEntry(show, e, 0) + [] == [key + ":" + (" " + Quoted(text))];
    assert [e][1..] == [];
    if OneLine(key) && OneLine(text) {
      QuotedOnOneLine(key, text);
    }
  }

  lemma QuotedOnOneLine(key: string, text: string)
    requires OneLine(key) && OneLine(text)
    ensures OneLine(key + ":" + (" " + Quoted(text)))
  {
    hide NeedsQuotes;
    assert OneLine("\"" + text + "\"");
    assert OneLine(" " + Quoted(text));
  }

  // A setting on one line comes back exactly when its key is plain and its text safe.
  lemma LineSurvivesExactly(key: string, text: string)
    requires OneLine(key) && OneLine(text)
    ensures LoadLines([key + ":" + (" " + Quoted(text))]) == Ok(Dict([Entry(key, Str(text))]))
            <==> PlainKey(key) && SafeText(text)
  {
    hide Strip, ParseScalar, Quoted, LoadLines, Trimmed, IsSkipped, OneLine, SafeText, NeedsQuotes;
    var raw := key + ":" + (" " + Quoted(text));
    if LoadLines([raw]) == Ok(Dict([Entry(key, Str(text))])) {
      OneLineLoads(raw, key, Str(text));
      LoadedKeyIsPlain(raw, key, " " + Quoted(text));
    }
    if PlainKey(key) {
      PlainSettingLoads(key, text, raw);
    }
  }

  /** For every key and every text: one text setting, written to a file and loaded
      again, comes back if and only if its key is plain and its text lies on one line
      and is safe. */
  lemma SettingSurvivesExactly(show: Show, key: string, text: string)
    ensures Load(Document(RenderMapping(show, [Entry(key, Str(text))], 0))) == Ok(Dict([Entry(key, Str(text))]))
            <==> PlainKey(key) && OneLine(text) && SafeText(text)
  {
    hide RenderMapping, Quoted, Document, LoadLines, OneLine, SafeText;
    var raw := key + ":" + (" " + Quoted(text));
    var file := Document(RenderMapping(show, [Entry(key, Str(text))], 0));
    PrintedSetting(show, key, text);
    if OneLine(key) && OneLine(text) {
      SplitDocument([raw]);
      LineSurvivesExactly(key, text);
    } else if Load(file) == Ok(Dict([Entry(key, Str(text))])) {
      LoadedIsOneLine(file);
      OneSetting(key, text);
      assert false;
    }
  }

  lemma OneSetting(key: string, text: string)
    requires OneLineValue(Dict([Entry(key, Str(text))]))
    ensures OneLine(key) && OneLine(text)
  {
    var entries := [Entry(key, Str(text))];
    assert OneLine(entries[0].key) && OneLineValue(entries[0].value);
  }

  /** A text with a newline is printed in quotes over two lines; the second of them is
      no entry, so the written file cannot be loaded at all. */
  lemma NewlineBreaksTheFile(show: Show)
    ensures SafeText("a\nb") && !OneLine("a\nb")
    ensures Load(Document(RenderMapping(show, [Entry("key", Str("a\nb"))], 0))) == Err(ExpectedEntry(2))
  {
    hide RenderMapping, Document, LoadLines, SplitLines, Quoted;
    QuotedNewline();
    PrintedSetting(show, "key", "a\nb");
    TwoLines();
    BrokenLines();
  }

  lemma QuotedNewline()
    ensures Quoted("a\nb") == "\"a\nb\"" && SafeText("a\nb") && !OneLine("a\nb")
  {
    assert "a\nb"[1] == '\n';
    assert "\"" + "a\nb" + "\"" == "\"a\nb\"";
  }

  lemma TwoLines()
    ensures SplitLines(Document(["key" + ":" + (" " + "\"a\nb\"")])) == ["key: \"a", "b\""]
  {
    hide SplitLines, IsBreak;
    var first, second := "key: \"a", "b\"";
    assert "key" + ":" + (" " + "\"a\nb\"") + "\n" == first + "\n" + (second + "\n" + "");
    assert OneLine(first) && OneLine(second) by { OnOneLine(); }
    LineEndAt(first, second + "\n" + "");
    LineEndAt(second, "");
    assert SplitLines("") == [] by { NoLines(); }
  }

  lemma OnOneLine()
    ensures OneLine("key: \"a") && OneLine("b\"")
  {
  }

  lemma NoLines()
    ensures SplitLines("") == []
  {
  }

  lemma BrokenLines()
    ensures LoadLines(["key: \"a", "b\""]) == Err(ExpectedEntry(2))
  {
    hide TokenizeFrom, BlockAt;
    var lines := [Line(0, "key: \"a", 1), Line(0, "b\"", 2)];
    TwoTokens("key: \"a", "b\"");
    EntryThenNone(lines);
  }

  lemma TwoTokens(first: string, second: string)
    requires first != "" && !IsSpace(first[0]) && first[0] != '#'
    requires second != "" && !IsSpace(second[0]) && second[0] != '#'
    ensures TokenizeFrom([first, second], 0) == Ok([Line(0, first, 1), Line(0, second, 2)])
  {
    hide IsSpace, IsSkipped, CutLine, Indent;
    var raw := [first, second];
    var empty: seq<Line> := [];
    assert [CutLine(second, 2)] + empty == [CutLine(second, 2)];
    assert [CutLine(first, 1)] + [CutLine(second, 2)] == [CutLine(first, 1), CutLine(second, 2)];
    KeptWhole(first, 1);
    KeptWhole(second, 2);
    assert TokenizeFrom(raw, 2) == Ok([]);
    assert TokenizeFrom(raw, 1) == Ok([Line(0, second, 2)]);
  }

  lemma KeptWhole(line: string, lineno: nat)
    requires line != "" && !IsSpace(line[0]) && line[0] != '#'
    ensures !IsSkipped(line) && Indent(line) == 0 && CutLine(line, lineno) == Line(0, line, lineno)
  {
    hide Strip;
    StripKeepsStart(line);
    assert line[0..] == line;
  }

  // An entry with its value on its line, and then a line without a colon.
  lemma EntryThenNone(lines: seq<Line>)
    requires |lines| == 2 && lines[0] == Line(0, "key: \"a", 1) && lines[1] == Line(0, "b\"", 2)
    ensures BlockAt(lines, 0, 0) == Err(ExpectedEntry(2))
  {
    hide ParseScalar, Strip, Put, EntryAt;
    var content := lines[0].content;
    assert content[0] == 'k' && !IsItem(content);
    MappingStep(lines, 0, 0, []);
    FirstEntry(lines);
    var entry := EntryAt(lines, 0).value;
    MappingStep(lines, 1, 0, Put([], entry.value.key, entry.value.value));
    NoEntry(lines);
  }

  lemma FirstEntry(lines: seq<Line>)
    requires |lines| == 2 && lines[0] == Line(0, "key: \"a", 1)
    ensures EntryAt(lines, 0).Ok? && EntryAt(lines, 0).value.next == 1
  {
    hide ParseScalar, Strip, EntryAt, PlainKey, CutLine, IsSpace;
    KeyIsPlain();
    var raw := "key: \"a";
    assert Spaces(0) + "key" + ":" + " \"a" == raw;
    KeptWhole(raw, 1) by { NoSpaces(); }
    EntryOnLine(lines, 0, "key", " \"a", 0);
    TextFollows();
  }

  lemma NoSpaces()
    ensures !IsSpace('k') && !IsSpace('\"')
  {
  }

  lemma KeyIsPlain()
    ensures PlainKey("key")
  {
  }

  lemma TextFollows()
    ensures Strip(" \"a") != ""
  {
    hide Strip, IsSpace;
    NoSpaces();
    assert AllSpace(" ") by { assert IsSpace(' ') by { BlankIsSpace(); } }
    assert " " + "\"a" == " \"a";
    StripIgnoresPrefix(" ", "\"a");
    StripKeepsStart("\"a");
  }

  lemma BlankIsSpace()
    ensures IsSpace(' ')
  {
  }

  lemma NoEntry(lines: seq<Line>)
    requires |lines| == 2 && lines[1] == Line(0, "b\"", 2)
    ensures EntryAt(lines, 1) == Err(ExpectedEntry(2)) && !IsItem(lines[1].content)
  {
    assert IndexOf(lines[1].content, ':') == |lines[1].content|;
  }

  lemma LoadedKeyIsPlain(raw: string, key: string, rest: string)
    requires raw == key + ":" + rest && OneLine(key) && !IsSkipped(raw)
    requires var content := raw[Indent(raw)..];
             !IsItem(content) && key == Strip(content[..IndexOf(content, ':')]) && key != ""
    ensures PlainKey(key)
  {
    hide Strip, OneLine, IsSpace;
    assert Trimmed(key);
    assert raw[0] == key[0];
    StartIsNoSpace(key);
    assert Indent(raw) == 0 && raw[0..] == raw;
    StripKeepsStart(raw);
    var colon := IndexOf(raw, ':');
    assert raw[|key|] == ':';
    assert |Strip(raw[..colon])| <= colon;
    assert forall i :: 0 <= i < |key| ==> raw[i] == key[i];
    assert colon == |key|;
    assert IsItem(key) ==> IsItem(raw);
  }

  lemma StartIsNoSpace(key: string)
    requires key != "" && Trimmed(key)
    ensures !IsSpace(key[0]) && key[0] != ' '
  {
  }

  lemma PlainSettingLoads(key: string, text: string, raw: string)
    requires PlainKey(key) && OneLine(text) && raw == key + ":" + (" " + Quoted(text))
    ensures LoadLines([raw]) == Ok(Dict([Entry(key, Str(text))])) <==> SafeText(text)
  {
    hide Strip, ParseScalar, Quoted, Trimmed, OneLine, SafeText, EntryAt, IsSkipped, IsItem;
    var printed := Quoted(text);
    SolidKeyStart(key, raw);
    OneToken(raw);
    var lines := [CutLine(raw, 1)];
    assert Spaces(0) + key + ":" + (" " + printed) == raw;
    EntryOnLine(lines, 0, key, " " + printed, 0);
    StripIgnoresPrefix(" ", printed);
    TextSurvivesExactly(text);
    MappingStep(lines, 0, 0, []);
    var entry := EntryAt(lines, 0);
    assert Put([], entry.value.value.key, entry.value.value.value) == [entry.value.value];
  }

  lemma SolidKeyStart(key: string, raw: string)
    requires PlainKey(key) && key + ":" <= raw
    ensures !IsSkipped(raw) && Indent(raw) == 0
  {
    hide Strip, IsSpace;
    assert raw[0] == key[0];
    StartIsNoSpace(key);
    StripKeepsStart(raw);
  }
}
