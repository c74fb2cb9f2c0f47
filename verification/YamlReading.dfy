/** Config text that no printer of the program writes: spaces around keys and values,
    scalars of every form, repeated keys. What each is read as. */
module YamlReading {
  import opened Wrappers
  import opened Text
  import opened Scalars
  import opened ScalarSyntax
  import opened YamlParser
  import opened YamlPrinter
  import opened YamlRoundTrip

  // ---------- one entry ----------

  // The colon of such a line, and what stands on its two sides.
  lemma SpacedColon(key: string, gap: string, text: string)
    requires PlainKey(key) && AllSpace(gap) && !IsItem(key + gap)
    ensures var content := key + gap + ":" + text;
            && IndexOf(content, ':') == |key| + |gap| && Strip(content[..|key| + |gap|]) == key && content[|key| + |gap| + 1..] == text
            && !IsItem(content) && content != "{}" && content != "[]" && content != "" && !IsSpace(content[0]) && content[0] != '#'
  {
    hide Strip, IsSpace, OneLine, PlainKey, AllSpace;
    var head := key + gap;
    var content := key + gap + ":" + text;
    assert content == head + [':'] + text;
    KeyIsText(key);
    GapHasNoColon(key, gap);
    IndexOfFirst(head, ':', text);
    assert content[..|head|] == head && content[|head| + 1..] == text;
    EmptyIsSpace();
    StripCore("", key, gap);
    assert "" + key + gap == head;
    assert content[0] == key[0] && content[|head|] == ':';
    FlowHasNoColon();
  }

  lemma KeyIsText(key: string)
    requires PlainKey(key)
    ensures key != "" && Trimmed(key) && !IsSpace(key[0]) && key[0] != '#' && key[0] != ':'
  {
  }

  lemma GapHasNoColon(key: string, gap: string)
    requires PlainKey(key) && AllSpace(gap)
    ensures !Contains(key + gap, ':')
  {
    var head := key + gap;
    assert !IsSpace(':');
    assert forall i :: 0 <= i < |head| ==> head[i] == if i < |key| then key[i] else gap[i - |key|];
  }

  lemma EmptyIsSpace()
    ensures AllSpace("")
  {
  }

  lemma FlowHasNoColon()
    ensures IndexOf("{}", ':') == 2 && IndexOf("[]", ':') == 2
  {
  }

  // A text on one line that a line of a file may end in.
  predicate ScalarText(s: string) {
    s != "" && Trimmed(s) && OneLine(s)
  }

  lemma OneLineParts(a: string, b: string)
    requires OneLine(a) && OneLine(b)
    ensures OneLine(a + b)
  {
  }

  lemma KeyStartsLine(content: string)
    requires content != "" && !IsSpace(content[0]) && content[0] != '#'
    ensures !IsSkipped(content) && Indent(content) == 0 && CutLine(content, 1) == Line(0, content, 1)
  {
    hide Strip;
    StripKeepsStart(content);
    assert content[0..] == content;
  }

  /** One entry in a file, with any white space around its key and its text, is read as
      exactly the value that the text denotes: words in any case, numbers with signs,
      zeros, underscores, points and exponents, texts in either quotes with escaped
      quotes in them, empty braces and brackets, and else the text itself. */
  lemma EntryIsReadExactly(key: string, gap: string, space: string, s: string, after: string, v: Value)
    requires PlainKey(key) && ScalarText(s) && !IsItem(key + gap)
    requires AllSpace(gap) && AllSpace(space) && AllSpace(after) && OneLine(gap) && OneLine(space) && OneLine(after)
    ensures Load(key + gap + ":" + (space + s + after) + "\n") == Ok(Dict([Entry(key, v)])) <==> Denotes(s, v)
  {
    hide Strip, AllSpace, OneLine, PlainKey, Trimmed, ParseScalar, Denotes, LoadLines, SplitLines;
    var text := space + s + after;
    var line := key + gap + ":" + text;
    EntryOnOneLine(key, gap, space, s, after);
    LineEndAt(line, "");
    assert line + "\n" + "" == line + "\n";
    assert SplitLines("") == [] by { NoLines(); }
    assert [line] + [] == [line];
    StripCore(space, s, after);
    EntryLineLoads(key, gap, text, s);
    ScalarIsReadExactly(s, v);
    ScalarIsReadExactly(s, ParseScalar(s));
  }

  lemma EntryOnOneLine(key: string, gap: string, space: string, s: string, after: string)
    requires PlainKey(key) && OneLine(s) && OneLine(gap) && OneLine(space) && OneLine(after)
    ensures OneLine(key + gap + ":" + (space + s + after))
  {
    hide OneLine, IsItem, Trimmed, Contains;
    OneLineParts(key, gap);
    assert OneLine(":") by { ColonOnLine(); }
    OneLineParts(key + gap, ":");
    OneLineParts(space, s);
    OneLineParts(space + s, after);
    OneLineParts(key + gap + ":", space + s + after);
  }

  lemma ColonOnLine()
    ensures OneLine(":")
  {
  }

  lemma NoLines()
    ensures SplitLines("") == []
  {
  }

  lemma EntryLineLoads(key: string, gap: string, text: string, s: string)
    requires PlainKey(key) && AllSpace(gap) && !IsItem(key + gap) && s != "" && Strip(text) == s
    ensures LoadLines([key + gap + ":" + text]) == Ok(Dict([Entry(key, ParseScalar(s))]))
  {
    hide Strip, AllSpace, PlainKey, ParseScalar, IsSpace, Put, EntryAt, MappingAt;
    var content := key + gap + ":" + text;
    SpacedColon(key, gap, text);
    KeyStartsLine(content);
    OneTokenLine(content);
    var lines := [Line(0, content, 1)];
    assert EntryAt(lines, 0) == Ok(Parsed(Entry(key, ParseScalar(s)), 1)) by { SpacedEntry(lines, 0, key, gap, text, s); }
    MappingStep(lines, 0, 0, []);
    OnePut(key, ParseScalar(s));
    AtEnd(lines, [Entry(key, ParseScalar(s))]);
  }

  lemma OneTokenLine(content: string)
    requires !IsSkipped(content) && Indent(content) == 0
    ensures TokenizeFrom([content], 0) == Ok([CutLine(content, 1)])
  {
    hide IsSkipped, CutLine;
    assert TokenizeFrom([content], 1) == Ok([]);
    assert [CutLine(content, 1)] + [] == [CutLine(content, 1)];
  }

  lemma OnePut(key: string, value: Value)
    ensures Put([], key, value) == [Entry(key, value)]
  {
  }

  lemma AtEnd(lines: seq<Line>, result: seq<Entry>)
    ensures MappingAt(lines, |lines|, 0, result) == Ok(Parsed(result, |lines|))
  {
  }

  lemma SpacedEntry(lines: seq<Line>, i: nat, key: string, gap: string, text: string, s: string)
    requires i < |lines| && lines[i].content == key + gap + ":" + text
    requires PlainKey(key) && AllSpace(gap) && !IsItem(key + gap) && s != "" && Strip(text) == s
    ensures EntryAt(lines, i) == Ok(Parsed(Entry(key, ParseScalar(s)), i + 1))
  {
    hide Strip, AllSpace, ParseScalar, PlainKey, IsItem, IsSpace, EntryAt, IndexOf;
    SpacedColon(key, gap, text);
    KeyIsText(key);
    EntryByParts(lines, i, |key| + |gap|, key, s);
  }

  lemma EntryByParts(lines: seq<Line>, i: nat, colon: nat, key: string, s: string)
    requires i < |lines| && colon < |lines[i].content| && IndexOf(lines[i].content, ':') == colon
    requires Strip(lines[i].content[..colon]) == key && key != "" && Strip(lines[i].content[colon + 1..]) == s && s != ""
    ensures EntryAt(lines, i) == Ok(Parsed(Entry(key, ParseScalar(s)), i + 1))
  {
    hide Strip, ParseScalar, IndexOf;
  }

  // ---------- repeated keys ----------

  function FlatLine(key: string, s: string): string {
    key + ":" + (" " + s)
  }

  /** What a file of entries at the margin gathers from its first `n` lines: every key
      once, at the place of its first line and with the value of its last. */
  predicate Gathered(m: seq<Entry>, keys: seq<string>, values: seq<Value>, n: nat)
    requires n <= |keys| == |values|
  {
    && DistinctKeys(m)
    && (forall i :: 0 <= i < n ==> exists a :: 0 <= a < |m| && m[a].key == keys[i])
    && (forall a :: 0 <= a < |m| ==> LastSays(m[a], keys, values, n))
    && (forall a, b :: 0 <= a < b < |m| ==> ComesFirst(m[a].key, m[b].key, keys, n))
  }

  // The last line with this key has this value.
  predicate LastSays(e: Entry, keys: seq<string>, values: seq<Value>, n: nat)
    requires n <= |keys| == |values|
  {
    exists i :: 0 <= i < n && keys[i] == e.key && values[i] == e.value && forall j :: i < j < n ==> keys[j] != e.key
  }

  // The first key has a line before every line of the second.
  predicate ComesFirst(first: string, second: string, keys: seq<string>, n: nat)
    requires n <= |keys|
  {
    exists i :: 0 <= i < n && keys[i] == first && forall j :: 0 <= j <= i ==> keys[j] != second
  }

  lemma GatherOneMore(m: seq<Entry>, keys: seq<string>, values: seq<Value>, n: nat)
    requires n < |keys| == |values| && Gathered(m, keys, values, n)
    ensures Gathered(Put(m, keys[n], values[n]), keys, values, n + 1)
  {
    hide LastSays, ComesFirst;
    var key, value := keys[n], values[n];
    var k := KeyIndex(m, key);
    var m' := Put(m, key, value);
    forall i | 0 <= i < n + 1 ensures exists a :: 0 <= a < |m'| && m'[a].key == keys[i] {
      if i == n {
        assert m'[k].key == keys[i];
      } else {
        var a :| 0 <= a < |m| && m[a].key == keys[i];
        assert m'[a].key == keys[i];
      }
    }
    forall a | 0 <= a < |m'| ensures LastSays(m'[a], keys, values, n + 1) {
      if a == k {
        SaysNow(keys, values, n);
      } else {
        assert m'[a] == m[a];
        StillSays(m[a], keys, values, n);
      }
    }
    forall a, b | 0 <= a < b < |m'| ensures ComesFirst(m'[a].key, m'[b].key, keys, n + 1) {
      assert m'[a].key == m[a].key;
      if b < |m| {
        assert m'[b].key == m[b].key;
        StillFirst(m[a].key, m[b].key, keys, n);
      } else {
        NewComesLast(m, keys, values, n, a);
      }
    }
  }

  lemma SaysNow(keys: seq<string>, values: seq<Value>, n: nat)
    requires n < |keys| == |values|
    ensures LastSays(Entry(keys[n], values[n]), keys, values, n + 1)
  {
  }

  lemma StillSays(e: Entry, keys: seq<string>, values: seq<Value>, n: nat)
    requires n < |keys| == |values| && LastSays(e, keys, values, n) && e.key != keys[n]
    ensures LastSays(e, keys, values, n + 1)
  {
  }

  lemma StillFirst(first: string, second: string, keys: seq<string>, n: nat)
    requires n < |keys| && ComesFirst(first, second, keys, n)
    ensures ComesFirst(first, second, keys, n + 1)
  {
  }

  // A key that is not among those gathered has no line so far.
  lemma NewComesLast(m: seq<Entry>, keys: seq<string>, values: seq<Value>, n: nat, a: nat)
    requires n < |keys| == |values| && a < |m| && LastSays(m[a], keys, values, n)
    requires forall i :: 0 <= i < n ==> exists b :: 0 <= b < |m| && m[b].key == keys[i]
    requires KeyIndex(m, keys[n]) == |m|
    ensures ComesFirst(m[a].key, keys[n], keys, n + 1)
  {
    hide ComesFirst, KeyIndex;
    var i :| 0 <= i < n && keys[i] == m[a].key;
    assert forall b :: 0 <= b < |m| ==> m[b].key != keys[n];
    forall j | 0 <= j <= i ensures keys[j] != keys[n] {
      var b :| 0 <= b < |m| && m[b].key == keys[j];
    }
    FirstAt(m[a].key, keys[n], keys, n + 1, i);
  }

  lemma FirstAt(first: string, second: string, keys: seq<string>, n: nat, i: nat)
    requires n <= |keys| && i < n && keys[i] == first && forall j :: 0 <= j <= i ==> keys[j] != second
    ensures ComesFirst(first, second, keys, n)
  {
  }

  predicate FlatFile(keys: seq<string>, texts: seq<string>) {
    |keys| == |texts| && keys != [] && forall i :: 0 <= i < |keys| ==> PlainKey(keys[i]) && ScalarText(texts[i])
  }

  function FlatLines(keys: seq<string>, texts: seq<string>): (lines: seq<string>)
    requires |keys| == |texts|
    ensures |lines| == |keys|
    ensures forall i :: 0 <= i < |keys| ==> lines[i] == FlatLine(keys[i], texts[i])
  {
    seq(|keys|, i requires 0 <= i < |keys| => FlatLine(keys[i], texts[i]))
  }

  function ValuesOf(texts: seq<string>): (values: seq<Value>)
    ensures |values| == |texts|
    ensures forall i :: 0 <= i < |texts| ==> values[i] == ParseScalar(texts[i])
  {
    seq(|texts|, i requires 0 <= i < |texts| => ParseScalar(texts[i]))
  }

  // The line of an entry at the margin.
  lemma FlatEntry(lines: seq<Line>, i: nat, key: string, s: string)
    requires i < |lines| && PlainKey(key) && ScalarText(s) && lines[i] == CutLine(FlatLine(key, s), lines[i].lineno)
    ensures lines[i].indent == 0 && !IsItem(lines[i].content) && lines[i].content != "{}" && lines[i].content != "[]"
    ensures EntryAt(lines, i) == Ok(Parsed(Entry(key, ParseScalar(s)), i + 1))
  {
    hide Strip, ParseScalar, CutLine, PlainKey, OneLine;
    assert Spaces(0) + key + ":" + (" " + s) == FlatLine(key, s);
    EntryOnLine(lines, i, key, " " + s, 0);
    BodyText(s);
  }

  lemma {:induction false} FlatMapping(lines: seq<Line>, keys: seq<string>, texts: seq<string>, i: nat, result: seq<Entry>)
    returns (m: seq<Entry>)
    requires FlatFile(keys, texts) && i <= |keys| && Reads(lines, 0, FlatLines(keys, texts)) && |lines| == |keys|
    requires Gathered(result, keys, ValuesOf(texts), i)
    ensures MappingAt(lines, i, 0, result) == Ok(Parsed(m, |lines|)) && Gathered(m, keys, ValuesOf(texts), |keys|)
    decreases |keys| - i
  {
    hide Gathered, Put, EntryAt, CutLine, PlainKey, ScalarText, ParseScalar, IsItem, FlatLine;
    if i == |keys| {
      m := result;
    } else {
      assert lines[0 + i] == CutLine(FlatLines(keys, texts)[i], lines[0 + i].lineno);
      FlatEntry(lines, i, keys[i], texts[i]);
      MappingStep(lines, i, 0, result);
      GatherOneMore(result, keys, ValuesOf(texts), i);
      m := FlatMapping(lines, keys, texts, i + 1, Put(result, keys[i], ParseScalar(texts[i])));
    }
  }

  lemma FlatIsSolid(keys: seq<string>, texts: seq<string>)
    requires FlatFile(keys, texts)
    ensures AllSolid(FlatLines(keys, texts))
  {
    hide Solid, PlainKey, OneLine, Trimmed;
    forall i | 0 <= i < |keys| ensures Solid(FlatLines(keys, texts)[i]) {
      assert OneLine(" ") by { BlankOnLine(); }
      OneLineParts(" ", texts[i]);
      SolidKeyLine(0, keys[i], " " + texts[i]);
      assert Spaces(0) + keys[i] + ":" + (" " + texts[i]) == FlatLine(keys[i], texts[i]);
    }
  }

  lemma BlankOnLine()
    ensures OneLine(" ")
  {
  }

  /** A file of entries in which keys may repeat: every key is read once, at the place of
      its first line and with the value of its last. */
  lemma LastEntryWins(keys: seq<string>, texts: seq<string>) returns (m: seq<Entry>, values: seq<Value>)
    requires FlatFile(keys, texts)
    ensures Load(Document(FlatLines(keys, texts))) == Ok(Dict(m))
    ensures |values| == |keys| && (forall i :: 0 <= i < |keys| ==> Denotes(texts[i], values[i]))
    ensures Gathered(m, keys, values, |keys|)
  {
    hide Gathered, Put, EntryAt, CutLine, PlainKey, ScalarText, ParseScalar, IsItem, FlatLine, Solid, MappingAt, Denotes, Document;
    var raw := FlatLines(keys, texts);
    values := ValuesOf(texts);
    forall i | 0 <= i < |keys| ensures Denotes(texts[i], values[i]) {
      ScalarIsReadExactly(texts[i], values[i]);
    }
    FlatIsSolid(keys, texts);
    KeptSolid(raw);
    TokensRead(raw, 0);
    assert raw[0..] == raw;
    SolidOneLines(raw);
    SplitDocument(raw);
    var lines := TokenizeFrom(raw, 0).value;
    assert lines[0 + 0] == CutLine(raw[0], lines[0 + 0].lineno);
    FlatEntry(lines, 0, keys[0], texts[0]);
    assert Gathered([], keys, values, 0) by { NothingGathered(keys, values); }
    m := FlatMapping(lines, keys, texts, 0, []);
  }

  lemma NothingGathered(keys: seq<string>, values: seq<Value>)
    requires |keys| == |values|
    ensures Gathered([], keys, values, 0)
  {
  }
}
