/** Running setup again: the config text is a fixpoint of load, extract and render
    exactly under three conditions on the first config, and always after one run. */
module SetupRewrite {
  import opened Wrappers
  import opened Text
  import opened Scalars
  import opened YamlParser
  import opened YamlPrinter
  import opened ConnectorConfig

  predicate HoldsNone(entries: seq<Entry>, removed: set<string>) {
    forall i :: 0 <= i < |entries| ==> entries[i].key !in removed
  }

  predicate TrimmedTexts(items: seq<Value>) {
    forall i :: 0 <= i < |items| ==> items[i].Str? && items[i].text != "" && Trimmed(items[i].text)
  }

  // An executor node that holds the list of enabled executors and nothing else.
  predicate OnlyEnabledExecutors(node: seq<Entry>) {
    && |node| == 1 && node[0].key == "enabled_executors"
    && node[0].value.List? && TrimmedTexts(node[0].value.items)
  }

  // ---------- the filters ----------

  lemma {:induction false} WithoutKeysExact(entries: seq<Entry>, removed: set<string>)
    ensures WithoutKeys(entries, removed) == entries <==> HoldsNone(entries, removed)
    ensures |WithoutKeys(entries, removed)| <= |entries|
    ensures HoldsNone(WithoutKeys(entries, removed), removed)
    ensures forall e :: e in WithoutKeys(entries, removed) ==> e in entries
    ensures DistinctKeys(entries) ==> DistinctKeys(WithoutKeys(entries, removed))
  {
    if entries != [] {
      WithoutKeysExact(entries[1..], removed);
      var rest := WithoutKeys(entries[1..], removed);
      assert entries == [entries[0]] + entries[1..];
      if DistinctKeys(entries) {
        forall e | e in rest ensures e.key != entries[0].key {
          assert e in entries[1..];
        }
        assert forall i :: 0 <= i < |rest| ==> rest[i] in rest;
      }
    }
  }

  lemma WithoutKeysWellFormed(entries: seq<Entry>, removed: set<string>)
    requires WellFormedEntries(entries)
    ensures WellFormedEntries(WithoutKeys(entries, removed))
  {
    hide PlainKey, WellFormed, WithoutKeys;
    WithoutKeysExact(entries, removed);
    var kept := WithoutKeys(entries, removed);
    forall i | 0 <= i < |kept| ensures PlainKey(kept[i].key) && WellFormed(kept[i].value) {
      assert kept[i] in kept && kept[i] in entries;
    }
  }

  lemma {:induction false} OnlyDictsKeepsAll(entries: seq<Entry>)
    requires AllDicts(entries)
    ensures OnlyDicts(entries) == entries
  {
    if entries != [] {
      OnlyDictsKeepsAll(entries[1..]);
    }
  }

  lemma {:induction false} NonBlankTextsExact(items: seq<Value>)
    ensures NonBlankTexts(items) == items <==> TrimmedTexts(items)
    ensures |NonBlankTexts(items)| <= |items|
    ensures TrimmedTexts(NonBlankTexts(items))
  {
    hide Strip, Trimmed;
    if items != [] {
      NonBlankTextsExact(items[1..]);
      assert items == [items[0]] + items[1..];
      if items[0].Str? {
        StripIsExact(items[0].text);
      }
    }
  }

  lemma StripIsExact(s: string)
    ensures Strip(s) == s <==> Trimmed(s)
    ensures Trimmed(Strip(s))
  {
  }

  lemma StripKeepsSafe(s: string)
    requires OneLine(s) && SafeText(s) && Strip(s) != ""
    ensures OneLine(Strip(s)) && SafeText(Strip(s))
  {
    hide Strip, ReadsAsText, IsSpace;
    if NeedsQuotes(s) {
      var before, after := StripDecomposes(s);
      var t := Strip(s);
      var k :| 0 <= k < |s| && (s[k] == ':' || s[k] == '#' || s[k] == '\n');
      ColonAndHashStay(s, before, t, after, k);
      if HasEscapedQuote(t, '\"') {
        EscapedQuoteStays(before, t, after);
      }
    }
  }

  lemma EscapedQuoteStays(before: string, t: string, after: string)
    requires HasEscapedQuote(t, '\"')
    ensures HasEscapedQuote(before + t + after, '\"')
  {
    var s := before + t + after;
    var i :| 0 <= i < |t| - 1 && t[i] == '\\' && t[i + 1] == '\"';
    assert s[|before| + i] == t[i] && s[|before| + i + 1] == t[i + 1];
  }

  // Trimming removes no colon, no hash and, within a line, no newline.
  lemma ColonAndHashStay(s: string, before: string, t: string, after: string, k: nat)
    requires s == before + t + after && AllSpace(before) && AllSpace(after) && OneLine(s)
    requires k < |s| && (s[k] == ':' || s[k] == '#' || s[k] == '\n')
    ensures NeedsQuotes(t)
  {
    assert !IsBreak(s[k]) && !IsSpace(s[k]);
    assert forall i :: 0 <= i < |before| ==> s[i] == before[i];
    assert forall i :: |before| + |t| <= i < |s| ==> s[i] == after[i - |before| - |t|];
    assert t[k - |before|] == s[k];
  }

  lemma {:induction false} NonBlankTextsWellFormed(items: seq<Value>)
    requires WellFormed(List(items))
    ensures WellFormed(List(NonBlankTexts(items)))
  {
    hide Strip, SafeText;
    if items != [] {
      NonBlankTextsWellFormed(items[1..]);
      if items[0].Str? && Strip(items[0].text) != "" {
        StripKeepsSafe(items[0].text);
      }
    }
  }

  // ---------- one rewrite ----------

  lemma GetAt(raw: seq<Entry>, k: nat)
    requires DistinctKeys(raw) && k < |raw|
    ensures Get(raw, raw[k].key) == Some(raw[k].value)
  {
  }

  /** What setup extracts from its own output. */
  lemma ExtractedConfig(show: Show, c: Config, removed: set<string>)
    requires WellFormedConfig(c)
    ensures Rewrite(show, c, removed) ==
            Config(WithoutKeys(c.runtime, removed),
                   if c.connectorHost == [] then DEFAULT_HOST else c.connectorHost,
                   c.connectors,
                   [Entry("enabled_executors", List(EnabledTypes(EffectiveNode(c.executorNode))))],
                   c.executors)
  {
    hide WellFormedEntries, EffectiveNode, WithoutKeys, OnlyDicts, EnabledTypes, Get, ConfigText, Load;
    ConfigLoads(show, c);
    MeaningKeys(c);
    var raw := Meaning(c);
    GetAt(raw, 1);
    GetAt(raw, 2);
    GetAt(raw, 3);
    GetAt(raw, 4);
    GetAt(raw, 5);
    OnlyDictsKeepsAll(c.connectors);
    OnlyDictsKeepsAll(c.executors);
  }

  lemma DefaultHostIsWellFormed()
    ensures WellFormedEntries(DEFAULT_HOST)
  {
    hide PlainKey, Letters, SafeText, OneLine;
    HostKeys();
    LettersArePlain("enabled");
    LettersArePlain("host");
    LettersArePlain("port");
    LettersArePlain("public_base_url");
    LettersArePlain("synapse_base_url");
    LettersArePlain("enabled_connectors");
    UrlIsSafe();
    HostIsSafe();
  }

  lemma HostKeys()
    ensures Letters("enabled") && Letters("host") && Letters("port")
    ensures Letters("public_base_url") && Letters("synapse_base_url") && Letters("enabled_connectors")
  {
  }

  lemma UrlIsSafe()
    ensures OneLine("http://127.0.0.1:8000") && SafeText("http://127.0.0.1:8000")
  {
    hide ReadsAsText, Trimmed;
    var url := "http://127.0.0.1:8000";
    assert url[4] == ':';
    assert forall i :: 0 <= i < |url| ==> url[i] != '\\' && !IsBreak(url[i]);
  }

  lemma HostIsSafe()
    ensures OneLine("0.0.0.0") && SafeText("0.0.0.0")
  {
    hide IsFloatLiteral, IsNullWord, Lower;
    var host := "0.0.0.0";
    NotAWord(host);
    DottedQuad();
    assert forall i :: 0 <= i < |host| ==> host[i] == '0' || host[i] == '.';
    assert host[1] == '.' && !IsDigit(host[1]);
    assert !IsIntLiteral(host) by { assert Unsigned(host) == host && !DigitRun(host); }
    assert !NeedsQuotes(host);
    assert ReadsAsText(host);
  }

  lemma DottedQuad()
    ensures !IsFloatLiteral("0.0.0.0")
  {
    var u := "0.0.0.0";
    assert Lower(Unsigned(u)) == u;
    assert forall i :: 0 <= i < |u| ==> u[i] != 'e';
    assert IndexOf(u, 'e') == |u| && u[..|u|] == u;
    assert u[0] != '.' && u[1] == '.';
    TwoDots(u);
  }

  // No mantissa has a second point.
  lemma TwoDots(u: string)
    requires |u| >= 4 && u[0] != '.' && u[1] == '.' && u[3] == '.'
    ensures !IsMantissa(u)
  {
    assert IndexOf(u, '.') == 1;
    var t := u[2..];
    assert t[1] == '.' && !IsDigit(t[1]);
    assert !DigitRun(t);
  }

  /** A rewritten config is well-formed again, has a host and no removed key, and
      its node holds nothing but trimmed executor names. */
  lemma RewriteIsSettled(show: Show, c: Config, removed: set<string>)
    requires WellFormedConfig(c)
    ensures var d := Rewrite(show, c, removed);
            && WellFormedConfig(d) && d.connectorHost != []
            && HoldsNone(d.runtime, removed) && OnlyEnabledExecutors(d.executorNode)
  {
    hide Rewrite, WithoutKeys, SafeScalar, TrimmedTexts, HoldsNone, PlainKey;
    ExtractedConfig(show, c, removed);
    DefaultHostIsWellFormed();
    DefaultNodeIsWellFormed();
    WithoutKeysExact(c.runtime, removed);
    WithoutKeysWellFormed(c.runtime, removed);
    EnabledTypesSettled(EffectiveNode(c.executorNode));
  }

  lemma EnabledTypesSettled(node: seq<Entry>)
    requires WellFormedEntries(node)
    ensures WellFormedEntries([Entry("enabled_executors", List(EnabledTypes(node)))])
    ensures TrimmedTexts(EnabledTypes(node))
    ensures [Entry("enabled_executors", List(EnabledTypes(node)))] == node <==> OnlyEnabledExecutors(node)
  {
    hide PlainKey, SafeScalar, TrimmedTexts;
    var key := "enabled_executors";
    DefaultNodeIsWellFormed();
    assert PlainKey(key) by { assert DEFAULT_NODE[0].key == key; }
    match Get(node, key)
    case Some(List(items)) =>
      NonBlankTextsExact(items);
      NonBlankTextsWellFormed(items);
    case _ =>
      NonBlankTextsExact([]);
  }

  // ---------- the fixpoint ----------

  // What an unchanged text says about two configs.
  lemma SameTextSameMeaning(show: Show, c: Config, d: Config)
    requires WellFormedConfig(c) && WellFormedConfig(d)
    ensures ConfigText(show, c) == ConfigText(show, d) ==> Meaning(c) == Meaning(d)
  {
    hide WellFormedConfig, ConfigText, Meaning, Load;
    ConfigLoads(show, c);
    ConfigLoads(show, d);
  }

  lemma MeaningParts(c: Config, d: Config)
    requires Meaning(c) == Meaning(d)
    ensures c.runtime == d.runtime && HostValue(c.connectorHost) == HostValue(d.connectorHost)
    ensures EffectiveNode(c.executorNode) == EffectiveNode(d.executorNode)
  {
    hide EffectiveNode, HostValue;
    assert Meaning(c)[1] == Meaning(d)[1] && Meaning(c)[2] == Meaning(d)[2] && Meaning(c)[4] == Meaning(d)[4];
  }

  /** Setup leaves the config text alone exactly when the host block is not empty,
      no runtime key is on the removed list, and the executor node holds only the
      names of enabled executors. */
  lemma RewriteFixpoint(show: Show, c: Config, removed: set<string>)
    requires WellFormedConfig(c)
    ensures ConfigText(show, Rewrite(show, c, removed)) == ConfigText(show, c) <==>
            && c.connectorHost != []
            && HoldsNone(c.runtime, removed)
            && OnlyEnabledExecutors(EffectiveNode(c.executorNode))
  {
    hide Rewrite, WithoutKeys, EnabledTypes, WellFormedEntries, OnlyEnabledExecutors, HoldsNone,
      RenderMapping, Section, OpenSection, Document;
    var d := Rewrite(show, c, removed);
    var node := EffectiveNode(c.executorNode);
    ExtractedConfig(show, c, removed);
    RewriteIsSettled(show, c, removed);
    WithoutKeysExact(c.runtime, removed);
    DefaultNodeIsWellFormed();
    EnabledTypesSettled(node);
    SameTextSameMeaning(show, d, c);
    if ConfigText(show, d) == ConfigText(show, c) {
      MeaningParts(d, c);
    }
  }

  /** Whatever the first config, the second setup run changes nothing any more. */
  lemma RewriteSettlesInOnePass(show: Show, c: Config, removed: set<string>)
    requires WellFormedConfig(c)
    ensures var d := Rewrite(show, c, removed);
           
            && ConfigText(show, Rewrite(show, d, removed)) == ConfigText(show, d)
  {
    hide Rewrite, WellFormedConfig, ConfigText, HoldsNone, OnlyEnabledExecutors;
    var d := Rewrite(show, c, removed);
    RewriteIsSettled(show, c, removed);
    RewriteFixpoint(show, d, removed);
    assert EffectiveNode(d.executorNode) == d.executorNode by { NonEmptyNode(d.executorNode); }
  }

  lemma NonEmptyNode(node: seq<Entry>)
    requires OnlyEnabledExecutors(node)
    ensures EffectiveNode(node) == node
  {
  }
}
