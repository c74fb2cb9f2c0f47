/** The config file that setup writes: how the five blocks are laid out, how the
    next setup extracts them again, and when that rewrite leaves the text alone. */
module ConnectorConfig {
  import opened Wrappers
  import opened Text
  import opened Scalars
  import opened YamlParser
  import opened YamlPrinter
  import opened YamlRoundTrip

  datatype Config = Config(
    runtime: seq<Entry>,
    connectorHost: seq<Entry>,
    connectors: seq<Entry>,
    executorNode: seq<Entry>,
    executors: seq<Entry>)

  const DEFAULT_NODE: seq<Entry> := [Entry("enabled_executors", List([]))]

  const DEFAULT_HOST: seq<Entry> := [
    Entry("enabled", Bool(false)),
    Entry("host", Str("0.0.0.0")),
    Entry("port", Int(8010)),
    Entry("public_base_url", Str("http://127.0.0.1:8000")),
    Entry("synapse_base_url", Str("http://127.0.0.1:8000")),
    Entry("enabled_connectors", List([]))]

  // ---------- writing ----------

  function Section(show: Show, key: string, entries: seq<Entry>): seq<string>
  {
    if entries == [] then [key + ": {}"] else [key + ":"] + RenderMapping(show, entries, 2)
  }

  // A block that is printed open even when it is empty.
  function OpenSection(show: Show, key: string, entries: seq<Entry>): seq<string>
  {
    [key + ":"] + RenderMapping(show, entries, 2)
  }

  function EffectiveNode(node: seq<Entry>): (r: seq<Entry>)
    ensures r != []
  {
    if node == [] then DEFAULT_NODE else node
  }

  function ConfigLines(show: Show, c: Config): seq<string>
  {
    ["version: 1"] + [""]
    + Section(show, "runtime", c.runtime) + [""]
    + OpenSection(show, "connector_host", c.connectorHost) + [""]
    + Section(show, "connectors", c.connectors) + [""]
    + OpenSection(show, "executor_node", EffectiveNode(c.executorNode)) + [""]
    + Section(show, "executors", c.executors)
  }

  function ConfigText(show: Show, c: Config): string
  {
    Document(ConfigLines(show, c))
  }

  lemma BlockHeads()
    ensures "runtime" + ":" == "runtime:" && "runtime" + ": {}" == "runtime: {}"
    ensures "connectors" + ":" == "connectors:" && "connectors" + ": {}" == "connectors: {}"
    ensures "executors" + ":" == "executors:" && "executors" + ": {}" == "executors: {}"
    ensures "connector_host" + ":" == "connector_host:" && "executor_node" + ":" == "executor_node:"
  {
  }

  method RenderConnectorConfig(show: Show, c: Config) returns (text: string)
    ensures text == ConfigText(show, c)
  {
    hide RenderMapping, EffectiveNode;
    BlockHeads();
    var lines := ["version: 1", ""];
    assert lines == ["version: 1"] + [""];
    ghost var before := lines;
    if c.runtime != [] {
      lines := lines + ["runtime:"];
      var block := RenderYamlMapping(show, c.runtime, 2);
      lines := lines + block;
    } else {
      lines := lines + ["runtime: {}"];
    }
    assert lines == before + Section(show, "runtime", c.runtime);
    before := lines;
    lines := lines + ["", "connector_host:"];
    var host := RenderYamlMapping(show, c.connectorHost, 2);
    lines := lines + host;
    assert lines == before + [""] + OpenSection(show, "connector_host", c.connectorHost);
    lines := lines + [""];
    before := lines;
    if c.connectors != [] {
      lines := lines + ["connectors:"];
      var block := RenderYamlMapping(show, c.connectors, 2);
      lines := lines + block;
    } else {
      lines := lines + ["connectors: {}"];
    }
    assert lines == before + Section(show, "connectors", c.connectors);
    before := lines;
    lines := lines + ["", "executor_node:"];
    var node := RenderYamlMapping(show, EffectiveNode(c.executorNode), 2);
    lines := lines + node;
    assert lines == before + [""] + OpenSection(show, "executor_node", EffectiveNode(c.executorNode));
    lines := lines + [""];
    before := lines;
    if c.executors != [] {
      lines := lines + ["executors:"];
      var block := RenderYamlMapping(show, c.executors, 2);
      lines := lines + block;
    } else {
      lines := lines + ["executors: {}"];
    }
    assert lines == before + Section(show, "executors", c.executors);
    text := Join(lines) + "\n";
  }

  // ---------- reading the blocks again ----------

  function Get(raw: seq<Entry>, key: string): Option<Value> {
    var k := KeyIndex(raw, key);
    if k < |raw| then Some(raw[k].value) else None
  }

  function LoadedConfig(text: string): seq<Entry> {
    var r := Load(text);
    if r.Ok? && r.value.Dict? then r.value.entries else []
  }

  function WithoutKeys(entries: seq<Entry>, removed: set<string>): seq<Entry> {
    if entries == [] then []
    else if entries[0].key in removed then WithoutKeys(entries[1..], removed)
    else [entries[0]] + WithoutKeys(entries[1..], removed)
  }

  function OnlyDicts(entries: seq<Entry>): seq<Entry> {
    if entries == [] then []
    else if entries[0].value.Dict? then [entries[0]] + OnlyDicts(entries[1..])
    else OnlyDicts(entries[1..])
  }

  function NonBlankTexts(items: seq<Value>): seq<Value> {
    if items == [] then []
    else if items[0].Str? && Strip(items[0].text) != "" then [Str(Strip(items[0].text))] + NonBlankTexts(items[1..])
    else NonBlankTexts(items[1..])
  }

  function ExistingRuntime(raw: seq<Entry>, removed: set<string>): seq<Entry> {
    match Get(raw, "runtime")
    case Some(Dict(entries)) => WithoutKeys(entries, removed)
    case _ => []
  }

  function ExistingConnectorHost(raw: seq<Entry>): seq<Entry> {
    match Get(raw, "connector_host")
    case Some(Dict(entries)) => entries
    case _ => DEFAULT_HOST
  }

  function ExistingConnectors(raw: seq<Entry>): seq<Entry> {
    match Get(raw, "connectors")
    case Some(Dict(entries)) => OnlyDicts(entries)
    case _ => []
  }

  function EnabledTypes(node: seq<Entry>): seq<Value> {
    match Get(node, "enabled_executors")
    case Some(List(items)) => NonBlankTexts(items)
    case _ => []
  }

  function ExistingExecutorNode(raw: seq<Entry>): seq<Entry> {
    match Get(raw, "executor_node")
    case Some(Dict(entries)) => [Entry("enabled_executors", List(EnabledTypes(entries)))]
    case _ => DEFAULT_NODE
  }

  function ExistingExecutors(raw: seq<Entry>): seq<Entry> {
    match Get(raw, "executors")
    case Some(Dict(entries)) => OnlyDicts(entries)
    case _ => []
  }

  function Extract(raw: seq<Entry>, removed: set<string>): Config {
    Config(ExistingRuntime(raw, removed), ExistingConnectorHost(raw), ExistingConnectors(raw),
           ExistingExecutorNode(raw), ExistingExecutors(raw))
  }

  // One setup run that changes nothing: load what was written, extract the blocks.
  function Rewrite(show: Show, c: Config, removed: set<string>): Config
  {
    Extract(LoadedConfig(ConfigText(show, c)), removed)
  }

  // ---------- what the file means ----------

  predicate AllDicts(entries: seq<Entry>) {
    forall i :: 0 <= i < |entries| ==> entries[i].value.Dict?
  }

  predicate WellFormedConfig(c: Config) {
    && WellFormedEntries(c.runtime) && WellFormedEntries(c.connectorHost) && WellFormedEntries(c.connectors)
    && WellFormedEntries(c.executorNode) && WellFormedEntries(c.executors)
    && AllDicts(c.connectors) && AllDicts(c.executors)
  }

  // An empty host block is printed as a bare key, which reads as nothing.
  function HostValue(host: seq<Entry>): Value {
    if host == [] then Null else Dict(host)
  }

  function Opening(c: Config): seq<Entry> {
    [Entry("version", Int(1)), Entry("runtime", Dict(c.runtime))]
  }

  function Closing(c: Config): seq<Entry>
  {
    [Entry("connectors", Dict(c.connectors)), Entry("executor_node", Dict(EffectiveNode(c.executorNode))),
     Entry("executors", Dict(c.executors))]
  }

  function Meaning(c: Config): seq<Entry>
  {
    Opening(c) + [Entry("connector_host", HostValue(c.connectorHost))] + Closing(c)
  }

  predicate Letters(key: string) {
    key != "" && forall i :: 0 <= i < |key| ==> 'a' <= key[i] <= 'z' || key[i] == '_'
  }

  lemma LettersArePlain(key: string)
    requires Letters(key)
    ensures PlainKey(key)
  {
  }

  lemma BlockNames()
    ensures Letters("version") && Letters("runtime") && Letters("connector_host")
    ensures Letters("connectors") && Letters("executor_node") && Letters("executors")
  {
  }

  lemma BlockNamesArePlain()
    ensures PlainKey("version") && PlainKey("runtime") && PlainKey("connector_host")
    ensures PlainKey("connectors") && PlainKey("executor_node") && PlainKey("executors")
  {
    hide PlainKey, Letters;
    BlockNames();
    LettersArePlain("version");
    LettersArePlain("runtime");
    LettersArePlain("connector_host");
    LettersArePlain("connectors");
    LettersArePlain("executor_node");
    LettersArePlain("executors");
  }

  lemma SectionIsEntry(show: Show, key: string, entries: seq<Entry>)
    ensures Section(show, key, entries) == RenderEntry(show, Entry(key, Dict(entries)), 0)
    ensures entries != [] ==> OpenSection(show, key, entries) == Section(show, key, entries)
  {
    assert Spaces(0) + key + ":" == key + ":";
    assert key + ":" + " {}" == key + ": {}";
  }

  lemma VersionIsEntry(show: Show)
    ensures ["version: 1"] == RenderEntry(show, Entry("version", Int(1)), 0)
  {
    assert NatText(1) == "1";
    assert Spaces(0) + "version" + ":" + " " + "1" == "version: 1";
  }

  lemma RenderOne(show: Show, e: Entry)
    ensures RenderMapping(show, [e], 0) == RenderEntry(show, e, 0)
  {
    hide RenderEntry;
    assert RenderEntry(show, e, 0) + RenderMapping(show, [e][1..], 0) == RenderEntry(show, e, 0);
  }

  lemma OpeningLines(show: Show, c: Config)
    ensures RenderMapping(show, Opening(c), 0) == ["version: 1"] + Section(show, "runtime", c.runtime)
  {
    hide RenderMapping, RenderEntry, Section;
    var version, runtime := Entry("version", Int(1)), Entry("runtime", Dict(c.runtime));
    VersionIsEntry(show);
    SectionIsEntry(show, "runtime", c.runtime);
    RenderOne(show, version);
    RenderOne(show, runtime);
    RenderMappingConcat(show, [version], [runtime], 0);
    assert Opening(c) == [version] + [runtime];
  }

  lemma ClosingLines(show: Show, c: Config)
    ensures RenderMapping(show, Closing(c), 0)
            == Section(show, "connectors", c.connectors) + OpenSection(show, "executor_node", EffectiveNode(c.executorNode))
               + Section(show, "executors", c.executors)
  {
    hide RenderMapping, RenderEntry, Section, OpenSection;
    var node := EffectiveNode(c.executorNode);
    var e1, e2, e3 := Entry("connectors", Dict(c.connectors)), Entry("executor_node", Dict(node)),
                      Entry("executors", Dict(c.executors));
    SectionIsEntry(show, "connectors", c.connectors);
    SectionIsEntry(show, "executor_node", node);
    SectionIsEntry(show, "executors", c.executors);
    RenderOne(show, e1);
    RenderOne(show, e2);
    RenderOne(show, e3);
    RenderMappingConcat(show, [e1], [e2], 0);
    RenderMappingConcat(show, [e1] + [e2], [e3], 0);
    assert Closing(c) == [e1] + [e2] + [e3];
  }

  // The lines of the file that are not blank.
  function SolidLines(show: Show, c: Config): seq<string>
  {
    ["version: 1"] + Section(show, "runtime", c.runtime) + OpenSection(show, "connector_host", c.connectorHost)
    + Section(show, "connectors", c.connectors) + OpenSection(show, "executor_node", EffectiveNode(c.executorNode))
    + Section(show, "executors", c.executors)
  }

  lemma SolidSection(show: Show, key: string, entries: seq<Entry>)
    requires PlainKey(key) && WellFormedEntries(entries)
    ensures AllSolid(Section(show, key, entries)) && AllSolid(OpenSection(show, key, entries))
  {
    hide Solid, RenderEntry, PlainKey;
    SectionIsEntry(show, key, entries);
    WellFormedDict(entries);
    SolidEntry(show, Entry(key, Dict(entries)), 0);
    SolidKeyLine(0, key, "");
    assert Spaces(0) + key + ":" + "" == key + ":";
    SolidMapping(show, entries, 2);
  }

  lemma WellFormedDict(entries: seq<Entry>)
    requires WellFormedEntries(entries)
    ensures WellFormed(Dict(entries))
  {
  }

  lemma DefaultNodeIsWellFormed()
    ensures WellFormedEntries(DEFAULT_NODE)
  {
    assert Letters("enabled_executors");
    LettersArePlain("enabled_executors");
  }

  lemma AllPartsSolid(show: Show, c: Config)
    requires WellFormedConfig(c)
    ensures AllSolid(["version: 1"])
    ensures AllSolid(Section(show, "runtime", c.runtime))
    ensures AllSolid(OpenSection(show, "connector_host", c.connectorHost))
    ensures AllSolid(Section(show, "connectors", c.connectors))
    ensures AllSolid(OpenSection(show, "executor_node", EffectiveNode(c.executorNode)))
    ensures AllSolid(Section(show, "executors", c.executors))
  {
    hide Section, OpenSection, Solid, WellFormedEntries, PlainKey, Letters;
    BlockNamesArePlain();
    DefaultNodeIsWellFormed();
    VersionIsEntry(show);
    SolidEntry(show, Entry("version", Int(1)), 0);
    SolidSection(show, "runtime", c.runtime);
    SolidSection(show, "connector_host", c.connectorHost);
    SolidSection(show, "connectors", c.connectors);
    SolidSection(show, "executor_node", EffectiveNode(c.executorNode));
    SolidSection(show, "executors", c.executors);
  }

  // Dropping the blank line after a stretch of solid lines.
  lemma KeptWithBlank(head: seq<string>, solid: seq<string>)
    requires SolidOrBlank(head) && AllSolid(solid)
    ensures SolidOrBlank(head + solid) && SolidOrBlank(head + solid + [""])
    ensures Kept(head + solid) == Kept(head) + solid
    ensures Kept(head + solid + [""]) == Kept(head) + solid
  {
    hide Solid;
    KeptConcat(head, solid);
    KeptConcat(head + solid, [""]);
    KeptSolid(solid);
    BlankIsSkipped();
  }

  lemma BlankIsSkipped()
    ensures IsSkipped("") && Kept([""]) == []
  {
    assert Kept([""][1..]) == [];
  }

  lemma KeptLines(show: Show, c: Config)
    requires WellFormedConfig(c)
    ensures SolidOrBlank(ConfigLines(show, c)) && Kept(ConfigLines(show, c)) == SolidLines(show, c)
  {
    hide Section, OpenSection, Solid, WellFormedEntries, Kept, AllSolid, SolidOrBlank;
    AllPartsSolid(show, c);
    var node := EffectiveNode(c.executorNode);
    var (p1, p2, p3, p4, p5, p6) :=
      (["version: 1"], Section(show, "runtime", c.runtime), OpenSection(show, "connector_host", c.connectorHost),
       Section(show, "connectors", c.connectors), OpenSection(show, "executor_node", node), Section(show, "executors", c.executors));
    NothingKept();
    KeptWithBlank([], p1);
    assert [] + p1 == p1;
    var h1 := p1 + [""];
    KeptWithBlank(h1, p2);
    var h2 := h1 + p2 + [""];
    KeptWithBlank(h2, p3);
    var h3 := h2 + p3 + [""];
    KeptWithBlank(h3, p4);
    var h4 := h3 + p4 + [""];
    KeptWithBlank(h4, p5);
    KeptWithBlank(h4 + p5 + [""], p6);
  }

  lemma NothingKept()
    ensures SolidOrBlank([]) && Kept([]) == []
  {
  }

  // ---------- reading the file ----------

  // The host block, whether it holds entries or is a bare key.
  lemma HostAt(show: Show, lines: seq<Line>, i: nat, host: seq<Entry>)
    requires WellFormedEntries(host)
    requires Reads(lines, i, OpenSection(show, "connector_host", host))
    requires StopsAt(lines, i + |OpenSection(show, "connector_host", host)|, 0)
    ensures lines[i].indent == 0 && !IsItem(lines[i].content)
    ensures EntryAt(lines, i)
            == Ok(Parsed(Entry("connector_host", HostValue(host)), i + |OpenSection(show, "connector_host", host)|))
  {
    hide EntryAt, RenderEntry, RenderMapping, PlainKey, CutLine, Strip;
    BlockNamesArePlain();
    if host == [] {
      var raw := OpenSection(show, "connector_host", host);
      NothingRendered(show);
      BlockHeads();
      assert raw == ["connector_host:"];
      assert lines[i + 0] == CutLine(raw[0], lines[i].lineno);
      assert Spaces(0) + "connector_host" + ":" + "" == "connector_host:";
      EntryOnLine(lines, i, "connector_host", "", 0);
    } else {
      SectionIsEntry(show, "connector_host", host);
      WellFormedDict(host);
      EntryRoundTrip(show, lines, i, 0, Entry("connector_host", Dict(host)));
    }
  }

  lemma NothingRendered(show: Show)
    ensures RenderMapping(show, [], 2) == []
  {
  }

  lemma OpeningWellFormed(c: Config)
    requires WellFormedConfig(c)
    ensures WellFormedEntries(Opening(c))
  {
    hide PlainKey;
    BlockNamesArePlain();
  }

  lemma ClosingWellFormed(c: Config)
    requires WellFormedConfig(c)
    ensures WellFormedEntries(Closing(c))
  {
    hide PlainKey;
    BlockNamesArePlain();
    DefaultNodeIsWellFormed();
  }

  lemma MeaningKeys(c: Config)
    ensures DistinctKeys(Meaning(c)) && DistinctKeys(Opening(c))
  {
  }

  lemma FirstLineAt(show: Show, lines: seq<Line>, i: nat, entries: seq<Entry>)
    requires WellFormedEntries(entries) && entries != []
    requires Reads(lines, i, RenderMapping(show, entries, 0)) && i + |RenderMapping(show, entries, 0)| == |lines|
    ensures lines[i].indent == 0
    ensures MappingAt(lines, i, 0, []) == Ok(Parsed(entries, |lines|))
  {
    hide WellFormedEntries, EntryAt, RenderMapping, Put, CutLine, IsItem;
    assert [] + entries == entries;
    assert DistinctKeys(entries) by { EntriesDistinct(entries); }
    MappingRoundTrip(show, lines, i, 0, entries, []);
  }

  lemma EntriesDistinct(entries: seq<Entry>)
    requires WellFormedEntries(entries)
    ensures DistinctKeys(entries)
  {
  }

  // The three stretches of the file, one after the other.
  lemma PartsRead(show: Show, c: Config, lines: seq<Line>)
    requires WellFormedConfig(c)
    requires Reads(lines, 0, SolidLines(show, c)) && |lines| == |SolidLines(show, c)|
    ensures var (opening, closing) := (RenderMapping(show, Opening(c), 0), RenderMapping(show, Closing(c), 0));
            var host := OpenSection(show, "connector_host", c.connectorHost);
            && Reads(lines, 0, opening) && Reads(lines, |opening|, host)
            && Reads(lines, |opening| + |host|, closing) && |opening| + |host| + |closing| == |lines|
  {
    hide RenderMapping, Section, OpenSection, Reads, WellFormedConfig;
    var opening, closing := RenderMapping(show, Opening(c), 0), RenderMapping(show, Closing(c), 0);
    var host := OpenSection(show, "connector_host", c.connectorHost);
    OpeningLines(show, c);
    ClosingLines(show, c);
    assert SolidLines(show, c) == opening + (host + closing);
    ReadsConcat(lines, 0, opening, host + closing);
    ReadsConcat(lines, |opening|, host, closing);
  }

  // The kept lines of a config are parsed block by block.
  lemma SolidLinesParse(show: Show, c: Config, lines: seq<Line>)
    requires WellFormedConfig(c)
    requires Reads(lines, 0, SolidLines(show, c)) && |lines| == |SolidLines(show, c)|
    ensures |lines| > 0 && lines[0].indent == 0
    ensures BlockAt(lines, 0, 0) == Ok(Parsed(Dict(Meaning(c)), |lines|))
  {
    hide WellFormedEntries, EntryAt, RenderMapping, OpenSection, Put, ListAt, CutLine, IsItem, DistinctKeys, Reads, SolidLines;
    PartsRead(show, c, lines);
    OpeningWellFormed(c);
    ClosingWellFormed(c);
    MeaningKeys(c);
    var i := |RenderMapping(show, Opening(c), 0)|;
    var j := i + |OpenSection(show, "connector_host", c.connectorHost)|;
    FirstLineAt(show, lines, j, Closing(c));
    HostAt(show, lines, i, c.connectorHost);
    assert [] + Opening(c) == Opening(c);
    MappingRoundTrip(show, lines, 0, 0, Opening(c), []);
    MappingStep(lines, i, 0, Opening(c));
    var e := Entry("connector_host", HostValue(c.connectorHost));
    PutHost(c, e);
    MappingRoundTrip(show, lines, j, 0, Closing(c), Opening(c) + [e]);
  }

  lemma PutHost(c: Config, e: Entry)
    requires e.key == "connector_host"
    ensures Put(Opening(c), e.key, e.value) == Opening(c) + [e]
  {
  }

  /** What the written config file says when it is loaded. */
  lemma ConfigLoads(show: Show, c: Config)
    requires WellFormedConfig(c)
    ensures Load(ConfigText(show, c)) == Ok(Dict(Meaning(c)))
  {
    hide WellFormedConfig, ConfigLines, SolidLines, Meaning, BlockAt, Document;
    var raw := ConfigLines(show, c);
    KeptLines(show, c);
    SolidOneLines(raw);
    SplitDocument(raw);
    ConfigIsNotEmpty(show, c);
    TokensRead(raw, 0);
    assert raw[0..] == raw;
    var lines := TokenizeFrom(raw, 0).value;
    SolidLinesParse(show, c, lines);
  }

  lemma ConfigIsNotEmpty(show: Show, c: Config)
    ensures ConfigLines(show, c) != [] && SolidLines(show, c) != []
  {
  }
}
