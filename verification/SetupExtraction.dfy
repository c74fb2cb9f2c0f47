/** What setup takes over from a config file that somebody may have edited: block by
    block, whatever the file holds, and from no file or a broken one. */
module SetupExtraction {
  import opened Wrappers
  import opened Text
  import opened Scalars
  import opened YamlParser
  import opened ConnectorConfig

  // These are the entries at these positions, in order.
  predicate PickedAt(all: seq<Entry>, picked: seq<Entry>, at: seq<nat>) {
    |at| == |picked| && Positions(at, |all|) && forall k :: 0 <= k < |at| ==> picked[k] == all[at[k]]
  }

  predicate NotRemoved(all: seq<Entry>, picked: seq<Entry>, at: seq<nat>, removed: set<string>) {
    PickedAt(all, picked, at) && forall i :: 0 <= i < |all| ==> (i in at <==> all[i].key !in removed)
  }

  predicate Blocks(all: seq<Entry>, picked: seq<Entry>, at: seq<nat>) {
    PickedAt(all, picked, at) && forall i :: 0 <= i < |all| ==> (i in at <==> all[i].value.Dict?)
  }

  // The names are the items at these positions that are texts and not blank, trimmed.
  predicate TrimmedNames(items: seq<Value>, names: seq<Value>, at: seq<nat>) {
    && |at| == |names| && Positions(at, |items|)
    && (forall k :: 0 <= k < |at| ==> items[at[k]].Str? && names[k] == Str(Strip(items[at[k]].text)))
    && (forall i :: 0 <= i < |items| ==> (i in at <==> items[i].Str? && !AllSpace(items[i].text)))
  }

  // ---------- the three filters ----------

  lemma {:induction false} WithoutKeysConcat(a: seq<Entry>, b: seq<Entry>, removed: set<string>)
    ensures WithoutKeys(a + b, removed) == WithoutKeys(a, removed) + WithoutKeys(b, removed)
  {
    if a == [] {
      assert a + b == b;
    } else {
      WithoutKeysConcat(a[1..], b, removed);
      assert (a + b)[1..] == a[1..] + b && (a + b)[0] == a[0];
    }
  }

  lemma {:induction false} DictsConcat(a: seq<Entry>, b: seq<Entry>)
    ensures OnlyDicts(a + b) == OnlyDicts(a) + OnlyDicts(b)
  {
    if a == [] {
      assert a + b == b;
    } else {
      DictsConcat(a[1..], b);
      assert (a + b)[1..] == a[1..] + b && (a + b)[0] == a[0];
    }
  }

  lemma {:induction false} NamesConcat(a: seq<Value>, b: seq<Value>)
    ensures NonBlankTexts(a + b) == NonBlankTexts(a) + NonBlankTexts(b)
  {
    hide Strip;
    if a == [] {
      assert a + b == b;
    } else {
      NamesConcat(a[1..], b);
      assert (a + b)[1..] == a[1..] + b && (a + b)[0] == a[0];
    }
  }

  lemma OneEntry(e: Entry, removed: set<string>)
    ensures WithoutKeys([e], removed) == if e.key in removed then [] else [e]
    ensures OnlyDicts([e]) == if e.value.Dict? then [e] else []
  {
    assert [e][1..] == [];
  }

  lemma OneItem(v: Value)
    ensures NonBlankTexts([v]) == if v.Str? && !AllSpace(v.text) then [Str(Strip(v.text))] else []
  {
    hide AllSpace;
    assert [v][1..] == [];
  }

  lemma OneMorePicked(all: seq<Entry>, picked: seq<Entry>, at: seq<nat>, e: Entry)
    requires PickedAt(all, picked, at)
    ensures PickedAt(all + [e], picked, at) && PickedAt(all + [e], picked + [e], at + [|all|]) && |all| !in at
  {
  }

  lemma {:induction false} NotRemovedAt(all: seq<Entry>, removed: set<string>) returns (at: seq<nat>)
    ensures NotRemoved(all, WithoutKeys(all, removed), at, removed)
  {
    at := [];
    if all != [] {
      var n := |all| - 1;
      at := NotRemovedAt(all[..n], removed);
      WithoutKeysConcat(all[..n], [all[n]], removed);
      OneEntry(all[n], removed);
      assert all == all[..n] + [all[n]];
      OneMorePicked(all[..n], WithoutKeys(all[..n], removed), at, all[n]);
      if all[n].key !in removed {
        at := at + [n];
      }
    }
  }

  lemma {:induction false} BlocksAt(all: seq<Entry>) returns (at: seq<nat>)
    ensures Blocks(all, OnlyDicts(all), at)
  {
    at := [];
    if all != [] {
      var n := |all| - 1;
      at := BlocksAt(all[..n]);
      DictsConcat(all[..n], [all[n]]);
      OneEntry(all[n], {});
      assert all == all[..n] + [all[n]];
      OneMorePicked(all[..n], OnlyDicts(all[..n]), at, all[n]);
      if all[n].value.Dict? {
        at := at + [n];
      }
    }
  }

  lemma OneMoreName(items: seq<Value>, names: seq<Value>, at: seq<nat>, v: Value)
    requires TrimmedNames(items, names, at)
    ensures if v.Str? && !AllSpace(v.text) then TrimmedNames(items + [v], names + [Str(Strip(v.text))], at + [|items|])
            else TrimmedNames(items + [v], names, at)
  {
    hide Strip, AllSpace;
    assert |items| !in at;
  }

  lemma {:induction false} NamesAt(items: seq<Value>) returns (at: seq<nat>)
    ensures TrimmedNames(items, NonBlankTexts(items), at)
  {
    hide Strip, AllSpace;
    at := [];
    if items != [] {
      var n := |items| - 1;
      at := NamesAt(items[..n]);
      NamesConcat(items[..n], [items[n]]);
      OneItem(items[n]);
      assert items == items[..n] + [items[n]];
      OneMoreName(items[..n], NonBlankTexts(items[..n]), at, items[n]);
      if items[n].Str? && !AllSpace(items[n].text) {
        at := at + [n];
      }
    }
  }

  // ---------- what is taken over ----------

  // The block under this key, when it is a mapping.
  ghost predicate HasBlock(raw: seq<Entry>, key: string, entries: seq<Entry>) {
    exists i :: 0 <= i < |raw| && raw[i] == Entry(key, Dict(entries))
  }

  lemma BlockIsFound(raw: seq<Entry>, key: string)
    requires DistinctKeys(raw)
    ensures forall entries :: HasBlock(raw, key, entries) <==> Get(raw, key) == Some(Dict(entries))
  {
    forall entries | HasBlock(raw, key, entries) ensures Get(raw, key) == Some(Dict(entries)) {
      var i :| 0 <= i < |raw| && raw[i] == Entry(key, Dict(entries));
      assert KeyIndex(raw, key) == i;
    }
    var k := KeyIndex(raw, key);
    forall entries | Get(raw, key) == Some(Dict(entries)) ensures HasBlock(raw, key, entries) {
      assert raw[k] == Entry(key, Dict(entries));
    }
  }

  /** Whatever mapping was loaded, the runtime block is taken over in order, without its
      removed keys. */
  lemma BlocksAreTakenOver(raw: seq<Entry>, removed: set<string>, entries: seq<Entry>) returns (at: seq<nat>)
    requires DistinctKeys(raw)
    ensures HasBlock(raw, "runtime", entries) ==> NotRemoved(entries, Extract(raw, removed).runtime, at, removed)
  {
    hide WithoutKeys, DistinctKeys;
    BlockIsFound(raw, "runtime");
    at := NotRemovedAt(entries, removed);
  }

  /** Of the connectors and the executors those are taken over that are mappings, in
      order; the host block is taken over as it is. */
  lemma MappingsAreTakenOver(raw: seq<Entry>, removed: set<string>, entries: seq<Entry>) returns (at: seq<nat>)
    requires DistinctKeys(raw)
    ensures HasBlock(raw, "connectors", entries) ==> Blocks(entries, Extract(raw, removed).connectors, at)
    ensures HasBlock(raw, "executors", entries) ==> Blocks(entries, Extract(raw, removed).executors, at)
    ensures HasBlock(raw, "connector_host", entries) ==> Extract(raw, removed).connectorHost == entries
  {
    hide OnlyDicts, DistinctKeys;
    BlockIsFound(raw, "connectors");
    BlockIsFound(raw, "executors");
    BlockIsFound(raw, "connector_host");
    at := BlocksAt(entries);
  }

  // The list under this key.
  ghost predicate HasList(entries: seq<Entry>, key: string, items: seq<Value>) {
    exists i :: 0 <= i < |entries| && entries[i] == Entry(key, List(items))
  }

  /** The executor node: nothing but the names of its list, trimmed, without the blank
      ones and without what is no text; no names when there is no list. */
  lemma NamesAreTakenOver(raw: seq<Entry>, removed: set<string>, node: seq<Entry>, items: seq<Value>)
    returns (names: seq<Value>, at: seq<nat>)
    requires DistinctKeys(raw) && DistinctKeys(node) && HasBlock(raw, "executor_node", node)
    ensures Extract(raw, removed).executorNode == [Entry("enabled_executors", List(names))]
    ensures HasList(node, "enabled_executors", items) ==> TrimmedNames(items, names, at)
    ensures (forall other :: !HasList(node, "enabled_executors", other)) ==> names == []
  {
    hide NonBlankTexts, DistinctKeys, TrimmedNames;
    BlockIsFound(raw, "executor_node");
    names := EnabledTypes(node);
    ListIsFound(node, "enabled_executors");
    at := NamesAt(items);
  }

  lemma ListIsFound(entries: seq<Entry>, key: string)
    requires DistinctKeys(entries)
    ensures forall items :: HasList(entries, key, items) <==> Get(entries, key) == Some(List(items))
  {
    forall items | HasList(entries, key, items) ensures Get(entries, key) == Some(List(items)) {
      var i :| 0 <= i < |entries| && entries[i] == Entry(key, List(items));
      assert KeyIndex(entries, key) == i;
    }
    var k := KeyIndex(entries, key);
    forall items | Get(entries, key) == Some(List(items)) ensures HasList(entries, key, items) {
      assert entries[k] == Entry(key, List(items));
    }
  }

  /** A block that is missing, or is no mapping, is replaced by its default: the host by
      one that is switched off, the node by one without executors, the others by
      nothing. */
  lemma MissingBlocksHaveDefaults(raw: seq<Entry>, removed: set<string>, key: string)
    requires DistinctKeys(raw) && forall entries :: !HasBlock(raw, key, entries)
    ensures var c := Extract(raw, removed);
            && (key == "runtime" ==> c.runtime == [])
            && (key == "connectors" ==> c.connectors == [])
            && (key == "executors" ==> c.executors == [])
            && (key == "executor_node" ==> c.executorNode == [Entry("enabled_executors", List([]))])
            && (key == "connector_host" ==>
                  c.connectorHost ==
                  [Entry("enabled", Bool(false)), Entry("host", Str("0.0.0.0")), Entry("port", Int(8010)),
                   Entry("public_base_url", Str("http://127.0.0.1:8000")), Entry("synapse_base_url", Str("http://127.0.0.1:8000")),
                   Entry("enabled_connectors", List([]))])
  {
    hide DistinctKeys;
    BlockIsFound(raw, key);
    NoBlockIsNoDict(raw, key);
  }

  lemma NoBlockIsNoDict(raw: seq<Entry>, key: string)
    requires forall entries :: !HasBlock(raw, key, entries)
    ensures Get(raw, key).None? || !Get(raw, key).value.Dict?
  {
    var k := KeyIndex(raw, key);
    if k < |raw| && raw[k].value.Dict? {
      assert raw[k] == Entry(key, Dict(raw[k].value.entries));
      assert HasBlock(raw, key, raw[k].value.entries);
    }
  }

  /** A file that cannot be read, or holds no mapping, counts as an empty one. */
  lemma UnreadableIsEmpty(text: string)
    ensures match Load(text)
            case Ok(Dict(entries)) => LoadedConfig(text) == entries
            case _ => LoadedConfig(text) == []
  {
  }
}
