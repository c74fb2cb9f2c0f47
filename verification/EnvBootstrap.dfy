/** Bootstrapping an env file from a template: exactly which of the user's values are
    kept, and that a second run changes nothing. */
module EnvBootstrap {
  import opened Wrappers
  import opened Text
  import opened EnvFile
  import opened EnvRewrite

  function Loaded(text: string): seq<Assignment> {
    Assignments(SplitLines(text))
  }

  lemma LoadedIsStorable(text: string)
    ensures AllStorable(Loaded(text))
    ensures forall k :: k in KeysOf(Loaded(text)) ==> k in ValuesOf(Loaded(text))
    ensures AllPairsStorable(KeysOf(Loaded(text)), ValuesOf(Loaded(text)))
  {
    hide Assignments, Storable;
    LoadedAreStorable(SplitLines(text));
    LoadedPairs(Loaded(text));
  }

  function Values(text: string): map<string, string> {
    ValuesOf(Loaded(text))
  }

  function Order(text: string): seq<string> {
    KeysOf(Loaded(text))
  }

  function Chosen(raws: seq<string>, interactive: set<string>, openaiKey: string, file: string): Resolved {
    ResolveBootstrap(ParseTemplate(raws), Values(file), interactive, openaiKey)
  }

  /** Load the user file, resolve, write. */
  function Bootstrap(raws: seq<string>, interactive: set<string>, openaiKey: string, file: string): string {
    LoadedIsStorable(file);
    Document(EnvLines(ParseTemplate(raws), Chosen(raws, interactive, openaiKey, file), Values(file), Order(file)))
  }

  // ---------- the values chosen ----------

  /** The value chosen for a template line, when template keys are distinct. */
  function Wanted(line: TemplateLine, existing: map<string, string>, interactive: set<string>, openaiKey: string):
    Option<string>
    requires line.key.Some?
  {
    if line.key.value == openaiKey then NormalizeOptional(Lookup(existing, openaiKey))
    else if line.key.value in interactive then None
    else NormalizeOptional(CurrentValue(line, existing))
  }

  lemma {:induction false} ResolvedLine(template: seq<TemplateLine>, existing: map<string, string>, interactive: set<string>, i: nat)
    requires DistinctTemplateKeys(template) && i < |template| && template[i].key.Some?
    ensures var key := template[i].key.value;
            ResolveLines(template, existing, interactive).Get(key)
            == if key in interactive then None else NormalizeOptional(CurrentValue(template[i], existing))
  {
    hide NormalizeOptional, CurrentValue;
    var n := |template| - 1;
    if i == n {
      ResolvedElsewhere(template[..n], existing, interactive, template[i].key.value);
    } else {
      ResolvedLine(template[..n], existing, interactive, i);
      assert template[i].key != template[n].key;
    }
  }

  lemma {:induction false} ResolvedElsewhere(template: seq<TemplateLine>, existing: map<string, string>, interactive: set<string>, key: string)
    requires !IsTemplateKey(template, key)
    ensures key !in ResolveLines(template, existing, interactive).values
  {
    hide NormalizeOptional, CurrentValue;
    if template != [] {
      var n := |template| - 1;
      assert template[n].key != Some(key);
      assert forall i :: 0 <= i < n ==> template[..n][i] == template[i];
      ResolvedElsewhere(template[..n], existing, interactive, key);
    }
  }

  lemma WantedIsChosen(raws: seq<string>, interactive: set<string>, openaiKey: string, file: string, i: nat)
    requires var template := ParseTemplate(raws);
             DistinctTemplateKeys(template) && i < |template| && template[i].key.Some?
    ensures var line := ParseTemplate(raws)[i];
            Chosen(raws, interactive, openaiKey, file).Get(line.key.value) == Wanted(line, Values(file), interactive, openaiKey)
  {
    hide NormalizeOptional, CurrentValue, ParseTemplateLine, ResolveLines, ValuesOf, DistinctTemplateKeys;
    ResolvedLine(ParseTemplate(raws), Values(file), interactive, i);
  }

  // Keys that are neither the template's nor the OpenAI key are never chosen.
  lemma {:induction false} OrderIsKnown(template: seq<TemplateLine>, existing: map<string, string>, interactive: set<string>)
    ensures forall k :: k in ResolveLines(template, existing, interactive).order ==> IsTemplateKey(template, k)
  {
    hide NormalizeOptional, CurrentValue;
    if template != [] {
      var n := |template| - 1;
      OrderIsKnown(template[..n], existing, interactive);
      var before := ResolveLines(template[..n], existing, interactive).order;
      forall k | k in ResolveLines(template, existing, interactive).order ensures IsTemplateKey(template, k) {
        if k in before {
          var i :| 0 <= i < n && template[..n][i].key == Some(k);
          assert template[i].key == Some(k);
        } else {
          assert template[n].key == Some(k);
        }
      }
    }
  }

  // A bootstrap never adds a third group: a value of the OpenAI key that the
  // template lacks is among the user's own lines.
  lemma NothingAdditional(raws: seq<string>, interactive: set<string>, openaiKey: string, file: string)
    ensures var template := ParseTemplate(raws);
            var chosen := Chosen(raws, interactive, openaiKey, file);
            AdditionalKeys(template, UnknownKeys(template, Order(file)), chosen, chosen.order) == []
  {
    hide NormalizeOptional, CurrentValue, ParseTemplateLine, ResolveLines, ValuesOf, KeysOf, UnknownKeys, AdditionalKeys, IsTemplateKey;
    var template := ParseTemplate(raws);
    var chosen := Chosen(raws, interactive, openaiKey, file);
    var unknown := UnknownKeys(template, Order(file));
    var additional := AdditionalKeys(template, unknown, chosen, chosen.order);
    forall k | k in chosen.order && !IsTemplateKey(template, k) && NonEmpty(chosen.Get(k)) ensures k in unknown {
      OrderIsKnown(template, Values(file), interactive);
      LoadedValue(Loaded(file), openaiKey);
      NothingNormalizesToNothing();
    }
    SomeElement(additional);
  }

  lemma SomeElement(keys: seq<string>)
    ensures keys != [] ==> exists k :: k in keys
  {
    if keys != [] {
      assert keys[0] in keys;
    }
  }

  lemma NothingNormalizesToNothing()
    ensures NormalizeOptional(None) == None
  {
  }

  // ---------- what the written file assigns ----------

  lemma NormalizedIsStorable(value: Option<string>)
    requires value.Some? ==> OneLine(value.value)
    ensures var v := NormalizeOptional(value); v.Some? ==> StorableValue(v.value) && Trimmed(v.value) && v.value != ""
  {
  }

  lemma WantedIsWritable(raws: seq<string>, interactive: set<string>, openaiKey: string, file: string)
    requires OneLineEach(raws) && DistinctTemplateKeys(ParseTemplate(raws))
    ensures Writable(raws, Chosen(raws, interactive, openaiKey, file))
  {
    var chosen := Chosen(raws, interactive, openaiKey, file);
    forall i | 0 <= i < |raws| ensures WritableLine(ParseTemplateLine(raws[i]), chosen) {
      WantedLineIsWritable(raws, interactive, openaiKey, file, i);
    }
  }

  lemma WantedLineIsWritable(raws: seq<string>, interactive: set<string>, openaiKey: string, file: string, i: nat)
    requires OneLineEach(raws) && DistinctTemplateKeys(ParseTemplate(raws)) && i < |raws|
    ensures WritableLine(ParseTemplateLine(raws[i]), Chosen(raws, interactive, openaiKey, file))
  {
    hide NormalizeOptional, ParseTemplateLine, Chosen, ValuesOf, KeysOf, StorableKey, StorableValue, DistinctTemplateKeys, Loaded, OneLine;
    var line := ParseTemplate(raws)[i];
    if line.key.Some? {
      var key := line.key.value;
      WantedIsChosen(raws, interactive, openaiKey, file, i);
      ParsedLine(raws[i]);
      NothingNormalizesToNothing();
      LoadedIsStorable(file);
      LoadedValue(Loaded(file), key);
      ValueIsOneLine(Lookup(Values(file), key));
      ValueIsOneLine(line.value);
      NormalizedIsStorableIf(Lookup(Values(file), key));
      NormalizedIsStorableIf(line.value);
    }
  }

  lemma ValueIsOneLine(value: Option<string>)
    ensures value.Some? && StorableValue(value.value) ==> OneLine(value.value)
  {
  }

  lemma NormalizedIsStorableIf(value: Option<string>)
    ensures (value.Some? ==> OneLine(value.value)) ==>
              var v := NormalizeOptional(value); v.Some? ==> StorableValue(v.value) && Trimmed(v.value) && v.value != ""
  {
    hide StorableValue;
    if value.Some? ==> OneLine(value.value) {
      NormalizedIsStorable(value);
    }
  }

  /** Everything the bootstrapped file assigns. */
  lemma BootstrapAssigns(raws: seq<string>, interactive: set<string>, openaiKey: string, file: string)
    requires OneLineEach(raws) && DistinctTemplateKeys(ParseTemplate(raws))
    ensures var template := ParseTemplate(raws);
            var unknown := UnknownKeys(template, Order(file));
            && (forall k :: k in unknown ==> k in Values(file))
            && Loaded(Bootstrap(raws, interactive, openaiKey, file))
               == TemplateAssigns(template, Chosen(raws, interactive, openaiKey, file)) + Pairs(unknown, Values(file))
  {
    hide ParseTemplate, Chosen, ValuesOf, KeysOf, TemplateAssigns, EnvLines, Document, Storable, Writable, UnknownKeys, AdditionalKeys, Assignments;
    var template := ParseTemplate(raws);
    var chosen := Chosen(raws, interactive, openaiKey, file);
    LoadedIsStorable(file);
    WantedIsWritable(raws, interactive, openaiKey, file);
    NothingAdditional(raws, interactive, openaiKey, file);
    WrittenAssignments(raws, chosen, Values(file), Order(file));
    assert Pairs([], ResolvedTexts(chosen)) == [];
  }

  // ---------- nothing is lost ----------

  // The first group of lines assigns template keys only.
  lemma TemplateGroup(template: seq<TemplateLine>, resolved: Resolved, a: Assignment)
    ensures a in TemplateAssigns(template, resolved) ==> IsTemplateKey(template, a.key)
  {
    TemplateAssignsExactly(template, resolved, a);
    if a in TemplateAssigns(template, resolved) {
      var j :| 0 <= j < |template| && LineAssigns(template[j], resolved) == Some(a);
      assert template[j].key == Some(a.key);
    }
  }

  // The second group assigns none of them, and only what the user had.
  lemma UnknownGroup(template: seq<TemplateLine>, order: seq<string>, values: map<string, string>, a: Assignment)
    requires forall k :: k in UnknownKeys(template, order) ==> k in values
    ensures a in Pairs(UnknownKeys(template, order), values) ==>
              !IsTemplateKey(template, a.key) && a.key in values && a.value == values[a.key]
  {
    hide UnknownKeys, IsTemplateKey;
    var pairs := Pairs(UnknownKeys(template, order), values);
    if a in pairs {
      var i :| 0 <= i < |pairs| && pairs[i] == a;
      assert a.key in UnknownKeys(template, order);
    }
  }

  // The value of a template key after the bootstrap is what its line assigns.
  lemma TemplateValueAfter(raws: seq<string>, interactive: set<string>, openaiKey: string, file: string, i: nat)
    requires OneLineEach(raws) && DistinctTemplateKeys(ParseTemplate(raws))
    requires i < |raws| && ParseTemplate(raws)[i].key.Some?
    ensures var line := ParseTemplate(raws)[i];
            var a := LineAssigns(line, Chosen(raws, interactive, openaiKey, file));
            Lookup(Values(Bootstrap(raws, interactive, openaiKey, file)), line.key.value)
            == if a.Some? then Some(a.value.value) else None
  {
    hide ParseTemplateLine, Chosen, ValuesOf, KeysOf, TemplateAssigns, Bootstrap, UnknownKeys, Storable, OneLine, Assignments;
    var template := ParseTemplate(raws);
    var chosen := Chosen(raws, interactive, openaiKey, file);
    var key := template[i].key.value;
    BootstrapAssigns(raws, interactive, openaiKey, file);
    var unknown := UnknownKeys(template, Order(file));
    var ours, theirs := TemplateAssigns(template, chosen), Pairs(unknown, Values(file));
    assert IsTemplateKey(template, key);
    forall a: Assignment | a in ours + theirs && a.key == key ensures LineAssigns(template[i], chosen) == Some(a) {
      TemplateGroup(template, chosen, a);
      UnknownGroup(template, Order(file), Values(file), a);
      TemplateAssignsExactly(template, chosen, a);
      var j :| 0 <= j < |template| && LineAssigns(template[j], chosen) == Some(a);
      assert j == i;
    }
    if LineAssigns(template[i], chosen).Some? {
      var a := LineAssigns(template[i], chosen).value;
      TemplateAssignsExactly(template, chosen, a);
      assert a in ours + theirs && a.key == key;
      LookupUniform(ours + theirs, key, a.value);
    } else {
      LookupAbsent(ours + theirs, key);
    }
  }

  // The user's other keys keep their values.
  lemma OtherValueAfter(raws: seq<string>, interactive: set<string>, openaiKey: string, file: string, key: string)
    requires OneLineEach(raws) && DistinctTemplateKeys(ParseTemplate(raws))
    requires !IsTemplateKey(ParseTemplate(raws), key)
    ensures Lookup(Values(Bootstrap(raws, interactive, openaiKey, file)), key) == Lookup(Values(file), key)
  {
    hide ParseTemplate, Chosen, ValuesOf, KeysOf, TemplateAssigns, Bootstrap, UnknownKeys, Storable, OneLine, Assignments;
    var template := ParseTemplate(raws);
    var chosen := Chosen(raws, interactive, openaiKey, file);
    BootstrapAssigns(raws, interactive, openaiKey, file);
    LoadedValue(Loaded(file), key);
    var unknown := UnknownKeys(template, Order(file));
    var ours, theirs := TemplateAssigns(template, chosen), Pairs(unknown, Values(file));
    forall a: Assignment | a in ours + theirs && a.key == key ensures key in Values(file) && a.value == Values(file)[key] {
      TemplateGroup(template, chosen, a);
      UnknownGroup(template, Order(file), Values(file), a);
    }
    if key in Values(file) {
      var k :| 0 <= k < |unknown| && unknown[k] == key;
      assert theirs[k] in theirs && theirs[k].key == key;
      assert theirs[k] in ours + theirs;
      LookupUniform(ours + theirs, key, Values(file)[key]);
    } else {
      LookupAbsent(ours + theirs, key);
    }
  }

  /** What becomes of every old assignment. A key outside the template keeps its value
      to the letter. A template key keeps its value up to trimming exactly when that is
      not blank and setup does not ask for the key interactively, the OpenAI key apart;
      otherwise its line goes back to the template: nothing for a comment, else the
      template's own default. */
  lemma BootstrapKeepsValues(raws: seq<string>, interactive: set<string>, openaiKey: string, file: string, key: string)
    requires OneLineEach(raws) && DistinctTemplateKeys(ParseTemplate(raws))
    requires key in Values(file)
    ensures var after := Lookup(Values(Bootstrap(raws, interactive, openaiKey, file)), key);
            var kept := Strip(Values(file)[key]) != "" && (key == openaiKey || key !in interactive);
            && (!IsTemplateKey(ParseTemplate(raws), key) ==> after == Some(Values(file)[key]))
            && (forall i :: 0 <= i < |raws| && ParseTemplate(raws)[i].key == Some(key) ==>
                  var line := ParseTemplate(raws)[i];
                  && after == (if kept then Some(Strip(Values(file)[key])) else if line.commented then None else line.value)
                  && (after == Some(Strip(Values(file)[key])) <==>
                        kept || (!line.commented && line.value == Some(Strip(Values(file)[key])))))
  {
    hide ParseTemplateLine, Chosen, ValuesOf, KeysOf, Bootstrap, Storable, OneLine, Loaded, DistinctTemplateKeys, Strip, Trimmed;
    var template := ParseTemplate(raws);
    if !IsTemplateKey(template, key) {
      OtherValueAfter(raws, interactive, openaiKey, file, key);
    }
    forall i | 0 <= i < |raws| && template[i].key == Some(key)
      ensures Lookup(Values(Bootstrap(raws, interactive, openaiKey, file)), key)
              == if Strip(Values(file)[key]) != "" && (key == openaiKey || key !in interactive) then Some(Strip(Values(file)[key]))
                 else if template[i].commented then None else template[i].value
    {
      TemplateValueAfter(raws, interactive, openaiKey, file, i);
      WantedIsChosen(raws, interactive, openaiKey, file, i);
      ParsedLine(raws[i]);
    }
  }

  // ---------- the fixpoint ----------

  // The value a line asks for after the bootstrap prints the same line.
  lemma LineSettles(raws: seq<string>, interactive: set<string>, openaiKey: string, file: string, i: nat)
    requires OneLineEach(raws) && DistinctTemplateKeys(ParseTemplate(raws)) && i < |raws|
    ensures var line := ParseTemplate(raws)[i];
            var written := Bootstrap(raws, interactive, openaiKey, file);
            RenderLine(line, Chosen(raws, interactive, openaiKey, written)) == RenderLine(line, Chosen(raws, interactive, openaiKey, file))
  {
    hide ParseTemplateLine, Chosen, ValuesOf, KeysOf, Bootstrap, Storable, OneLine, Loaded, DistinctTemplateKeys, Strip, Trimmed;
    var line := ParseTemplate(raws)[i];
    if line.key.Some? {
      var written := Bootstrap(raws, interactive, openaiKey, file);
      TemplateValueAfter(raws, interactive, openaiKey, file, i);
      WantedIsChosen(raws, interactive, openaiKey, file, i);
      WantedIsChosen(raws, interactive, openaiKey, written, i);
      ParsedLine(raws[i]);
      NormalizedTwice(Lookup(Values(file), line.key.value));
      NormalizedTwice(line.value);
      NormalizedTwice(None);
      if line.value.Some? {
        TrimmedNormalizes(line.value.value);
      }
    }
  }

  lemma NormalizedTwice(value: Option<string>)
    ensures NormalizeOptional(NormalizeOptional(value)) == NormalizeOptional(value)
    ensures NormalizeOptional(value).Some? ==> NonEmpty(NormalizeOptional(value))
  {
  }

  lemma TrimmedNormalizes(value: string)
    ensures Trimmed(value) ==> NormalizeOptional(Some(value)) == if value == "" then None else Some(value)
  {
  }

  lemma {:induction false} UnknownConcat(template: seq<TemplateLine>, a: seq<string>, b: seq<string>)
    ensures UnknownKeys(template, a + b) == UnknownKeys(template, a) + UnknownKeys(template, b)
  {
    hide IsTemplateKey;
    if b == [] {
      assert a + b == a;
    } else {
      UnknownConcat(template, a, b[..|b| - 1]);
      var n := |b| - 1;
      assert (a + b)[..|a + b| - 1] == a + b[..n] && (a + b)[|a + b| - 1] == b[n];
      var last := if IsTemplateKey(template, b[n]) then [] else [b[n]];
      assert UnknownKeys(template, b) == UnknownKeys(template, b[..n]) + last;
      assert UnknownKeys(template, a + b) == UnknownKeys(template, a + b[..n]) + last;
    }
  }

  lemma {:induction false} UnknownAll(template: seq<TemplateLine>, keys: seq<string>)
    ensures (forall k :: k in keys ==> IsTemplateKey(template, k)) ==> UnknownKeys(template, keys) == []
    ensures (forall k :: k in keys ==> !IsTemplateKey(template, k)) ==> UnknownKeys(template, keys) == keys
  {
    hide IsTemplateKey;
    if keys != [] {
      var n := |keys| - 1;
      UnknownAll(template, keys[..n]);
      assert keys == keys[..n] + [keys[n]];
    }
  }

  lemma KeysConcat(a: seq<Assignment>, b: seq<Assignment>)
    ensures KeysOf(a + b) == KeysOf(a) + KeysOf(b)
  {
  }

  // The bootstrapped file has the same unknown keys, in the same order.
  lemma UnknownSettles(raws: seq<string>, interactive: set<string>, openaiKey: string, file: string)
    requires OneLineEach(raws) && DistinctTemplateKeys(ParseTemplate(raws))
    ensures var template := ParseTemplate(raws);
            UnknownKeys(template, Order(Bootstrap(raws, interactive, openaiKey, file))) == UnknownKeys(template, Order(file))
  {
    hide ParseTemplate, Chosen, ValuesOf, TemplateAssigns, Bootstrap, UnknownKeys, Storable, OneLine, Assignments, IsTemplateKey;
    var template := ParseTemplate(raws);
    var chosen := Chosen(raws, interactive, openaiKey, file);
    BootstrapAssigns(raws, interactive, openaiKey, file);
    var unknown := UnknownKeys(template, Order(file));
    var ours, theirs := TemplateAssigns(template, chosen), Pairs(unknown, Values(file));
    KeysConcat(ours, theirs);
    assert KeysOf(theirs) == unknown;
    forall k | k in KeysOf(ours) ensures IsTemplateKey(template, k) {
      var i :| 0 <= i < |ours| && ours[i].key == k;
      assert ours[i] in ours;
      TemplateGroup(template, chosen, ours[i]);
    }
    UnknownConcat(template, KeysOf(ours), unknown);
    UnknownAll(template, KeysOf(ours));
    UnknownAll(template, unknown);
  }

  /** Bootstrapping settles in one pass: running it on its own output writes the same
      text, with or without the OpenAI key in the template. */
  lemma BootstrapSettles(raws: seq<string>, interactive: set<string>, openaiKey: string, file: string)
    requires OneLineEach(raws) && DistinctTemplateKeys(ParseTemplate(raws))
    ensures var written := Bootstrap(raws, interactive, openaiKey, file);
            Bootstrap(raws, interactive, openaiKey, written) == written
  {
    hide ParseTemplate, Chosen, ValuesOf, KeysOf, UnknownKeys, AdditionalKeys, Storable, OneLine, Loaded, RenderLine, AddGroup, Document,
      DistinctTemplateKeys, IsTemplateKey;
    var template := ParseTemplate(raws);
    var written := Bootstrap(raws, interactive, openaiKey, file);
    var (chosen, chosen') := (Chosen(raws, interactive, openaiKey, file), Chosen(raws, interactive, openaiKey, written));
    LoadedIsStorable(file);
    LoadedIsStorable(written);
    forall i | 0 <= i < |raws|
      ensures RenderLine(template[i], chosen') == RenderLine(template[i], chosen)
    {
      LineSettles(raws, interactive, openaiKey, file, i);
    }
    assert RenderLines(template, chosen') == RenderLines(template, chosen);
    UnknownSettles(raws, interactive, openaiKey, file);
    var unknown := UnknownKeys(template, Order(file));
    forall k | k in unknown ensures k in Values(written) && k in Values(file) && Values(written)[k] == Values(file)[k] {
      OtherValueAfter(raws, interactive, openaiKey, file, k);
    }
    assert AssignLines(unknown, Values(written)) == AssignLines(unknown, Values(file));
    NothingAdditional(raws, interactive, openaiKey, file);
    NothingAdditional(raws, interactive, openaiKey, written);
    assert AssignLines([], ResolvedTexts(chosen)) == AssignLines([], ResolvedTexts(chosen'));
  }
}
