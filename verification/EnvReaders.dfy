/** The readers of the env file agree on every file that is written with
    environment-style keys. */
module EnvReaders {
  import opened Wrappers
  import opened Text
  import opened EnvFile
  import opened EnvRewrite
  import opened EnvBootstrap

  predicate SameReading(line: string) {
    MatchEnvLine(line) == ReadAssignment(line)
  }

  predicate AllSameReading(lines: seq<string>) {
    forall i :: 0 <= i < |lines| ==> SameReading(lines[i])
  }

  lemma {:induction false} SameReadingSameAssignments(lines: seq<string>)
    requires AllSameReading(lines)
    ensures Matches(lines) == Assignments(lines)
  {
    hide MatchEnvLine, ReadAssignment;
    if lines != [] {
      SameReadingSameAssignments(lines[..|lines| - 1]);
      assert SameReading(lines[|lines| - 1]);
    }
  }

  lemma StorableMatches(a: Assignment)
    requires Storable(a) && EnvKey(a.key)
    ensures SameReading(LineOf(a))
  {
    hide Trimmed, OneLine, Contains, LineOf, EnvKey;
    LineOfShape(a);
    StorableReads(a);
    assert !IsSpace(LineOf(a)[0]) by { KeyStartsText(a.key); }
    assert TextStart(LineOf(a)) == 0;
    assert LineOf(a)[0..] == LineOf(a);
  }

  lemma KeyStartsText(key: string)
    requires key != "" && Trimmed(key)
    ensures !IsSpace(key[0])
  {
  }

  lemma BodyOf(raw: string) returns (tail: string)
    ensures AllSpace(tail) && raw[TextStart(raw)..] == Strip(raw) + tail
  {
    hide AllSpace, Trimmed, OneLine, IsSpace;
    var start, end := TextStart(raw), TextEnd(raw);
    tail := "";
    NothingIsBlank();
    if start < |raw| {
      SpaceAround(raw);
      StartBeforeEnd(raw);
      CutInThree(raw, start, end);
      tail := raw[end..];
    }
  }

  lemma NothingIsBlank()
    ensures AllSpace("")
  {
  }

  lemma StartBeforeEnd(s: string)
    requires TextStart(s) < |s|
    ensures TextStart(s) < TextEnd(s)
  {
  }

  lemma FirstEquals(s: string, tail: string)
    requires AllSpace(tail)
    ensures IndexOf(s + tail, '=') == if Contains(s, '=') then IndexOf(s, '=') else |s + tail|
  {
    var body := s + tail;
    assert forall i :: 0 <= i < |body| ==> body[i] == if i < |s| then s[i] else tail[i - |s|];
    assert forall i :: 0 <= i < |s| ==> s[i] == body[i];
  }

  lemma BlankKey(s: string, k: nat)
    requires k <= |s| && s != "" && !IsSpace(s[0])
    ensures Strip(s[..k]) == "" ==> k == 0
  {
    hide Strip, IsSpace;
    if k > 0 {
      StripKeepsStart(s[..k]);
    }
  }

  // What the regular expression makes of a line without an assignment.
  lemma NoMatch(raw: string)
    requires var s := Strip(raw);
             s == "" || !Contains(s, '=') || s[0] == '#' || Strip(s[..IndexOf(s, '=')]) == ""
    ensures MatchEnvLine(raw) == None
  {
    hide Strip, IsSpace, AllSpace, OneLine;
    var s := Strip(raw);
    var tail := BodyOf(raw);
    FirstEquals(s, tail);
    var k := IndexOf(s, '=');
    if Contains(s, '=') {
      assert !IsSpace(s[0]) by { KeyStartsText(s); }
      BlankKey(s, k);
      assert (s + tail)[..k] == s[..k];
      HashIsNoKey(s, k);
    }
  }

  lemma HashIsNoKey(s: string, k: nat)
    requires k <= |s| && s != ""
    ensures s[0] == '#' ==> !EnvKey(s[..k])
  {
    assert k > 0 ==> s[..k][0] == s[0];
  }

  lemma TemplateLineAgrees(raw: string, resolved: Resolved)
    requires OneLine(raw) && WritableLine(ParseTemplateLine(raw), resolved)
    requires var line := ParseTemplateLine(raw); line.key.Some? ==> EnvKey(line.key.value)
    ensures SameReading(RenderLine(ParseTemplateLine(raw), resolved))
  {
    hide MatchEnvLine, ReadAssignment, Storable, EnvKey, Strip, OneLine, Contains;
    var line := ParseTemplateLine(raw);
    ParsedLine(raw);
    var a := LineAssigns(line, resolved);
    if a.Some? {
      StorableMatches(a.value);
    } else {
      NoMatch(raw);
    }
  }

  predicate EnvKeys(keys: seq<string>) {
    forall k :: k in keys ==> EnvKey(k)
  }

  predicate EnvTemplate(raws: seq<string>) {
    forall i :: 0 <= i < |raws| ==> var line := ParseTemplateLine(raws[i]); line.key.Some? ==> EnvKey(line.key.value)
  }

  // Chosen values are trimmed and lie on one line.
  predicate CleanValues(resolved: Resolved) {
    forall k :: k in resolved.values && NonEmpty(resolved.Get(k)) ==> Trimmed(resolved.Get(k).value) && OneLine(resolved.Get(k).value)
  }

  lemma CleanIsStorable(key: string, value: string)
    requires EnvKey(key) && Trimmed(value) && OneLine(value)
    ensures Storable(Assignment(key, value))
  {
    assert forall i :: 0 <= i < |key| ==> IsEnvKeyChar(key[i]);
  }

  lemma CleanIsWritable(raws: seq<string>, resolved: Resolved)
    requires EnvTemplate(raws) && CleanValues(resolved)
    ensures Writable(raws, resolved)
  {
    hide EnvKey, Trimmed, OneLine, Storable, ParseTemplateLine;
    forall i | 0 <= i < |raws| ensures WritableLine(ParseTemplateLine(raws[i]), resolved) {
      var line := ParseTemplateLine(raws[i]);
      if line.key.Some? && NonEmpty(resolved.Get(line.key.value)) {
        CleanIsStorable(line.key.value, resolved.Get(line.key.value).value);
      }
    }
  }

  lemma GroupAgrees(keys: seq<string>, values: map<string, string>)
    requires forall k :: k in keys ==> k in values
    requires AllPairsStorable(keys, values) && EnvKeys(keys)
    ensures AllSameReading(AssignLines(keys, values))
  {
    hide EnvKey, Storable, SameReading;
    forall i | 0 <= i < |keys| ensures SameReading(AssignLines(keys, values)[i]) {
      assert keys[i] in keys;
      StorableMatches(Assignment(keys[i], values[keys[i]]));
    }
  }

  lemma AddedGroupAgrees(lines: seq<string>, group: seq<string>)
    requires AllSameReading(lines) && AllSameReading(group)
    ensures AllSameReading(AddGroup(lines, group))
  {
    hide SameReading;
    assert SameReading("") by { BlankAgrees(); }
  }

  lemma BlankAgrees()
    ensures SameReading("")
  {
  }

  // A file as it is written from a template, chosen values and the user's file.
  function Written(raws: seq<string>, resolved: Resolved, file: string): string {
    LoadedIsStorable(file);
    Document(EnvLines(ParseTemplate(raws), resolved, Values(file), Order(file)))
  }

  /** Everything that such a file assigns, and that both loaders read it alike. */
  lemma WrittenReads(raws: seq<string>, resolved: Resolved, file: string)
    requires OneLineEach(raws) && EnvTemplate(raws) && EnvKeys(Order(file)) && EnvKeys(resolved.order)
    requires CleanValues(resolved)
    ensures var template := ParseTemplate(raws);
            var unknown := UnknownKeys(template, Order(file));
            var additional := AdditionalKeys(template, unknown, resolved, resolved.order);
            var text := Written(raws, resolved, file);
            && (forall k :: k in unknown ==> k in Values(file))
            && Loaded(text) == TemplateAssigns(template, resolved) + Pairs(unknown, Values(file))
                               + Pairs(additional, ResolvedTexts(resolved))
            && Matches(SplitLines(text)) == Loaded(text)
  {
    hide EnvKey, Trimmed, OneLine, Storable, ParseTemplateLine, Document, Assignments, Matches, UnknownKeys, AdditionalKeys, ValuesOf,
      KeysOf, SameReading, RenderLine, AddGroup, AssignLines, TemplateAssigns;
    var template := ParseTemplate(raws);
    var unknown := UnknownKeys(template, Order(file));
    var additional := AdditionalKeys(template, unknown, resolved, resolved.order);
    LoadedIsStorable(file);
    CleanIsWritable(raws, resolved);
    forall k | k in additional ensures Storable(Assignment(k, ResolvedTexts(resolved)[k])) {
      CleanIsStorable(k, ResolvedTexts(resolved)[k]);
    }
    WrittenAssignments(raws, resolved, Values(file), Order(file));
    var lines := RenderLines(template, resolved);
    forall i | 0 <= i < |lines| ensures SameReading(lines[i]) {
      TemplateLineAgrees(raws[i], resolved);
    }
    GroupAgrees(unknown, Values(file));
    GroupAgrees(additional, ResolvedTexts(resolved));
    AddedGroupAgrees(lines, AssignLines(unknown, Values(file)));
    AddedGroupAgrees(AddGroup(lines, AssignLines(unknown, Values(file))), AssignLines(additional, ResolvedTexts(resolved)));
    BlankAgrees();
    SameReadingSameAssignments(SplitLines(Written(raws, resolved, file)));
  }

  /** The two loaders return the same assignments for a written file. */
  lemma LoadersAgree(raws: seq<string>, resolved: Resolved, file: string)
    requires OneLineEach(raws) && EnvTemplate(raws) && EnvKeys(Order(file)) && EnvKeys(resolved.order)
    requires CleanValues(resolved)
    ensures var text := Written(raws, resolved, file);
            ValuesOf(Matches(SplitLines(text))) == ValuesOf(Assignments(SplitLines(text)))
  {
    WrittenReads(raws, resolved, file);
  }

  lemma {:induction false} SomeLineAssigns(lines: seq<string>, a: Assignment)
    requires a in Assignments(lines)
    ensures exists i :: 0 <= i < |lines| && ReadAssignment(lines[i]) == Some(a)
  {
    hide ReadAssignment;
    var n := |lines| - 1;
    if ReadAssignment(lines[n]) != Some(a) {
      SomeLineAssigns(lines[..n], a);
      var i :| 0 <= i < n && ReadAssignment(lines[..n][i]) == Some(a);
      assert lines[i] == lines[..n][i];
    }
  }

  /** Every template key with a chosen value loads back to that value, and the key
      check reports it present. */
  lemma ChosenValueIsRead(raws: seq<string>, resolved: Resolved, file: string, key: string)
    requires OneLineEach(raws) && EnvTemplate(raws) && EnvKeys(Order(file)) && EnvKeys(resolved.order)
    requires CleanValues(resolved)
    requires IsTemplateKey(ParseTemplate(raws), key) && NonEmpty(resolved.Get(key))
    ensures var lines := SplitLines(Written(raws, resolved, file));
            && Lookup(ValuesOf(Assignments(lines)), key) == resolved.Get(key)
            && exists i :: 0 <= i < |lines| && Declares(lines[i], key)
  {
    hide ParseTemplateLine, ValuesOf, KeysOf, TemplateAssigns, UnknownKeys, AdditionalKeys, OneLine, Assignments, Matches, Written, EnvKey,
      EnvTemplate, EnvKeys, Trimmed, ReadAssignment, Strip;
    var template := ParseTemplate(raws);
    var value := resolved.Get(key).value;
    var lines := SplitLines(Written(raws, resolved, file));
    WrittenReads(raws, resolved, file);
    var unknown := UnknownKeys(template, Order(file));
    var additional := AdditionalKeys(template, unknown, resolved, resolved.order);
    var (g1, g2, g3) := (TemplateAssigns(template, resolved), Pairs(unknown, Values(file)), Pairs(additional, ResolvedTexts(resolved)));
    forall a: Assignment | a in g1 + g2 + g3 && a.key == key ensures a.value == value {
      TemplateAssignsExactly(template, resolved, a);
      UnknownGroup(template, Order(file), Values(file), a);
      assert a in g3 ==> a.key in additional;
    }
    var i :| 0 <= i < |template| && template[i].key == Some(key);
    var a := Assignment(key, value);
    assert LineAssigns(template[i], resolved) == Some(a);
    TemplateAssignsExactly(template, resolved, a);
    assert a in g1 + g2 + g3;
    LookupUniform(g1 + g2 + g3, key, value);
    SomeLineAssigns(lines, a);
    assert Strip(value) == value;
    var j :| 0 <= j < |lines| && ReadAssignment(lines[j]) == Some(a);
    DeclaresIsAssigns(lines[j], key);
  }
}
