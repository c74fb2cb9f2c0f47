/** What the merge of template and user file keeps: every value the user set, a
    text that a second run leaves alone, and one reading by all readers. */
module EnvRewrite {
  import opened Wrappers
  import opened Text
  import opened EnvFile

  // ---------- assignments that survive as lines ----------

  predicate StorableKey(key: string) {
    key != "" && Trimmed(key) && !Contains(key, '=') && key[0] != '#' && OneLine(key)
  }

  predicate StorableValue(value: string) {
    OneLine(value) && (value == "" || !IsSpace(value[|value| - 1]))
  }

  predicate Storable(a: Assignment) {
    StorableKey(a.key) && StorableValue(a.value)
  }

  predicate AllStorable(assignments: seq<Assignment>) {
    forall i :: 0 <= i < |assignments| ==> Storable(assignments[i])
  }

  function LineOf(a: Assignment): string {
    a.key + "=" + a.value
  }

  lemma LineOfShape(a: Assignment)
    requires Storable(a)
    ensures Trimmed(LineOf(a)) && OneLine(LineOf(a)) && LineOf(a)[0] == a.key[0] && Contains(LineOf(a), '=')
    ensures IndexOf(LineOf(a), '=') == |a.key|
    ensures LineOf(a)[..|a.key|] == a.key && LineOf(a)[|a.key| + 1..] == a.value
  {
    var line := LineOf(a);
    IndexOfFirst(a.key, '=', a.value);
    assert line == a.key + ['='] + a.value;
    assert line[|a.key|] == '=';
    assert a.value != "" ==> line[|line| - 1] == a.value[|a.value| - 1];
    assert forall i :: 0 <= i < |line| ==>
      line[i] == if i < |a.key| then a.key[i] else if i == |a.key| then '=' else a.value[i - |a.key| - 1];
  }

  lemma StorableReads(a: Assignment)
    requires Storable(a)
    ensures ReadAssignment(LineOf(a)) == Some(a) && OneLine(LineOf(a))
  {
    hide Trimmed, Contains, OneLine, AllSpace, LineOf;
    LineOfShape(a);
    assert Strip(LineOf(a)) == LineOf(a) && Strip(a.key) == a.key;
  }

  lemma CutKey(s: string, k: nat)
    requires k == IndexOf(s, '=') && s != "" && Trimmed(s) && OneLine(s)
    requires Strip(s[..k]) != ""
    ensures var key := Strip(s[..k]);
            Trimmed(key) && !Contains(key, '=') && OneLine(key) && key[0] == s[0]
  {
    hide IsSpace, IsBreak;
    StripKeepsOut(s[..k], '=');
    assert k > 0;
    assert s[..k][0] == s[0];
    StripKeepsStart(s[..k]);
    assert forall i :: 0 <= i < k ==> s[..k][i] == s[i];
  }

  lemma ReadIsStorable(line: string)
    requires OneLine(line) && ReadAssignment(line).Some?
    ensures Storable(ReadAssignment(line).value)
  {
    hide IsSpace, IsBreak, Strip;
    var s := Strip(line);
    var k := IndexOf(s, '=');
    CutKey(s, k);
    var value := s[k + 1..];
    assert forall i :: 0 <= i < |value| ==> value[i] == s[k + 1 + i];
  }

  lemma {:induction false} LoadedAreStorable(lines: seq<string>)
    requires OneLineEach(lines)
    ensures AllStorable(Assignments(lines))
  {
    hide ReadAssignment, Storable, OneLine;
    if lines != [] {
      var last := lines[|lines| - 1];
      LoadedAreStorable(lines[..|lines| - 1]);
      if ReadAssignment(last).Some? {
        ReadIsStorable(last);
      }
    }
  }

  // ---------- reading lists of lines ----------

  lemma {:induction false} AssignmentsConcat(a: seq<string>, b: seq<string>)
    ensures Assignments(a + b) == Assignments(a) + Assignments(b)
  {
    hide ReadAssignment, OneOrNone;
    if b == [] {
      assert a + b == a;
    } else {
      AssignmentsConcat(a, b[..|b| - 1]);
      assert (a + b)[..|a + b| - 1] == a + b[..|b| - 1];
    }
  }

  // Reads the lines of these assignments back.
  lemma {:induction false} StorableLinesRead(lines: seq<string>, assignments: seq<Assignment>)
    requires |lines| == |assignments| && AllStorable(assignments)
    requires forall i :: 0 <= i < |lines| ==> lines[i] == LineOf(assignments[i])
    ensures Assignments(lines) == assignments && OneLineEach(lines)
  {
    hide ReadAssignment, Storable, LineOf, OneLine;
    if lines != [] {
      var n := |lines| - 1;
      StorableLinesRead(lines[..n], assignments[..n]);
      StorableReads(assignments[n]);
      assert assignments == assignments[..n] + [assignments[n]];
    }
  }

  lemma GroupReads(lines: seq<string>, group: seq<string>)
    requires OneLineEach(lines) && OneLineEach(group)
    ensures Assignments(AddGroup(lines, group)) == Assignments(lines) + Assignments(group)
    ensures OneLineEach(AddGroup(lines, group))
  {
    hide Assignments, OneLine;
    OnlyBlank();
    BlankReadsNothing();
    if group != [] && lines != [] && lines[|lines| - 1] != "" {
      AssignmentsConcat(lines, [""]);
      AssignmentsConcat(lines + [""], group);
    } else {
      AssignmentsConcat(lines, group);
    }
  }

  lemma OnlyBlank()
    ensures Assignments([""]) == [] && Assignments([]) == []
  {
    BlankReadsNothing();
    assert [""][..0] == [];
  }

  lemma BlankReadsNothing()
    ensures ReadAssignment("") == None && OneLine("")
  {
  }

  // ---------- template lines ----------

  /** What a template line becomes once it is written. */
  function LineAssigns(line: TemplateLine, resolved: Resolved): Option<Assignment> {
    if line.key.None? then None
    else
      var value := resolved.Get(line.key.value);
      if NonEmpty(value) then Some(Assignment(line.key.value, value.value))
      else if line.commented || line.value.None? then None
      else Some(Assignment(line.key.value, line.value.value))
  }

  lemma ParsedLine(raw: string)
    requires OneLine(raw)
    ensures var line := ParseTemplateLine(raw);
            && (line.key.None? || line.commented ==> ReadAssignment(raw) == None)
            && (line.key.Some? ==> line.value.Some? && line.raw == raw)
            && (line.key.Some? && !line.commented ==>
                  Storable(Assignment(line.key.value, line.value.value)) && Trimmed(line.value.value))
  {
    hide IsSpace, IsBreak, Strip;
    var s := Strip(raw);
    if s != "" && Contains(s, '=') && s[0] != '#' {
      var k := IndexOf(s, '=');
      if Strip(s[..k]) != "" {
        CutKey(s, k);
        var value := s[k + 1..];
        assert forall i :: 0 <= i < |value| ==> value[i] == s[k + 1 + i];
        assert OneLine(value);
      }
    }
  }

  predicate Writable(raws: seq<string>, resolved: Resolved) {
    forall i :: 0 <= i < |raws| ==> WritableLine(ParseTemplateLine(raws[i]), resolved)
  }

  // A value chosen for this line can stand on a line of its own.
  predicate WritableLine(line: TemplateLine, resolved: Resolved) {
    line.key.Some? && NonEmpty(resolved.Get(line.key.value)) ==>
      Storable(Assignment(line.key.value, resolved.Get(line.key.value).value))
  }

  lemma RenderedLineReads(raw: string, resolved: Resolved)
    requires OneLine(raw) && WritableLine(ParseTemplateLine(raw), resolved)
    ensures var line := ParseTemplateLine(raw);
            ReadAssignment(RenderLine(line, resolved)) == LineAssigns(line, resolved) && OneLine(RenderLine(line, resolved))
  {
    hide Storable, ReadAssignment, OneLine, Strip;
    ParsedLine(raw);
    var line := ParseTemplateLine(raw);
    var a := LineAssigns(line, resolved);
    if a.Some? {
      StorableReads(a.value);
    }
  }

  function TemplateAssigns(template: seq<TemplateLine>, resolved: Resolved): seq<Assignment> {
    if template == [] then []
    else
      var n := |template| - 1;
      TemplateAssigns(template[..n], resolved) + OneOrNone(LineAssigns(template[n], resolved))
  }

  lemma {:induction false} TemplateAssignsExactly(template: seq<TemplateLine>, resolved: Resolved, a: Assignment)
    ensures a in TemplateAssigns(template, resolved) <==>
            exists i :: 0 <= i < |template| && LineAssigns(template[i], resolved) == Some(a)
  {
    hide LineAssigns;
    if template != [] {
      var n := |template| - 1;
      TemplateAssignsExactly(template[..n], resolved, a);
      assert forall i :: 0 <= i < n ==> template[..n][i] == template[i];
    }
  }

  lemma {:induction false} TemplateReads(raws: seq<string>, resolved: Resolved)
    requires OneLineEach(raws) && Writable(raws, resolved)
    ensures var lines := RenderLines(ParseTemplate(raws), resolved);
            Assignments(lines) == TemplateAssigns(ParseTemplate(raws), resolved) && OneLineEach(lines)
  {
    hide ReadAssignment, ParseTemplateLine, LineAssigns, RenderLine, OneLine, WritableLine;
    if raws != [] {
      var n := |raws| - 1;
      TemplateReads(raws[..n], resolved);
      RenderedLineReads(raws[n], resolved);
      var template, lines := ParseTemplate(raws), RenderLines(ParseTemplate(raws), resolved);
      assert template[..n] == ParseTemplate(raws[..n]);
      assert lines[..n] == RenderLines(ParseTemplate(raws[..n]), resolved);
      assert lines[n] == RenderLine(template[n], resolved);
      OneLineOneMore(lines[..n], lines[n]);
      assert lines[..n] + [lines[n]] == lines;
    }
  }

  lemma OneLineOneMore(lines: seq<string>, line: string)
    requires OneLineEach(lines) && OneLine(line)
    ensures OneLineEach(lines + [line])
  {
    hide OneLine;
  }

  // ---------- the written file ----------

  function Pairs(keys: seq<string>, values: map<string, string>): (pairs: seq<Assignment>)
    requires forall k :: k in keys ==> k in values
    ensures |pairs| == |keys|
    ensures forall i :: 0 <= i < |keys| ==> pairs[i] == Assignment(keys[i], values[keys[i]])
  {
    seq(|keys|, i requires 0 <= i < |keys| => Assignment(keys[i], values[keys[i]]))
  }

  predicate AllPairsStorable(keys: seq<string>, values: map<string, string>)
    requires forall k :: k in keys ==> k in values
  {
    forall k :: k in keys ==> Storable(Assignment(k, values[k]))
  }

  lemma GroupLinesRead(keys: seq<string>, values: map<string, string>)
    requires forall k :: k in keys ==> k in values
    requires AllPairsStorable(keys, values)
    ensures Assignments(AssignLines(keys, values)) == Pairs(keys, values) && OneLineEach(AssignLines(keys, values))
  {
    hide Storable;
    StorableLinesRead(AssignLines(keys, values), Pairs(keys, values));
  }

  /** All that a written file assigns: the template's lines, then the user's other
      keys, then chosen values of keys that neither of them has. */
  lemma WrittenAssignments(raws: seq<string>, resolved: Resolved, existing: map<string, string>, order: seq<string>)
    requires OneLineEach(raws) && Writable(raws, resolved)
    requires forall k :: k in order ==> k in existing
    requires AllPairsStorable(order, existing)
    requires var template := ParseTemplate(raws);
             AllPairsStorable(AdditionalKeys(template, UnknownKeys(template, order), resolved, resolved.order), ResolvedTexts(resolved))
    ensures var template := ParseTemplate(raws);
            var unknown := UnknownKeys(template, order);
            var additional := AdditionalKeys(template, unknown, resolved, resolved.order);
            var text := Document(EnvLines(template, resolved, existing, order));
            && Assignments(SplitLines(text))
               == TemplateAssigns(template, resolved) + Pairs(unknown, existing) + Pairs(additional, ResolvedTexts(resolved))
            && OneLineEach(EnvLines(template, resolved, existing, order))
            && (SplitLines(text) == EnvLines(template, resolved, existing, order)
                || (EnvLines(template, resolved, existing, order) == [] && SplitLines(text) == [""]))
  {
    hide Storable, OneLine, Writable, TemplateAssigns, Assignments, AddGroup, AssignLines, RenderLines, Pairs, Document;
    var template := ParseTemplate(raws);
    var unknown := UnknownKeys(template, order);
    var additional := AdditionalKeys(template, unknown, resolved, resolved.order);
    TemplateReads(raws, resolved);
    GroupLinesRead(unknown, existing);
    GroupLinesRead(additional, ResolvedTexts(resolved));
    var lines := RenderLines(template, resolved);
    GroupReads(lines, AssignLines(unknown, existing));
    GroupReads(AddGroup(lines, AssignLines(unknown, existing)), AssignLines(additional, ResolvedTexts(resolved)));
    SplitDocument(EnvLines(template, resolved, existing, order));
    OnlyBlank();
  }

  // ---------- looking values up ----------

  lemma {:induction false} LookupAbsent(assignments: seq<Assignment>, key: string)
    requires forall a :: a in assignments ==> a.key != key
    ensures Lookup(ValuesOf(assignments), key) == None
  {
    if assignments != [] {
      var n := |assignments| - 1;
      assert assignments[n] in assignments;
      LookupAbsent(assignments[..n], key);
    }
  }

  lemma {:induction false} LookupUniform(assignments: seq<Assignment>, key: string, value: string)
    requires forall a :: a in assignments && a.key == key ==> a.value == value
    requires exists a :: a in assignments && a.key == key
    ensures Lookup(ValuesOf(assignments), key) == Some(value)
  {
    var n := |assignments| - 1;
    assert assignments == assignments[..n] + [assignments[n]];
    if assignments[n].key == key {
      assert assignments[n] in assignments;
    } else {
      LookupUniform(assignments[..n], key, value);
    }
  }

  lemma {:induction false} LoadedValue(assignments: seq<Assignment>, key: string)
    ensures key in KeysOf(assignments) <==> key in ValuesOf(assignments)
    ensures key in ValuesOf(assignments) ==> Assignment(key, ValuesOf(assignments)[key]) in assignments
  {
    if assignments != [] {
      var n := |assignments| - 1;
      LoadedValue(assignments[..n], key);
      assert KeysOf(assignments) == KeysOf(assignments[..n]) + [assignments[n].key];
      assert assignments == assignments[..n] + [assignments[n]];
    }
  }

  lemma LoadedPairs(assignments: seq<Assignment>)
    requires AllStorable(assignments)
    ensures forall k :: k in KeysOf(assignments) ==> k in ValuesOf(assignments)
    ensures AllPairsStorable(KeysOf(assignments), ValuesOf(assignments))
  {
    hide Storable;
    forall k | k in KeysOf(assignments)
      ensures k in ValuesOf(assignments) && Storable(Assignment(k, ValuesOf(assignments)[k]))
    {
      LoadedValue(assignments, k);
    }
  }
}
