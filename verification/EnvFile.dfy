/** The env file: the template, the merge that rewrites a user's file, and the
    readers. The loops are methods; each computes one of the functions here. */
module EnvFile {
  import opened Wrappers
  import opened Text

  datatype Assignment = Assignment(key: string, value: string)

  datatype TemplateLine = TemplateLine(raw: string, key: Option<string>, value: Option<string>, commented: bool)

  /** The values chosen for a file, in the order in which they were chosen. */
  datatype Resolved = Resolved(order: seq<string>, values: map<string, Option<string>>) {
    function Put(key: string, value: Option<string>): Resolved {
      Resolved(if key in values then order else order + [key], values[key := value])
    }

    function Get(key: string): Option<string> {
      if key in values then values[key] else None
    }
  }

  // ---------- the template ----------

  function ParseTemplateLine(raw: string): TemplateLine {
    var stripped := Strip(raw);
    if stripped == "" || !Contains(stripped, '=') then TemplateLine(raw, None, None, false)
    else
      var commented := stripped[0] == '#';
      var assignment := if commented then Strip(stripped[1..]) else stripped;
      var k := IndexOf(assignment, '=');
      var key := Strip(assignment[..k]);
      var value := if k < |assignment| then assignment[k + 1..] else "";
      if key == "" then TemplateLine(raw, None, None, false)
      else TemplateLine(raw, Some(key), Some(Strip(value)), commented)
  }

  function ParseTemplate(raws: seq<string>): (template: seq<TemplateLine>)
    ensures |template| == |raws|
    ensures forall i :: 0 <= i < |raws| ==> template[i] == ParseTemplateLine(raws[i])
  {
    seq(|raws|, i requires 0 <= i < |raws| => ParseTemplateLine(raws[i]))
  }

  method ParseEnvTemplateLines(raws: seq<string>) returns (parsed: seq<TemplateLine>)
    ensures parsed == ParseTemplate(raws)
  {
    hide Strip;
    parsed := [];
    for i := 0 to |raws|
      invariant parsed == ParseTemplate(raws)[..i]
    {
      parsed := parsed + [ParseTemplateLine(raws[i])];
    }
  }

  predicate IsTemplateKey(template: seq<TemplateLine>, key: string) {
    exists i :: 0 <= i < |template| && template[i].key == Some(key)
  }

  predicate DistinctTemplateKeys(template: seq<TemplateLine>) {
    forall i, j :: 0 <= i < j < |template| && template[i].key.Some? ==> template[i].key != template[j].key
  }

  // ---------- the loader of assignments ----------

  function ReadAssignment(line: string): Option<Assignment> {
    var stripped := Strip(line);
    if stripped == "" || stripped[0] == '#' || !Contains(stripped, '=') then None
    else
      var k := IndexOf(stripped, '=');
      var key := Strip(stripped[..k]);
      if key == "" || k == |stripped| then None else Some(Assignment(key, stripped[k + 1..]))
  }

  function OneOrNone(a: Option<Assignment>): seq<Assignment> {
    if a.Some? then [a.value] else []
  }

  function Assignments(lines: seq<string>): seq<Assignment> {
    if lines == [] then []
    else Assignments(lines[..|lines| - 1]) + OneOrNone(ReadAssignment(lines[|lines| - 1]))
  }

  // The last assignment of a key decides.
  function ValuesOf(assignments: seq<Assignment>): map<string, string> {
    if assignments == [] then map[]
    else
      var last := assignments[|assignments| - 1];
      ValuesOf(assignments[..|assignments| - 1])[last.key := last.value]
  }

  function KeysOf(assignments: seq<Assignment>): (keys: seq<string>)
    ensures |keys| == |assignments|
    ensures forall i :: 0 <= i < |keys| ==> keys[i] == assignments[i].key
  {
    seq(|assignments|, i requires 0 <= i < |assignments| => assignments[i].key)
  }

  lemma OneMoreLine(lines: seq<string>, i: nat)
    requires i < |lines|
    ensures Assignments(lines[..i + 1]) == Assignments(lines[..i]) + OneOrNone(ReadAssignment(lines[i]))
    ensures Matches(lines[..i + 1]) == Matches(lines[..i]) + OneOrNone(MatchEnvLine(lines[i]))
  {
    hide ReadAssignment, MatchEnvLine;
    assert lines[..i + 1][..i] == lines[..i];
  }

  lemma OneMoreAssignment(before: seq<Assignment>, a: Assignment)
    ensures ValuesOf(before + [a]) == ValuesOf(before)[a.key := a.value]
    ensures KeysOf(before + [a]) == KeysOf(before) + [a.key]
  {
    assert (before + [a])[..|before|] == before;
  }

  method LoadEnvAssignments(text: string) returns (values: map<string, string>, order: seq<string>)
    ensures values == ValuesOf(Assignments(SplitLines(text)))
    ensures order == KeysOf(Assignments(SplitLines(text)))
  {
    hide Strip, ValuesOf, KeysOf, Trimmed, OneLine, AllSpace;
    values, order := map[], [];
    var lines := SplitLines(text);
    NoLinesNoValues();
    for i := 0 to |lines|
      invariant values == ValuesOf(Assignments(lines[..i]))
      invariant order == KeysOf(Assignments(lines[..i]))
    {
      OneMoreLine(lines, i);
      var stripped := Strip(lines[i]);
      if stripped == "" || stripped[0] == '#' || !Contains(stripped, '=') {
        assert Assignments(lines[..i + 1]) == Assignments(lines[..i]);
        continue;
      }
      var k := IndexOf(stripped, '=');
      var key := Strip(stripped[..k]);
      if key == "" {
        assert Assignments(lines[..i + 1]) == Assignments(lines[..i]);
        continue;
      }
      var value := stripped[k + 1..];
      OneMoreAssignment(Assignments(lines[..i]), Assignment(key, value));
      values := values[key := value];
      order := order + [key];
    }
    assert lines[..|lines|] == lines;
  }

  lemma NoLinesNoValues()
    ensures ValuesOf([]) == map[] && KeysOf([]) == [] && Assignments([]) == [] && Matches([]) == []
  {
  }

  // ---------- the regular expression reader ----------

  predicate IsEnvKeyChar(c: char) {
    'A' <= c <= 'Z' || '0' <= c <= '9' || c == '_'
  }

  predicate EnvKey(key: string) {
    key != "" && forall i :: 0 <= i < |key| ==> IsEnvKeyChar(key[i])
  }

  /** White space, a key, an equals sign, the rest of the line. A comment mark in
      front of the key makes the line count for nothing. */
  function MatchEnvLine(line: string): Option<Assignment> {
    var body := line[TextStart(line)..];
    var k := IndexOf(body, '=');
    if k < |body| && EnvKey(body[..k]) then Some(Assignment(body[..k], body[k + 1..])) else None
  }

  function Matches(lines: seq<string>): seq<Assignment> {
    if lines == [] then []
    else Matches(lines[..|lines| - 1]) + OneOrNone(MatchEnvLine(lines[|lines| - 1]))
  }

  method LoadEnvFile(text: string) returns (loaded: map<string, string>)
    ensures loaded == ValuesOf(Matches(SplitLines(text)))
  {
    hide MatchEnvLine, ValuesOf;
    loaded := map[];
    var lines := SplitLines(text);
    NoLinesNoValues();
    for i := 0 to |lines|
      invariant loaded == ValuesOf(Matches(lines[..i]))
    {
      OneMoreLine(lines, i);
      var m := MatchEnvLine(lines[i]);
      if m.None? {
        assert Matches(lines[..i + 1]) == Matches(lines[..i]);
        continue;
      }
      OneMoreAssignment(Matches(lines[..i]), m.value);
      loaded := loaded[m.value.key := m.value.value];
    }
    assert lines[..|lines|] == lines;
  }

  // The line is no comment and gives the key a value that is not blank. The key may be
  // empty, as in "=x".
  predicate Declares(line: string, key: string) {
    var stripped := Strip(line);
    && stripped != "" && stripped[0] != '#' && Contains(stripped, '=')
    && var k := IndexOf(stripped, '=');
       k < |stripped| && Strip(stripped[..k]) == key && Strip(stripped[k + 1..]) != ""
  }

  /** A key is declared by the lines that are loaded as an assignment of a non-blank
      value to it and, unless it is empty, by no others. */
  lemma DeclaresIsAssigns(line: string, key: string)
    ensures var a := ReadAssignment(line);
            a.Some? && a.value.key == key && Strip(a.value.value) != "" <==> Declares(line, key) && key != ""
  {
    hide Strip;
  }

  method EnvFileHasKey(text: string, key: string) returns (found: bool)
    ensures found <==> exists i :: 0 <= i < |SplitLines(text)| && Declares(SplitLines(text)[i], key)
  {
    hide Strip;
    var lines := SplitLines(text);
    for i := 0 to |lines|
      invariant forall j :: 0 <= j < i ==> !Declares(lines[j], key)
    {
      var stripped := Strip(lines[i]);
      if stripped == "" || stripped[0] == '#' || !Contains(stripped, '=') {
        continue;
      }
      var k := IndexOf(stripped, '=');
      if Strip(stripped[..k]) == key && Strip(stripped[k + 1..]) != "" {
        assert Declares(SplitLines(text)[i], key);
        return true;
      }
    }
    return false;
  }

  // ---------- choosing values ----------

  function NormalizeOptional(value: Option<string>): Option<string> {
    if value.None? || Strip(value.value) == "" then None else Some(Strip(value.value))
  }

  function Lookup(values: map<string, string>, key: string): Option<string> {
    if key in values then Some(values[key]) else None
  }

  // The value a template line asks for: what the user has, else its own default.
  function CurrentValue(line: TemplateLine, existing: map<string, string>): Option<string>
    requires line.key.Some?
  {
    var current := Lookup(existing, line.key.value);
    if current.None? && !line.commented then line.value else current
  }

  function ResolveLines(template: seq<TemplateLine>, existing: map<string, string>, interactive: set<string>): Resolved {
    if template == [] then Resolved([], map[])
    else
      var before := ResolveLines(template[..|template| - 1], existing, interactive);
      var line := template[|template| - 1];
      if line.key.None? || line.key.value in interactive then before
      else before.Put(line.key.value, NormalizeOptional(CurrentValue(line, existing)))
  }

  function ResolveBootstrap(template: seq<TemplateLine>, existing: map<string, string>, interactive: set<string>,
                            openaiKey: string): Resolved {
    ResolveLines(template, existing, interactive).Put(openaiKey, NormalizeOptional(Lookup(existing, openaiKey)))
  }

  method ResolveBootstrapValues(template: seq<TemplateLine>, existing: map<string, string>, interactive: set<string>,
                                openaiKey: string) returns (resolved: Resolved)
    ensures resolved == ResolveBootstrap(template, existing, interactive, openaiKey)
  {
    hide Strip;
    resolved := Resolved([], map[]);
    for i := 0 to |template|
      invariant resolved == ResolveLines(template[..i], existing, interactive)
    {
      var line := template[i];
      assert template[..i + 1][..i] == template[..i];
      if line.key.None? || line.key.value in interactive {
        continue;
      }
      var current := Lookup(existing, line.key.value);
      if current.None? && !line.commented {
        current := line.value;
      }
      resolved := resolved.Put(line.key.value, NormalizeOptional(current));
    }
    assert template[..|template|] == template;
    resolved := resolved.Put(openaiKey, NormalizeOptional(Lookup(existing, openaiKey)));
  }

  // ---------- writing ----------

  predicate NonEmpty(value: Option<string>) {
    value.Some? && value.value != ""
  }

  function RenderLine(line: TemplateLine, resolved: Resolved): string {
    if line.key.None? then line.raw
    else
      var key := line.key.value;
      var value := resolved.Get(key);
      if NonEmpty(value) then key + "=" + value.value
      else if line.commented then line.raw
      else if line.value.Some? then key + "=" + line.value.value
      else key + "="
  }

  function RenderLines(template: seq<TemplateLine>, resolved: Resolved): (lines: seq<string>)
    ensures |lines| == |template|
    ensures forall i :: 0 <= i < |lines| ==> lines[i] == RenderLine(template[i], resolved)
  {
    seq(|template|, i requires 0 <= i < |template| => RenderLine(template[i], resolved))
  }

  // The keys of the user's file that the template does not know, repeats included.
  function UnknownKeys(template: seq<TemplateLine>, order: seq<string>): (keys: seq<string>)
    ensures forall k :: k in keys <==> k in order && !IsTemplateKey(template, k)
  {
    if order == [] then []
    else
      var before := UnknownKeys(template, order[..|order| - 1]);
      var key := order[|order| - 1];
      assert order == order[..|order| - 1] + [key];
      if IsTemplateKey(template, key) then before else before + [key]
  }

  function AdditionalKeys(template: seq<TemplateLine>, unknown: seq<string>, resolved: Resolved, order: seq<string>):
    (keys: seq<string>)
    ensures forall k :: k in keys <==>
              k in order && !IsTemplateKey(template, k) && k !in unknown && NonEmpty(resolved.Get(k))
  {
    if order == [] then []
    else
      var before := AdditionalKeys(template, unknown, resolved, order[..|order| - 1]);
      var key := order[|order| - 1];
      assert order == order[..|order| - 1] + [key];
      if !IsTemplateKey(template, key) && key !in unknown && NonEmpty(resolved.Get(key)) then before + [key]
      else before
  }

  function AssignLines(keys: seq<string>, values: map<string, string>): (lines: seq<string>)
    requires forall k :: k in keys ==> k in values
    ensures |lines| == |keys|
    ensures forall i :: 0 <= i < |lines| ==> lines[i] == keys[i] + "=" + values[keys[i]]
  {
    seq(|keys|, i requires 0 <= i < |keys| => keys[i] + "=" + values[keys[i]])
  }

  // A group of lines behind a blank line.
  function AddGroup(lines: seq<string>, group: seq<string>): seq<string> {
    if group == [] then lines
    else if lines != [] && lines[|lines| - 1] != "" then lines + [""] + group
    else lines + group
  }

  function ResolvedTexts(resolved: Resolved): (values: map<string, string>)
    ensures forall k :: k in values <==> NonEmpty(resolved.Get(k))
    ensures forall k :: k in values ==> Some(values[k]) == resolved.Get(k)
  {
    map k | k in resolved.values && NonEmpty(resolved.values[k]) :: resolved.values[k].value
  }

  function EnvLines(template: seq<TemplateLine>, resolved: Resolved, existing: map<string, string>, order: seq<string>):
    seq<string>
    requires forall k :: k in order ==> k in existing
  {
    var unknown := UnknownKeys(template, order);
    var additional := AdditionalKeys(template, unknown, resolved, resolved.order);
    AddGroup(AddGroup(RenderLines(template, resolved), AssignLines(unknown, existing)),
             AssignLines(additional, ResolvedTexts(resolved)))
  }

  method WriteEnvFile(template: seq<TemplateLine>, resolved: Resolved, existing: map<string, string>, order: seq<string>)
    returns (text: string)
    requires forall k :: k in order ==> k in existing
    ensures text == Document(EnvLines(template, resolved, existing, order))
  {
    var lines: seq<string> := [];
    for i := 0 to |template|
      invariant lines == RenderLines(template, resolved)[..i]
    {
      var line := template[i];
      if line.key.None? {
        lines := lines + [line.raw];
        continue;
      }
      var value := resolved.Get(line.key.value);
      if value.None? || value.value == "" {
        if line.commented {
          lines := lines + [line.raw];
        } else if line.value.Some? {
          lines := lines + [line.key.value + "=" + line.value.value];
        } else {
          lines := lines + [line.key.value + "="];
        }
        continue;
      }
      lines := lines + [line.key.value + "=" + value.value];
    }
    assert lines == RenderLines(template, resolved);
    var unknown := UnknownKeys(template, order);
    var additional := AdditionalKeys(template, unknown, resolved, resolved.order);
    lines := AppendGroup(lines, unknown, existing);
    lines := AppendGroup(lines, additional, ResolvedTexts(resolved));
    text := Join(lines) + "\n";
  }

  method AppendGroup(lines: seq<string>, keys: seq<string>, values: map<string, string>) returns (r: seq<string>)
    requires forall k :: k in keys ==> k in values
    ensures r == AddGroup(lines, AssignLines(keys, values))
  {
    r := lines;
    if keys != [] {
      if lines != [] && lines[|lines| - 1] != "" {
        r := r + [""];
      }
      ghost var head := r;
      for i := 0 to |keys|
        invariant r == head + AssignLines(keys, values)[..i]
      {
        r := r + [keys[i] + "=" + values[keys[i]]];
      }
    }
  }
}
