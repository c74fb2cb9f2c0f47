/** The env file as text: what lines with spaces, comment marks and signs are read as,
    and where every line of the written file comes from. */
module EnvText {
  import opened Wrappers
  import opened Text
  import opened EnvFile
  import opened EnvBootstrap

  // ---------- lines with spaces ----------

  // A key as it may stand on a line: trimmed, not empty, without an equals sign.
  predicate LineKey(key: string) {
    key != "" && Trimmed(key) && !Contains(key, '=')
  }

  // The text of a line from the key on, as it is once it is stripped.
  function LineText(key: string, gap: string, value: string): string {
    key + gap + "=" + value
  }

  lemma LineTextShape(key: string, gap: string, value: string)
    requires LineKey(key) && AllSpace(gap) && (value == "" || !IsSpace(value[|value| - 1]))
    ensures var s := LineText(key, gap, value);
            && s != "" && s[0] == key[0] && Trimmed(s) && Contains(s, '=')
            && var k := IndexOf(s, '='); k < |s| && Strip(s[..k]) == key && s[k + 1..] == value
  {
    hide Strip, IsSpace, AllSpace;
    var s := LineText(key, gap, value);
    var head := key + gap;
    assert s == head + ['='] + value;
    GapHasNoSign(key, gap);
    IndexOfFirst(head, '=', value);
    assert s[|head|] == '=' && s[..|head|] == head && s[|head| + 1..] == value;
    StripCore("", key, gap) by { NothingIsSpace(); }
    assert "" + key + gap == head;
    assert s[0] == key[0];
    assert Trimmed(s) by {
      KeyEnds(key);
      assert value != "" ==> s[|s| - 1] == value[|value| - 1];
      SignIsNoSpace();
    }
  }

  lemma GapHasNoSign(key: string, gap: string)
    requires LineKey(key) && AllSpace(gap)
    ensures !Contains(key + gap, '=')
  {
    var head := key + gap;
    SignIsNoSpace();
    assert forall i :: 0 <= i < |head| ==> head[i] == if i < |key| then key[i] else gap[i - |key|];
  }

  lemma NothingIsSpace()
    ensures AllSpace("")
  {
  }

  lemma SignIsNoSpace()
    ensures !IsSpace('=') && !IsSpace('#')
  {
  }

  lemma KeyEnds(key: string)
    requires LineKey(key)
    ensures !IsSpace(key[0])
  {
  }

  /** An assignment of the user's file: white space around the line and around the key
      does not count, but what follows the sign does, up to the end of the line. */
  lemma SpacedLineLoads(before: string, key: string, gap: string, value: string, after: string)
    requires AllSpace(before) && AllSpace(gap) && AllSpace(after)
    requires LineKey(key) && key[0] != '#' && (value == "" || !IsSpace(value[|value| - 1]))
    ensures ReadAssignment(before + key + gap + "=" + value + after) == Some(Assignment(key, value))
  {
    hide Strip, IsSpace, AllSpace, Trimmed;
    var s := LineText(key, gap, value);
    LineTextShape(key, gap, value);
    StripCore(before, s, after);
    assert before + s + after == before + key + gap + "=" + value + after;
  }

  // What is left of a template line once it is stripped: the mark, the key, the sign, and
  // the value with the white space in front of it.
  lemma TemplateLineStrips(before: string, mark: string, s: string, space: string, value: string, after: string, head: string)
    requires AllSpace(before) && AllSpace(space) && AllSpace(after) && (mark == "" || mark[0] == '#')
    requires s == head + (if value == "" then "" else space + value) && s != "" && Trimmed(s)
    ensures Strip(before + mark + head + space + value + after) == mark + s
  {
    hide Strip, IsSpace, AllSpace, Trimmed;
    var tail := if value == "" then space + after else after;
    SpaceAndSpace(space, after);
    MarkedIsTrimmed(mark, s);
    StripCore(before, mark + s, tail);
    var raw := before + mark + head + space + value + after;
    if value == "" {
      assert s == head;
      assert before + (mark + s) + tail == raw;
    } else {
      assert before + (mark + s) + tail == raw;
    }
  }

  // How a stripped line with a mark is taken apart.
  lemma MarkedParses(raw: string, mark: string, s: string, key: string, kept: string)
    requires Strip(raw) == mark + s && s != "" && Trimmed(s) && Contains(s, '=') && key != "" && s[0] == key[0]
    requires (mark == "" || (mark[0] == '#' && AllSpace(mark[1..]))) && (mark == "" ==> key[0] != '#')
    requires var k := IndexOf(s, '='); k < |s| && Strip(s[..k]) == key && s[k + 1..] == kept
    ensures ParseTemplateLine(raw) == TemplateLine(raw, Some(key), Some(Strip(kept)), mark != "")
  {
    hide Strip, IsSpace, AllSpace, Trimmed;
    var stripped := mark + s;
    if mark != "" {
      assert stripped[0] == '#' && stripped[1..] == mark[1..] + s;
      NothingIsSpace();
      StripCore(mark[1..], s, "");
      assert mark[1..] + s + "" == mark[1..] + s;
      SignStays(mark, s);
    } else {
      assert stripped == s;
    }
  }

  /** A line of the template, with or without a comment mark: white space counts nowhere,
      in front of the value neither. */
  lemma TemplateLineParses(before: string, mark: string, key: string, gap: string, space: string, value: string, after: string)
    requires AllSpace(before) && AllSpace(gap) && AllSpace(space) && AllSpace(after)
    requires LineKey(key) && Trimmed(value)
    requires mark == "" || (mark[0] == '#' && AllSpace(mark[1..]))
    requires mark == "" ==> key[0] != '#'
    ensures var raw := before + mark + (key + gap + "=") + space + value + after;
            ParseTemplateLine(raw) == TemplateLine(raw, Some(key), Some(value), mark != "")
  {
    hide Strip, IsSpace, AllSpace, Trimmed, ParseTemplateLine;
    var raw := before + mark + (key + gap + "=") + space + value + after;
    var kept := if value == "" then "" else space + value;
    var s := LineText(key, gap, kept);
    KeptEnds(space, value);
    LineTextShape(key, gap, kept);
    TemplateLineStrips(before, mark, s, space, value, after, key + gap + "=");
    KeptStrips(space, value);
    MarkedParses(raw, mark, s, key, kept);
  }

  lemma KeptEnds(space: string, value: string)
    requires Trimmed(value)
    ensures var kept := if value == "" then "" else space + value; kept == "" || !IsSpace(kept[|kept| - 1])
  {
  }

  lemma KeptStrips(space: string, value: string)
    requires AllSpace(space) && Trimmed(value)
    ensures Strip(if value == "" then "" else space + value) == value
  {
    hide Strip, IsSpace, AllSpace;
    NothingIsSpace();
    if value != "" {
      StripCore(space, value, "");
      assert space + value + "" == space + value;
    }
  }

  lemma SpaceAndSpace(a: string, b: string)
    requires AllSpace(a) && AllSpace(b)
    ensures AllSpace(a + b)
  {
    hide IsSpace;
  }

  lemma MarkedIsTrimmed(mark: string, s: string)
    requires s != "" && Trimmed(s) && (mark == "" || mark[0] == '#')
    ensures Trimmed(mark + s) && mark + s != ""
  {
    SignIsNoSpace();
    assert mark == "" ==> mark + s == s;
    assert (mark + s)[|mark + s| - 1] == s[|s| - 1];
  }

  lemma SignStays(mark: string, s: string)
    requires Contains(s, '=')
    ensures Contains(mark + s, '=')
  {
    var i :| 0 <= i < |s| && s[i] == '=';
    assert (mark + s)[|mark| + i] == '=';
  }

  /** A line without an equals sign has no key, in the template or in the user's file. */
  lemma NoSignNoKey(raw: string)
    requires !Contains(raw, '=')
    ensures ParseTemplateLine(raw) == TemplateLine(raw, None, None, false) && ReadAssignment(raw) == None
  {
    hide Strip;
    StripKeepsOut(raw, '=');
  }

  /** Neither has a line with nothing but white space, and a comment mark in the template,
      in front of the sign; and a comment is no assignment of the user's. */
  lemma NoKeyNoAssignment(before: string, mark: string, rest: string)
    requires AllSpace(before) && (mark == "" || (mark[0] == '#' && AllSpace(mark[1..])))
    ensures var raw := before + mark + "=" + rest; ParseTemplateLine(raw) == TemplateLine(raw, None, None, false)
    ensures ReadAssignment(before + mark + "=" + rest) == None
  {
    hide Strip, IsSpace, AllSpace, Trimmed;
    var raw := before + mark + "=" + rest;
    var s := mark + "=" + rest;
    assert raw == before + s;
    SignIsNoSpace();
    assert s[0] == if mark == "" then '=' else '#';
    StripIgnoresPrefix(before, s);
    var after := EndOfStrip(s);
    var stripped := Strip(s);
    assert stripped != "" && stripped[0] == s[0] by { StripKeepsStart(s); }
    if mark == "" {
      assert IndexOf(stripped, '=') == 0;
      assert stripped[..0] == "";
      assert Strip("") == "" by { NothingIsSpace(); EmptyStrips(); }
    } else if Contains(stripped, '=') {
      var inner := stripped[1..];
      assert s[1..] == mark[1..] + ("=" + rest);
      CommentStrips(mark[1..], rest, inner, after, s);
    }
  }

  lemma EmptyStrips()
    ensures Strip("") == ""
  {
  }

  // Stripping a text that starts with no white space cuts only its end.
  lemma EndOfStrip(s: string) returns (after: string)
    requires s != "" && !IsSpace(s[0])
    ensures AllSpace(after) && s == Strip(s) + after
  {
    var k := TextEnd(s);
    after := s[k..];
    assert TextStart(s) == 0;
    assert s == s[..k] + s[k..] && s[0..k] == s[..k];
  }

  lemma CommentStrips(space: string, rest: string, inner: string, after: string, s: string)
    requires AllSpace(space) && AllSpace(after) && s != "" && s[1..] == space + ("=" + rest)
    requires inner + after == s[1..] && Contains(inner, '=')
    ensures var t := Strip(inner); t != "" && t[0] == '=' && IndexOf(t, '=') == 0 && Strip(t[..0]) == ""
  {
    hide Strip, IsSpace, AllSpace;
    var n := |space|;
    var i :| 0 <= i < |inner| && inner[i] == '=';
    assert |inner| > n by {
      if |inner| <= n {
        assert s[1..][i] == space[i];
        SpaceHasNoSign(space, i);
      }
    }
    var tail := inner[n..];
    assert inner[..n] == space by { assert inner[..n] == s[1..][..n]; }
    assert tail[0] == s[1..][n] == '=';
    assert inner == space + tail;
    StripIgnoresPrefix(space, tail);
    SignIsNoSpace();
    StripKeepsStart(tail);
    assert Strip(inner)[..0] == "";
    EmptyStrips();
  }

  lemma SpaceHasNoSign(space: string, i: nat)
    requires AllSpace(space) && i < |space|
    ensures space[i] != '='
  {
  }

  // The line is white space, then the key, the sign and the value.
  predicate SpacedAssignment(line: string, k: nat, key: string, value: string) {
    k <= |line| && AllSpace(line[..k]) && line[k..] == key + "=" + value
  }

  /** The regular expression reader, exactly: white space, a key of capitals, digits and
      underscores, the sign, and all that follows it. */
  lemma MatchesExactly(line: string, key: string, value: string)
    ensures MatchEnvLine(line) == Some(Assignment(key, value)) <==>
            && key != "" && (forall i :: 0 <= i < |key| ==> 'A' <= key[i] <= 'Z' || '0' <= key[i] <= '9' || key[i] == '_')
            && exists k: nat :: SpacedAssignment(line, k, key, value)
  {
    hide MatchEnvLine, SpacedAssignment;
    KeyCharacters(key);
    if MatchEnvLine(line) == Some(Assignment(key, value)) {
      MatchIsSpaced(line, key, value);
    }
    if EnvKey(key) {
      forall k: nat | SpacedAssignment(line, k, key, value) ensures MatchEnvLine(line) == Some(Assignment(key, value)) {
        SpacedMatches(line, k, key, value);
      }
    }
  }

  lemma KeyCharacters(key: string)
    ensures EnvKey(key) <==>
            key != "" && forall i :: 0 <= i < |key| ==> 'A' <= key[i] <= 'Z' || '0' <= key[i] <= '9' || key[i] == '_'
  {
  }

  lemma MatchIsSpaced(line: string, key: string, value: string)
    requires MatchEnvLine(line) == Some(Assignment(key, value))
    ensures EnvKey(key) && SpacedAssignment(line, TextStart(line), key, value)
  {
    hide IsSpace, AllSpace, EnvKey;
    SpaceAround(line);
    var body := line[TextStart(line)..];
    var k := IndexOf(body, '=');
    assert body == body[..k] + "=" + body[k + 1..];
  }

  lemma SpacedMatches(line: string, n: nat, key: string, value: string)
    requires EnvKey(key) && SpacedAssignment(line, n, key, value)
    ensures MatchEnvLine(line) == Some(Assignment(key, value))
  {
    hide IsSpace, AllSpace, EnvKey;
    var body := line[n..];
    assert key <= body;
    StartOf(line, n, key);
    assert body == key + ['='] + value;
    KeyHasNoSign(key);
    IndexOfFirst(key, '=', value);
    assert body[..|key|] == key && body[|key| + 1..] == value;
  }

  lemma StartOf(line: string, n: nat, key: string)
    requires n <= |line| && AllSpace(line[..n]) && EnvKey(key) && key <= line[n..]
    ensures TextStart(line) == n
  {
    assert line[n] == line[n..][0] == key[0];
    assert !IsSpace(line[n]);
    assert forall k :: 0 <= k < n ==> line[..n][k] == line[k];
  }

  lemma KeyHasNoSign(key: string)
    requires EnvKey(key)
    ensures !Contains(key, '=')
  {
  }

  // ---------- the written file ----------

  // The line that stands for this line of the template.
  function Standing(raw: string, resolved: Resolved): string {
    var line := ParseTemplateLine(raw);
    if line.key.None? then raw
    else if NonEmpty(resolved.Get(line.key.value)) then line.key.value + "=" + resolved.Get(line.key.value).value
    else if line.commented then raw
    else line.key.value + "=" + line.value.value
  }

  /** A group of assignments in the written file: behind one blank line, unless it is
      empty, comes first, or a blank line is there already. */
  function Group(lines: seq<string>, group: seq<string>): (blank: seq<string>)
    ensures blank == [] || blank == [""]
    ensures blank == [""] <==> group != [] && lines != [] && lines[|lines| - 1] != ""
  {
    if group != [] && lines != [] && lines[|lines| - 1] != "" then [""] else []
  }

  lemma GroupIsAdded(lines: seq<string>, group: seq<string>)
    ensures AddGroup(lines, group) == lines + Group(lines, group) + group
  {
    assert lines + [] == lines;
    if group == [] {
      assert lines + [] + group == lines;
    }
  }

  /** Every line of the written file: each line of the template at its own place, as it is
      when it has no key, or is a comment nothing was chosen for; else with the chosen
      value, or with the template's own; then the user's other assignments, in the order
      of the user's file; then the chosen values of keys in neither. */
  lemma WrittenLines(raws: seq<string>, resolved: Resolved, existing: map<string, string>, order: seq<string>)
    requires forall k :: k in order ==> k in existing
    ensures var template := ParseTemplate(raws);
            var lines := EnvLines(template, resolved, existing, order);
            var unknown := UnknownKeys(template, order);
            var additional := AdditionalKeys(template, unknown, resolved, resolved.order);
            var theirs, ours := AssignLines(unknown, existing), AssignLines(additional, ResolvedTexts(resolved));
            var first := lines[..if |raws| <= |lines| then |raws| else 0];
            && |raws| <= |lines|
            && (forall i :: 0 <= i < |raws| ==> lines[i] == Standing(raws[i], resolved))
            && lines == first + Group(first, theirs) + theirs + Group(first + Group(first, theirs) + theirs, ours) + ours
  {
    hide UnknownKeys, AdditionalKeys, AddGroup, ParseTemplateLine;
    var template := ParseTemplate(raws);
    var lines := EnvLines(template, resolved, existing, order);
    var rendered := RenderLines(template, resolved);
    var unknown := UnknownKeys(template, order);
    var additional := AdditionalKeys(template, unknown, resolved, resolved.order);
    var theirs, ours := AssignLines(unknown, existing), AssignLines(additional, ResolvedTexts(resolved));
    GroupIsAdded(rendered, theirs);
    GroupIsAdded(rendered + Group(rendered, theirs) + theirs, ours);
    assert lines[..|raws|] == rendered;
    forall i | 0 <= i < |raws| ensures rendered[i] == Standing(raws[i], resolved) {
      KeyHasValue(raws[i]);
    }
  }

  lemma KeyHasValue(raw: string)
    ensures var line := ParseTemplateLine(raw); line.raw == raw && (line.key.Some? ==> line.value.Some?)
  {
  }

  // ---------- the order of keys ----------

  // These are the keys at these positions, in order.
  predicate KeysAt(all: seq<string>, picked: seq<string>, at: seq<nat>) {
    |at| == |picked| && Positions(at, |all|) && forall k :: 0 <= k < |at| ==> picked[k] == all[at[k]]
  }

  lemma OneMoreKey(all: seq<string>, picked: seq<string>, at: seq<nat>, key: string)
    requires KeysAt(all, picked, at)
    ensures KeysAt(all + [key], picked, at) && KeysAt(all + [key], picked + [key], at + [|all|]) && |all| !in at
  {
  }

  /** The user's other keys are written in the order of the user's file, repeats included;
      the chosen keys that neither file has, in the order in which they were chosen. */
  lemma {:induction false} GroupsKeepOrder(template: seq<TemplateLine>, unknown: seq<string>, resolved: Resolved, order: seq<string>)
    returns (unknownAt: seq<nat>, additionalAt: seq<nat>)
    ensures KeysAt(order, UnknownKeys(template, order), unknownAt)
    ensures forall i :: 0 <= i < |order| ==> (i in unknownAt <==> !IsTemplateKey(template, order[i]))
    ensures KeysAt(order, AdditionalKeys(template, unknown, resolved, order), additionalAt)
    ensures forall i :: 0 <= i < |order| ==>
              (i in additionalAt <==> !IsTemplateKey(template, order[i]) && order[i] !in unknown && NonEmpty(resolved.Get(order[i])))
  {
    hide IsTemplateKey;
    unknownAt, additionalAt := [], [];
    if order != [] {
      var n := |order| - 1;
      unknownAt, additionalAt := GroupsKeepOrder(template, unknown, resolved, order[..n]);
      assert order == order[..n] + [order[n]];
      OneMoreKey(order[..n], UnknownKeys(template, order[..n]), unknownAt, order[n]);
      OneMoreKey(order[..n], AdditionalKeys(template, unknown, resolved, order[..n]), additionalAt, order[n]);
      if !IsTemplateKey(template, order[n]) {
        unknownAt := unknownAt + [n];
        if order[n] !in unknown && NonEmpty(resolved.Get(order[n])) {
          additionalAt := additionalAt + [n];
        }
      }
    }
  }

  // The keys chosen for these template lines, in their order.
  predicate ChosenAt(template: seq<TemplateLine>, order: seq<string>, at: seq<nat>) {
    |at| == |order| && Positions(at, |template|) && forall k :: 0 <= k < |at| ==> template[at[k]].key == Some(order[k])
  }

  lemma OneMoreChosen(template: seq<TemplateLine>, order: seq<string>, at: seq<nat>, line: TemplateLine)
    requires ChosenAt(template, order, at)
    ensures ChosenAt(template + [line], order, at) && |template| !in at
    ensures line.key.Some? ==> ChosenAt(template + [line], order + [line.key.value], at + [|template|])
  {
  }

  predicate AllListed(r: Resolved) {
    forall k :: k in r.values ==> k in r.order
  }

  lemma PutIsListed(r: Resolved, key: string, value: Option<string>)
    requires AllListed(r)
    ensures AllListed(r.Put(key, value)) && r.Put(key, value).order == if key in r.values then r.order else r.order + [key]
  {
  }

  lemma ResolveOneMore(template: seq<TemplateLine>, existing: map<string, string>, interactive: set<string>)
    requires template != []
    ensures var (n, line) := (|template| - 1, template[|template| - 1]);
            var before := ResolveLines(template[..n], existing, interactive);
            ResolveLines(template, existing, interactive)
            == if line.key.None? || line.key.value in interactive then before
               else before.Put(line.key.value, NormalizeOptional(CurrentValue(line, existing)))
  {
    hide NormalizeOptional, CurrentValue;
  }

  /** Values are chosen in the order of the template's lines, for the keys that are not
      asked for interactively, and for the OpenAI key last unless it is among them. */
  lemma ChosenInOrder(template: seq<TemplateLine>, existing: map<string, string>, interactive: set<string>, openaiKey: string)
    returns (at: seq<nat>)
    requires DistinctTemplateKeys(template)
    ensures ChosenAt(template, ResolveLines(template, existing, interactive).order, at)
    ensures forall i :: 0 <= i < |template| ==> (i in at <==> template[i].key.Some? && template[i].key.value !in interactive)
    ensures ResolveBootstrap(template, existing, interactive, openaiKey).order
            == ResolveLines(template, existing, interactive).order
               + if openaiKey in ResolveLines(template, existing, interactive).values then [] else [openaiKey]
  {
    hide NormalizeOptional, ResolveLines, ChosenAt;
    at := ResolvedInOrder(template, existing, interactive);
    var lines := ResolveLines(template, existing, interactive);
    PutIsListed(lines, openaiKey, NormalizeOptional(Lookup(existing, openaiKey)));
    assert lines.order + [] == lines.order;
  }

  lemma {:induction false} ResolvedInOrder(template: seq<TemplateLine>, existing: map<string, string>, interactive: set<string>)
    returns (at: seq<nat>)
    requires DistinctTemplateKeys(template)
    ensures ChosenAt(template, ResolveLines(template, existing, interactive).order, at)
    ensures forall i :: 0 <= i < |template| ==> (i in at <==> template[i].key.Some? && template[i].key.value !in interactive)
    ensures AllListed(ResolveLines(template, existing, interactive))
  {
    hide NormalizeOptional, CurrentValue, ResolveLines, AllListed, ChosenAt, IsTemplateKey;
    at := [];
    if template == [] {
      NothingResolved(existing, interactive);
    } else {
      var n := |template| - 1;
      var line := template[n];
      at := ResolvedInOrder(template[..n], existing, interactive);
      ResolveOneMore(template, existing, interactive);
      assert template == template[..n] + [line];
      var before := ResolveLines(template[..n], existing, interactive);
      OneMoreChosen(template[..n], before.order, at, line);
      assert forall i :: 0 <= i < n ==> template[..n][i] == template[i];
      if line.key.Some? && line.key.value !in interactive {
        NotAmongEarlier(template, n);
        ResolvedElsewhere(template[..n], existing, interactive, line.key.value);
        PutIsListed(before, line.key.value, NormalizeOptional(CurrentValue(line, existing)));
        at := at + [n];
      }
    }
  }

  lemma NothingResolved(existing: map<string, string>, interactive: set<string>)
    ensures ResolveLines([], existing, interactive) == Resolved([], map[])
    ensures ChosenAt([], [], []) && AllListed(Resolved([], map[]))
  {
  }

  lemma NotAmongEarlier(template: seq<TemplateLine>, n: nat)
    requires DistinctTemplateKeys(template) && n < |template| && template[n].key.Some?
    ensures !IsTemplateKey(template[..n], template[n].key.value)
  {
  }
}
