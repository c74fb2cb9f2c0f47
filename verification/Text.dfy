/** The string operations of Python that the config and env files rely on:
    `strip`, `split`/`partition` at a character, `lower`, `splitlines` and
    joining lines into a document. Characters are Unicode scalar values; `Lower`
    folds the ASCII letters. */
module Text {

  // What `str.isspace` and the regular expression class `\s` accept.
  predicate IsSpace(c: char) {
    var n := c as int;
    9 <= n <= 13 || 28 <= n <= 32 || n == 133 || n == 160 || n == 5760
    || 8192 <= n <= 8202 || n == 8232 || n == 8233 || n == 8239 || n == 8287 || n == 12288
  }

  // Where `str.splitlines` ends a line.
  predicate IsBreak(c: char) {
    var n := c as int;
    10 <= n <= 13 || 28 <= n <= 30 || n == 133 || n == 8232 || n == 8233
  }

  predicate IsDigit(c: char) {
    '0' <= c <= '9'
  }

  // A string that lies on one line.
  predicate OneLine(s: string) {
    forall i :: 0 <= i < |s| ==> !IsBreak(s[i])
  }

  predicate OneLineEach(lines: seq<string>) {
    forall i :: 0 <= i < |lines| ==> OneLine(lines[i])
  }

  // A string with no white space at either end.
  predicate Trimmed(s: string) {
    s == "" || (!IsSpace(s[0]) && !IsSpace(s[|s| - 1]))
  }

  predicate AllSpace(s: string) {
    forall i :: 0 <= i < |s| ==> IsSpace(s[i])
  }

  predicate Contains(s: string, c: char) {
    exists i :: 0 <= i < |s| && s[i] == c
  }

  // ---------- strip ----------

  // Where the text starts: how many white-space characters come first.
  function TextStart(s: string): (k: nat)
    ensures k <= |s|
    ensures forall i :: 0 <= i < k ==> IsSpace(s[i])
    ensures k < |s| ==> !IsSpace(s[k])
  {
    if s != "" && IsSpace(s[0]) then
      var k := 1 + TextStart(s[1..]);
      assert forall i :: 0 < i < k ==> s[i] == s[1..][i - 1];
      k
    else 0
  }

  // Where the text ends: the position after the last other character.
  function TextEnd(s: string): (k: nat)
    ensures k <= |s|
    ensures forall i :: k <= i < |s| ==> IsSpace(s[i])
    ensures k > 0 ==> !IsSpace(s[k - 1])
  {
    if s != "" && IsSpace(s[|s| - 1]) then
      var k := TextEnd(s[..|s| - 1]);
      assert forall i :: k <= i < |s| - 1 ==> s[i] == s[..|s| - 1][i];
      k
    else |s|
  }

  function Strip(s: string): (r: string)
    ensures Trimmed(r)
    ensures |r| <= |s|
    ensures OneLine(s) ==> OneLine(r)
    ensures Trimmed(s) ==> r == s
    ensures AllSpace(s) <==> r == ""
  {
    var start, end := TextStart(s), TextEnd(s);
    if start == |s| then ""
    else
      assert start < end;
      s[start..end]
  }

  // Stripping cuts white space off both ends, down to a trimmed core.
  lemma StripCore(before: string, core: string, after: string)
    requires AllSpace(before) && AllSpace(after) && core != "" && Trimmed(core)
    ensures Strip(before + core + after) == core
  {
    var s := before + core + after;
    var from, to := |before|, |before| + |core|;
    assert forall i :: 0 <= i < from ==> s[i] == before[i];
    assert forall i :: to <= i < |s| ==> s[i] == after[i - to];
    assert s[from] == core[0] && s[to - 1] == core[|core| - 1];
    assert TextStart(s) == from && TextEnd(s) == to;
    assert s[from..to] == core;
  }

  lemma SpaceAround(s: string)
    ensures AllSpace(s[..TextStart(s)])
    ensures AllSpace(s[TextEnd(s)..])
  {
  }

  lemma CutInThree(s: string, start: nat, end: nat)
    requires start <= end <= |s|
    ensures s == s[..start] + s[start..end] + s[end..]
  {
  }

  lemma StripDecomposes(s: string) returns (before: string, after: string)
    requires Strip(s) != ""
    ensures s == before + Strip(s) + after && AllSpace(before) && AllSpace(after)
  {
    hide AllSpace, Trimmed, OneLine, IsSpace;
    before, after := s[..TextStart(s)], s[TextEnd(s)..];
    SpaceAround(s);
    CutInThree(s, TextStart(s), TextEnd(s));
  }

  lemma StripKeepsStart(s: string)
    requires s != "" && !IsSpace(s[0])
    ensures Strip(s) != "" && Strip(s)[0] == s[0]
  {
    assert TextStart(s) == 0;
  }

  lemma StripKeepsOut(s: string, c: char)
    requires !Contains(s, c)
    ensures !Contains(Strip(s), c)
  {
    var start := TextStart(s);
    var r := Strip(s);
    assert forall i :: 0 <= i < |r| ==> r[i] == s[start + i];
  }

  // White space in front of a text does not change what stripping leaves.
  lemma StripIgnoresPrefix(prefix: string, s: string)
    requires AllSpace(prefix)
    ensures Strip(prefix + s) == Strip(s)
  {
    hide Strip;
    if Strip(s) == "" {
      assert AllSpace(prefix + s);
    } else {
      var before, after := StripDecomposes(s);
      var core := Strip(s);
      StripCore(prefix + before, core, after);
      assert prefix + before + core + after == prefix + s;
    }
  }

  // ---------- searching ----------

  /** The first position of `c`, or the length when `c` does not occur. */
  function IndexOf(s: string, c: char): (k: nat)
    ensures k <= |s|
    ensures forall i :: 0 <= i < k ==> s[i] != c
    ensures k < |s| ==> s[k] == c
  {
    if s == "" || s[0] == c then 0 else 1 + IndexOf(s[1..], c)
  }

  lemma IndexOfFirst(before: string, c: char, after: string)
    requires !Contains(before, c)
    ensures IndexOf(before + [c] + after, c) == |before|
  {
    var s := before + [c] + after;
    assert s[|before|] == c;
    assert forall i :: 0 <= i < |before| ==> s[i] == before[i];
  }

  predicate StartsWith(s: string, prefix: string) {
    prefix <= s
  }

  // ---------- case folding ----------

  function LowerChar(c: char): char {
    if 'A' <= c <= 'Z' then (c as int + 32) as char else c
  }

  function Lower(s: string): (r: string)
    ensures |r| == |s|
    ensures forall i :: 0 <= i < |s| ==> r[i] == LowerChar(s[i])
  {
    seq(|s|, i requires 0 <= i < |s| => LowerChar(s[i]))
  }

  function UpperChar(c: char): char {
    if 'a' <= c <= 'z' then (c as int - 32) as char else c
  }

  function Upper(s: string): (r: string)
    ensures |r| == |s|
    ensures forall i :: 0 <= i < |s| ==> r[i] == UpperChar(s[i])
  {
    seq(|s|, i requires 0 <= i < |s| => UpperChar(s[i]))
  }

  // ---------- lines ----------

  function LineEnd(s: string): (k: nat)
    ensures k <= |s|
    ensures forall i :: 0 <= i < k ==> !IsBreak(s[i])
    ensures k < |s| ==> IsBreak(s[k])
  {
    if s == "" || IsBreak(s[0]) then 0
    else
      var k := 1 + LineEnd(s[1..]);
      assert forall i :: 0 < i < k ==> s[i] == s[1..][i - 1];
      k
  }

  /** `str.splitlines()`: no line keeps its break, a carriage return and the
      newline after it are one break, and a final break opens no further line. */
  function SplitLines(s: string): (lines: seq<string>)
    ensures OneLineEach(lines)
    decreases |s|
  {
    if s == "" then []
    else
      var k := LineEnd(s);
      if k == |s| then
        assert s[..k] == s;
        [s]
      else
        var width := if s[k] == '\r' && k + 1 < |s| && s[k + 1] == '\n' then 2 else 1;
        [s[..k]] + SplitLines(s[k + width..])
  }

  function Join(lines: seq<string>): string {
    if lines == [] then ""
    else if |lines| == 1 then lines[0]
    else lines[0] + "\n" + Join(lines[1..])
  }

  /** The text written for a list of lines: joined by newlines, newline at the end. */
  function Document(lines: seq<string>): string {
    Join(lines) + "\n"
  }

  lemma LineEndAt(line: string, rest: string)
    requires OneLine(line)
    ensures LineEnd(line + "\n" + rest) == |line|
    ensures SplitLines(line + "\n" + rest) == [line] + SplitLines(rest)
  {
    var s := line + "\n" + rest;
    assert s[|line|] == '\n';
    assert forall i :: 0 <= i < |line| ==> s[i] == line[i];
    assert LineEnd(s) == |line|;
    assert s[..|line|] == line && s[|line| + 1..] == rest;
  }

  // What is written as lines is read back as those lines.
  lemma {:induction false} SplitDocument(lines: seq<string>)
    requires OneLineEach(lines)
    ensures SplitLines(Document(lines)) == if lines == [] then [""] else lines
  {
    hide IsBreak, LineEnd;
    if |lines| <= 1 {
      var line := if lines == [] then "" else lines[0];
      assert Document(lines) == line + "\n" + "";
      LineEndAt(line, "");
      assert SplitLines("") == [];
    } else {
      var rest := Document(lines[1..]);
      assert Document(lines) == lines[0] + "\n" + rest;
      LineEndAt(lines[0], rest);
      SplitDocument(lines[1..]);
    }
  }

  // ---------- runs of blanks ----------

  function Spaces(n: nat): (s: string)
    ensures |s| == n
    ensures forall i :: 0 <= i < n ==> s[i] == ' '
  {
    seq(n, _ => ' ')
  }

  /** How many blanks a line starts with: `len(s) - len(s.lstrip(" "))`. */
  function Indent(s: string): (n: nat)
    ensures n <= |s|
    ensures forall i :: 0 <= i < n ==> s[i] == ' '
    ensures n < |s| ==> s[n] != ' '
  {
    if s != "" && s[0] == ' ' then
      var n := 1 + Indent(s[1..]);
      assert forall i :: 0 < i < n ==> s[i] == s[1..][i - 1];
      n
    else 0
  }

  lemma IndentOf(n: nat, content: string)
    requires content == "" || content[0] != ' '
    ensures Indent(Spaces(n) + content) == n
    ensures (Spaces(n) + content)[n..] == content
  {
    var s := Spaces(n) + content;
    assert forall i :: 0 <= i < n ==> s[i] == ' ';
    assert content != "" ==> s[n] == content[0];
  }
}
