/** The reader looks only at the order of indentations: not at their sizes, not at
    line numbers, not at blank lines or comments. */
module YamlLayout {
  import opened Wrappers
  import opened Text
  import opened Scalars
  import opened YamlParser

  /** The same contents, indented in the same order. */
  predicate SameShape(a: seq<Line>, b: seq<Line>) {
    && |a| == |b|
    && (forall i :: 0 <= i < |a| ==> a[i].content == b[i].content)
    && (forall i, j :: 0 <= i < |a| && 0 <= j < |a| ==> (a[i].indent <= a[j].indent <==> b[i].indent <= b[j].indent))
  }

  // An error without the line number it names.
  function Kind(e: ParseError): ParseError {
    match e
    case OddIndentation(_) => OddIndentation(0)
    case UnexpectedEnd => UnexpectedEnd
    case UnexpectedIndentation(_) => UnexpectedIndentation(0)
    case ExpectedEntry(_) => ExpectedEntry(0)
    case EmptyKey(_) => EmptyKey(0)
    case TrailingContent(_) => TrailingContent(0)
  }

  /** The same value and stop index, or the same kind of error. */
  predicate Alike<T(==)>(r: Result<T, ParseError>, s: Result<T, ParseError>) {
    if r.Ok? then r == s else s.Err? && Kind(r.error) == Kind(s.error)
  }

  /** Blocks of equally shaped lines are read alike, line for line. */
  lemma {:induction false} BlockAlike(a: seq<Line>, b: seq<Line>, k: nat)
    requires SameShape(a, b) && k < |a|
    ensures Alike(BlockAt(a, k, a[k].indent), BlockAt(b, k, b[k].indent))
    decreases |a| - k, 3
  {
    hide ParseScalar, Strip, Put;
    MappingAlike(a, b, k, k, []);
    ListAlike(a, b, k, k, []);
  }

  lemma {:induction false} BodyAlike(a: seq<Line>, b: seq<Line>, index: nat, text: string)
    requires SameShape(a, b) && index < |a|
    ensures Alike(BodyAt(a, index, text), BodyAt(b, index, text))
    decreases |a| - index, 0
  {
    hide ParseScalar, Strip, Put;
    if index + 1 < |a| {
      BlockAlike(a, b, index + 1);
    }
  }

  lemma {:induction false} EntryAlike(a: seq<Line>, b: seq<Line>, index: nat)
    requires SameShape(a, b) && index < |a|
    ensures Alike(EntryAt(a, index), EntryAt(b, index))
    decreases |a| - index, 1
  {
    hide ParseScalar, Strip, Put;
    var content := a[index].content;
    var colon := IndexOf(content, ':');
    if colon < |content| {
      BodyAlike(a, b, index, Strip(content[colon + 1..]));
    }
  }

  // The mapping or list that opened at line `k`, read from `index` on.
  lemma {:induction false} MappingAlike(a: seq<Line>, b: seq<Line>, index: nat, k: nat, result: seq<Entry>)
    requires SameShape(a, b) && k < |a|
    ensures Alike(MappingAt(a, index, a[k].indent, result), MappingAt(b, index, b[k].indent, result))
    decreases |a| - index, 2
  {
    hide ParseScalar, Strip, Put, EntryAt;
    if index < |a| {
      assert a[index].indent <= a[k].indent <==> b[index].indent <= b[k].indent;
      assert a[k].indent <= a[index].indent <==> b[k].indent <= b[index].indent;
      if !MappingEnd(a, index, a[k].indent) && a[index].indent == a[k].indent {
        EntryAlike(a, b, index);
        var entry := EntryAt(a, index);
        if entry.Ok? {
          MappingAlike(a, b, entry.value.next, k, Put(result, entry.value.value.key, entry.value.value.value));
        }
      }
    }
  }

  lemma {:induction false} ListAlike(a: seq<Line>, b: seq<Line>, index: nat, k: nat, result: seq<Value>)
    requires SameShape(a, b) && k < |a|
    ensures Alike(ListAt(a, index, a[k].indent, result), ListAt(b, index, b[k].indent, result))
    decreases |a| - index, 1
  {
    hide ParseScalar, Strip, Put;
    if index < |a| {
      assert a[index].indent <= a[k].indent <==> b[index].indent <= b[k].indent;
      assert a[k].indent <= a[index].indent <==> b[k].indent <= b[index].indent;
      if !ListEnd(a, index, a[k].indent) {
        var text := Strip(a[index].content[2..]);
        BodyAlike(a, b, index, text);
        var item := BodyAt(a, index, text);
        if item.Ok? {
          ListAlike(a, b, item.value.next, k, result + [item.value.value]);
        }
      }
    }
  }

  // ---------- whole files ----------

  lemma AssembleAlike(tokens: Result<seq<Line>, ParseError>, tokens': Result<seq<Line>, ParseError>)
    requires if tokens.Ok? then tokens'.Ok? && SameShape(tokens.value, tokens'.value) else Alike(tokens, tokens')
    ensures Alike(Assemble(tokens), Assemble(tokens'))
  {
    hide ParseScalar, Strip, Put;
    if tokens.Ok? && tokens.value != [] {
      BlockAlike(tokens.value, tokens'.value, 0);
    }
  }

  // How tokens from different places of a file compare: shifted line numbers only.
  predicate SameTokens(r: Result<seq<Line>, ParseError>, r': Result<seq<Line>, ParseError>) {
    if r.Ok? then
      && r'.Ok? && |r.value| == |r'.value|
      && forall i :: 0 <= i < |r.value| ==> r.value[i] == r'.value[i].(lineno := r.value[i].lineno)
    else r'.Err? && Kind(r.error) == Kind(r'.error)
  }

  lemma {:induction false} TokensOfSuffix(raw: seq<string>, k: nat, raw': seq<string>, k': nat)
    requires k <= |raw| && k' <= |raw'| && raw[k..] == raw'[k'..]
    ensures SameTokens(TokenizeFrom(raw, k), TokenizeFrom(raw', k'))
    decreases |raw| - k
  {
    hide IsSkipped;
    assert |raw[k..]| == |raw'[k'..]|;
    if k < |raw| {
      assert raw[k] == raw[k..][0] && raw'[k'] == raw'[k'..][0];
      assert raw[k + 1..] == raw[k..][1..] && raw'[k' + 1..] == raw'[k'..][1..];
      TokensOfSuffix(raw, k + 1, raw', k' + 1);
    }
  }

  lemma {:induction false} TokensWithNoise(raw: seq<string>, at: nat, noise: string, k: nat)
    requires k <= at <= |raw| && IsSkipped(noise)
    ensures SameTokens(TokenizeFrom(raw, k), TokenizeFrom(raw[..at] + [noise] + raw[at..], k))
    decreases at - k
  {
    hide IsSkipped;
    var raw' := raw[..at] + [noise] + raw[at..];
    if k == at {
      assert raw'[at] == noise && raw'[at + 1..] == raw[at..];
      TokensOfSuffix(raw, at, raw', at + 1);
    } else {
      assert raw'[k] == raw[k];
      TokensWithNoise(raw, at, noise, k + 1);
    }
  }

  /** Putting a blank line or a comment anywhere changes neither the value of a
      file nor whether it loads. */
  lemma NoiseIsIgnored(raw: seq<string>, at: nat, noise: string)
    requires at <= |raw| && IsSkipped(noise)
    ensures Alike(LoadLines(raw), LoadLines(raw[..at] + [noise] + raw[at..]))
  {
    hide IsSkipped;
    TokensWithNoise(raw, at, noise, 0);
    AssembleAlike(TokenizeFrom(raw, 0), TokenizeFrom(raw[..at] + [noise] + raw[at..], 0));
  }

  // ---------- re-indenting a file ----------

  predicate StrictlyIncreasing(f: nat -> nat, bound: nat) {
    forall m, n :: 0 <= m < n <= bound ==> f(m) < f(n)
  }

  predicate KeepsParity(f: nat -> nat, bound: nat) {
    forall n :: 0 <= n <= bound ==> f(n) % 2 == n % 2
  }

  predicate IndentedUpTo(raw: seq<string>, bound: nat) {
    forall k :: 0 <= k < |raw| ==> Indent(raw[k]) <= bound
  }

  function Reindent(raw: seq<string>, f: nat -> nat): (r: seq<string>)
    ensures |r| == |raw|
    ensures forall k :: 0 <= k < |raw| ==> r[k] == Spaces(f(Indent(raw[k]))) + raw[k][Indent(raw[k])..]
  {
    seq(|raw|, k requires 0 <= k < |raw| => Spaces(f(Indent(raw[k]))) + raw[k][Indent(raw[k])..])
  }

  lemma LineReindented(raw: string, to: nat)
    ensures var raw' := Spaces(to) + raw[Indent(raw)..];
            IsSkipped(raw') == IsSkipped(raw) && Indent(raw') == to && raw'[to..] == raw[Indent(raw)..]
  {
    hide Strip;
    var n := Indent(raw);
    var content := raw[n..];
    assert raw == Spaces(n) + content;
    StripIgnoresPrefix(Spaces(n), content);
    StripIgnoresPrefix(Spaces(to), content);
    IndentOf(to, content);
  }

  predicate Reindented(r: Result<seq<Line>, ParseError>, r': Result<seq<Line>, ParseError>, f: nat -> nat, bound: nat) {
    if r.Ok? then
      && r'.Ok? && |r.value| == |r'.value|
      && forall i :: 0 <= i < |r.value| ==>
           r'.value[i] == r.value[i].(indent := f(r.value[i].indent)) && r.value[i].indent <= bound
    else r' == r
  }

  lemma {:induction false} TokensReindented(raw: seq<string>, f: nat -> nat, bound: nat, k: nat)
    requires k <= |raw| && IndentedUpTo(raw, bound)
    requires KeepsParity(f, bound)
    ensures Reindented(TokenizeFrom(raw, k), TokenizeFrom(Reindent(raw, f), k), f, bound)
    decreases |raw| - k
  {
    hide IsSkipped, Spaces;
    if k < |raw| {
      LineReindented(raw[k], f(Indent(raw[k])));
      TokensReindented(raw, f, bound, k + 1);
    }
  }

  /** Only relative indentation matters: any strictly increasing change of the
      indentations that keeps even ones even gives the same value or the same
      kind of error. */
  lemma OnlyRelativeIndentationMatters(raw: seq<string>, f: nat -> nat, bound: nat)
    requires IndentedUpTo(raw, bound)
    requires StrictlyIncreasing(f, bound) && KeepsParity(f, bound)
    ensures Alike(LoadLines(raw), LoadLines(Reindent(raw, f)))
  {
    hide IsSkipped;
    TokensReindented(raw, f, bound, 0);
    var r := TokenizeFrom(raw, 0);
    if r.Ok? {
      var a, b := r.value, TokenizeFrom(Reindent(raw, f), 0).value;
      forall i, j | 0 <= i < |a| && 0 <= j < |a|
        ensures a[i].indent <= a[j].indent <==> b[i].indent <= b[j].indent
      {
        var m, n := a[i].indent, a[j].indent;
        assert m < n ==> f(m) < f(n);
        assert n < m ==> f(n) < f(m);
      }
    }
    AssembleAlike(r, TokenizeFrom(Reindent(raw, f), 0));
  }
}
