/** Absolute paths mentioned in a text: the scan, and what its matches are. */
module PathTokens {
  import opened Text

  // What ends a path.
  predicate IsStop(c: char) {
    IsSpace(c) || c in "()[]{}<>\"'`"
  }

  // What may stand in front of a path.
  predicate IsOpening(c: char) {
    IsSpace(c) || c in "([{<\"'`"
  }

  predicate IsTrailing(c: char) {
    c in ".,;:!?"
  }

  lemma OpeningsStop(c: char)
    ensures IsOpening(c) ==> IsStop(c)
    ensures !IsStop('/') && !IsTrailing('/')
  {
  }

  predicate IsStart(text: string, i: nat) {
    i < |text| && text[i] == '/' && (i == 0 || IsOpening(text[i - 1]))
  }

  /** Where the longest run of path characters from `i` ends. */
  function RunEnd(text: string, i: nat): (j: nat)
    requires i <= |text|
    ensures i <= j <= |text|
    ensures forall k :: i <= k < j ==> !IsStop(text[k])
    ensures j < |text| ==> IsStop(text[j])
    decreases |text| - i
  {
    if i == |text| || IsStop(text[i]) then i else RunEnd(text, i + 1)
  }

  function TrimEnd(token: string): (r: string)
    ensures |r| <= |token| && r == token[..|r|]
    ensures r != "" ==> !IsTrailing(r[|r| - 1])
    ensures forall k :: |r| <= k < |token| ==> IsTrailing(token[k])
  {
    if token != "" && IsTrailing(token[|token| - 1]) then TrimEnd(token[..|token| - 1]) else token
  }

  function TokenAt(text: string, i: nat): string
    requires i <= |text|
  {
    TrimEnd(text[i..RunEnd(text, i)])
  }

  predicate Kept(token: string) {
    token != "" && !Contains(token, '\0')
  }

  /** The trimmed runs at every slash that starts a text or follows an opening
      boundary. */
  function Tokens(text: string): set<string> {
    set i | 0 <= i < |text| && IsStart(text, i) && Kept(TokenAt(text, i)) :: TokenAt(text, i)
  }

  function TokensBefore(text: string, pos: nat): set<string>
    requires pos <= |text|
  {
    set i | 0 <= i < pos && IsStart(text, i) && Kept(TokenAt(text, i)) :: TokenAt(text, i)
  }

  // No match starts inside a match.
  lemma NoStartInside(text: string, i: nat, k: nat)
    requires i < |text| && text[i] == '/' && i < k < RunEnd(text, i)
    ensures !IsStart(text, k)
  {
    OpeningsStop(text[k - 1]);
    assert !IsStop(text[k - 1]);
  }

  lemma MatchIsNotEmpty(text: string, pos: nat)
    requires IsStart(text, pos)
    ensures RunEnd(text, pos) > pos
  {
    OpeningsStop('/');
  }

  lemma NoStartInMatch(text: string, pos: nat, k: nat)
    requires IsStart(text, pos) && pos < k < RunEnd(text, pos)
    ensures !IsStart(text, k)
  {
    NoStartInside(text, pos, k);
  }

  // The tokens before a position are those of the starts before it.
  lemma TokenBefore(text: string, pos: nat, token: string)
    requires pos <= |text|
    ensures token in TokensBefore(text, pos) <==>
            exists i :: 0 <= i < pos && IsStart(text, i) && Kept(TokenAt(text, i)) && TokenAt(text, i) == token
  {
    hide IsStart, Kept, TokenAt;
  }

  /** Going on behind a match misses nothing. */
  lemma SkipMatch(text: string, pos: nat)
    requires pos < |text| && IsStart(text, pos)
    ensures RunEnd(text, pos) > pos
    ensures TokensBefore(text, RunEnd(text, pos))
            == TokensBefore(text, pos) + (if Kept(TokenAt(text, pos)) then {TokenAt(text, pos)} else {})
  {
    hide IsStart, Kept, TokenAt, TokensBefore, RunEnd;
    var end := RunEnd(text, pos);
    MatchIsNotEmpty(text, pos);
    var found := TokensBefore(text, pos) + (if Kept(TokenAt(text, pos)) then {TokenAt(text, pos)} else {});
    forall token | token in TokensBefore(text, end) ensures token in found {
      TokenBefore(text, end, token);
      var i :| 0 <= i < end && IsStart(text, i) && Kept(TokenAt(text, i)) && TokenAt(text, i) == token;
      if i < pos {
        TokenBefore(text, pos, token);
      } else if i > pos {
        NoStartInMatch(text, pos, i);
      }
    }
    forall token | token in found ensures token in TokensBefore(text, end) {
      TokenBefore(text, pos, token);
      TokenBefore(text, end, token);
    }
  }

  /** One pass over the matches, left to right, without overlaps. */
  method ExtractPathTokens(text: string) returns (tokens: set<string>)
    ensures tokens == Tokens(text)
  {
    hide IsStart, Kept, TokenAt;
    tokens := {};
    var pos := 0;
    while pos < |text|
      invariant pos <= |text| && tokens == TokensBefore(text, pos)
    {
      if IsStart(text, pos) {
        SkipMatch(text, pos);
        var token := TokenAt(text, pos);
        if Kept(token) {
          tokens := tokens + {token};
        }
        pos := RunEnd(text, pos);
      } else {
        assert TokensBefore(text, pos + 1) == TokensBefore(text, pos);
        pos := pos + 1;
      }
    }
  }

  // ---------- what a token is ----------

  /** An absolute path as it is extracted: a slash, no stop character, no trailing
      punctuation, no NUL. */
  predicate IsPath(s: string) {
    s != "" && s[0] == '/' && (forall k :: 0 <= k < |s| ==> !IsStop(s[k])) && !IsTrailing(s[|s| - 1]) && !Contains(s, '\0')
  }

  lemma TokenIsPath(text: string, i: nat)
    requires IsStart(text, i) && Kept(TokenAt(text, i))
    ensures IsPath(TokenAt(text, i))
  {
    hide IsStop, IsTrailing, IsOpening;
    var run := text[i..RunEnd(text, i)];
    var token := TokenAt(text, i);
    assert forall k :: 0 <= k < |run| ==> run[k] == text[i + k];
    assert forall k :: 0 <= k < |token| ==> token[k] == run[k];
  }

  // At a start whose run is a path followed by punctuation, the token is that path.
  lemma TokenIs(text: string, i: nat, s: string)
    requires IsPath(s) && i + |s| <= |text| && text[i..i + |s|] == s && IsStart(text, i)
    requires i + |s| < |text| ==> IsStop(text[i + |s|])
    ensures TokenAt(text, i) == s && Kept(s)
  {
    hide IsStop, IsTrailing, IsOpening;
    var end := i + |s|;
    assert forall k :: i <= k < end ==> text[k] == s[k - i];
    assert RunEnd(text, i) == end;
    assert TrimEnd(s) == s;
  }

  /** Every extracted token is an absolute path, and extracting from it gives just
      that token. */
  lemma TokensAreStable(text: string, token: string)
    requires token in Tokens(text)
    ensures IsPath(token) && Tokens(token) == {token}
  {
    hide IsStop, IsTrailing, IsOpening, Kept, TokenAt;
    var i :| 0 <= i < |text| && IsStart(text, i) && Kept(TokenAt(text, i)) && TokenAt(text, i) == token;
    TokenIsPath(text, i);
    PathIsItsToken(token);
  }

  lemma PathIsItsToken(s: string)
    requires IsPath(s)
    ensures Tokens(s) == {s}
  {
    hide IsStop, IsTrailing, IsOpening, Kept, TokenAt, TrimEnd;
    assert IsStart(s, 0);
    assert s[0..0 + |s|] == s;
    TokenIs(s, 0, s);
    forall k | 0 < k < |s| ensures !IsStart(s, k) {
      OpeningsStop(s[k - 1]);
    }
  }

  /** A path is found wherever it stands between an opening boundary and a stop
      character, as in brackets, quotes or the target of a link. */
  lemma DelimitedPathIsFound(before: string, open: char, s: string, stop: char, after: string)
    requires IsPath(s) && IsOpening(open) && IsStop(stop)
    ensures s in Tokens(before + [open] + s + [stop] + after)
  {
    hide IsStop, IsTrailing, Kept, TokenAt, IsPath;
    var text := before + [open] + s + [stop] + after;
    var i := |before| + 1;
    assert text[i - 1] == open && text[i + |s|] == stop;
    assert text[i..i + |s|] == s;
    PathStart(s);
    assert text[i] == s[0];
    TokenIs(text, i, s);
  }

  lemma PathStart(s: string)
    requires IsPath(s)
    ensures s != "" && s[0] == '/'
  {
  }

  // ---------- texts side by side ----------

  lemma RunEndLeft(a: string, space: char, b: string, i: nat)
    requires IsSpace(space) && i <= |a|
    ensures RunEnd(a + [space] + b, i) == RunEnd(a, i)
  {
    var text := a + [space] + b;
    var end := RunEnd(a, i);
    assert text[|a|] == space;
    assert forall k :: 0 <= k < |a| ==> text[k] == a[k];
    assert IsStop(text[end]);
    assert forall k :: i <= k < end ==> !IsStop(text[k]);
  }

  lemma RunEndRight(a: string, space: char, b: string, i: nat)
    requires i <= |b|
    ensures RunEnd(a + [space] + b, |a| + 1 + i) == |a| + 1 + RunEnd(b, i)
  {
    hide IsStop;
    var text := a + [space] + b;
    var offset := |a| + 1;
    var end := RunEnd(b, i);
    assert forall k :: 0 <= k < |b| ==> text[offset + k] == b[k];
    assert end < |b| ==> IsStop(text[offset + end]);
    forall k | offset + i <= k < offset + end ensures !IsStop(text[k]) {
      assert text[offset + (k - offset)] == b[k - offset];
    }
  }

  lemma StartsLeft(a: string, space: char, b: string, i: nat)
    requires IsSpace(space) && i < |a|
    ensures IsStart(a + [space] + b, i) == IsStart(a, i) && TokenAt(a + [space] + b, i) == TokenAt(a, i)
  {
    hide IsOpening, IsSpace;
    var text := a + [space] + b;
    RunEndLeft(a, space, b, i);
    assert forall k :: 0 <= k < |a| ==> text[k] == a[k];
    assert text[i..RunEnd(a, i)] == a[i..RunEnd(a, i)];
  }

  lemma StartsRight(a: string, space: char, b: string, i: nat)
    requires IsSpace(space) && i < |b|
    ensures IsStart(a + [space] + b, |a| + 1 + i) == IsStart(b, i) && TokenAt(a + [space] + b, |a| + 1 + i) == TokenAt(b, i)
  {
    hide IsSpace;
    var text := a + [space] + b;
    RunEndRight(a, space, b, i);
    assert text[|a| + 1 + i] == b[i];
    assert text[|a|] == space;
    assert i > 0 ==> text[|a| + 1 + (i - 1)] == b[i - 1];
    assert text[|a| + 1 + i..|a| + 1 + RunEnd(b, i)] == b[i..RunEnd(b, i)];
  }

  /** Extracting from two texts with white space between them is extracting from
      both. */
  lemma TokensOfBoth(a: string, space: char, b: string)
    requires IsSpace(space)
    ensures Tokens(a + [space] + b) == Tokens(a) + Tokens(b)
  {
    hide IsStart, Kept, TokenAt, IsSpace;
    var text := a + [space] + b;
    assert !IsStart(text, |a|) by { SpaceIsNoStart(text, |a|); }
    forall t | t in Tokens(text) ensures t in Tokens(a) + Tokens(b) {
      var i :| 0 <= i < |text| && IsStart(text, i) && Kept(TokenAt(text, i)) && TokenAt(text, i) == t;
      if i < |a| {
        StartsLeft(a, space, b, i);
      } else {
        StartsRight(a, space, b, i - |a| - 1);
      }
    }
    forall t | t in Tokens(a) ensures t in Tokens(text) {
      var i :| 0 <= i < |a| && IsStart(a, i) && Kept(TokenAt(a, i)) && TokenAt(a, i) == t;
      StartsLeft(a, space, b, i);
    }
    forall t | t in Tokens(b) ensures t in Tokens(text) {
      var i :| 0 <= i < |b| && IsStart(b, i) && Kept(TokenAt(b, i)) && TokenAt(b, i) == t;
      StartsRight(a, space, b, i);
    }
  }

  lemma SpaceIsNoStart(text: string, i: nat)
    requires i < |text| && IsSpace(text[i])
    ensures !IsStart(text, i)
  {
  }

  // ---------- which characters matter ----------

  // A path in a sentence: it starts with a slash, and holds no white space, bracket,
  // quote or backtick and no NUL; its last character is no punctuation.
  predicate PlainPath(s: string) {
    && s != "" && s[0] == '/'
    && (forall k :: 0 <= k < |s| ==>
          s[k] !in {'(', ')', '[', ']', '{', '}', '<', '>', '\"', '\'', '`'} && !IsSpace(s[k]) && s[k] != '\0')
    && s[|s| - 1] !in {'.', ',', ';', ':', '!', '?'}
  }

  predicate Punctuation(p: string) {
    forall k :: 0 <= k < |p| ==> p[k] in {'.', ',', ';', ':', '!', '?'}
  }

  lemma PlainIsPath(s: string)
    ensures PlainPath(s) <==> IsPath(s)
  {
  }

  lemma {:induction false} TrimPunctuation(s: string, p: string)
    requires Punctuation(p) && s != "" && s[|s| - 1] !in {'.', ',', ';', ':', '!', '?'}
    ensures TrimEnd(s + p) == s
  {
    if p == "" {
      assert s + p == s;
    } else {
      TrimPunctuation(s, p[..|p| - 1]);
      assert (s + p)[..|s + p| - 1] == s + p[..|p| - 1];
    }
  }

  /** A path in running text is found without the punctuation behind it: at the start
      of the text or behind white space, an opening bracket, a quote or a backtick, and
      up to the end of the text, white space, a bracket, a quote or a backtick. */
  lemma PathInTextIsFound(before: string, s: string, p: string, after: string)
    requires PlainPath(s) && Punctuation(p)
    requires before != "" ==>
               IsSpace(before[|before| - 1]) || before[|before| - 1] in {'(', '[', '{', '<', '\"', '\'', '`'}
    requires after != "" ==>
               IsSpace(after[0]) || after[0] in {'(', ')', '[', ']', '{', '}', '<', '>', '\"', '\'', '`'}
    ensures s in Tokens(before + s + p + after)
  {
    hide IsSpace, TrimEnd, RunEnd;
    var text := before + s + p + after;
    var i, end := |before|, |before| + |s| + |p|;
    assert text[i] == s[0];
    assert i > 0 ==> text[i - 1] == before[i - 1];
    assert IsStart(text, i);
    assert forall k :: i <= k < end ==> text[k] == if k < i + |s| then s[k - i] else p[k - i - |s|];
    assert end < |text| ==> text[end] == after[0];
    NoPunctuationStops(p);
    PlainIsPath(s);
    assert RunEnd(text, i) == end by { RunEndIs(text, i, end); }
    assert text[i..end] == s + p;
    TrimPunctuation(s, p);
    assert TokenAt(text, i) == s;
  }

  lemma NoPunctuationStops(p: string)
    requires Punctuation(p)
    ensures forall k :: 0 <= k < |p| ==> !IsStop(p[k])
  {
  }

  lemma RunEndIs(text: string, i: nat, end: nat)
    requires i <= end <= |text| && (forall k :: i <= k < end ==> !IsStop(text[k])) && (end < |text| ==> IsStop(text[end]))
    ensures RunEnd(text, i) == end
  {
    hide IsStop;
  }

  /** Nothing is found in a text whose slashes all follow another character: relative
      paths, and addresses with a scheme. */
  lemma OtherSlashesStartNothing(text: string)
    requires forall i :: 0 <= i < |text| && text[i] == '/' ==>
               i > 0 && !IsSpace(text[i - 1]) && text[i - 1] !in {'(', '[', '{', '<', '\"', '\'', '`'}
    ensures Tokens(text) == {}
  {
    hide Kept, TokenAt, IsSpace;
  }
}
