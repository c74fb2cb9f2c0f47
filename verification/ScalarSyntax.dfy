/** The scalar syntax, told without the reader: which texts denote which value. The
    reader gives a value exactly to the texts that denote it. */
module ScalarSyntax {
  import opened Text
  import opened Scalars

  // ---------- what denotes what ----------

  // The letters of a lower-case word, each in either case.
  predicate SameLetters(s: string, word: string) {
    |s| == |word| && forall i :: 0 <= i < |s| ==> s[i] == word[i] || s[i] as int == word[i] as int - 32
  }

  // Parts put together with a separator between them.
  function Glue(parts: seq<string>, sep: string): string {
    if parts == [] then "" else if |parts| == 1 then parts[0] else parts[0] + sep + Glue(parts[1..], sep)
  }

  predicate Digits(s: string) {
    s != "" && forall i :: 0 <= i < |s| ==> '0' <= s[i] <= '9'
  }

  predicate DigitGroups(groups: seq<string>) {
    groups != [] && forall i :: 0 <= i < |groups| ==> Digits(groups[i])
  }

  predicate Sign(s: string) {
    s == "" || s == "+" || s == "-"
  }

  function Zeros(n: nat): string {
    seq(n, _ => '0')
  }

  // Groups of digits with single underscores between them, which read together are this
  // number with any zeros in front.
  predicate GroupsOfNumber(s: string, groups: seq<string>, zeros: nat, n: nat) {
    DigitGroups(groups) && s == Glue(groups, "_") && Glue(groups, "") == Zeros(zeros) + NatText(n)
  }

  ghost predicate NumberText(s: string, n: nat) {
    exists groups, zeros: nat :: GroupsOfNumber(s, groups, zeros, n)
  }

  // A sign, or none, and the digits of the number.
  ghost predicate IntegerText(s: string, n: int) {
    (n >= 0 && (NumberText(s, n) || (s != "" && s[0] == '+' && NumberText(s[1..], n))))
    || (n <= 0 && s != "" && s[0] == '-' && NumberText(s[1..], -n))
  }

  ghost predicate SomeNumber(s: string) {
    exists n: nat :: NumberText(s, n)
  }

  // Digits, digits with a point in front, behind or between.
  ghost predicate PointedText(s: string) {
    || SomeNumber(s)
    || exists k :: 0 <= k < |s| && s[k] == '.' && |s| > 1 && (k == 0 || SomeNumber(s[..k])) && (k == |s| - 1 || SomeNumber(s[k + 1..]))
  }

  ghost predicate ExponentText(s: string) {
    s == "" || ((s[0] == 'e' || s[0] == 'E') && SomeNumber(Unsigned(s[1..])))
  }

  // What stands for a float behind its sign.
  ghost predicate FloatBody(s: string) {
    || SameLetters(s, "inf") || SameLetters(s, "infinity") || SameLetters(s, "nan")
    || exists k :: 0 <= k <= |s| && PointedText(s[..k]) && ExponentText(s[k..])
  }

  ghost predicate FloatText(s: string) {
    FloatBody(Unsigned(s)) && forall n :: !IntegerText(s, n)
  }

  // A text in these quotes, cut at its escaped quotes.
  predicate QuotedParts(s: string, quote: char, parts: seq<string>) {
    && parts != [] && (forall i :: 0 <= i < |parts| ==> !HasEscapedQuote(parts[i], quote))
    && s == [quote] + Glue(parts, ['\\', quote]) + [quote]
  }

  predicate InQuotes(s: string) {
    |s| >= 2 && s[0] == s[|s| - 1] && (s[0] == '\"' || s[0] == '\'')
  }

  /** The text `s`, trimmed and on one line, denotes the value. */
  ghost predicate Denotes(s: string, v: Value) {
    match v
    case Null => SameLetters(s, "null") || s == "~"
    case Bool(flag) => SameLetters(s, if flag then "true" else "false")
    case Int(n) => IntegerText(s, n)
    case Float(literal) => literal == s && FloatText(s)
    case List(items) => items == [] && s == "[]"
    case Dict(entries) => entries == [] && s == "{}"
    case Str(text) =>
      || (exists parts :: QuotedParts(s, '\"', parts) && text == Glue(parts, "\""))
      || (exists parts :: QuotedParts(s, '\'', parts) && text == Glue(parts, "\'"))
      || (text == s && DenotesNothingElse(s))
  }

  ghost predicate DenotesNothingElse(s: string) {
    && !SameLetters(s, "null") && s != "~" && !SameLetters(s, "true") && !SameLetters(s, "false")
    && !InQuotes(s) && s != "[]" && s != "{}" && !FloatText(s) && forall n :: !IntegerText(s, n)
  }

  // ---------- words ----------

  lemma WordsByLetters(s: string, word: string)
    requires forall i :: 0 <= i < |word| ==> 'a' <= word[i] <= 'z'
    ensures Lower(s) == word <==> SameLetters(s, word)
  {
    if |s| == |word| {
      forall i | 0 <= i < |s| ensures LowerChar(s[i]) == word[i] <==> s[i] == word[i] || s[i] as int == word[i] as int - 32 {
      }
      if SameLetters(s, word) {
        assert Lower(s) == word;
      }
    }
  }

  lemma TildeIsItself(s: string)
    ensures Lower(s) == "~" <==> s == "~"
  {
    if Lower(s) == "~" {
      assert LowerChar(s[0]) == '~';
    }
    if s == "~" {
      assert Lower(s)[0] == '~';
    }
  }

  // ---------- quotes ----------

  lemma {:induction false} UnescapeAt(a: string, quote: char, b: string)
    requires !HasEscapedQuote(a, quote) && quote != '\\'
    ensures Unescape(a + ['\\', quote] + b, quote) == a + [quote] + Unescape(b, quote)
  {
    var s := a + ['\\', quote] + b;
    if a == "" {
      assert s[2..] == b;
    } else {
      assert s[0] == a[0] && s[1] == (if |a| > 1 then a[1] else '\\');
      assert s[1..] == a[1..] + ['\\', quote] + b;
      assert forall i :: 0 <= i < |a| - 1 ==> a[1..][i] == a[i + 1];
      UnescapeAt(a[1..], quote, b);
      assert a == [a[0]] + a[1..];
    }
  }

  lemma {:induction false} UnescapeGlued(parts: seq<string>, quote: char)
    requires parts != [] && quote != '\\' && forall i :: 0 <= i < |parts| ==> !HasEscapedQuote(parts[i], quote)
    ensures Unescape(Glue(parts, ['\\', quote]), quote) == Glue(parts, [quote])
  {
    hide HasEscapedQuote;
    if |parts| == 1 {
      UnescapeIsIdentity(parts[0], quote);
    } else {
      UnescapeGlued(parts[1..], quote);
      UnescapeAt(parts[0], quote, Glue(parts[1..], ['\\', quote]));
    }
  }

  // Every text can be cut at its escaped quotes.
  lemma {:induction false} CutAtEscapes(s: string, quote: char) returns (parts: seq<string>)
    requires quote != '\\'
    ensures parts != [] && (forall i :: 0 <= i < |parts| ==> !HasEscapedQuote(parts[i], quote)) && s == Glue(parts, ['\\', quote])
    decreases |s|
  {
    if HasEscapedQuote(s, quote) {
      var k := FirstEscape(s, quote);
      var rest := CutAtEscapes(s[k + 2..], quote);
      parts := [s[..k]] + rest;
      assert parts[1..] == rest;
      assert s == s[..k] + ['\\', quote] + s[k + 2..];
    } else {
      parts := [s];
    }
  }

  lemma {:induction false} FirstEscape(s: string, quote: char) returns (k: nat)
    requires HasEscapedQuote(s, quote) && quote != '\\'
    ensures k + 2 <= |s| && s[k] == '\\' && s[k + 1] == quote && !HasEscapedQuote(s[..k], quote)
  {
    if s[0] == '\\' && s[1] == quote {
      return 0;
    }
    var i :| 0 <= i < |s| - 1 && s[i] == '\\' && s[i + 1] == quote;
    assert s[1..][i - 1] == '\\' && s[1..][i] == quote;
    var j := FirstEscape(s[1..], quote);
    k := j + 1;
    var head, tail := s[..k], s[1..][..j];
    assert head == [s[0]] + tail;
    forall n | 0 <= n < |head| - 1 ensures !(head[n] == '\\' && head[n + 1] == quote) {
      assert head[n + 1] == tail[n];
      assert n > 0 ==> head[n] == tail[n - 1];
      assert n == 0 ==> head[0] == s[0] && head[1] == s[1];
    }
  }

  lemma QuotedIsParts(s: string, quote: char, text: string)
    requires quote == '\"' || quote == '\''
    ensures QuotedBy(s, quote) && text == Unescape(s[1..|s| - 1], quote) <==>
            exists parts :: QuotedParts(s, quote, parts) && text == Glue(parts, [quote])
  {
    hide HasEscapedQuote;
    if QuotedBy(s, quote) && text == Unescape(s[1..|s| - 1], quote) {
      var parts := CutAtEscapes(s[1..|s| - 1], quote);
      UnescapeGlued(parts, quote);
      assert s == [quote] + s[1..|s| - 1] + [quote];
      assert QuotedParts(s, quote, parts);
    }
    if parts :| QuotedParts(s, quote, parts) && text == Glue(parts, [quote]) {
      UnescapeGlued(parts, quote);
      assert s[1..|s| - 1] == Glue(parts, ['\\', quote]);
    }
  }

  // ---------- numbers ----------

  function Bare(s: string): string {
    if s == "" then ""
    else Bare(s[..|s| - 1]) + if s[|s| - 1] == '_' then "" else [s[|s| - 1]]
  }

  lemma {:induction false} BareConcat(a: string, b: string)
    ensures Bare(a + b) == Bare(a) + Bare(b)
  {
    if b == "" {
      assert a + b == a;
    } else {
      var n := |b| - 1;
      BareConcat(a, b[..n]);
      assert (a + b)[..|a + b| - 1] == a + b[..n] && (a + b)[|a + b| - 1] == b[n];
    }
  }

  lemma {:induction false} BareDigits(s: string)
    requires forall i :: 0 <= i < |s| ==> IsDigit(s[i])
    ensures Bare(s) == s
  {
    if s != "" {
      BareDigits(s[..|s| - 1]);
      assert s == s[..|s| - 1] + [s[|s| - 1]];
    }
  }

  // Underscores carry no value.
  lemma {:induction false} ValueOfBare(s: string)
    requires forall i :: 0 <= i < |s| ==> IsDigit(s[i]) || s[i] == '_'
    ensures DigitsValue(Bare(s)) == DigitsValue(s)
  {
    if s != "" {
      var n := |s| - 1;
      ValueOfBare(s[..n]);
      var before := Bare(s[..n]);
      assert (before + [s[n]])[..|before|] == before;
      assert before + "" == before;
    }
  }

  lemma {:induction false} GluedRun(groups: seq<string>)
    requires DigitGroups(groups)
    ensures DigitRun(Glue(groups, "_")) && Digits(Glue(groups, "")) && Bare(Glue(groups, "_")) == Glue(groups, "")
  {
    hide DigitRun, Digits, Bare;
    if |groups| == 1 {
      OneGroup(groups[0]);
    } else {
      var first, rest := groups[0], groups[1..];
      GluedRun(rest);
      RunJoins(first, Glue(rest, "_"));
      BareJoins(first, Glue(rest, "_"));
      DigitsJoin(first, Glue(rest, ""));
      assert first + "" + Glue(rest, "") == first + Glue(rest, "");
    }
  }

  lemma OneGroup(s: string)
    requires Digits(s)
    ensures DigitRun(s) && Bare(s) == s
  {
    BareDigits(s);
  }

  lemma DigitsJoin(a: string, b: string)
    requires Digits(a) && Digits(b)
    ensures Digits(a + b)
  {
  }

  lemma BareJoins(first: string, rest: string)
    requires Digits(first)
    ensures Bare(first + "_" + rest) == first + Bare(rest)
  {
    BareDigits(first);
    BareConcat(first + "_", rest);
    assert (first + "_")[..|first|] == first;
    assert first + "" == first;
  }

  lemma RunJoins(first: string, rest: string)
    requires Digits(first) && DigitRun(rest)
    ensures DigitRun(first + "_" + rest)
  {
    var s := first + "_" + rest;
    assert forall i :: 0 <= i < |s| ==> s[i] == if i < |first| then first[i] else if i == |first| then '_' else rest[i - |first| - 1];
  }

  // Every run of digits with single underscores is such groups.
  lemma {:induction false} CutAtUnderscores(s: string) returns (groups: seq<string>)
    requires DigitRun(s)
    ensures DigitGroups(groups) && Glue(groups, "_") == s
    decreases |s|
  {
    var k := IndexOf(s, '_');
    if k == |s| {
      groups := [s];
    } else {
      RunSplits(s, k);
      var rest := CutAtUnderscores(s[k + 1..]);
      groups := [s[..k]] + rest;
      assert groups[1..] == rest;
      assert s == s[..k] + "_" + s[k + 1..];
    }
  }

  lemma RunSplits(s: string, k: nat)
    requires DigitRun(s) && k == IndexOf(s, '_') && k < |s|
    ensures Digits(s[..k]) && DigitRun(s[k + 1..])
  {
    var rest := s[k + 1..];
    assert forall i :: 0 <= i < |rest| ==> rest[i] == s[k + 1 + i];
    assert k > 0 && k < |s| - 1;
  }

  // Digits are the number they denote, with some zeros in front.
  lemma {:induction false} DigitsAreNumber(s: string) returns (zeros: nat)
    requires Digits(s)
    ensures s == Zeros(zeros) + NatText(DigitsValue(s))
  {
    var n := |s| - 1;
    var last := [s[n]];
    assert s == s[..n] + last;
    LastDigit(DigitsValue(s[..n]), s[n]);
    if n == 0 {
      zeros := 0;
      assert s[..n] == "";
      assert Zeros(0) + NatText(DigitsValue(s)) == s;
    } else {
      zeros := DigitsAreNumber(s[..n]);
      var v := DigitsValue(s[..n]);
      if v == 0 {
        assert s[..n] == Zeros(zeros) + "0" by { ZeroText(); }
        assert Zeros(zeros) + "0" == Zeros(zeros + 1);
        zeros := zeros + 1;
      }
      assert s == Zeros(zeros) + NatText(DigitsValue(s));
    }
  }

  lemma ZeroText()
    ensures NatText(0) == "0"
  {
  }

  // A number with one more digit.
  lemma LastDigit(v: nat, c: char)
    requires IsDigit(c)
    ensures NatText(10 * v + DigitValue(c)) == if v == 0 then [c] else NatText(v) + [c]
  {
    var n := 10 * v + DigitValue(c);
    assert n % 10 == DigitValue(c) && n / 10 == v;
  }

  lemma {:induction false} ValueOfZeros(zeros: nat, s: string)
    ensures DigitsValue(Zeros(zeros) + s) == DigitsValue(s)
  {
    if s != "" {
      var all := Zeros(zeros) + s;
      ValueOfZeros(zeros, s[..|s| - 1]);
      assert all[..|all| - 1] == Zeros(zeros) + s[..|s| - 1];
    } else {
      assert Zeros(zeros) + s == Zeros(zeros);
      ZerosAreNothing(zeros);
    }
  }

  lemma {:induction false} ZerosAreNothing(zeros: nat)
    ensures DigitsValue(Zeros(zeros)) == 0
  {
    if zeros > 0 {
      ZerosAreNothing(zeros - 1);
      assert Zeros(zeros)[..zeros - 1] == Zeros(zeros - 1);
    }
  }

  /** A run of digits and single underscores is the text of one number, the value of its
      digits; nothing else is the text of a number. */
  lemma RunIsNumber(s: string, n: nat)
    ensures NumberText(s, n) <==> DigitRun(s) && DigitsValue(s) == n
  {
    hide DigitRun, DigitGroups;
    if NumberText(s, n) {
      var groups, zeros: nat :| GroupsOfNumber(s, groups, zeros, n);
      GluedRun(groups);
      RunCharacters(s);
      ValueOfBare(s);
      ValueOfZeros(zeros, NatText(n));
      NatTextValue(n);
    }
    if DigitRun(s) && DigitsValue(s) == n {
      var groups := CutAtUnderscores(s);
      GluedRun(groups);
      RunCharacters(s);
      ValueOfBare(s);
      var zeros := DigitsAreNumber(Glue(groups, ""));
      assert GroupsOfNumber(s, groups, zeros, n);
    }
  }

  lemma RunCharacters(s: string)
    requires DigitRun(s)
    ensures forall i :: 0 <= i < |s| ==> IsDigit(s[i]) || s[i] == '_'
  {
  }

  lemma RunIsSomeNumber(s: string)
    ensures SomeNumber(s) <==> DigitRun(s)
  {
    hide NumberText, DigitRun;
    if SomeNumber(s) {
      var n: nat :| NumberText(s, n);
      RunIsNumber(s, n);
    }
    RunIsNumber(s, DigitsValue(s));
  }

  lemma SignedIsNoRun(s: string)
    requires s != "" && (s[0] == '+' || s[0] == '-')
    ensures !DigitRun(s)
  {
  }

  lemma IntegersByText(s: string, n: int)
    ensures IntegerText(s, n) <==> IsIntLiteral(s) && IntValue(s) == n
  {
    hide NumberText, DigitRun;
    if n >= 0 {
      RunIsNumber(s, n);
      if s != "" {
        RunIsNumber(s[1..], n);
      }
    }
    if n <= 0 && s != "" {
      RunIsNumber(s[1..], -n);
    }
    if s != "" && (s[0] == '+' || s[0] == '-') {
      SignedIsNoRun(s);
    }
    if s == "" {
      assert !DigitRun("") by { EmptyIsNoRun(); }
    }
  }

  lemma EmptyIsNoRun()
    ensures !DigitRun("")
  {
  }

  lemma NoIntegerText(s: string)
    ensures (exists n :: IntegerText(s, n)) <==> IsIntLiteral(s)
  {
    hide IntegerText, IsIntLiteral, IntValue;
    if n :| IntegerText(s, n) {
      IntegersByText(s, n);
    }
    if IsIntLiteral(s) {
      IntegersByText(s, IntValue(s));
    }
  }

  // ---------- floats ----------

  predicate MantissaChars(s: string) {
    forall i :: 0 <= i < |s| ==> IsDigit(s[i]) || s[i] == '_' || s[i] == '.'
  }

  lemma MantissaByText(s: string)
    ensures PointedText(s) <==> IsMantissa(s)
    ensures IsMantissa(s) ==> MantissaChars(s) && s != ""
  {
    hide SomeNumber;
    RunIsSomeNumber(s);
    var dot := IndexOf(s, '.');
    forall k | 0 <= k < |s| && s[k] == '.' ensures SomeNumber(s[..k]) <==> DigitRun(s[..k]) {
      RunIsSomeNumber(s[..k]);
    }
    forall k | 0 <= k < |s| && s[k] == '.' ensures SomeNumber(s[k + 1..]) <==> DigitRun(s[k + 1..]) {
      RunIsSomeNumber(s[k + 1..]);
    }
    if k :| 0 <= k < |s| && s[k] == '.' && |s| > 1 && (k == 0 || SomeNumber(s[..k])) && (k == |s| - 1 || SomeNumber(s[k + 1..])) {
      FirstPoint(s, k);
    }
    if dot < |s| && IsMantissa(s) {
      PointedChars(s, dot);
    }
  }

  // A point behind a run of digits is the first.
  lemma FirstPoint(s: string, k: nat)
    requires k < |s| && s[k] == '.' && (k == 0 || DigitRun(s[..k]))
    ensures IndexOf(s, '.') == k
  {
    assert forall i :: 0 <= i < k ==> s[..k][i] == s[i] && s[i] != '.';
  }

  lemma PointedChars(s: string, dot: nat)
    requires dot < |s| && s[dot] == '.' && EmptyOrDigitRun(s[..dot]) && EmptyOrDigitRun(s[dot + 1..])
    ensures MantissaChars(s)
  {
    assert forall i :: 0 <= i < dot ==> s[..dot][i] == s[i];
    assert forall i :: dot < i < |s| ==> s[dot + 1..][i - dot - 1] == s[i];
  }

  lemma LowerParts(s: string, k: nat)
    requires k <= |s|
    ensures Lower(s)[..k] == Lower(s[..k]) && Lower(s)[k..] == Lower(s[k..])
  {
  }

  // Mantissas have no letters, so their case does not matter.
  lemma LowerMantissa(s: string)
    ensures MantissaChars(s) ==> Lower(s) == s
    ensures MantissaChars(Lower(s)) ==> Lower(s) == s
  {
    if MantissaChars(Lower(s)) {
      assert forall i :: 0 <= i < |s| ==> IsDigit(LowerChar(s[i])) || LowerChar(s[i]) == '_' || LowerChar(s[i]) == '.';
    }
  }

  lemma RunChars(s: string)
    ensures DigitRun(s) ==> MantissaChars(s)
  {
  }

  lemma LowerRun(s: string)
    ensures DigitRun(Unsigned(Lower(s))) <==> DigitRun(Unsigned(s))
  {
    hide DigitRun, MantissaChars;
    var u := Unsigned(s);
    LowerUnsigned(s);
    RunChars(u);
    RunChars(Lower(u));
    LowerMantissa(u);
  }

  lemma LowerUnsigned(s: string)
    ensures Unsigned(Lower(s)) == Lower(Unsigned(s))
  {
    if s != "" {
      assert LowerChar(s[0]) == '-' <==> s[0] == '-';
      assert LowerChar(s[0]) == '+' <==> s[0] == '+';
    }
  }

  // What a mantissa and an exponent are, in the reader's terms.
  lemma ExponentByText(s: string)
    ensures ExponentText(s) <==> s == "" || (LowerChar(s[0]) == 'e' && DigitRun(Unsigned(Lower(s)[1..])))
  {
    hide DigitRun, SomeNumber, Unsigned;
    if s != "" {
      RunIsSomeNumber(Unsigned(s[1..]));
      LowerRun(s[1..]);
      assert Lower(s)[1..] == Lower(s[1..]);
    }
  }

  lemma SplitAtE(s: string, k: nat)
    requires k <= |s| && MantissaChars(s[..k]) && (k < |s| ==> LowerChar(s[k]) == 'e')
    ensures IndexOf(Lower(s), 'e') == k
  {
    forall i | 0 <= i < k ensures LowerChar(s[i]) != 'e' {
      assert s[..k][i] == s[i];
    }
  }

  lemma FloatsByText(s: string)
    ensures FloatBody(s) <==>
            var u := Lower(s);
            var e := IndexOf(u, 'e');
            || u == "inf" || u == "infinity" || u == "nan"
            || (IsMantissa(u[..e]) && (e == |u| || DigitRun(Unsigned(u[e + 1..]))))
  {
    hide DigitRun, IsMantissa, PointedText, ExponentText, MantissaChars, Unsigned, LowerChar, SameLetters;
    WordsByLetters(s, "inf");
    WordsByLetters(s, "infinity");
    WordsByLetters(s, "nan");
    var u := Lower(s);
    var e := IndexOf(u, 'e');
    LowerParts(s, e);
    if k :| 0 <= k <= |s| && PointedText(s[..k]) && ExponentText(s[k..]) {
      BodyIsFloat(s, k);
    }
    if IsMantissa(u[..e]) && (e == |u| || DigitRun(Unsigned(u[e + 1..]))) {
      FloatIsBody(s, e);
    }
  }

  lemma BodyIsFloat(s: string, k: nat)
    requires k <= |s| && PointedText(s[..k]) && ExponentText(s[k..])
    ensures var u := Lower(s); IndexOf(u, 'e') == k && IsMantissa(u[..k]) && (k == |u| || DigitRun(Unsigned(u[k + 1..])))
  {
    hide DigitRun, IsMantissa, PointedText, ExponentText, MantissaChars, Unsigned;
    MantissaByText(s[..k]);
    LowerMantissa(s[..k]);
    LowerParts(s, k);
    ExponentByText(s[k..]);
    SplitAtE(s, k);
    assert k < |s| ==> Lower(s)[k + 1..] == Lower(s[k..])[1..];
  }

  lemma FloatIsBody(s: string, e: nat)
    requires var u := Lower(s); e == IndexOf(u, 'e') && IsMantissa(u[..e]) && (e == |u| || DigitRun(Unsigned(u[e + 1..])))
    ensures PointedText(s[..e]) && ExponentText(s[e..])
  {
    hide DigitRun, IsMantissa, PointedText, ExponentText, MantissaChars, Unsigned;
    LowerParts(s, e);
    MantissaByText(Lower(s[..e]));
    LowerMantissa(s[..e]);
    MantissaByText(s[..e]);
    ExponentByText(s[e..]);
    assert e < |s| ==> Lower(s)[e + 1..] == Lower(s[e..])[1..];
  }

  // ---------- the whole syntax ----------

  lemma QuotesAreSeen(s: string)
    ensures InQuotes(s) <==> QuotedBy(s, '\"') || QuotedBy(s, '\'')
    ensures !(QuotedBy(s, '\"') && QuotedBy(s, '\''))
  {
  }

  // The classes of texts are told apart by their first character, or by being words.
  lemma ClassesByFirst(s: string)
    ensures InQuotes(s) || s == "{}" || s == "[]" ==>
              !SameLetters(s, "null") && s != "~" && !SameLetters(s, "true") && !SameLetters(s, "false") && !IsIntLiteral(s)
              && !IsFloatLiteral(s)
    ensures SameLetters(s, "null") || s == "~" || SameLetters(s, "true") || SameLetters(s, "false") ==> !IsIntLiteral(s) && !IsFloatLiteral(s)
    ensures SameLetters(s, "true") ==> !SameLetters(s, "null") && !SameLetters(s, "false") && s != "~"
    ensures SameLetters(s, "null") ==> !SameLetters(s, "false")
    ensures s == "~" ==> !SameLetters(s, "false")
  {
    hide SameLetters, IsIntLiteral, IsFloatLiteral;
    FirstOfFloat(s);
    FirstOfInt(s);
    FirstOfWord(s);
  }

  lemma FirstOfInt(s: string)
    ensures IsIntLiteral(s) ==> s != "" && (IsDigit(s[0]) || s[0] in {'+', '-'})
  {
  }

  lemma FirstOfWord(s: string)
    ensures SameLetters(s, "null") ==> |s| == 4 && s[0] in {'n', 'N'}
    ensures SameLetters(s, "true") ==> |s| == 4 && s[0] in {'t', 'T'}
    ensures SameLetters(s, "false") ==> |s| == 5 && s[0] in {'f', 'F'}
  {
  }

  lemma FirstOfFloat(s: string)
    ensures IsFloatLiteral(s) ==>
              s != "" && (IsDigit(s[0]) || s[0] in {'+', '-', '.', 'i', 'I', 'n', 'N'}) && (s[0] in {'n', 'N'} ==> |s| == 3)
  {
    var v := Unsigned(s);
    var u := Lower(v);
    if IsFloatLiteral(s) {
      var e := IndexOf(u, 'e');
      if IsMantissa(u[..e]) {
        MantissaFirst(u[..e]);
        assert u[..e][0] == u[0] == LowerChar(v[0]);
      } else {
        assert u[0] == LowerChar(v[0]);
      }
    }
  }

  lemma MantissaFirst(s: string)
    requires IsMantissa(s)
    ensures s != "" && (IsDigit(s[0]) || s[0] == '.')
  {
    var dot := IndexOf(s, '.');
    if dot > 0 && dot < |s| {
      assert s[..dot][0] == s[0];
    }
  }

  /** The reader gives a scalar exactly the value that its text denotes. */
  lemma ScalarIsReadExactly(s: string, v: Value)
    ensures ParseScalar(s) == v <==> Denotes(s, v)
  {
    hide Lower, SameLetters, IsIntLiteral, IsFloatLiteral, IntValue, IntegerText, FloatBody, QuotedParts, Unescape, Glue, Unsigned;
    ReaderBranches(s);
    ClassesByFirst(s);
    match v
    case Str(text) =>
      QuotedIsParts(s, '\"', text);
      QuotedIsParts(s, '\'', text);
    case Int(n) => IntegersByText(s, n);
    case _ =>
  }

  // The tests of the reader, one by one.
  lemma ReaderBranches(s: string)
    ensures IsNullWord(s) <==> SameLetters(s, "null") || s == "~"
    ensures Lower(s) == "true" <==> SameLetters(s, "true")
    ensures Lower(s) == "false" <==> SameLetters(s, "false")
    ensures InQuotes(s) <==> QuotedBy(s, '\"') || QuotedBy(s, '\'')
    ensures !(QuotedBy(s, '\"') && QuotedBy(s, '\''))
    ensures (exists n :: IntegerText(s, n)) <==> IsIntLiteral(s)
    ensures FloatText(s) <==> IsFloatLiteral(s) && !IsIntLiteral(s)
  {
    hide Lower, SameLetters, IsIntLiteral, IntegerText, FloatBody, IsMantissa, DigitRun, Unsigned;
    WordsByLetters(s, "null");
    TildeIsItself(s);
    WordsByLetters(s, "true");
    WordsByLetters(s, "false");
    QuotesAreSeen(s);
    NoIntegerText(s);
    FloatsByText(Unsigned(s));
  }
}
