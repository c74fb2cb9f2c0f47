/** Configuration values, and the two halves of the scalar syntax: the printer
    `render_yaml_scalar` and the reader `_parse_scalar`. */
module Scalars {
  import opened Text

  /** What a config file holds. A dictionary keeps its entries in insertion order.
      A floating-point number is carried as the literal it was read from. */
  datatype Value =
    | Null
    | Bool(flag: bool)
    | Int(number: int)
    | Float(literal: string)
    | Str(text: string)
    | List(items: seq<Value>)
    | Dict(entries: seq<Entry>)

  datatype Entry = Entry(key: string, value: Value)

  // ---------- integer and float literals ----------

  // A run of digits, in which single underscores may separate digits.
  predicate DigitRun(s: string) {
    && s != ""
    && IsDigit(s[0]) && IsDigit(s[|s| - 1])
    && (forall i :: 0 <= i < |s| ==> IsDigit(s[i]) || s[i] == '_')
    && (forall i :: 0 <= i < |s| - 1 ==> IsDigit(s[i]) || IsDigit(s[i + 1]))
  }

  function Unsigned(s: string): string {
    if s != "" && (s[0] == '-' || s[0] == '+') then s[1..] else s
  }

  predicate IsIntLiteral(s: string) {
    DigitRun(Unsigned(s))
  }

  predicate EmptyOrDigitRun(s: string) {
    s == "" || DigitRun(s)
  }

  predicate IsMantissa(s: string) {
    var dot := IndexOf(s, '.');
    if dot == |s| then DigitRun(s)
    else |s| > 1 && EmptyOrDigitRun(s[..dot]) && EmptyOrDigitRun(s[dot + 1..])
  }

  predicate IsFloatLiteral(s: string) {
    var u := Lower(Unsigned(s));
    var e := IndexOf(u, 'e');
    || u == "inf" || u == "infinity" || u == "nan"
    || (IsMantissa(u[..e]) && (e == |u| || DigitRun(Unsigned(u[e + 1..]))))
  }

  function DigitValue(c: char): nat
    requires IsDigit(c)
  {
    c as int - '0' as int
  }

  // Underscores between the digits carry no value.
  function DigitsValue(s: string): nat {
    if s == "" then 0
    else
      var before := DigitsValue(s[..|s| - 1]);
      var c := s[|s| - 1];
      if IsDigit(c) then 10 * before + DigitValue(c) else before
  }

  function IntValue(s: string): int
    requires IsIntLiteral(s)
  {
    var magnitude: int := DigitsValue(Unsigned(s));
    if s[0] == '-' then -magnitude else magnitude
  }

  function NatText(n: nat): (s: string)
    ensures s != "" && forall i :: 0 <= i < |s| ==> IsDigit(s[i])
  {
    var last := [(n % 10 + '0' as int) as char];
    if n < 10 then last else NatText(n / 10) + last
  }

  function IntText(n: int): string {
    if n < 0 then "-" + NatText(-n) else NatText(n)
  }

  lemma {:induction false} NatTextValue(n: nat)
    ensures DigitsValue(NatText(n)) == n
  {
    var s := NatText(n);
    if n >= 10 {
      NatTextValue(n / 10);
      assert s[..|s| - 1] == NatText(n / 10);
    } else {
      assert s[..|s| - 1] == "";
    }
  }

  lemma IntTextRoundTrip(n: int)
    ensures IsIntLiteral(IntText(n)) && IntValue(IntText(n)) == n
  {
    var magnitude := if n < 0 then -n else n;
    NatTextValue(magnitude);
    assert Unsigned(IntText(n)) == NatText(magnitude);
  }

  // ---------- the reader ----------

  predicate QuotedBy(s: string, quote: char) {
    |s| >= 2 && s[0] == quote && s[|s| - 1] == quote
  }

  /** `s.replace("\\" + quote, quote)`: left to right, without overlaps. */
  function Unescape(s: string, quote: char): (r: string)
    ensures |r| <= |s|
  {
    if s == "" then ""
    else if |s| >= 2 && s[0] == '\\' && s[1] == quote then [quote] + Unescape(s[2..], quote)
    else [s[0]] + Unescape(s[1..], quote)
  }

  predicate IsNullWord(s: string) {
    Lower(s) == "null" || Lower(s) == "~"
  }

  function ParseScalar(s: string): Value {
    if IsNullWord(s) then Null
    else if Lower(s) == "true" then Bool(true)
    else if Lower(s) == "false" then Bool(false)
    else if QuotedBy(s, '\"') then Str(Unescape(s[1..|s| - 1], '\"'))
    else if QuotedBy(s, '\'') then Str(Unescape(s[1..|s| - 1], '\''))
    else if s == "{}" then Dict([])
    else if s == "[]" then List([])
    else if IsIntLiteral(s) then Int(IntValue(s))
    else if IsFloatLiteral(s) then Float(s)
    else Str(s)
  }

  // ---------- the printer ----------

  predicate IsScalar(v: Value) {
    v.Null? || v.Bool? || v.Int? || v.Str?
  }

  predicate NeedsQuotes(s: string) {
    Contains(s, ':') || Contains(s, '#') || Contains(s, '\n')
  }

  /** What Python's `str` makes of a float, a list or a dictionary: any function. */
  type Show = Value -> string

  function Quoted(text: string): string {
    if NeedsQuotes(text) then "\"" + text + "\"" else text
  }

  function RenderScalar(show: Show, v: Value): string {
    match v
    case Null => "null"
    case Bool(flag) => if flag then "true" else "false"
    case Int(number) => IntText(number)
    case Float(_) => show(v)
    case Str(text) => Quoted(text)
    case List(_) => Quoted(show(v))
    case Dict(_) => Quoted(show(v))
  }

  // ---------- when a scalar survives printing and reading ----------

  // A backslash followed by this quote somewhere in the text.
  predicate HasEscapedQuote(s: string, quote: char) {
    exists i :: 0 <= i < |s| - 1 && s[i] == '\\' && s[i + 1] == quote
  }

  // Text that the reader does not take for anything but itself.
  predicate ReadsAsText(s: string) {
    && !IsNullWord(s) && Lower(s) != "true" && Lower(s) != "false"
    && !QuotedBy(s, '\"') && !QuotedBy(s, '\'')
    && s != "{}" && s != "[]"
    && !IsIntLiteral(s) && !IsFloatLiteral(s)
  }

  predicate SafeText(s: string) {
    if NeedsQuotes(s) then !HasEscapedQuote(s, '\"')
    else s != "" && Trimmed(s) && ReadsAsText(s)
  }

  // A scalar that fits on one line and comes back as itself.
  predicate SafeScalar(v: Value) {
    IsScalar(v) && (v.Str? ==> OneLine(v.text) && SafeText(v.text))
  }

  /** Undoing the escapes of a quote leaves a text alone exactly when it holds none;
      otherwise it makes the text shorter. */
  lemma {:induction false} UnescapeIsIdentity(s: string, quote: char)
    ensures Unescape(s, quote) == s <==> !HasEscapedQuote(s, quote)
    ensures HasEscapedQuote(s, quote) ==> |Unescape(s, quote)| < |s|
  {
    if s == "" {
    } else if |s| >= 2 && s[0] == '\\' && s[1] == quote {
      assert HasEscapedQuote(s, quote);
    } else {
      UnescapeIsIdentity(s[1..], quote);
      assert s == [s[0]] + s[1..];
      if HasEscapedQuote(s, quote) {
        var i :| 0 <= i < |s| - 1 && s[i] == '\\' && s[i + 1] == quote;
        assert s[1..][i - 1] == '\\' && s[1..][i] == quote;
      }
      if HasEscapedQuote(s[1..], quote) {
        var i :| 0 <= i < |s| - 2 && s[1..][i] == '\\' && s[1..][i + 1] == quote;
        assert s[i + 1] == '\\' && s[i + 2] == quote;
      }
    }
  }

  // Neither a quote nor a digit or sign can start one of the reader's words.
  lemma NotAWord(s: string)
    requires s != "" && s[0] !in {'n', 'N', '~', 't', 'T', 'f', 'F'}
    ensures !IsNullWord(s) && Lower(s) != "true" && Lower(s) != "false"
  {
    assert Lower(s)[0] == LowerChar(s[0]);
    assert Lower(s)[0] !in {'n', '~', 't', 'f'};
  }

  lemma IntTextChars(n: int)
    ensures IntText(n) != "" && (IntText(n)[0] == '-' || IsDigit(IntText(n)[0]))
    ensures Trimmed(IntText(n)) && OneLine(IntText(n))
  {
    var s := IntText(n);
    assert IsDigit(s[|s| - 1]);
    assert forall i :: 0 <= i < |s| ==> s[i] == '-' || IsDigit(s[i]);
  }

  lemma IntTextParses(n: int)
    ensures ParseScalar(IntText(n)) == Int(n)
  {
    var s := IntText(n);
    IntTextRoundTrip(n);
    IntTextChars(n);
    hide Lower, IsIntLiteral, IntValue, IsFloatLiteral;
    NotAWord(s);
    assert !QuotedBy(s, '\"') && !QuotedBy(s, '\'');
  }

  lemma QuotedTextParses(s: string)
    requires NeedsQuotes(s)
    ensures ParseScalar("\"" + s + "\"") == Str(Unescape(s, '\"'))
    ensures Trimmed("\"" + s + "\"")
  {
    var t := "\"" + s + "\"";
    NotAWord(t);
    assert t[1..|t| - 1] == s;
  }

  /** A value read as text is either the text itself or shorter than it. */
  lemma ParsedTextShrinks(s: string)
    ensures ParseScalar(s).Str? ==> |ParseScalar(s).text| <= |s|
    ensures ParseScalar(s) == Str(s) <==> ReadsAsText(s)
  {
  }

  /** The exact condition under which one text, on a line of its own, comes back as
      itself: nothing else survives the trimming and the guesses of the reader. */
  lemma TextSurvivesExactly(s: string)
    ensures ParseScalar(Strip(Quoted(s))) == Str(s) && Strip(Quoted(s)) != "" <==> SafeText(s)
  {
    if NeedsQuotes(s) {
      QuotedTextParses(s);
      UnescapeIsIdentity(s, '\"');
    } else {
      ParsedTextShrinks(s);
      ParsedTextShrinks(Strip(s));
    }
  }

  lemma LowerIsIdentity(word: string)
    requires forall i :: 0 <= i < |word| ==> 'a' <= word[i] <= 'z'
    ensures Lower(word) == word && Trimmed(word) && OneLine(word)
  {
  }

  lemma WordsParse()
    ensures ParseScalar("null") == Null && ParseScalar("true") == Bool(true) && ParseScalar("false") == Bool(false)
  {
    LowerIsIdentity("null");
    LowerIsIdentity("true");
    LowerIsIdentity("false");
  }

  lemma SafeTextParses(s: string)
    requires OneLine(s) && SafeText(s)
    ensures var printed := Quoted(s);
            printed != "" && Trimmed(printed) && OneLine(printed) && ParseScalar(printed) == Str(s)
  {
    if NeedsQuotes(s) {
      var printed := "\"" + s + "\"";
      QuotedTextParses(s);
      UnescapeIsIdentity(s, '\"');
      assert forall i :: 0 < i <= |s| ==> printed[i] == s[i - 1];
    }
  }

  lemma SafeScalarParses(show: Show, v: Value)
    requires SafeScalar(v)
    ensures RenderScalar(show, v) != "" && Trimmed(RenderScalar(show, v)) && OneLine(RenderScalar(show, v))
    ensures ParseScalar(RenderScalar(show, v)) == v
  {
    match v
    case Int(number) =>
      IntTextChars(number);
      IntTextParses(number);
    case Str(text) =>
      SafeTextParses(text);
    case Null =>
      WordsParse();
      LowerIsIdentity("null");
    case Bool(flag) =>
      WordsParse();
      LowerIsIdentity(if flag then "true" else "false");
  }
}
