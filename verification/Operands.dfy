/**
 The right side of a numeric comparison. The compiler runs `json.loads` on a plain
 text and, when that yields a number or a boolean, emits the value instead of an
 expression; n8n compares both sides after loose conversion to numbers.
 */
module Operands {
  import opened Wrappers
  import opened Text
  import opened JsValue
  import opened Recipes

  /** The `rightValue` of a condition; a number is kept as its JSON text. */
  datatype Operand = Expression(param: string) | Number(text: string) | Boolean(truth: bool)

  /** What n8n's comparison is known by name only: number syntax, other conversions, and how a value reads as text. */
  datatype Loose = Loose(
    parse: string -> Option<real>,
    coerce: Value -> Option<real>,
    toText: Value -> string)

  predicate IsJsonSpace(c: char) {
    c == ' ' || c == '\t' || c == '\n' || c == '\r'
  }

  /** White space and line ends as JavaScript's number conversion trims them. */
  predicate IsJsSpace(c: char) {
    || '\t' <= c <= '\r'
    || c == ' '
    || c == '\U{A0}'
    || c == '\U{1680}'
    || '\U{2000}' <= c <= '\U{200A}'
    || c == '\U{2028}'
    || c == '\U{2029}'
    || c == '\U{202F}'
    || c == '\U{205F}'
    || c == '\U{3000}'
    || c == '\U{FEFF}'
  }

  lemma JsSpacesSpelled(c: char)
    ensures IsJsSpace(c) <==>
              c in {'\t', '\n', '\U{0B}', '\U{0C}', '\r', ' ', '\U{A0}', '\U{1680}', '\U{2000}', '\U{2001}', '\U{2002}',
                    '\U{2003}', '\U{2004}', '\U{2005}', '\U{2006}', '\U{2007}', '\U{2008}', '\U{2009}', '\U{200A}',
                    '\U{2028}', '\U{2029}', '\U{202F}', '\U{205F}', '\U{3000}', '\U{FEFF}'}
    ensures IsJsonSpace(c) <==> c in {' ', '\t', '\n', '\r'}
  {
  }

  // ---- json.loads on the scalars the compiler looks for

  function DigitsEnd(s: string): nat {
    Span(IsDigit, s)
  }

  /** Text after the integer part: an optional fraction. */
  function AfterFraction(s: string): string {
    if |s| >= 2 && s[0] == '.' && IsDigit(s[1]) then s[1..][DigitsEnd(s[1..])..] else s
  }

  /** An optional exponent. */
  function AfterExponent(s: string): string {
    if s == "" || (s[0] != 'e' && s[0] != 'E') then s
    else
      var t := if |s| >= 2 && (s[1] == '+' || s[1] == '-') then s[2..] else s[1..];
      if t != "" && IsDigit(t[0]) then t[DigitsEnd(t)..] else s
  }

  /** A number by section 6 of RFC 8259. */
  predicate IsJsonNumber(s: string) {
    var t := if "-" <= s then s[1..] else s;
    && t != "" && IsDigit(t[0])
    && AfterExponent(AfterFraction(t[if t[0] == '0' then 1 else DigitsEnd(t)..])) == ""
  }

  /** The numbers Python's reader takes beyond the standard. */
  predicate IsNonFinite(s: string) {
    s == "NaN" || s == "Infinity" || s == "-Infinity"
  }

  /** `json.loads(text)` when it gives an instance of `int | float`, booleans included. */
  function LoadScalar(text: string): Option<Operand> {
    var core := Trim(IsJsonSpace, text);
    if core == "true" then Some(Boolean(true))
    else if core == "false" then Some(Boolean(false))
    else if IsJsonNumber(core) || IsNonFinite(core) then Some(Number(core))
    else None
  }

  /** The text is a boolean word once blanks are removed. */
  predicate BooleanWord(text: string) {
    Trim(IsJsonSpace, text) in {"true", "false"}
  }

  // ---- Loose conversion

  /** Every numeric literal of JavaScript has a digit or spells Infinity. */
  predicate MayBeNumeric(s: string) {
    (exists c | c in s :: IsDigit(c)) || (|s| >= 8 && s[|s| - 8..] == "Infinity")
  }

  function TextNumber(loose: Loose, text: string): Option<real> {
    var core := Trim(IsJsSpace, text);
    if core == "" then Some(0.0)
    else if MayBeNumeric(core) then loose.parse(core)
    else None
  }

  function LooseNumber(loose: Loose, v: Value): Option<real> {
    match v
    case Str(t) => TextNumber(loose, t)
    case Num(r) => Some(r)
    case Bool(b) => Some(if b then 1.0 else 0.0)
    case NotANumber => None
    case _ => loose.coerce(v)
  }

  /** The number an emitted scalar stands for. */
  function ScalarNumber(loose: Loose, o: Operand): Option<real>
    requires !o.Expression?
  {
    match o
    case Number(text) => if MayBeNumeric(text) then loose.parse(text) else None
    case Boolean(b) => Some(if b then 1.0 else 0.0)
  }

  /** What converts to a number without asking the engine: numbers, booleans and blank text. */
  lemma ConversionsSpelled(loose: Loose, r: real, blank: string)
    requires (forall i | 0 <= i < |blank| :: IsJsSpace(blank[i]))
    ensures LooseNumber(loose, Num(r)) == Some(r) && LooseNumber(loose, NotANumber) == None
    ensures LooseNumber(loose, Bool(true)) == Some(1.0) && LooseNumber(loose, Bool(false)) == Some(0.0)
    ensures LooseNumber(loose, Str(blank)) == Some(0.0)
  {
    hide Trim, IsJsSpace;
    TrimOfBlank(blank);
  }

  /** A word of small letters does not convert, `true` and `false` included. */
  lemma WordsDoNotConvert(loose: Loose, word: string)
    requires word != "" && forall i | 0 <= i < |word| :: 'a' <= word[i] <= 'z'
    ensures LooseNumber(loose, Str(word)) == None
  {
    hide Trim;
    assert word == "" + word + "";
    TrimOfPadded(IsJsSpace, word, "", word, "");
    assert |word| >= 8 ==> word[|word| - 8..][0] == word[|word| - 8];
    assert "Infinity"[0] == 'I';
  }

  /** Digits convert as the engine reads them, as text and as an emitted scalar alike. */
  lemma DigitsConvert(loose: Loose, digits: string)
    requires AreDigits(digits)
    ensures LooseNumber(loose, Str(digits)) == loose.parse(digits) == ScalarNumber(loose, Number(digits))
  {
    hide Trim;
    assert digits == "" + digits + "" && digits[0] in digits;
    TrimOfPadded(IsJsSpace, digits, "", digits, "");
  }

  lemma TrimOfBlank(blank: string)
    requires (forall i | 0 <= i < |blank| :: IsJsSpace(blank[i]))
    ensures Trim(IsJsSpace, blank) == ""
  {
    SpanOfRun(IsJsSpace, blank, "");
    assert blank + "" == blank;
  }

  lemma JsonCoreIsJsCore(text: string)
    requires LoadScalar(text).Some?
    ensures Trim(IsJsSpace, text) == Trim(IsJsonSpace, text)
  {
    var core := Trim(IsJsonSpace, text);
    ScalarEnds(core);
    var before, after := TrimSplits(IsJsonSpace, text);
    TrimOfPadded(IsJsSpace, text, before, core, after);
  }

  /** A scalar starts and ends with a visible character. */
  lemma ScalarEnds(core: string)
    requires core == "true" || core == "false" || IsJsonNumber(core) || IsNonFinite(core)
    ensures core != "" && !IsJsSpace(core[0]) && !IsJsSpace(core[|core| - 1])
  {
    hide IsJsonNumber;
    if IsJsonNumber(core) {
      NumberEndsInDigit(core);
    }
  }

  lemma NumberEndsInDigit(s: string)
    requires IsJsonNumber(s)
    ensures s != "" && (s[0] == '-' || IsDigit(s[0])) && IsDigit(s[|s| - 1])
  {
    hide AfterFraction, AfterExponent;
    var t := if "-" <= s then s[1..] else s;
    var n := if t[0] == '0' then 1 else DigitsEnd(t);
    var u := t[n..];
    assert IsDigit(t[n - 1]) by {
      assert t[..n][n - 1] == t[n - 1];
    }
    if u != "" {
      FractionEndsInDigit(u);
      var w := AfterFraction(u);
      if w != "" {
        ExponentEndsInDigit(w);
        assert w[|w| - 1] == u[|u| - 1];
      }
      assert u[|u| - 1] == s[|s| - 1];
    }
  }

  lemma FractionEndsInDigit(s: string)
    requires s != ""
    ensures |AfterFraction(s)| <= |s| && s[|s| - |AfterFraction(s)|..] == AfterFraction(s)
    ensures AfterFraction(s) == "" ==> IsDigit(s[|s| - 1])
  {
    if |s| >= 2 && s[0] == '.' && IsDigit(s[1]) {
      var t := s[1..];
      var n := DigitsEnd(t);
      if n == |t| {
        assert t[..n][n - 1] == s[|s| - 1];
      }
    }
  }

  lemma ExponentEndsInDigit(s: string)
    requires s != "" && AfterExponent(s) == ""
    ensures IsDigit(s[|s| - 1])
  {
    var t := if |s| >= 2 && (s[1] == '+' || s[1] == '-') then s[2..] else s[1..];
    var n := DigitsEnd(t);
    assert n == |t| ==> t[..n][n - 1] == s[|s| - 1];
  }

  lemma BooleanWordsAreNotNumeric()
    ensures !MayBeNumeric("true") && !MayBeNumeric("false")
  {
    assert forall c | c in "true" :: c == 't' || c == 'r' || c == 'u' || c == 'e';
    assert forall c | c in "false" :: c == 'f' || c == 'a' || c == 'l' || c == 's' || c == 'e';
  }

  /**
   Emitting a scalar instead of the text leaves the comparison unchanged exactly when the
   text is not a boolean word: `true` compares as 1, the text "true" does not convert.
   */
  lemma ScalarMeansItsTextExactlyWhen(loose: Loose, text: string)
    requires LoadScalar(text).Some?
    ensures ScalarNumber(loose, LoadScalar(text).value) == LooseNumber(loose, Str(text)) <==> !BooleanWord(text)
  {
    hide Trim, IsJsonNumber;
    JsonCoreIsJsCore(text);
    var core := Trim(IsJsonSpace, text);
    ScalarEnds(core);
    BooleanWordsAreNotNumeric();
  }

  // ---- The grammar of the scalars

  predicate AreDigits(s: string) {
    s != "" && forall i | 0 <= i < |s| :: '0' <= s[i] <= '9'
  }

  predicate IsInt(s: string) {
    s == "0" || (AreDigits(s) && s[0] != '0')
  }

  predicate IsFraction(s: string) {
    s == "" || (s[0] == '.' && AreDigits(s[1..]))
  }

  predicate IsExponent(s: string) {
    s == "" || ((s[0] == 'e' || s[0] == 'E')
                && (AreDigits(s[1..]) || (|s| >= 2 && (s[1] == '+' || s[1] == '-') && AreDigits(s[2..]))))
  }

  function NumberText(minus: bool, whole: string, fraction: string, exponent: string): string {
    (if minus then "-" else "") + (whole + (fraction + exponent))
  }

  lemma DigitsBefore(digits: string, rest: string)
    requires AreDigits(digits) && (rest == "" || !IsDigit(rest[0]))
    ensures DigitsEnd(digits + rest) == |digits| && (digits + rest)[|digits|..] == rest
  {
    SpanOfRun(IsDigit, digits, rest);
  }

  lemma DigitsTaken(s: string)
    requires s != "" && IsDigit(s[0])
    ensures var n := DigitsEnd(s);
            0 < n <= |s| && AreDigits(s[..n]) && (n < |s| ==> !IsDigit(s[n])) && s == s[..n] + s[n..]
  {
    var n := DigitsEnd(s);
    assert s[..n] == s[..n] && All(IsDigit, s[..n]);
    assert forall i | 0 <= i < n :: IsDigit(s[..n][i]);
  }

  lemma FractionTaken(s: string) returns (fraction: string)
    ensures s == fraction + AfterFraction(s) && IsFraction(fraction)
  {
    hide DigitsEnd;
    if |s| >= 2 && s[0] == '.' && IsDigit(s[1]) {
      DigitsTaken(s[1..]);
      var n := DigitsEnd(s[1..]);
      fraction := "." + s[1..][..n];
      assert fraction[1..] == s[1..][..n];
      assert s == "." + s[1..];
    } else {
      fraction := "";
    }
  }

  lemma ExponentTaken(s: string)
    ensures AfterExponent(s) == "" <==> IsExponent(s)
  {
    if s != "" && (s[0] == 'e' || s[0] == 'E') {
      var signed := |s| >= 2 && (s[1] == '+' || s[1] == '-');
      var t := if signed then s[2..] else s[1..];
      AllDigitsEnd(t);
      assert !signed && |s| >= 2 ==> s[1..][0] == s[1];
      assert signed ==> s[1..][0] == s[1] && !AreDigits(s[1..]);
    }
  }

  lemma AllDigitsEnd(t: string)
    ensures t != "" && IsDigit(t[0]) && t[DigitsEnd(t)..] == "" <==> AreDigits(t)
  {
    if AreDigits(t) {
      DigitsBefore(t, "");
      assert t + "" == t;
    } else if t != "" && IsDigit(t[0]) {
      DigitsTaken(t);
    }
  }

  lemma FractionBefore(fraction: string, exponent: string)
    requires IsFraction(fraction) && IsExponent(exponent)
    ensures AfterFraction(fraction + exponent) == exponent
  {
    hide DigitsEnd;
    var s := fraction + exponent;
    if fraction == "" {
      assert s == exponent;
    } else {
      assert s[1..] == fraction[1..] + exponent && s[0] == '.' && s[1] == fraction[1..][0];
      DigitsBefore(fraction[1..], exponent);
    }
  }

  /** A JSON number is a sign, a whole part without leading zeros, a fraction and an exponent. */
  lemma JsonNumbersSpelled(s: string)
    ensures IsJsonNumber(s)
       <==> exists minus, whole, fraction, exponent ::
              && s == NumberText(minus, whole, fraction, exponent)
              && IsInt(whole) && IsFraction(fraction) && IsExponent(exponent)
  {
    hide *;
    if IsJsonNumber(s) {
      var minus, whole, fraction, exponent := NumberTaken(s);
    }
    if minus, whole, fraction, exponent :|
      && s == NumberText(minus, whole, fraction, exponent)
      && IsInt(whole) && IsFraction(fraction) && IsExponent(exponent)
    {
      NumberRead(minus, whole, fraction, exponent);
    }
  }

  lemma NumberTaken(s: string) returns (minus: bool, whole: string, fraction: string, exponent: string)
    requires IsJsonNumber(s)
    ensures s == NumberText(minus, whole, fraction, exponent)
    ensures IsInt(whole) && IsFraction(fraction) && IsExponent(exponent)
  {
    hide DigitsEnd, AfterFraction, AfterExponent, IsFraction, IsExponent;
    minus := "-" <= s;
    var t := if minus then s[1..] else s;
    var n := if t[0] == '0' then 1 else DigitsEnd(t);
    DigitsTaken(t);
    whole := t[..n];
    fraction := FractionTaken(t[n..]);
    exponent := AfterFraction(t[n..]);
    ExponentTaken(exponent);
    assert t == whole + (fraction + exponent);
    assert s == (if minus then "-" else "") + t;
  }

  lemma NumberRead(minus: bool, whole: string, fraction: string, exponent: string)
    requires IsInt(whole) && IsFraction(fraction) && IsExponent(exponent)
    ensures IsJsonNumber(NumberText(minus, whole, fraction, exponent))
  {
    hide DigitsEnd, AfterFraction, AfterExponent;
    var t := whole + (fraction + exponent);
    var s := NumberText(minus, whole, fraction, exponent);
    assert t[0] == whole[0] && IsDigit(whole[0]);
    assert (if "-" <= s then s[1..] else s) == t by {
      assert minus ==> s[1..] == t;
      assert !minus ==> s == t;
    }
    FractionBefore(fraction, exponent);
    ExponentTaken(exponent);
    AfterWhole(whole, fraction + exponent);
    assert fraction + exponent == "" || !IsDigit((fraction + exponent)[0]) by {
      assert fraction == "" ==> fraction + exponent == exponent;
    }
  }

  lemma AfterWhole(whole: string, rest: string)
    requires IsInt(whole)
    ensures whole != ""
    ensures rest == "" || !IsDigit(rest[0]) ==>
              var t := whole + rest; t[if t[0] == '0' then 1 else DigitsEnd(t)..] == rest
  {
    hide DigitsEnd, AreDigits;
    WholeStarts(whole);
    if rest == "" || !IsDigit(rest[0]) {
      FrontDropped(whole, rest);
      if whole != "0" {
        DigitsBefore(whole, rest);
      }
    }
  }

  lemma WholeStarts(whole: string)
    requires IsInt(whole)
    ensures whole != "" && IsDigit(whole[0]) && (whole == "0" || (AreDigits(whole) && whole[0] != '0'))
  {
  }

  lemma FrontDropped(whole: string, rest: string)
    requires whole != ""
    ensures (whole + rest)[|whole|..] == rest && (whole + rest)[0] == whole[0]
  {
  }

  /** Between blanks, the two words and the numbers are scalars and nothing else is. */
  lemma ScalarsSpelled(before: string, core: string, after: string)
    requires Padded(IsJsonSpace, before + core + after, before, core, after)
    ensures LoadScalar(before + core + after)
         == if core == "true" then Some(Boolean(true))
            else if core == "false" then Some(Boolean(false))
            else if core in {"NaN", "Infinity", "-Infinity"} || IsJsonNumber(core) then Some(Number(core))
            else None
  {
    hide IsJsonNumber, Trim;
    TrimOfPadded(IsJsonSpace, before + core + after, before, core, after);
  }
}
