/**
 The JavaScript the compiler writes into node parameters, and how it is read back.
 A parameter is `={{ ... }}` around a `+` chain of string literals and node references,
 or around `JSON.stringify` of an object whose values are such chains.
 */
module JsExpression {
  import opened Wrappers
  import opened Text
  import opened Template
  import opened JsonString

  /** An operand of a `+` chain; `Field` is `$("node").item.json.path`. */
  datatype Term = Literal(text: string) | Field(node: string, path: seq<string>)

  /** The entries of an object literal, in order. */
  type Fields = seq<(string, seq<Term>)>

  /** A property name that may follow a dot in JavaScript: it does not start with a digit. */
  predicate JsName(word: string) {
    word != "" && !IsDigit(word[0])
  }

  predicate JsPath(path: seq<string>) {
    forall i | 0 <= i < |path| :: JsName(path[i])
  }

  predicate Printable(t: Term) {
    t.Field? ==> ValidPath(t.path)
  }

  predicate AllPrintable(terms: seq<Term>) {
    terms != [] && forall i | 0 <= i < |terms| :: Printable(terms[i])
  }

  predicate AllJs(terms: seq<Term>) {
    forall i | 0 <= i < |terms| && terms[i].Field? :: JsPath(terms[i].path)
  }

  const JSON_OF: string := ").item.json."

  function PrintTerm(t: Term): string {
    match t
    case Literal(text) => Quote(text)
    case Field(node, path) => "$(" + Quote(node) + JSON_OF + Dotted(path)
  }

  function PrintSum(terms: seq<Term>): string {
    if terms == [] then ""
    else if |terms| == 1 then PrintTerm(terms[0])
    else PrintTerm(terms[0]) + " + " + PrintSum(terms[1..])
  }

  function PrintFields(fields: Fields): string {
    if fields == [] then ""
    else
      Quote(fields[0].0) + ": " + PrintSum(fields[0].1)
      + (if |fields| == 1 then "" else ", " + PrintFields(fields[1..]))
  }

  const OBJECT_OPEN: string := " JSON.stringify({"
  const OBJECT_CLOSE: string := "}) "

  /** An n8n expression parameter around `inner`. */
  function Braced(inner: string): string {
    "={{" + inner + "}}"
  }

  function PrintParam(terms: seq<Term>): string {
    Braced(" " + PrintSum(terms) + " ")
  }

  function PrintBody(fields: Fields): string {
    Braced(OBJECT_OPEN + PrintFields(fields) + OBJECT_CLOSE)
  }

  function ReadTerm(s: string): (r: Parsed<Term>)
    ensures r.Parsed? ==> |r.rest| < |s|
  {
    if "\"" <= s then
      var (text, rest) :- Unquote(s);
      Parsed(Literal(text), rest)
    else if "$(" <= s then
      var (node, rest) :- Unquote(s[2..]);
      if !(JSON_OF <= rest) then Stuck else
      ReadField(node, rest[|JSON_OF|..])
    else
      Stuck
  }

  function ReadField(node: string, s: string): (r: Parsed<Term>)
    ensures r.Parsed? ==> |r.rest| <= |s|
  {
    match MatchPath(s)
    case None => Stuck
    case Some(path) => if JsPath(path) then Parsed(Field(node, path), s[|Dotted(path)|..]) else Stuck
  }

  function ReadSum(s: string): (r: Parsed<seq<Term>>)
    ensures r.Parsed? ==> |r.rest| < |s| && r.value != []
    decreases |s|
  {
    var (t, rest) :- ReadTerm(s);
    if " + " <= rest then
      var (more, end) :- ReadSum(rest[3..]);
      Parsed([t] + more, end)
    else
      Parsed([t], rest)
  }

  /** Every entry has a value. */
  predicate Valued(fields: Fields) {
    forall i | 0 <= i < |fields| :: fields[i].1 != []
  }

  function ReadFields(s: string): (r: Parsed<Fields>)
    ensures r.Parsed? ==> |r.rest| < |s| && Valued(r.value)
    decreases |s|
  {
    var (key, afterKey) :- Unquote(s);
    if !(": " <= afterKey) then Stuck else
    var (value, rest) :- ReadSum(afterKey[2..]);
    if ", " <= rest then
      var (more, end) :- ReadFields(rest[2..]);
      Parsed([(key, value)] + more, end)
    else
      Parsed([(key, value)], rest)
  }

  /** Where the first `}}` of `s` stands. */
  function FindClose(s: string): (r: Option<nat>)
    ensures r.Some? ==> r.value + 2 <= |s| && s[r.value..r.value + 2] == "}}"
  {
    if |s| < 2 then None
    else if s[0] == '}' && s[1] == '}' then Some(0)
    else
      var n :- FindClose(s[1..]);
      Some(n + 1)
  }

  /** The expression inside a parameter: n8n closes it at the first `}}`, which must end the parameter. */
  function Inner(param: string): Option<string> {
    if !("={{" <= param) then None else
    var n :- FindClose(param[3..]);
    if n + 5 == |param| then Some(param[3..3 + n]) else None
  }

  function ReadParam(param: string): (r: Option<seq<Term>>)
    ensures r.Some? ==> r.value != []
  {
    var inner :- Inner(param);
    if !(" " <= inner) then None else
    match ReadSum(inner[1..])
    case Parsed(terms, rest) => if rest == " " then Some(terms) else None
    case Stuck => None
  }

  function ReadBody(param: string): (r: Option<Fields>)
    ensures r.Some? ==> Valued(r.value)
  {
    var inner :- Inner(param);
    if !(OBJECT_OPEN <= inner) then None else
    match ReadFields(inner[|OBJECT_OPEN|..])
    case Parsed(fields, rest) => if rest == OBJECT_CLOSE then Some(fields) else None
    case Stuck => None
  }

  // ---- Reading what was printed

  lemma ReadPrintedTerm(t: Term, rest: string)
    requires Printable(t) && EndsPath(rest)
    ensures ReadTerm(PrintTerm(t) + rest) == if AllJs([t]) then Parsed(t, rest) else Stuck
  {
    hide Quote, Unquote;
    match t
    case Literal(text) =>
      UnquoteQuote(text, rest);
      QuoteOpens(text);
      assert (Quote(text) + rest)[0] == '"';
      LoneTermJs(t);
    case Field(node, path) =>
      var s := PrintTerm(t) + rest;
      var tail := JSON_OF + (Dotted(path) + rest);
      assert s == "$(" + (Quote(node) + tail);
      assert s[0] == '$' && s[2..] == Quote(node) + tail;
      UnquoteQuote(node, tail);
      ReadPrintedField(node, path, rest);
      assert tail[|JSON_OF|..] == Dotted(path) + rest;
      LoneTermJs(t);
  }

  lemma LoneTermJs(t: Term)
    ensures AllJs([t]) <==> (t.Field? ==> JsPath(t.path))
  {
    assert [t][0] == t;
  }

  lemma QuoteOpens(text: string)
    ensures Quote(text) != "" && Quote(text)[0] == '"'
  {
  }

  lemma ReadPrintedField(node: string, path: seq<string>, rest: string)
    requires ValidPath(path) && EndsPath(rest)
    ensures ReadField(node, Dotted(path) + rest) == if JsPath(path) then Parsed(Field(node, path), rest) else Stuck
  {
    MatchPathOfDotted(path, rest);
    assert (Dotted(path) + rest)[|Dotted(path)|..] == rest;
  }

  /** A chain ends before `rest`. */
  predicate EndsSum(rest: string) {
    EndsPath(rest) && !(" + " <= rest)
  }

  /** A printed chain is read back, and is unreadable exactly when some path has a digit-led word. */
  lemma {:induction false} ReadPrintedSum(terms: seq<Term>, rest: string)
    requires AllPrintable(terms) && EndsSum(rest)
    ensures ReadSum(PrintSum(terms) + rest) == if AllJs(terms) then Parsed(terms, rest) else Stuck
    decreases |terms|
  {
    hide ReadTerm, PrintTerm;
    var t := terms[0];
    var tail := terms[1..];
    assert AllJs(terms) <==> AllJs([t]) && AllJs(tail) by {
      SplitAllJs(terms);
    }
    if |terms| == 1 {
      ReadPrintedTerm(t, rest);
      assert terms == [t];
    } else {
      var after := PrintSum(tail) + rest;
      assert PrintSum(terms) + rest == PrintTerm(t) + (" + " + after);
      ReadPrintedTerm(t, " + " + after);
      assert (" + " + after)[3..] == after;
      ReadPrintedSum(tail, rest);
      assert terms == [t] + tail;
    }
  }

  /** References, operands and bodies as they are written. */
  lemma PrintedSpelled(node: string, path: seq<string>, terms: seq<Term>, fields: Fields)
    ensures PrintTerm(Field(node, path)) == "$(" + Quote(node) + ").item.json." + Dotted(path)
    ensures PrintParam(terms) == "={{" + (" " + PrintSum(terms) + " ") + "}}"
    ensures PrintBody(fields) == "={{" + (" JSON.stringify({" + PrintFields(fields) + "}) ") + "}}"
  {
    hide Quote, Dotted, PrintSum, PrintFields;
  }

  /** The paths JavaScript cannot read are those with a word that starts with a digit. */
  lemma JsUnlessDigitLed(terms: seq<Term>)
    requires AllPrintable(terms)
    ensures AllJs(terms)
       <==> forall i, j | 0 <= i < |terms| && terms[i].Field? && 0 <= j < |terms[i].path| ::
              !('0' <= terms[i].path[j][0] <= '9')
  {
    if !AllJs(terms) {
      var i :| 0 <= i < |terms| && terms[i].Field? && !JsPath(terms[i].path);
      var j :| 0 <= j < |terms[i].path| && !JsName(terms[i].path[j]);
      assert '0' <= terms[i].path[j][0] <= '9';
    }
  }

  lemma SplitAllJs(terms: seq<Term>)
    requires terms != []
    ensures AllJs(terms) <==> AllJs([terms[0]]) && AllJs(terms[1..])
  {
    if AllJs([terms[0]]) && AllJs(terms[1..]) {
      assert [terms[0]][0] == terms[0];
      assert forall i | 0 < i < |terms| :: terms[i] == terms[1..][i - 1];
    }
  }

  predicate FieldsPrintable(fields: Fields) {
    fields != [] && forall i | 0 <= i < |fields| :: AllPrintable(fields[i].1)
  }

  predicate FieldsJs(fields: Fields) {
    forall i | 0 <= i < |fields| :: AllJs(fields[i].1)
  }

  /** An object ends before `rest`. */
  predicate EndsFields(rest: string) {
    EndsSum(rest) && !(", " <= rest)
  }

  lemma {:induction false} ReadPrintedFields(fields: Fields, rest: string)
    requires FieldsPrintable(fields) && EndsFields(rest)
    ensures ReadFields(PrintFields(fields) + rest) == if FieldsJs(fields) then Parsed(fields, rest) else Stuck
    decreases |fields|
  {
    hide ReadFields, PrintSum, Quote, AllJs, AllPrintable, FieldsJs, EndsSum;
    var (key, value) := fields[0];
    var tail := fields[1..];
    SplitFieldsJs(fields);
    var end := if |fields| == 1 then rest else ", " + (PrintFields(tail) + rest);
    PrintsField(fields, rest);
    CommaEndsSum(PrintFields(tail) + rest);
    ReadFirstField(key, value, end);
    if |fields| == 1 {
      assert fields == [(key, value)];
    } else {
      assert end[2..] == PrintFields(tail) + rest;
      ReadPrintedFields(tail, rest);
      assert fields == [(key, value)] + tail;
    }
  }

  lemma PrintsField(fields: Fields, rest: string)
    requires fields != []
    ensures var end := if |fields| == 1 then rest else ", " + (PrintFields(fields[1..]) + rest);
            PrintFields(fields) + rest == Quote(fields[0].0) + (": " + (PrintSum(fields[0].1) + end))
  {
    hide *;
    FieldsUnfold(fields);
    var a, b, c := Quote(fields[0].0), ": ", PrintSum(fields[0].1);
    if |fields| == 1 {
      assert a + b + c + "" == a + b + c;
      Regroup(a, b, c, rest);
    } else {
      var d := PrintFields(fields[1..]);
      Assoc(a + b + c, ", " + d, rest);
      Assoc(", ", d, rest);
      Regroup(a, b, c, ", " + (d + rest));
    }
  }

  lemma FieldsUnfold(fields: Fields)
    requires fields != []
    ensures PrintFields(fields) == Quote(fields[0].0) + ": " + PrintSum(fields[0].1)
                                   + (if |fields| == 1 then "" else ", " + PrintFields(fields[1..]))
  {
    hide PrintSum, Quote;
  }

  lemma Assoc(a: string, b: string, c: string)
    ensures (a + b) + c == a + (b + c)
  {
  }

  lemma Regroup(a: string, b: string, c: string, d: string)
    ensures a + b + c + d == a + (b + (c + d))
  {
    Assoc(a + b, c, d);
    Assoc(a, b, c + d);
  }

  lemma CommaEndsSum(rest: string)
    ensures EndsSum(", " + rest)
  {
    assert (", " + rest)[0] == ',';
  }

  /** The first field of an object and what is read behind it. */
  lemma ReadFirstField(key: string, value: seq<Term>, end: string)
    requires AllPrintable(value) && EndsSum(end)
    ensures ReadFields(Quote(key) + (": " + (PrintSum(value) + end)))
         == if !AllJs(value) then Stuck
            else if !(", " <= end) then Parsed([(key, value)], end)
            else match ReadFields(end[2..])
                 case Stuck => Stuck
                 case Parsed(more, left) => Parsed([(key, value)] + more, left)
  {
    hide ReadSum, PrintSum, Quote, Unquote, AllJs, AllPrintable, EndsSum;
    var afterKey := ": " + (PrintSum(value) + end);
    UnquoteQuote(key, afterKey);
    assert afterKey[2..] == PrintSum(value) + end;
    ReadPrintedSum(value, end);
  }

  lemma SplitFieldsJs(fields: Fields)
    requires fields != []
    ensures FieldsJs(fields) <==> AllJs(fields[0].1) && FieldsJs(fields[1..])
    ensures FieldsJs([])
  {
    hide AllJs;
    assert forall i | 0 < i < |fields| :: fields[i] == fields[1..][i - 1];
  }

  // ---- Where a parameter closes

  predicate TermBraceFree(t: Term) {
    match t
    case Literal(text) => BraceFree(text)
    case Field(node, _) => BraceFree(node)
  }

  predicate SumBraceFree(terms: seq<Term>) {
    forall i | 0 <= i < |terms| :: TermBraceFree(terms[i])
  }

  lemma {:induction false} DottedBraceFree(path: seq<string>)
    requires ValidPath(path)
    ensures BraceFree(Dotted(path))
  {
    WordBraceFree(path[0]);
    if |path| > 1 {
      DottedBraceFree(path[1..]);
    }
  }

  lemma WordBraceFree(w: string)
    requires All(IsWord, w)
    ensures BraceFree(w)
  {
    assert forall i | 0 <= i < |w| :: IsWord(w[i]);
  }

  lemma TermPrintsBraceFree(t: Term)
    requires Printable(t) && TermBraceFree(t)
    ensures BraceFree(PrintTerm(t))
  {
    hide Quote;
    match t
    case Literal(text) => EscapeKeepsBraceFree(text);
    case Field(node, path) =>
      EscapeKeepsBraceFree(node);
      DottedBraceFree(path);
  }

  lemma {:induction false} SumPrintsBraceFree(terms: seq<Term>)
    requires AllPrintable(terms) && SumBraceFree(terms)
    ensures BraceFree(PrintSum(terms))
  {
    hide PrintTerm;
    TermPrintsBraceFree(terms[0]);
    if |terms| > 1 {
      SumPrintsBraceFree(terms[1..]);
    }
  }

  predicate FieldsBraceFree(fields: Fields) {
    forall i | 0 <= i < |fields| :: BraceFree(fields[i].0) && SumBraceFree(fields[i].1)
  }

  lemma {:induction false} FieldsPrintBraceFree(fields: Fields)
    requires FieldsPrintable(fields) && FieldsBraceFree(fields)
    ensures BraceFree(PrintFields(fields))
  {
    hide PrintSum, Quote;
    EscapeKeepsBraceFree(fields[0].0);
    SumPrintsBraceFree(fields[0].1);
    if |fields| > 1 {
      FieldsPrintBraceFree(fields[1..]);
    }
  }

  /** No `}}` inside `s`, and no `}` at its end that could pair with the closing one. */
  predicate Closeless(s: string) {
    && (forall i | 0 <= i < |s| - 1 :: s[i] == '}' ==> s[i + 1] != '}')
    && (s != "" ==> s[|s| - 1] != '}')
  }

  lemma {:induction false} FirstCloseIsLast(s: string)
    requires Closeless(s)
    ensures FindClose(s + "}}") == Some(|s|)
  {
    hide Closeless, FindClose;
    FindCloseUnfolds(s + "}}");
    if s == "" {
      assert s + "}}" == "}}";
    } else {
      CloselessTail(s);
      FirstCloseIsLast(s[1..]);
      assert (s + "}}")[1..] == s[1..] + "}}";
    }
  }

  lemma FindCloseUnfolds(t: string)
    requires |t| >= 2
    ensures t[0] == '}' && t[1] == '}' ==> FindClose(t) == Some(0)
    ensures !(t[0] == '}' && t[1] == '}') && FindClose(t[1..]).Some? ==>
              FindClose(t) == Some(FindClose(t[1..]).value + 1)
  {
  }

  lemma CloselessTail(s: string)
    requires Closeless(s) && s != ""
    ensures Closeless(s[1..])
    ensures var t := s + "}}"; !(t[0] == '}' && t[1] == '}')
  {
  }

  /** n8n sees exactly the inner text when the first `}}` is the final one. */
  lemma InnerOfBraced(inner: string)
    requires Closeless(inner)
    ensures Inner(Braced(inner)) == Some(inner)
  {
    FirstCloseIsLast(inner);
    assert Braced(inner)[3..] == inner + "}}";
    assert Braced(inner)[3..3 + |inner|] == inner;
  }

  /** A printed condition operand closes where it should, and is read back when its paths are JavaScript paths. */
  lemma ReadPrintedParam(terms: seq<Term>)
    requires AllPrintable(terms) && SumBraceFree(terms)
    ensures Inner(PrintParam(terms)) == Some(" " + PrintSum(terms) + " ")
    ensures ReadParam(PrintParam(terms)) == if AllJs(terms) then Some(terms) else None
  {
    hide PrintSum, ReadSum, AllJs, AllPrintable, SumBraceFree, Inner;
    SumPrintsBraceFree(terms);
    var inner := " " + PrintSum(terms) + " ";
    InnerOfBraced(inner);
    assert inner[1..] == PrintSum(terms) + " ";
    ReadPrintedSum(terms, " ");
  }

  /** The same for a whole request body. */
  lemma ReadPrintedBody(fields: Fields)
    requires FieldsPrintable(fields) && FieldsBraceFree(fields)
    ensures Inner(PrintBody(fields)) == Some(OBJECT_OPEN + PrintFields(fields) + OBJECT_CLOSE)
    ensures ReadBody(PrintBody(fields)) == if FieldsJs(fields) then Some(fields) else None
  {
    hide PrintFields, ReadFields, FieldsJs, FieldsPrintable, FieldsBraceFree, Inner;
    FieldsPrintBraceFree(fields);
    var text := PrintFields(fields);
    var inner := OBJECT_OPEN + text + OBJECT_CLOSE;
    BodyCloseless(text);
    InnerOfBraced(inner);
    assert inner[|OBJECT_OPEN|..] == text + OBJECT_CLOSE;
    ReadPrintedFields(fields, OBJECT_CLOSE);
  }

  lemma BodyCloseless(text: string)
    requires BraceFree(text)
    ensures Closeless(OBJECT_OPEN + text + OBJECT_CLOSE)
  {
    var inner := OBJECT_OPEN + text + OBJECT_CLOSE;
    var n := |OBJECT_OPEN| + |text|;
    forall i | 0 <= i < |inner|
      ensures inner[i] == '}' ==> i == n
    {
      if i < |OBJECT_OPEN| {
        assert inner[i] == OBJECT_OPEN[i];
      } else if i < n {
        assert inner[i] == text[i - |OBJECT_OPEN|];
      } else {
        assert inner[i] == OBJECT_CLOSE[i - n];
      }
    }
    assert inner[n + 1] == ')';
  }
}
