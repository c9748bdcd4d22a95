/**
 JSON values as Python's `json.dumps` writes them (default separators, ASCII output) and
 `JSON.parse` reads them back. Numbers are integers.
 */
module Json {
  import opened Wrappers
  import opened Text
  import opened Decimal
  import opened JsonString

  datatype Json =
    | JNull
    | JBool(truth: bool)
    | JInt(number: int)
    | JString(text: string)
    | JArray(items: seq<Json>)
    | JObject(entries: seq<(string, Json)>)

  function PrintInt(n: int): string {
    if n < 0 then "-" + Digits(-n) else Digits(n)
  }

  function Print(j: Json): string
    decreases j, 1
  {
    match j
    case JNull => "null"
    case JBool(b) => if b then "true" else "false"
    case JInt(n) => PrintInt(n)
    case JString(s) => Quote(s)
    case JArray(items) => if items == [] then "[]" else "[" + PrintItems(j, items) + "]"
    case JObject(entries) => if entries == [] then "{}" else "{" + PrintEntries(j, entries) + "}"
  }

  function PrintItems(j: Json, items: seq<Json>): string
    requires items != [] && forall i | 0 <= i < |items| :: items[i] < j
    decreases j, 0, |items|
  {
    Print(items[0]) + (if |items| == 1 then "" else ", " + PrintItems(j, items[1..]))
  }

  function PrintEntries(j: Json, entries: seq<(string, Json)>): string
    requires entries != [] && forall i | 0 <= i < |entries| :: entries[i].1 < j
    decreases j, 0, |entries|
  {
    Quote(entries[0].0) + ": " + Print(entries[0].1)
    + (if |entries| == 1 then "" else ", " + PrintEntries(j, entries[1..]))
  }

  function ReadInt(s: string): (r: Parsed<Json>)
    ensures r.Parsed? ==> |r.rest| < |s|
  {
    var t := if "-" <= s then s[1..] else s;
    var n := Span(IsDigit, t);
    if n == 0 then Stuck
    else
      var size: int := Number(t[..n]);
      Parsed(JInt(if "-" <= s then -size else size), t[n..])
  }

  function Read(s: string): (r: Parsed<Json>)
    ensures r.Parsed? ==> |r.rest| < |s|
    decreases |s|, 0
  {
    if s == "" then Stuck
    else if s[0] == '"' then
      var (text, rest) :- Unquote(s);
      Parsed(JString(text), rest)
    else if s[0] == '[' then
      if "]" <= s[1..] then Parsed(JArray([]), s[2..])
      else
        var (items, rest) :- ReadItems(s[1..]);
        if "]" <= rest then Parsed(JArray(items), rest[1..]) else Stuck
    else if s[0] == '{' then
      if "}" <= s[1..] then Parsed(JObject([]), s[2..])
      else
        var (entries, rest) :- ReadEntries(s[1..]);
        if "}" <= rest then Parsed(JObject(entries), rest[1..]) else Stuck
    else if "null" <= s then Parsed(JNull, s[4..])
    else if "true" <= s then Parsed(JBool(true), s[4..])
    else if "false" <= s then Parsed(JBool(false), s[5..])
    else ReadInt(s)
  }

  function ReadItems(s: string): (r: Parsed<seq<Json>>)
    ensures r.Parsed? ==> |r.rest| < |s|
    decreases |s|, 1
  {
    var (item, rest) :- Read(s);
    if ", " <= rest then
      var (more, end) :- ReadItems(rest[2..]);
      Parsed([item] + more, end)
    else
      Parsed([item], rest)
  }

  function ReadEntries(s: string): (r: Parsed<seq<(string, Json)>>)
    ensures r.Parsed? ==> |r.rest| < |s|
    decreases |s|
  {
    var (key, afterKey) :- Unquote(s);
    if !(": " <= afterKey) then Stuck else
    var (value, rest) :- Read(afterKey[2..]);
    if ", " <= rest then
      var (more, end) :- ReadEntries(rest[2..]);
      Parsed([(key, value)] + more, end)
    else
      Parsed([(key, value)], rest)
  }

  /** `JSON.parse`: the whole text is one value. */
  function Parse(s: string): Option<Json> {
    match Read(s)
    case Parsed(j, rest) => if rest == "" then Some(j) else None
    case Stuck => None
  }

  // ---- Round trip

  /** A number ends before `rest`. */
  predicate EndsNumber(rest: string) {
    rest == "" || !IsDigit(rest[0])
  }

  lemma ReadPrintedInt(n: int, rest: string)
    requires EndsNumber(rest)
    ensures Read(PrintInt(n) + rest) == Parsed(JInt(n), rest)
  {
    hide *;
    var s := PrintInt(n) + rest;
    IntStarts(n, rest);
    ReadsInt(s);
    if n < 0 {
      ReadNegative(n, rest);
    } else {
      ReadNatural(n, rest);
    }
  }

  lemma IntStarts(n: int, rest: string)
    ensures var s := PrintInt(n) + rest; s != "" && (s[0] == '-' || IsDigit(s[0]))
  {
    hide Digits;
    assert IsDigit(Digits(if n < 0 then -n else n)[0]);
  }

  lemma ReadsInt(s: string)
    requires s != "" && (s[0] == '-' || IsDigit(s[0]))
    ensures Read(s) == ReadInt(s)
  {
    hide ReadInt, Unquote, ReadItems, ReadEntries;
  }

  lemma ReadNegative(n: int, rest: string)
    requires EndsNumber(rest) && n < 0
    ensures ReadInt(PrintInt(n) + rest) == Parsed(JInt(n), rest)
  {
    hide Digits, Number, Span, EndsNumber;
    var s := PrintInt(n) + rest;
    assert s == "-" + (Digits(-n) + rest);
    assert s[1..] == Digits(-n) + rest;
    ReadDigits(-n, rest);
  }

  lemma ReadNatural(n: nat, rest: string)
    requires EndsNumber(rest)
    ensures ReadInt(PrintInt(n) + rest) == Parsed(JInt(n), rest)
  {
    hide Number, Span, EndsNumber;
    assert IsDigit(Digits(n)[0]);
    ReadDigits(n, rest);
  }

  lemma ReadDigits(n: nat, rest: string)
    requires EndsNumber(rest)
    ensures var s := Digits(n) + rest;
            var k := Span(IsDigit, s);
            k > 0 && Number(s[..k]) == n && s[k..] == rest
  {
    SpanOfRun(IsDigit, Digits(n), rest);
    NumberOfDigits(n);
    assert (Digits(n) + rest)[..|Digits(n)|] == Digits(n);
  }

  lemma ReadPrintedWord(rest: string)
    ensures Read("null" + rest) == Parsed(JNull, rest)
    ensures Read("true" + rest) == Parsed(JBool(true), rest)
    ensures Read("false" + rest) == Parsed(JBool(false), rest)
  {
    assert ("null" + rest)[4..] == rest && ("true" + rest)[4..] == rest && ("false" + rest)[5..] == rest;
  }

  lemma ReadPrintedString(t: string, rest: string)
    ensures Read(Quote(t) + rest) == Parsed(JString(t), rest)
  {
    hide Quote, Unquote;
    UnquoteQuote(t, rest);
    QuoteFirst(t);
    assert (Quote(t) + rest)[0] == '"';
  }

  lemma QuoteFirst(t: string)
    ensures Quote(t) != "" && Quote(t)[0] == '"'
  {
  }

  /** The first character of a printed value. */
  lemma PrintFirst(j: Json)
    ensures Print(j) != "" && Print(j)[0] != ']' && Print(j)[0] != '}'
  {
    hide Quote;
    match j
    case JString(t) => QuoteFirst(t);
    case JInt(n) =>
      assert IsDigit(Digits(if n < 0 then -n else n)[0]);
    case _ =>
  }

  lemma ReadPrintedArray(items: seq<Json>, text: string, rest: string)
    requires text != "" && text[0] != ']'
    requires ReadItems(text + "]" + rest) == Parsed(items, "]" + rest)
    ensures Read("[" + text + "]" + rest) == Parsed(JArray(items), rest)
  {
    var s := "[" + text + "]" + rest;
    assert s[1..] == text + "]" + rest;
    assert s[0] == '[' && s[1..][0] == text[0];
    assert ("]" + rest)[1..] == rest;
  }

  lemma ReadPrintedObject(entries: seq<(string, Json)>, text: string, rest: string)
    requires text != "" && text[0] != '}'
    requires ReadEntries(text + "}" + rest) == Parsed(entries, "}" + rest)
    ensures Read("{" + text + "}" + rest) == Parsed(JObject(entries), rest)
  {
    hide ReadItems, ReadEntries, Unquote, ReadInt;
    var s := "{" + text + "}" + rest;
    assert s[1..] == text + "}" + rest;
    assert s[0] == '{' && s[1..][0] == text[0];
    assert ("}" + rest)[1..] == rest;
  }

  lemma ReadEmpty(rest: string)
    ensures Read("[]" + rest) == Parsed(JArray([]), rest)
    ensures Read("{}" + rest) == Parsed(JObject([]), rest)
  {
    assert ("[]" + rest)[1..] == "]" + rest && ("[]" + rest)[2..] == rest;
    assert ("{}" + rest)[1..] == "}" + rest && ("{}" + rest)[2..] == rest;
  }

  /** Reading a printed value gives it back, whatever follows that does not prolong a number. */
  lemma {:induction false} ReadPrinted(j: Json, rest: string)
    requires EndsNumber(rest)
    ensures Read(Print(j) + rest) == Parsed(j, rest)
    decreases j, 1
  {
    hide Read, ReadItems, ReadEntries, Quote;
    match j
    case JNull => ReadPrintedWord(rest);
    case JBool(_) => ReadPrintedWord(rest);
    case JInt(n) => ReadPrintedInt(n, rest);
    case JString(t) => ReadPrintedString(t, rest);
    case JArray(items) =>
      if items == [] {
        ReadEmpty(rest);
      } else {
        var text := PrintItems(j, items);
        PrintFirst(items[0]);
        ReadPrintedItems(j, items, "]" + rest);
        assert text + "]" + rest == text + ("]" + rest);
        ReadPrintedArray(items, text, rest);
      }
    case JObject(entries) =>
      if entries == [] {
        ReadEmpty(rest);
      } else {
        var text := PrintEntries(j, entries);
        QuoteFirst(entries[0].0);
        ReadPrintedEntries(j, entries, "}" + rest);
        assert text + "}" + rest == text + ("}" + rest);
        ReadPrintedObject(entries, text, rest);
      }
  }

  lemma {:induction false} ReadPrintedItems(j: Json, items: seq<Json>, rest: string)
    requires items != [] && forall i | 0 <= i < |items| :: items[i] < j
    requires EndsNumber(rest) && !(", " <= rest)
    ensures ReadItems(PrintItems(j, items) + rest) == Parsed(items, rest)
    decreases j, 0, |items|
  {
    hide Read, Print;
    if |items| == 1 {
      ReadPrinted(items[0], rest);
      assert PrintItems(j, items) == Print(items[0]);
      assert items == [items[0]];
    } else {
      var after := PrintItems(j, items[1..]) + rest;
      assert PrintItems(j, items) + rest == Print(items[0]) + (", " + after);
      ReadPrinted(items[0], ", " + after);
      assert (", " + after)[2..] == after;
      ReadPrintedItems(j, items[1..], rest);
      assert items == [items[0]] + items[1..];
    }
  }

  lemma {:induction false} ReadPrintedEntries(j: Json, entries: seq<(string, Json)>, rest: string)
    requires entries != [] && forall i | 0 <= i < |entries| :: entries[i].1 < j
    requires EndsNumber(rest) && !(", " <= rest)
    ensures ReadEntries(PrintEntries(j, entries) + rest) == Parsed(entries, rest)
    decreases j, 0, |entries|
  {
    hide Read, Print, Quote, Unquote, ReadEntries;
    var (key, value) := entries[0];
    var end := if |entries| == 1 then rest else ", " + (PrintEntries(j, entries[1..]) + rest);
    assert |entries| > 1 ==> end[0] == ',' && ", " <= end && end[2..] == PrintEntries(j, entries[1..]) + rest;
    ReadPrinted(value, end);
    FirstEntry(j, entries, rest);
    hide PrintEntries;
    ReadOneEntry(key, value, end);
    assert entries == [(key, value)] + entries[1..];
    if |entries| > 1 {
      ReadPrintedEntries(j, entries[1..], rest);
    } else {
      assert entries == [(key, value)];
    }
  }

  lemma FirstEntry(j: Json, entries: seq<(string, Json)>, rest: string)
    requires entries != [] && forall i | 0 <= i < |entries| :: entries[i].1 < j
    ensures var end := if |entries| == 1 then rest else ", " + (PrintEntries(j, entries[1..]) + rest);
            PrintEntries(j, entries) + rest == Quote(entries[0].0) + (": " + (Print(entries[0].1) + end))
  {
    hide Print, Quote;
  }

  lemma ReadOneEntry(key: string, value: Json, end: string)
    requires Read(Print(value) + end) == Parsed(value, end)
    ensures ReadEntries(Quote(key) + (": " + (Print(value) + end)))
            == if ", " <= end then
                 match ReadEntries(end[2..])
                 case Parsed(more, rest) => Parsed([(key, value)] + more, rest)
                 case Stuck => Stuck
               else Parsed([(key, value)], end)
  {
    hide Read, Print, Quote, Unquote;
    var afterKey := ": " + (Print(value) + end);
    UnquoteQuote(key, afterKey);
    assert afterKey[2..] == Print(value) + end;
  }

  /** `JSON.parse(json.dumps(j))` is `j`. */
  lemma ParsePrint(j: Json)
    ensures Parse(Print(j)) == Some(j)
  {
    hide Read, Print;
    ReadPrinted(j, "");
    assert Print(j) + "" == Print(j);
  }

  // ---- Printed text is printable ASCII

  predicate Printable(s: string) {
    forall c | c in s :: ' ' <= c <= '~'
  }

  lemma QuotePrintable(t: string)
    ensures Printable(Quote(t))
  {
    EscapeIsPrintable(t);
  }

  lemma DigitsPrintable(n: nat)
    ensures Printable(Digits(n))
  {
    assert forall i | 0 <= i < |Digits(n)| :: IsDigit(Digits(n)[i]);
  }

  lemma {:induction false} PrintPrintable(j: Json)
    ensures Printable(Print(j))
    decreases j, 1
  {
    hide Quote;
    match j
    case JNull =>
    case JBool(_) =>
    case JInt(n) => DigitsPrintable(if n < 0 then -n else n);
    case JString(t) => QuotePrintable(t);
    case JArray(items) => if items != [] { ItemsPrintable(j, items); }
    case JObject(entries) => if entries != [] { EntriesPrintable(j, entries); }
  }

  lemma {:induction false} ItemsPrintable(j: Json, items: seq<Json>)
    requires items != [] && forall i | 0 <= i < |items| :: items[i] < j
    ensures Printable(PrintItems(j, items))
    decreases j, 0, |items|
  {
    hide Print;
    PrintPrintable(items[0]);
    if |items| > 1 {
      ItemsPrintable(j, items[1..]);
    }
  }

  lemma {:induction false} EntriesPrintable(j: Json, entries: seq<(string, Json)>)
    requires entries != [] && forall i | 0 <= i < |entries| :: entries[i].1 < j
    ensures Printable(PrintEntries(j, entries))
    decreases j, 0, |entries|
  {
    hide Print, Quote;
    QuotePrintable(entries[0].0);
    PrintPrintable(entries[0].1);
    if |entries| > 1 {
      EntriesPrintable(j, entries[1..]);
    }
  }
}
