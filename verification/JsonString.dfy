/**
 JSON string literals: `json.dumps` on a string (ASCII output, the Python default) and
 the reading of a literal by section 7 of RFC 8259, which JavaScript shares.
 */
module JsonString {
  import opened Wrappers
  import opened Text

  predicate IsHexDigit(c: char) {
    IsDigit(c) || 'a' <= c <= 'f' || 'A' <= c <= 'F'
  }

  function HexDigit(n: nat): (c: char)
    requires n < 16
    ensures IsHexDigit(c) && HexValue(c) == n
  {
    if n < 10 then ('0' as int + n) as char else ('a' as int + n - 10) as char
  }

  function HexValue(c: char): (n: nat)
    requires IsHexDigit(c)
    ensures n < 16
  {
    if IsDigit(c) then c as int - '0' as int
    else if 'a' <= c <= 'f' then c as int - 'a' as int + 10
    else c as int - 'A' as int + 10
  }

  /** One UTF-16 code unit as four lower-case hexadecimal digits. */
  function Hex4(unit: nat): (s: string)
    requires unit < 0x10000
    ensures |s| == 4
  {
    [HexDigit(unit / 0x1000), HexDigit(unit / 0x100 % 16), HexDigit(unit / 0x10 % 16), HexDigit(unit % 16)]
  }

  /** `\uXXXX` at the head of `s`. */
  function ReadUnit(s: string): (r: Option<nat>)
    ensures r.Some? ==> |s| >= 6 && r.value < 0x10000
  {
    if |s| >= 6 && s[0] == '\\' && s[1] == 'u'
       && IsHexDigit(s[2]) && IsHexDigit(s[3]) && IsHexDigit(s[4]) && IsHexDigit(s[5]) then
      Some(0x1000 * HexValue(s[2]) + 0x100 * HexValue(s[3]) + 0x10 * HexValue(s[4]) + HexValue(s[5]))
    else
      None
  }

  function WriteUnit(unit: nat): (s: string)
    requires unit < 0x10000
    ensures |s| == 6
  {
    "\\u" + Hex4(unit)
  }

  lemma ReadWrittenUnit(unit: nat, rest: string)
    requires unit < 0x10000
    ensures ReadUnit(WriteUnit(unit) + rest) == Some(unit)
  {
    var s := WriteUnit(unit) + rest;
    assert s[0] == '\\' && s[1] == 'u';
    assert s[2] == HexDigit(unit / 0x1000) && s[3] == HexDigit(unit / 0x100 % 16);
    assert s[4] == HexDigit(unit / 0x10 % 16) && s[5] == HexDigit(unit % 16);
    HexSum(unit);
  }

  lemma HexSum(unit: nat)
    requires unit < 0x10000
    ensures 0x1000 * (unit / 0x1000) + 0x100 * (unit / 0x100 % 16) + 0x10 * (unit / 0x10 % 16) + unit % 16 == unit
  {
    assert unit / 0x10 == (unit / 0x100) * 16 + unit / 0x10 % 16;
    assert unit / 0x100 == (unit / 0x1000) * 16 + unit / 0x100 % 16;
  }

  /** The letter after the backslash of a two-character escape. */
  function Shorthand(c: char): (r: Option<char>)
  {
    match c
    case '"' => Some('"')
    case '\\' => Some('\\')
    case '\n' => Some('n')
    case '\r' => Some('r')
    case '\t' => Some('t')
    case '\U{0C}' => Some('f')
    case '\U{08}' => Some('b')
    case _ => None
  }

  function Unshorthand(c: char): Option<char> {
    match c
    case '"' => Some('"')
    case '\\' => Some('\\')
    case '/' => Some('/')
    case 'n' => Some('\n')
    case 'r' => Some('\r')
    case 't' => Some('\t')
    case 'f' => Some('\U{0C}')
    case 'b' => Some('\U{08}')
    case _ => None
  }

  function High(code: nat): (unit: nat)
    requires 0x10000 <= code < 0x110000
    ensures 0xD800 <= unit < 0xDC00
  {
    0xD800 + (code - 0x10000) / 0x400
  }

  function Low(code: nat): (unit: nat)
    requires 0x10000 <= code < 0x110000
    ensures 0xDC00 <= unit < 0xE000
  {
    0xDC00 + (code - 0x10000) % 0x400
  }

  function EscapeChar(c: char): (s: string)
    ensures s != ""
  {
    var code := c as int;
    if Shorthand(c).Some? then ['\\', Shorthand(c).value]
    else if ' ' <= c <= '~' then [c]
    else if code < 0x10000 then WriteUnit(code)
    else WriteUnit(High(code)) + WriteUnit(Low(code))
  }

  function Escape(s: string): string {
    if s == "" then "" else EscapeChar(s[0]) + Escape(s[1..])
  }

  /** `json.dumps(s)` for a string. */
  function Quote(s: string): string {
    "\"" + Escape(s) + "\""
  }

  /** One character, possibly escaped, inside a literal; stuck at the closing quote. */
  function ReadChar(s: string): (r: Parsed<char>)
    ensures r.Parsed? ==> |r.rest| < |s|
  {
    if s == "" || s[0] == '"' || s[0] < ' ' then Stuck
    else if s[0] != '\\' then Parsed(s[0], s[1..])
    else if |s| >= 2 && Unshorthand(s[1]).Some? then Parsed(Unshorthand(s[1]).value, s[2..])
    else match ReadUnit(s)
      case None => Stuck
      case Some(unit) =>
        if unit < 0xD800 || 0xE000 <= unit then Parsed(unit as char, s[6..])
        else if unit < 0xDC00 then
          match ReadUnit(s[6..])
          case Some(low) =>
            if 0xDC00 <= low < 0xE000 then
              Parsed((0x10000 + (unit - 0xD800) * 0x400 + (low - 0xDC00)) as char, s[12..])
            else Stuck
          case None => Stuck
        else Stuck
  }

  function ReadChars(s: string): (r: Parsed<string>)
    ensures r.Parsed? ==> |r.rest| <= |s|
    decreases |s|
  {
    match ReadChar(s)
    case Stuck => Parsed("", s)
    case Parsed(c, rest) =>
      var more := ReadChars(rest);
      if more.Stuck? then Stuck else Parsed([c] + more.value, more.rest)
  }

  /** A whole literal, quotes included. */
  function Unquote(s: string): (r: Parsed<string>)
    ensures r.Parsed? ==> |r.rest| < |s|
  {
    if !("\"" <= s) then Stuck else
    var body := ReadChars(s[1..]);
    if body.Parsed? && "\"" <= body.rest then Parsed(body.value, body.rest[1..]) else Stuck
  }

  lemma ReadEscapedChar(c: char, rest: string)
    ensures ReadChar(EscapeChar(c) + rest) == Parsed(c, rest)
  {
    hide *;
    EscapeCases(c);
    if Shorthand(c).Some? {
      ReadShorthand(c, rest);
    } else if ' ' <= c <= '~' {
      ReadPlain(c, rest);
    } else if c as int < 0x10000 {
      ReadEscapedUnit(c, rest);
    } else {
      ReadEscapedPair(c, rest);
    }
  }

  lemma EscapeCases(c: char)
    ensures Shorthand(c).Some? ==> EscapeChar(c) == ['\\', Shorthand(c).value]
    ensures Shorthand(c).None? && ' ' <= c <= '~' ==> EscapeChar(c) == [c]
    ensures Shorthand(c).None? && !(' ' <= c <= '~') && c as int < 0x10000 ==> EscapeChar(c) == WriteUnit(c as int)
    ensures Shorthand(c).None? && c as int >= 0x10000 ==>
              EscapeChar(c) == WriteUnit(High(c as int)) + WriteUnit(Low(c as int))
  {
    hide Shorthand, WriteUnit, High, Low;
  }

  lemma ReadShorthand(c: char, rest: string)
    requires Shorthand(c).Some?
    ensures ReadChar(['\\', Shorthand(c).value] + rest) == Parsed(c, rest)
  {
    assert (['\\', Shorthand(c).value] + rest)[2..] == rest;
  }

  lemma ReadPlain(c: char, rest: string)
    requires Shorthand(c).None? && ' ' <= c <= '~'
    ensures ReadChar([c] + rest) == Parsed(c, rest)
  {
    assert ([c] + rest)[1..] == rest;
  }

  lemma ReadEscapedUnit(c: char, rest: string)
    requires c as int < 0x10000
    ensures ReadChar(WriteUnit(c as int) + rest) == Parsed(c, rest)
  {
    hide ReadUnit;
    var s := WriteUnit(c as int) + rest;
    assert s[6..] == rest && s[0] == '\\' && s[1] == 'u';
    ReadWrittenUnit(c as int, rest);
  }

  lemma ReadEscapedPair(c: char, rest: string)
    requires c as int >= 0x10000
    ensures ReadChar(WriteUnit(High(c as int)) + WriteUnit(Low(c as int)) + rest) == Parsed(c, rest)
  {
    hide ReadUnit, High, Low;
    var s := WriteUnit(High(c as int)) + WriteUnit(Low(c as int)) + rest;
    assert s[0] == '\\' && s[1] == 'u' && s[12..] == rest;
    ReadWrittenPair(c as int, rest);
  }

  lemma ReadWrittenPair(code: nat, rest: string)
    requires 0x10000 <= code < 0x110000
    ensures ReadUnit(WriteUnit(High(code)) + WriteUnit(Low(code)) + rest) == Some(High(code))
    ensures ReadUnit((WriteUnit(High(code)) + WriteUnit(Low(code)) + rest)[6..]) == Some(Low(code))
    ensures 0x10000 + (High(code) - 0xD800) * 0x400 + (Low(code) - 0xDC00) == code
  {
    hide ReadUnit, WriteUnit;
    var tail := WriteUnit(Low(code)) + rest;
    var s := WriteUnit(High(code)) + WriteUnit(Low(code)) + rest;
    assert s == WriteUnit(High(code)) + tail && s[6..] == tail;
    ReadWrittenUnit(High(code), tail);
    ReadWrittenUnit(Low(code), rest);
  }

  lemma {:induction false} ReadEscaped(t: string, rest: string)
    ensures ReadChars(Escape(t) + "\"" + rest) == Parsed(t, "\"" + rest)
  {
    hide ReadChar, EscapeChar;
    if t == "" {
      assert Escape(t) + "\"" + rest == "\"" + rest;
      QuoteStops(rest);
    } else {
      ReadEscaped(t[1..], rest);
      var tail := Escape(t[1..]) + "\"" + rest;
      assert Escape(t) + "\"" + rest == EscapeChar(t[0]) + tail;
      ReadEscapedChar(t[0], tail);
      assert [t[0]] + t[1..] == t;
    }
  }

  lemma QuoteStops(rest: string)
    ensures ReadChar("\"" + rest) == Stuck
  {
  }

  /** Printing a string as a literal and reading it back is the identity, whatever follows. */
  lemma UnquoteQuote(t: string, rest: string)
    ensures Unquote(Quote(t) + rest) == Parsed(t, rest)
  {
    hide ReadChars;
    ReadEscaped(t, rest);
    var s := Quote(t) + rest;
    assert s[1..] == Escape(t) + "\"" + rest;
  }

  /** A printed literal is printable ASCII: no control character, in particular no newline. */
  lemma {:induction false} EscapeIsPrintable(t: string)
    ensures forall c | c in Escape(t) :: ' ' <= c <= '~'
  {
    if t != "" {
      EscapeIsPrintable(t[1..]);
      EscapeCharIsPrintable(t[0]);
    }
  }

  lemma EscapeCharIsPrintable(c: char)
    ensures forall d | d in EscapeChar(c) :: ' ' <= d <= '~'
    ensures BraceFree([c]) ==> BraceFree(EscapeChar(c))
  {
    var code := c as int;
    if Shorthand(c).Some? {
    } else if ' ' <= c <= '~' {
      assert c in [c];
    } else if code < 0x10000 {
      UnitIsPrintable(code);
    } else {
      UnitIsPrintable(High(code));
      UnitIsPrintable(Low(code));
    }
  }

  lemma UnitIsPrintable(unit: nat)
    requires unit < 0x10000
    ensures forall d | d in WriteUnit(unit) :: ' ' <= d <= 'u'
  {
  }

  /** Escaping brings in no brace. */
  lemma {:induction false} EscapeKeepsBraceFree(t: string)
    requires BraceFree(t)
    ensures BraceFree(Quote(t))
  {
    hide EscapeChar;
    if t != "" {
      assert forall c | c in t[1..] :: c in t;
      EscapeKeepsBraceFree(t[1..]);
      assert t[0] in t;
      EscapeCharIsPrintable(t[0]);
      assert Quote(t) == "\"" + EscapeChar(t[0]) + Quote(t[1..])[1..];
    }
  }
}
