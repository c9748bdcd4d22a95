/** Strings as the source sees them: sequences of Unicode scalar values. */
module Text {
  import opened Wrappers

  /** Whitespace as Python's `\s`, `str.split` and `str.strip` understand it. */
  predicate IsSpace(c: char) {
    || '\t' <= c <= '\r'
    || '\U{1C}' <= c <= ' '
    || c == '\U{85}'
    || c == '\U{A0}'
    || c == '\U{1680}'
    || '\U{2000}' <= c <= '\U{200A}'
    || c == '\U{2028}'
    || c == '\U{2029}'
    || c == '\U{202F}'
    || c == '\U{205F}'
    || c == '\U{3000}'
  }

  predicate IsDigit(c: char) {
    '0' <= c <= '9'
  }

  /** The class `[A-Za-z0-9_]`. */
  predicate IsWord(c: char) {
    'a' <= c <= 'z' || 'A' <= c <= 'Z' || IsDigit(c) || c == '_'
  }

  // ---- The classes spelled out

  lemma DigitsSpelled(c: char)
    ensures IsDigit(c) <==> c in {'0', '1', '2', '3', '4', '5', '6', '7', '8', '9'}
  {
  }

  lemma LettersSpelled(c: char)
    ensures 'a' <= c <= 'z' <==> c in {'a', 'b', 'c', 'd', 'e', 'f', 'g', 'h', 'i', 'j', 'k', 'l', 'm', 'n', 'o', 'p',
                                       'q', 'r', 's', 't', 'u', 'v', 'w', 'x', 'y', 'z'}
  {
  }

  /** Python's white space. */
  lemma SpacesSpelled(c: char)
    ensures IsSpace(c) <==>
              c in {'\t', '\n', '\U{0B}', '\U{0C}', '\r', '\U{1C}', '\U{1D}', '\U{1E}', '\U{1F}', ' ', '\U{85}',
                    '\U{A0}', '\U{1680}', '\U{2000}', '\U{2001}', '\U{2002}', '\U{2003}', '\U{2004}', '\U{2005}',
                    '\U{2006}', '\U{2007}', '\U{2008}', '\U{2009}', '\U{200A}', '\U{2028}', '\U{2029}', '\U{202F}',
                    '\U{205F}', '\U{3000}'}
  {
  }

  /** A word character is an underscore, a digit, or a letter in either case. */
  lemma WordsSpelled(c: char)
    ensures IsWord(c) <==> c == '_' || IsDigit(c) || 'a' <= c <= 'z' || 97 <= c as int + 32 <= 122
  {
  }

  predicate All(p: char -> bool, s: string) {
    forall i | 0 <= i < |s| :: p(s[i])
  }

  /** Length of the longest prefix of `s` all of whose characters satisfy `p`. */
  function Span(p: char -> bool, s: string): (n: nat)
    ensures n <= |s|
    ensures All(p, s[..n])
    ensures n < |s| ==> !p(s[n])
  {
    if s == "" || !p(s[0]) then 0
    else
      var n := Span(p, s[1..]);
      assert s[..n + 1] == [s[0]] + s[1..][..n];
      n + 1
  }

  lemma {:induction false} SpanOfRun(p: char -> bool, run: string, rest: string)
    requires All(p, run)
    requires rest == "" || !p(rest[0])
    ensures Span(p, run + rest) == |run|
  {
    if run == "" {
      assert run + rest == rest;
    } else {
      SpanOfRun(p, run[1..], rest);
      assert (run + rest)[1..] == run[1..] + rest;
    }
  }

  /** `sep.join(items)`. */
  function Join(items: seq<string>, sep: string): string {
    if items == [] then ""
    else if |items| == 1 then items[0]
    else items[0] + sep + Join(items[1..], sep)
  }

  function Flatten(items: seq<string>): string {
    if items == [] then "" else items[0] + Flatten(items[1..])
  }

  lemma {:induction false} FlattenAppend(a: seq<string>, b: seq<string>)
    ensures Flatten(a + b) == Flatten(a) + Flatten(b)
  {
    if a == [] {
      assert a + b == b;
    } else {
      assert (a + b)[1..] == a[1..] + b;
      FlattenAppend(a[1..], b);
    }
  }

  /** Neither brace occurs in `s`. */
  predicate BraceFree(s: string) {
    '{' !in s && '}' !in s
  }

  // ---- Trimming

  function TrimEnd(p: char -> bool, s: string): string {
    if s != "" && p(s[|s| - 1]) then TrimEnd(p, s[..|s| - 1]) else s
  }

  function Trim(p: char -> bool, s: string): string {
    TrimEnd(p, s[Span(p, s)..])
  }

  /** `text` is `core` between stretches of `p`, and `core` starts and ends outside `p`. */
  ghost predicate Padded(p: char -> bool, text: string, before: string, core: string, after: string) {
    && text == before + core + after
    && All(p, before) && All(p, after)
    && core != "" && !p(core[0]) && !p(core[|core| - 1])
  }

  lemma {:induction false} TrimEndOfPadded(p: char -> bool, core: string, after: string)
    requires All(p, after) && core != "" && !p(core[|core| - 1])
    ensures TrimEnd(p, core + after) == core
  {
    var s := core + after;
    if after == "" {
      assert s == core;
    } else {
      assert s[..|s| - 1] == core + after[..|after| - 1];
      TrimEndOfPadded(p, core, after[..|after| - 1]);
    }
  }

  lemma TrimOfPadded(p: char -> bool, text: string, before: string, core: string, after: string)
    requires Padded(p, text, before, core, after)
    ensures Trim(p, text) == core
  {
    assert text == before + (core + after);
    SpanOfRun(p, before, core + after);
    assert text[|before|..] == core + after;
    TrimEndOfPadded(p, core, after);
  }

  lemma {:induction false} TrimEndSplits(p: char -> bool, s: string) returns (after: string)
    ensures s == TrimEnd(p, s) + after && All(p, after)
    ensures TrimEnd(p, s) != "" ==> !p(TrimEnd(p, s)[|TrimEnd(p, s)| - 1])
  {
    after := "";
    if s != "" && p(s[|s| - 1]) {
      after := TrimEndSplits(p, s[..|s| - 1]);
      after := after + [s[|s| - 1]];
      assert s == s[..|s| - 1] + [s[|s| - 1]];
    }
  }

  lemma TrimSplits(p: char -> bool, s: string) returns (before: string, after: string)
    requires Trim(p, s) != ""
    ensures Padded(p, s, before, Trim(p, s), after)
  {
    hide Span, TrimEnd, All;
    var n := Span(p, s);
    var core := TrimEnd(p, s[n..]);
    before := s[..n];
    after := TrimEndSplits(p, s[n..]);
    assert s == before + (core + after) == before + core + after;
    assert core[0] == (core + after)[0] == s[n];
  }

  // ---- Blank lines

  /** Where the first blank line of `s` starts. */
  function FindBlank(s: string): (r: Option<nat>)
    ensures r.Some? ==> r.value + 2 <= |s| && s[r.value] == '\n' && s[r.value + 1] == '\n'
  {
    if |s| < 2 then None
    else if s[0] == '\n' && s[1] == '\n' then Some(0)
    else
      var n :- FindBlank(s[1..]);
      Some(n + 1)
  }

  lemma {:induction false} FindBlankStays(s: string, more: string)
    requires FindBlank(s).Some?
    ensures FindBlank(s + more) == FindBlank(s)
  {
    assert (s + more)[0] == s[0] && (s + more)[1] == s[1];
    if !(s[0] == '\n' && s[1] == '\n') {
      assert (s + more)[1..] == s[1..] + more;
      FindBlankStays(s[1..], more);
    }
  }
}
