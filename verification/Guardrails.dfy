/**
 Quarantine of untrusted text (`apps/runtime/core/guardrails.py`): tag tokens are defanged,
 the text is wrapped between tags that carry a nonce, and stripping removes exactly that.
 Which characters beyond ASCII are letters is left to the parameter `letter`.
 */
module Guardrails {
  import opened Text
  import opened Decimal
  import opened Wrappers

  const TAG: string := "untrusted_context"

  type Letters = char -> bool

  /** Case folding, as far as the characters of the tags go; U+017F folds to `s`. */
  function Fold(c: char): char {
    if 'A' <= c <= 'Z' then (c as int + 32) as char
    else if c == '\U{17F}' then 's'
    else c
  }

  predicate FoldedPrefix(pattern: string, s: string) {
    |pattern| <= |s| && forall i | 0 <= i < |pattern| :: Fold(s[i]) == Fold(pattern[i])
  }

  /** `\w`; the replacement brackets U+2039 and U+203A are punctuation. */
  predicate WordChar(letter: Letters, c: char) {
    IsWord(c) || (c >= '\U{80}' && c != '\U{2039}' && c != '\U{203A}' && letter(c))
  }

  // ---- Tag tokens

  /** The tag name and a word boundary. */
  predicate TagName(letter: Letters, s: string) {
    FoldedPrefix(TAG, s) && (|s| == |TAG| || !WordChar(letter, s[|TAG|]))
  }

  function SkipSlash(s: string): string {
    if "/" <= s then s[1..] else s
  }

  function SkipSpace(s: string): string {
    s[Span(IsSpace, s)..]
  }

  /** A tag token starts at the head of `s`. */
  predicate HasTag(letter: Letters, s: string) {
    "<" <= s && TagName(letter, SkipSpace(SkipSlash(s[1..])))
  }

  predicate NotClosing(c: char) {
    c != '>'
  }

  /** Where the token at the head of `s` ends: after the first `>`, or at the end. */
  function TokenEnd(s: string): (n: nat)
    ensures n <= |s|
    ensures s != "" ==> n > 0
  {
    var n := Span(NotClosing, s);
    if n < |s| then n + 1 else n
  }

  /** Angle brackets replaced by their single-quote look-alikes. */
  function Defang(s: string): (r: string)
    ensures |r| == |s|
    ensures '<' !in r && '>' !in r
  {
    seq(|s|, i requires 0 <= i < |s| => if s[i] == '<' then '\U{2039}' else if s[i] == '>' then '\U{203A}' else s[i])
  }

  /** `_neutralise_delimiters`. */
  function Neutralise(letter: Letters, s: string): string {
    if s == "" then ""
    else if HasTag(letter, s) then Defang(s[..TokenEnd(s)]) + Neutralise(letter, s[TokenEnd(s)..])
    else [s[0]] + Neutralise(letter, s[1..])
  }

  /** No tag token starts anywhere in `s`. */
  predicate TokenFree(letter: Letters, s: string) {
    s == "" || (!HasTag(letter, s) && TokenFree(letter, s[1..]))
  }

  /** A character no part of a tag token before the attributes can be. */
  predicate Breaks(letter: Letters, c: char) {
    c != '/' && !IsSpace(c) && !WordChar(letter, c) && Fold(c) == c
  }

  lemma BracketsBreak(letter: Letters)
    ensures Breaks(letter, '<') && Breaks(letter, '\U{2039}') && Breaks(letter, '[')
  {
  }

  lemma TagIsWords(i: nat)
    requires i < |TAG|
    ensures IsWord(TAG[i]) && Fold(TAG[i]) == TAG[i]
  {
  }

  lemma TagNameCut(letter: Letters, x: string, c: char, rest: string)
    requires Breaks(letter, c)
    ensures TagName(letter, x + [c] + rest) <==> TagName(letter, x)
  {
    var s := x + [c] + rest;
    assert forall i | 0 <= i < |x| :: s[i] == x[i];
    assert s[|x|] == c;
    if |x| < |TAG| {
      TagIsWords(|x|);
    }
  }

  lemma SkipSpaceCut(letter: Letters, x: string, c: char, rest: string)
    requires Breaks(letter, c)
    ensures SkipSpace(x + [c] + rest) == SkipSpace(x) + [c] + rest
  {
    var n := Span(IsSpace, x);
    assert x == x[..n] + x[n..];
    var tail := x[n..] + [c] + rest;
    assert x + [c] + rest == x[..n] + tail;
    SpanOfRun(IsSpace, x[..n], tail);
  }

  lemma SkipSlashCut(letter: Letters, x: string, c: char, rest: string)
    requires Breaks(letter, c)
    ensures SkipSlash(x + [c] + rest) == SkipSlash(x) + [c] + rest
  {
    var s := x + [c] + rest;
    if x == "" {
      assert s[0] == c;
    } else {
      assert s[0] == x[0] && s[1..] == x[1..] + [c] + rest;
    }
  }

  /** Whether a token starts at the head of a text is settled before the first breaking character. */
  lemma HasTagCut(letter: Letters, x: string, c: char, rest: string)
    requires x != "" && Breaks(letter, c)
    ensures HasTag(letter, x + [c] + rest) <==> HasTag(letter, x)
  {
    hide TagName, SkipSpace, SkipSlash, Breaks;
    var s := x + [c] + rest;
    assert s[0] == x[0] && s[1..] == x[1..] + [c] + rest;
    SkipSlashCut(letter, x[1..], c, rest);
    var y := SkipSlash(x[1..]);
    SkipSpaceCut(letter, y, c, rest);
    TagNameCut(letter, SkipSpace(y), c, rest);
  }

  lemma DefangedHead(letter: Letters, s: string)
    requires HasTag(letter, s)
    ensures s != "" && s[0] == '<' && Neutralise(letter, s) != "" && Neutralise(letter, s)[0] == '\U{2039}'
  {
    hide TagName, TokenEnd;
    assert Neutralise(letter, s)[0] == Defang(s[..TokenEnd(s)])[0];
  }

  lemma Prepend(c: char, x: string, bracket: char, rest: string)
    ensures [c] + (x + [bracket] + rest) == ([c] + x) + [bracket] + rest
  {
  }

  lemma NothingBefore(s: string)
    requires s != ""
    ensures s == "" + [s[0]] + s[1..]
  {
  }

  /** Until the first defanged token, a neutralised text is the text itself. */
  lemma {:induction false} NeutralisedPrefix(letter: Letters, s: string)
    returns (x: string, rest: string, rest': string)
    ensures Neutralise(letter, s) == s
         || (s == x + ['<'] + rest && Neutralise(letter, s) == x + ['\U{2039}'] + rest')
  {
    hide HasTag, Defang, TokenEnd;
    x, rest, rest' := "", "", "";
    if s != "" {
      if HasTag(letter, s) {
        DefangedHead(letter, s);
        rest := s[1..];
        rest' := Neutralise(letter, s)[1..];
        NothingBefore(s);
        NothingBefore(Neutralise(letter, s));
      } else {
        x, rest, rest' := NeutralisedPrefix(letter, s[1..]);
        assert s == [s[0]] + s[1..];
        Prepend(s[0], x, '<', rest);
        Prepend(s[0], x, '\U{2039}', rest');
        x := [s[0]] + x;
      }
    }
  }

  lemma {:induction false} NoBracketTokenFree(letter: Letters, a: string, b: string)
    requires '<' !in a && TokenFree(letter, b)
    ensures TokenFree(letter, a + b)
  {
    hide TagName;
    if a == "" {
      assert a + b == b;
    } else {
      assert a[0] in a && (a + b)[0] == a[0] && (a + b)[1..] == a[1..] + b;
      NoBracketTokenFree(letter, a[1..], b);
    }
  }

  /** One pass leaves no tag token. */
  lemma {:induction false} NeutraliseTokenFree(letter: Letters, s: string)
    ensures TokenFree(letter, Neutralise(letter, s))
    decreases |s|
  {
    hide TagName, TokenEnd;
    if s != "" {
      if HasTag(letter, s) {
        var n := TokenEnd(s);
        NeutraliseTokenFree(letter, s[n..]);
        NoBracketTokenFree(letter, Defang(s[..n]), Neutralise(letter, s[n..]));
      } else {
        NeutraliseTokenFree(letter, s[1..]);
        SurvivorIsNoTag(letter, s);
        var r := [s[0]] + Neutralise(letter, s[1..]);
        assert r[1..] == Neutralise(letter, s[1..]);
      }
    }
  }

  /** Neutralising what follows does not make a token of a bracket that was none. */
  lemma SurvivorIsNoTag(letter: Letters, s: string)
    requires s != "" && !HasTag(letter, s)
    ensures !HasTag(letter, [s[0]] + Neutralise(letter, s[1..]))
  {
    hide HasTag, Neutralise, Breaks;
    BracketsBreak(letter);
    assert s == [s[0]] + s[1..];
    var x, rest, rest' := NeutralisedPrefix(letter, s[1..]);
    if Neutralise(letter, s[1..]) != s[1..] {
      var head := [s[0]] + x;
      assert s == head + ['<'] + rest;
      assert [s[0]] + Neutralise(letter, s[1..]) == head + ['\U{2039}'] + rest';
      HasTagCut(letter, head, '<', rest);
      HasTagCut(letter, head, '\U{2039}', rest');
    }
  }

  lemma {:induction false} TokenFreeUntouched(letter: Letters, s: string)
    requires TokenFree(letter, s)
    ensures Neutralise(letter, s) == s
  {
    hide HasTag;
    if s != "" {
      TokenFreeUntouched(letter, s[1..]);
    }
  }

  /** A second pass changes nothing. */
  lemma NeutraliseIdempotent(letter: Letters, s: string)
    ensures Neutralise(letter, Neutralise(letter, s)) == Neutralise(letter, s)
  {
    NeutraliseTokenFree(letter, s);
    TokenFreeUntouched(letter, Neutralise(letter, s));
  }

  // ---- What is a token, and what becomes of it

  /** `name` is the lower-case `word` in any case, also with U+017F for `s`. */
  predicate Spells(name: string, word: string) {
    |name| == |word| && forall i | 0 <= i < |name| ::
      || name[i] == word[i]
      || ('a' <= word[i] <= 'z' && name[i] as int + 32 == word[i] as int)
      || (word[i] == 's' && name[i] == '\U{17F}')
  }

  /** A bracket, perhaps a slash, white space, the name in any case, and nothing that would prolong the name. */
  predicate TokenOf(letter: Letters, slash: bool, space: string, name: string, rest: string) {
    && (forall i | 0 <= i < |space| :: IsSpace(space[i])) && Spells(name, "untrusted_context")
    && (rest == "" || !WordChar(letter, rest[0]))
  }

  function Token(slash: bool, space: string, name: string, rest: string): string {
    "<" + (if slash then "/" else "") + space + name + rest
  }

  lemma SpellsIsFolded(name: string)
    requires |name| == 17
    ensures Spells(name, "untrusted_context") <==> FoldedPrefix(TAG, name)
  {
    assert |TAG| == 17;
    forall i | 0 <= i < 17
      ensures Fold(TAG[i]) == TAG[i] && (TAG[i] == '_' || 'a' <= TAG[i] <= 'z')
    {
    }
  }

  lemma TagNameSpelled(letter: Letters, z: string)
    ensures TagName(letter, z)
       <==> |z| >= 17 && Spells(z[..17], "untrusted_context") && (z[17..] == "" || !WordChar(letter, z[17]))
  {
    hide Spells, Fold, WordChar;
    assert |TAG| == 17;
    if |z| >= 17 {
      SpellsIsFolded(z[..17]);
      assert FoldedPrefix(TAG, z[..17]) <==> FoldedPrefix(TAG, z) by {
        assert forall i | 0 <= i < 17 :: z[..17][i] == z[i];
      }
    }
  }

  /** Exactly which texts start with a tag token. */
  lemma TokensSpelled(letter: Letters, s: string)
    ensures HasTag(letter, s)
       <==> exists slash, space, name, rest ::
              TokenOf(letter, slash, space, name, rest) && s == Token(slash, space, name, rest)
  {
    hide *;
    if HasTag(letter, s) {
      var slash, space, name, rest := TagDecomposes(letter, s);
    }
    if slash, space, name, rest :| TokenOf(letter, slash, space, name, rest) && s == Token(slash, space, name, rest) {
      TokenIsTag(letter, slash, space, name, rest);
    }
  }

  lemma TagDecomposes(letter: Letters, s: string) returns (slash: bool, space: string, name: string, rest: string)
    requires HasTag(letter, s)
    ensures TokenOf(letter, slash, space, name, rest) && s == Token(slash, space, name, rest)
  {
    hide *;
    TagHead(letter, s);
    var y := SkipSlash(s[1..]);
    slash := "/" <= s[1..];
    space := SpaceTaken(y);
    var z := SkipSpace(y);
    TagNameSpelled(letter, z);
    name, rest := z[..17], z[17..];
    assert z == name + rest;
    TokenParts(s, slash, y, space, name, rest);
    TokenWhole(letter, slash, space, name, rest);
  }

  lemma TagHead(letter: Letters, s: string)
    requires HasTag(letter, s)
    ensures "<" <= s && TagName(letter, SkipSpace(SkipSlash(s[1..])))
  {
    hide TagName, SkipSpace, SkipSlash;
  }

  lemma SpaceTaken(y: string) returns (space: string)
    ensures y == space + SkipSpace(y) && forall i | 0 <= i < |space| :: IsSpace(space[i])
  {
    hide Span;
    space := y[..Span(IsSpace, y)];
  }

  lemma TokenWhole(letter: Letters, slash: bool, space: string, name: string, rest: string)
    requires (forall i | 0 <= i < |space| :: IsSpace(space[i])) && Spells(name, "untrusted_context")
    requires rest == "" || !WordChar(letter, rest[0])
    ensures TokenOf(letter, slash, space, name, rest)
  {
    hide Spells, WordChar;
  }

  lemma TokenParts(s: string, slash: bool, y: string, space: string, name: string, rest: string)
    requires "<" <= s && y == SkipSlash(s[1..]) && slash == ("/" <= s[1..])
    requires y == space + (name + rest)
    ensures s == Token(slash, space, name, rest)
  {
    hide *;
    SlashTaken(s[1..]);
    TokenTail(slash, space, name, rest);
    SameHeadAndTail(s, Token(slash, space, name, rest));
  }

  lemma SlashTaken(x: string)
    ensures x == (if "/" <= x then "/" else "") + SkipSlash(x)
  {
  }

  lemma SameHeadAndTail(s: string, t: string)
    requires "<" <= s && "<" <= t && s[1..] == t[1..]
    ensures s == t
  {
    assert s == [s[0]] + s[1..] && t == [t[0]] + t[1..];
  }

  lemma SlashSkipped(slash: bool, y: string)
    requires y != "" && y[0] != '/'
    ensures SkipSlash((if slash then "/" else "") + y) == y
  {
    if slash {
      assert ("/" + y)[1..] == y;
    } else {
      assert "" + y == y;
    }
  }

  lemma SpaceSkipped(space: string, z: string)
    requires (forall i | 0 <= i < |space| :: IsSpace(space[i])) && z != "" && !IsSpace(z[0])
    ensures SkipSpace(space + z) == z
  {
    hide Span;
    SpanOfRun(IsSpace, space, z);
    assert (space + z)[|space|..] == z;
  }

  lemma TokenTail(slash: bool, space: string, name: string, rest: string)
    ensures "<" <= Token(slash, space, name, rest)
    ensures Token(slash, space, name, rest)[1..] == (if slash then "/" else "") + (space + (name + rest))
  {
  }

  lemma TokenIsTag(letter: Letters, slash: bool, space: string, name: string, rest: string)
    requires TokenOf(letter, slash, space, name, rest)
    ensures HasTag(letter, Token(slash, space, name, rest))
  {
    hide TagName, WordChar, SkipSlash, SkipSpace, Token, Spells;
    var z := name + rest;
    NameIsVisible(name);
    TokenTail(slash, space, name, rest);
    assert z[0] == name[0] && z[..17] == name && z[17..] == rest;
    assert (space + z)[0] == if space == "" then z[0] else space[0];
    assert !IsSpace('/');
    SlashSkipped(slash, space + z);
    SpaceSkipped(space, z);
    TagNameSpelled(letter, z);
  }

  lemma NameIsVisible(name: string)
    requires Spells(name, "untrusted_context")
    ensures |name| == 17 && name[0] != '/' && !IsSpace(name[0])
  {
  }

  /** Neutralising replaces brackets at most, and nothing in text without a token. */
  lemma {:induction false} NeutraliseOnlyBrackets(letter: Letters, s: string)
    ensures OnlyBrackets(s, Neutralise(letter, s))
    ensures TokenFree(letter, s) ==> Neutralise(letter, s) == s
    decreases |s|
  {
    hide *;
    TokenFreeCases(letter, s);
    NeutraliseCases(letter, s);
    if s == "" {
      NothingReplaced(s);
    } else if HasTag(letter, s) {
      var n := TokenEnd(s);
      DefangOnlyBrackets(s[..n]);
      NeutraliseOnlyBrackets(letter, s[n..]);
      BracketsInBoth(s[..n], Defang(s[..n]), s[n..], Neutralise(letter, s[n..]));
      assert s == s[..n] + s[n..];
    } else {
      NothingReplaced([s[0]]);
      NeutraliseOnlyBrackets(letter, s[1..]);
      BracketsInBoth([s[0]], [s[0]], s[1..], Neutralise(letter, s[1..]));
      assert s == [s[0]] + s[1..];
    }
  }

  /** `r` is `s` with some of its angle brackets replaced by their look-alikes. */
  predicate OnlyBrackets(s: string, r: string) {
    |r| == |s| && forall i | 0 <= i < |s| ::
      r[i] == s[i] || (s[i] == '<' && r[i] == '\U{2039}') || (s[i] == '>' && r[i] == '\U{203A}')
  }

  lemma NeutraliseCases(letter: Letters, s: string)
    ensures s == "" ==> Neutralise(letter, s) == ""
    ensures s != "" && HasTag(letter, s) ==>
              Neutralise(letter, s) == Defang(s[..TokenEnd(s)]) + Neutralise(letter, s[TokenEnd(s)..])
    ensures s != "" && !HasTag(letter, s) ==> Neutralise(letter, s) == [s[0]] + Neutralise(letter, s[1..])
  {
    hide HasTag, TokenEnd, Defang;
  }

  lemma TokenFreeCases(letter: Letters, s: string)
    ensures TokenFree(letter, s) && s != "" ==> !HasTag(letter, s) && TokenFree(letter, s[1..])
  {
  }

  lemma NothingReplaced(s: string)
    ensures OnlyBrackets(s, s)
  {
  }

  lemma DefangOnlyBrackets(s: string)
    ensures OnlyBrackets(s, Defang(s))
  {
  }

  lemma BracketsInBoth(a: string, x: string, b: string, y: string)
    requires OnlyBrackets(a, x) && OnlyBrackets(b, y)
    ensures OnlyBrackets(a + b, x + y)
  {
  }

  /** A token goes up to its closing bracket; what follows is neutralised on its own. */
  lemma TokenNeutralised(letter: Letters, token: string, rest: string)
    requires '>' !in token && HasTag(letter, token + ">" + rest)
    ensures Neutralise(letter, token + ">" + rest) == Defang(token) + "\U{203A}" + Neutralise(letter, rest)
  {
    hide HasTag;
    var s := token + ">" + rest;
    assert s == token + (">" + rest) && token != "" by {
      TokensAreBracketed(letter, s);
    }
    SpanOfRun(NotClosing, token, ">" + rest);
    assert s[..|token| + 1] == token + ">" && s[|token| + 1..] == rest;
    assert Defang(token + ">") == Defang(token) + "\U{203A}";
  }

  lemma TokensAreBracketed(letter: Letters, s: string)
    requires HasTag(letter, s)
    ensures s != "" && s[0] == '<'
  {
  }

  // ---- Wrapping

  /** A single text, or a sequence of texts to be numbered. */
  datatype Content = One(text: string) | Many(items: seq<string>)

  function NumberedItem(letter: Letters, i: nat, item: string): string {
    "[chunk:" + Digits(i) + "] " + Neutralise(letter, item)
  }

  /** Items numbered from `i`, separated by blank lines. */
  function Numbered(letter: Letters, i: nat, items: seq<string>): string
    decreases items
  {
    if items == [] then ""
    else if |items| == 1 then NumberedItem(letter, i, items[0])
    else NumberedItem(letter, i, items[0]) + "\n\n" + Numbered(letter, i + 1, items[1..])
  }

  function Body(letter: Letters, content: Content): string {
    match content
    case One(text) => Neutralise(letter, text)
    case Many(items) => Numbered(letter, 1, items)
  }

  const OPEN: string := "<" + TAG + " nonce=\""
  const CLOSE: string := "</" + TAG + " nonce=\""
  const END: string := "\">"

  function OpenTag(nonce: string): string {
    OPEN + nonce + END
  }

  function CloseTag(nonce: string): string {
    CLOSE + nonce + END
  }

  function Wrap(letter: Letters, content: Content, nonce: string): string {
    OpenTag(nonce) + "\n" + Body(letter, content) + "\n" + CloseTag(nonce)
  }

  /** The tags as they are written. */
  lemma TagsSpelled(nonce: string)
    ensures OpenTag(nonce) == "<untrusted_context nonce=\"" + nonce + "\">"
    ensures CloseTag(nonce) == "</untrusted_context nonce=\"" + nonce + "\">"
  {
    hide OPEN, CLOSE, END;
    OpenConstant();
    CloseConstant();
    EndConstant();
  }

  lemma OpenConstant()
    ensures OPEN == "<untrusted_context nonce=\""
  {
  }

  lemma CloseConstant()
    ensures CLOSE == "</untrusted_context nonce=\""
  {
  }

  lemma EndConstant()
    ensures END == "\">"
  {
  }

  // ---- Stripping

  predicate IsNonceChar(c: char) {
    IsDigit(c) || 'a' <= c <= 'f' || 'A' <= c <= 'F'
  }

  /** A nonce as `secrets.token_hex` makes it, of any positive length. */
  predicate Nonce(nonce: string) {
    nonce != "" && forall i | 0 <= i < |nonce| :: IsDigit(nonce[i]) || 'a' <= nonce[i] <= 'f'
  }

  /** An opening tag at the head of `s`: its nonce. */
  function ReadOpen(s: string): (r: Option<string>)
    ensures r.Some? ==> |OpenTag(r.value)| <= |s|
  {
    if !FoldedPrefix(OPEN, s) then None else
    var t := s[|OPEN|..];
    var n := Span(IsNonceChar, t);
    if n > 0 && END <= t[n..] then Some(t[..n]) else None
  }

  /** Where the first closing tag for `nonce` stands. */
  function FindCloseTag(nonce: string, s: string): (r: Option<nat>)
    ensures r.Some? ==> r.value + |CloseTag(nonce)| <= |s|
  {
    if FoldedPrefix(CloseTag(nonce), s) then Some(0)
    else if s == "" then None
    else
      var n :- FindCloseTag(nonce, s[1..]);
      Some(n + 1)
  }

  /** The length of the block at the head of `s`. */
  function ReadBlock(s: string): (r: Option<nat>)
    ensures r.Some? ==> 0 < r.value <= |s|
  {
    var nonce :- ReadOpen(s);
    var start := |OpenTag(nonce)|;
    var n :- FindCloseTag(nonce, s[start..]);
    Some(start + n + |CloseTag(nonce)|)
  }

  /** `strip_untrusted_blocks`. */
  function Strip(s: string): string
    decreases |s|
  {
    if s == "" then ""
    else
      match ReadBlock(s)
      case Some(n) => " " + Strip(s[n..])
      case None => [s[0]] + Strip(s[1..])
  }

  // ---- Stripping what was wrapped

  lemma FoldFixes(c: char, d: char)
    requires Fold(c) == d && d in {'<', '/', ' '}
    ensures c == d
  {
  }

  /** The tag's name and a space, in any case, make a tag name. */
  lemma SpelledName(letter: Letters, t: string)
    requires FoldedPrefix(TAG + " ", t)
    ensures TagName(letter, SkipSpace(t)) && !("/" <= t)
  {
    assert forall i | 0 <= i < |TAG| :: (TAG + " ")[i] == TAG[i];
    assert Fold(t[0]) == 'u';
    assert SkipSpace(t) == t;
    assert (TAG + " ")[|TAG|] == ' ';
    FoldFixes(t[|TAG|], ' ');
  }

  lemma FoldedPart(pattern: string, s: string, from: nat, part: string)
    requires FoldedPrefix(pattern, s) && from <= |pattern| && part <= pattern[from..]
    ensures FoldedPrefix(part, s[from..])
  {
    forall i | 0 <= i < |part|
      ensures Fold(s[from..][i]) == Fold(part[i])
    {
      assert part[i] == pattern[from..][i] == pattern[from + i];
    }
  }

  lemma TagsSpellTag(pattern: string)
    requires OPEN <= pattern || CLOSE <= pattern
    ensures |pattern| > 2 && pattern[0] == '<'
    ensures OPEN <= pattern ==> TAG + " " <= pattern[1..]
    ensures CLOSE <= pattern ==> pattern[1] == '/' && TAG + " " <= pattern[2..]
  {
    assert OPEN[0] == '<' && CLOSE[0] == '<' && CLOSE[1] == '/';
    assert TAG + " " <= OPEN[1..] && TAG + " " <= CLOSE[2..];
    assert OPEN <= pattern ==> OPEN[1..] <= pattern[1..];
    assert CLOSE <= pattern ==> CLOSE[2..] <= pattern[2..];
  }

  /** An opening or closing tag, in any case, is a tag token. */
  lemma TagIsToken(letter: Letters, s: string, pattern: string)
    requires FoldedPrefix(pattern, s) && (OPEN <= pattern || CLOSE <= pattern)
    ensures HasTag(letter, s)
  {
    hide TagName, SkipSpace;
    TagsSpellTag(pattern);
    FoldFixes(s[0], '<');
    if OPEN <= pattern {
      FoldedPart(pattern, s, 1, TAG + " ");
      SpelledName(letter, s[1..]);
    } else {
      FoldFixes(s[1], '/');
      FoldedPart(pattern, s, 2, TAG + " ");
      SpelledName(letter, s[2..]);
      assert s[1..][1..] == s[2..];
    }
  }

  lemma NoTagNoBlock(letter: Letters, s: string)
    requires !HasTag(letter, s)
    ensures ReadBlock(s) == None
  {
    hide HasTag, FindCloseTag;
    if FoldedPrefix(OPEN, s) {
      TagIsToken(letter, s, OPEN);
    }
  }

  lemma {:induction false} StripTokenFree(letter: Letters, s: string)
    requires TokenFree(letter, s)
    ensures Strip(s) == s
  {
    hide HasTag, ReadBlock;
    if s != "" {
      NoTagNoBlock(letter, s);
      StripTokenFree(letter, s[1..]);
    }
  }

  /** Token-free text in front of a bracket is passed over. */
  lemma {:induction false} StripPasses(letter: Letters, pre: string, t: string)
    requires TokenFree(letter, pre) && "<" <= t
    ensures Strip(pre + t) == pre + Strip(t)
    decreases |pre|
  {
    hide HasTag, ReadBlock, Breaks, Strip, FoldedPrefix;
    if pre == "" {
      assert pre + t == t;
    } else {
      var s := pre + t;
      assert s == pre + ['<'] + t[1..];
      BracketsBreak(letter);
      HasTagCut(letter, pre, '<', t[1..]);
      NoTagNoBlock(letter, s);
      assert s[0] == pre[0] && s[1..] == pre[1..] + t;
      StripPasses(letter, pre[1..], t);
      StripOne(s);
      assert pre == [pre[0]] + pre[1..];
    }
  }

  lemma StripOne(s: string)
    requires s != "" && ReadBlock(s) == None
    ensures Strip(s) == [s[0]] + Strip(s[1..])
  {
    hide ReadBlock;
  }

  lemma OwnPrefix(pattern: string, rest: string)
    ensures FoldedPrefix(pattern, pattern + rest)
  {
  }

  lemma CloseBegins(nonce: string)
    ensures CLOSE <= CloseTag(nonce) && CloseTag(nonce) == ['<'] + CloseTag(nonce)[1..]
  {
  }

  lemma FindCloseCases(nonce: string, s: string)
    ensures FoldedPrefix(CloseTag(nonce), s) ==> FindCloseTag(nonce, s) == Some(0)
    ensures !FoldedPrefix(CloseTag(nonce), s) && s != "" && FindCloseTag(nonce, s[1..]).Some? ==>
              FindCloseTag(nonce, s) == Some(FindCloseTag(nonce, s[1..]).value + 1)
  {
    hide FoldedPrefix;
  }

  lemma TokenFreeTail(letter: Letters, u: string)
    requires TokenFree(letter, u) && u != ""
    ensures TokenFree(letter, u[1..]) && !HasTag(letter, u)
  {
    hide HasTag;
  }

  /** The first closing tag behind token-free text is the one put there. */
  lemma {:induction false} FindClosePasses(letter: Letters, nonce: string, u: string, post: string)
    requires TokenFree(letter, u)
    ensures FindCloseTag(nonce, u + CloseTag(nonce) + post) == Some(|u|)
    decreases |u|
  {
    hide *;
    var close := CloseTag(nonce);
    var s := u + close + post;
    FindCloseCases(nonce, s);
    if u == "" {
      OwnPrefix(close, post);
      assert s == close + post;
    } else {
      CloseBegins(nonce);
      assert s == u + ['<'] + (close[1..] + post);
      BracketsBreak(letter);
      TokenFreeTail(letter, u);
      HasTagCut(letter, u, '<', close[1..] + post);
      if FoldedPrefix(close, s) {
        TagIsToken(letter, s, close);
      }
      assert s[1..] == u[1..] + close + post;
      FindClosePasses(letter, nonce, u[1..], post);
    }
  }

  lemma ReadOwnOpen(nonce: string, rest: string)
    requires Nonce(nonce)
    ensures ReadOpen(OpenTag(nonce) + rest) == Some(nonce)
  {
    var s := OpenTag(nonce) + rest;
    var t := END + rest;
    assert s == OPEN + (nonce + t);
    assert s[|OPEN|..] == nonce + t;
    assert forall i | 0 <= i < |OPEN| :: s[i] == OPEN[i];
    SpanOfRun(IsNonceChar, nonce, t);
    assert (nonce + t)[|nonce|..] == t && (nonce + t)[..|nonce|] == nonce;
  }

  lemma {:induction false} TokenFreeThenSpace(letter: Letters, s: string, space: string)
    requires TokenFree(letter, s) && All(IsSpace, space)
    ensures TokenFree(letter, s + space)
    decreases |s|
  {
    hide HasTag;
    if s == "" {
      assert s + space == space + "";
      assert forall c | c in space :: exists i | 0 <= i < |space| :: space[i] == c && IsSpace(c);
      assert '<' !in space;
      NoBracketTokenFree(letter, space, "");
    } else {
      SpaceMakesNoTag(letter, s, space);
      assert (s + space)[1..] == s[1..] + space;
      TokenFreeThenSpace(letter, s[1..], space);
    }
  }

  lemma SpaceMakesNoTag(letter: Letters, s: string, space: string)
    requires s != "" && All(IsSpace, space)
    ensures HasTag(letter, s + space) ==> HasTag(letter, s)
  {
    hide TagName, SkipSpace, SkipSlash, All;
    var t := s + space;
    assert t[0] == s[0] && t[1..] == s[1..] + space;
    var y := SkipSlash(s[1..]);
    SlashBeforeSpace(s[1..], space);
    NothingIsNoTag(letter);
    SkipIntoSpace(y, space);
    if SkipSpace(y) != "" {
      SpaceEndsTag(letter, SkipSpace(y), space);
    }
  }

  lemma NothingIsNoTag(letter: Letters)
    ensures !TagName(letter, "")
  {
  }

  lemma SlashBeforeSpace(x: string, space: string)
    requires All(IsSpace, space)
    ensures SkipSlash(x + space) == SkipSlash(x) + space
  {
    assert space != "" ==> IsSpace(space[0]);
    if x == "" {
      assert x + space == space;
    } else {
      assert (x + space)[0] == x[0] && (x + space)[1..] == x[1..] + space;
    }
  }

  lemma SpaceEndsTag(letter: Letters, z: string, space: string)
    requires All(IsSpace, space) && z != ""
    ensures TagName(letter, z + space) ==> TagName(letter, z)
  {
    var u := z + space;
    assert forall i | 0 <= i < |z| :: u[i] == z[i];
    if |z| < |TAG| <= |u| {
      TagIsWords(|z|);
      assert u[|z|] == space[0] && IsSpace(space[0]);
    }
  }

  lemma SkipIntoSpace(y: string, space: string)
    requires All(IsSpace, space)
    ensures SkipSpace(y + space) == if SkipSpace(y) == "" then "" else SkipSpace(y) + space
  {
    var n := Span(IsSpace, y);
    assert y == y[..n] + y[n..];
    if n == |y| {
      SpanOfRun(IsSpace, y + space, "");
      assert y + space + "" == y + space;
    } else {
      var tail := y[n..] + space;
      assert y + space == y[..n] + tail;
      SpanOfRun(IsSpace, y[..n], tail);
    }
  }

  lemma {:induction false} TokenFreeCut(letter: Letters, s: string, c: char, rest: string)
    requires TokenFree(letter, s) && Breaks(letter, c) && TokenFree(letter, [c] + rest)
    ensures TokenFree(letter, s + [c] + rest)
    decreases |s|
  {
    hide HasTag, Breaks;
    if s == "" {
      assert s + [c] + rest == [c] + rest;
    } else {
      HasTagCut(letter, s, c, rest);
      assert (s + [c] + rest)[1..] == s[1..] + [c] + rest;
      TokenFreeCut(letter, s[1..], c, rest);
    }
  }

  lemma NumberedItemTokenFree(letter: Letters, i: nat, item: string)
    ensures TokenFree(letter, NumberedItem(letter, i, item)) && "[" <= NumberedItem(letter, i, item)
  {
    hide Neutralise, TokenFree;
    var front := "[chunk:" + Digits(i) + "] ";
    assert forall j | 0 <= j < |Digits(i)| :: IsDigit(Digits(i)[j]);
    NeutraliseTokenFree(letter, item);
    NoBracketTokenFree(letter, front, Neutralise(letter, item));
  }

  lemma {:induction false} NumberedTokenFree(letter: Letters, i: nat, items: seq<string>)
    ensures TokenFree(letter, Numbered(letter, i, items))
    ensures items != [] ==> "[" <= Numbered(letter, i, items)
    decreases items
  {
    hide NumberedItem, TokenFree, Breaks;
    if items == [] {
      NothingTokenFree(letter);
    } else {
      var item := NumberedItem(letter, i, items[0]);
      NumberedItemTokenFree(letter, i, items[0]);
      if |items| > 1 {
        var more := Numbered(letter, i + 1, items[1..]);
        NumberedTokenFree(letter, i + 1, items[1..]);
        BracketsBreak(letter);
        TokenFreeThenSpace(letter, item, "\n\n");
        assert more == ['['] + more[1..];
        TokenFreeCut(letter, item + "\n\n", '[', more[1..]);
        assert item + "\n\n" + ['['] + more[1..] == item + "\n\n" + more;
      }
    }
  }

  lemma NothingTokenFree(letter: Letters)
    ensures TokenFree(letter, "")
  {
  }

  lemma BodyTokenFree(letter: Letters, content: Content)
    ensures TokenFree(letter, "\n" + Body(letter, content) + "\n")
  {
    hide TokenFree, Neutralise, Numbered;
    match content {
      case One(text) => NeutraliseTokenFree(letter, text);
      case Many(items) => NumberedTokenFree(letter, 1, items);
    }
    TokenFreeThenSpace(letter, Body(letter, content), "\n");
    NoBracketTokenFree(letter, "\n", Body(letter, content) + "\n");
    assert "\n" + (Body(letter, content) + "\n") == "\n" + Body(letter, content) + "\n";
  }

  /** The wrapped block is read as one block. */
  lemma ReadOwnBlock(letter: Letters, content: Content, nonce: string, post: string)
    requires Nonce(nonce)
    ensures ReadBlock(Wrap(letter, content, nonce) + post) == Some(|Wrap(letter, content, nonce)|)
  {
    hide TokenFree, Body, ReadOpen, FindCloseTag, OpenTag, CloseTag, Nonce;
    var inner := "\n" + Body(letter, content) + "\n";
    var rest := inner + CloseTag(nonce) + post;
    assert Wrap(letter, content, nonce) == OpenTag(nonce) + (inner + CloseTag(nonce));
    assert Wrap(letter, content, nonce) + post == OpenTag(nonce) + rest;
    ReadOwnOpen(nonce, rest);
    assert (OpenTag(nonce) + rest)[|OpenTag(nonce)|..] == rest;
    BodyTokenFree(letter, content);
    FindClosePasses(letter, nonce, inner, post);
  }

  lemma HexIsNonce(nonce: string)
    ensures Nonce(nonce)
       <==> nonce != "" && forall i | 0 <= i < |nonce| :: '0' <= nonce[i] <= '9' || 'a' <= nonce[i] <= 'f'
  {
  }

  lemma WrapOpens(letter: Letters, content: Content, nonce: string)
    ensures Wrap(letter, content, nonce) != "" && Wrap(letter, content, nonce)[0] == '<'
  {
    hide Body;
  }

  /**
   Stripping undoes wrapping: whatever the untrusted content, only a blank is left of the
   block, and the text around it is untouched.
   */
  lemma StripUndoesWrap(letter: Letters, pre: string, content: Content, nonce: string, post: string)
    requires TokenFree(letter, pre) && TokenFree(letter, post)
    requires nonce != "" && forall i | 0 <= i < |nonce| :: '0' <= nonce[i] <= '9' || 'a' <= nonce[i] <= 'f'
    ensures Strip(pre + Wrap(letter, content, nonce) + post) == pre + " " + post
  {
    hide TokenFree, Body, ReadBlock, Wrap;
    HexIsNonce(nonce);
    var w := Wrap(letter, content, nonce);
    ReadOwnBlock(letter, content, nonce, post);
    assert pre + w + post == pre + (w + post);
    WrapOpens(letter, content, nonce);
    assert (w + post)[0] == w[0];
    StripPasses(letter, pre, w + post);
    assert (w + post)[|w|..] == post;
    StripTokenFree(letter, post);
    assert pre + (" " + post) == pre + " " + post;
  }
}
