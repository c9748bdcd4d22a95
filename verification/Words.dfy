/** `str.split()`: the words of a text, and how they survive cutting, joining and trimming. */
module Words {
  import opened Text

  predicate IsBlack(c: char) {
    !IsSpace(c)
  }

  /** A word: not empty, no whitespace inside. */
  predicate IsOneWord(w: string) {
    w != "" && All(IsBlack, w)
  }

  predicate AreWords(words: seq<string>) {
    forall i | 0 <= i < |words| :: IsOneWord(words[i])
  }

  /** `s.split()`. */
  function Split(s: string): (words: seq<string>)
    ensures AreWords(words)
    decreases |s|
  {
    var t := s[Span(IsSpace, s)..];
    if t == "" then []
    else
      var n := Span(IsBlack, t);
      [t[..n]] + Split(t[n..])
  }

  lemma SplitSpaces(space: string, s: string)
    requires All(IsSpace, space)
    ensures Split(space + s) == Split(s)
  {
    hide *;
    SpanSpaces(space, s);
    DropFront(space, s, Span(IsSpace, s));
    SameSplit(space + s, s);
  }

  lemma SpanSpaces(space: string, s: string)
    requires All(IsSpace, space)
    ensures Span(IsSpace, space + s) == |space| + Span(IsSpace, s)
  {
    hide Span;
    var n := Span(IsSpace, s);
    assert space + s == (space + s[..n]) + s[n..];
    SpanOfRun(IsSpace, space + s[..n], s[n..]);
  }

  lemma DropFront(a: string, b: string, n: nat)
    requires n <= |b|
    ensures (a + b)[|a| + n..] == b[n..]
  {
  }

  lemma SameSplit(s: string, t: string)
    requires s[Span(IsSpace, s)..] == t[Span(IsSpace, t)..]
    ensures Split(s) == Split(t)
  {
    hide Span;
  }

  lemma SplitWord(w: string, s: string)
    requires IsOneWord(w) && (s == "" || IsSpace(s[0]))
    ensures Split(w + s) == [w] + Split(s)
  {
    var t := w + s;
    assert t[0] == w[0];
    assert t[0..] == t;
    SpanOfRun(IsBlack, w, s);
    assert t[..|w|] == w && t[|w|..] == s;
  }

  /** A seam that does not cut a word. */
  predicate Seam(a: string, b: string) {
    a == "" || b == "" || IsSpace(a[|a| - 1]) || IsSpace(b[0])
  }

  /** Cutting a text anywhere but inside a word keeps its words. */
  lemma {:induction false} SplitAppend(a: string, b: string)
    requires Seam(a, b)
    ensures Split(a + b) == Split(a) + Split(b)
    decreases |a|
  {
    hide *;
    if Trimmed(a) == "" {
      OnlySpace(a, b);
    } else {
      var w, rest := FirstWord(a, b);
      SplitAppend(rest, b);
      assert [w] + (Split(rest) + Split(b)) == [w] + Split(rest) + Split(b);
    }
  }

  /** `a` without its leading whitespace. */
  function Trimmed(a: string): string {
    a[Span(IsSpace, a)..]
  }

  lemma OnlySpace(a: string, b: string)
    requires Trimmed(a) == ""
    ensures Split(a + b) == Split(a) + Split(b)
  {
    hide Split;
    SplitSpaces(a, b);
    SplitOfSpace(a);
  }

  lemma FirstWord(a: string, b: string) returns (w: string, rest: string)
    requires Seam(a, b) && Trimmed(a) != ""
    ensures Split(a) == [w] + Split(rest) && Split(a + b) == [w] + Split(rest + b)
    ensures Seam(rest, b) && |rest| < |a|
  {
    hide *;
    var n, m := FirstWordAt(a);
    var t := a[n..];
    w, rest := t[..m], t[m..];
    Cut(a, b, n, m);
    SplitSpaces(a[..n], t + b);
    SplitSpaces(a[..n], t);
    SeamAfterWord(a, b, n, m);
    SplitWord(w, rest + b);
    SplitWord(w, rest);
  }

  lemma FirstWordAt(a: string) returns (n: nat, m: nat)
    requires Trimmed(a) != ""
    ensures n < |a| && 0 < m <= |a[n..]| && All(IsSpace, a[..n])
    ensures IsOneWord(a[n..][..m]) && All(IsBlack, a[n..][..m]) && (m < |a[n..]| ==> IsSpace(a[n..][m]))
  {
    n := Span(IsSpace, a);
    m := Span(IsBlack, a[n..]);
  }

  lemma Cut(a: string, b: string, n: nat, m: nat)
    requires n <= |a| && m <= |a| - n
    ensures var t := a[n..];
            a == a[..n] + t && a + b == a[..n] + (t + b) && t == t[..m] + t[m..] && t + b == t[..m] + (t[m..] + b)
  {
    var t := a[n..];
    assert a == a[..n] + t;
    assert t == t[..m] + t[m..];
  }

  lemma SplitNothing()
    ensures Split("") == []
  {
  }

  /** Behind the first word the seam is still one, and the word is followed by whitespace or nothing. */
  lemma SeamAfterWord(a: string, b: string, n: nat, m: nat)
    requires Seam(a, b) && n < |a| && 0 < m <= |a[n..]| && All(IsBlack, a[n..][..m])
    requires m < |a[n..]| ==> IsSpace(a[n..][m])
    ensures var rest := a[n..][m..];
            && Seam(rest, b)
            && (rest == "" || IsSpace(rest[0]))
            && (rest + b == "" || IsSpace((rest + b)[0]))
  {
    var rest := a[n..][m..];
    if rest == "" {
      assert a[|a| - 1] == a[n..][..m][m - 1];
      assert rest + b == b;
    } else {
      assert rest[|rest| - 1] == a[|a| - 1];
      assert (rest + b)[0] == rest[0];
    }
  }

  lemma SplitOfSpace(space: string)
    requires All(IsSpace, space)
    ensures Split(space) == []
  {
    assert space + "" == space;
    SplitSpaces(space, "");
  }

  /** Trimming keeps the words. */
  lemma SplitTrim(s: string)
    ensures Split(Trim(IsSpace, s)) == Split(s)
    ensures Trim(IsSpace, s) != "" ==> Split(s) != []
  {
    var n := Span(IsSpace, s);
    var t := s[n..];
    assert s == s[..n] + t;
    SplitSpaces(s[..n], t);
    var after := TrimEndSplits(IsSpace, t);
    assert after != "" ==> IsSpace(after[0]);
    SplitAppend(Trim(IsSpace, s), after);
    SplitOfSpace(after);
    assert Trim(IsSpace, s) != "" ==> Trim(IsSpace, s)[0] == t[0];
  }

  /** The words of several texts, one after the other. */
  function AllWords(texts: seq<string>): seq<string> {
    if texts == [] then [] else Split(texts[0]) + AllWords(texts[1..])
  }

  lemma {:induction false} AllWordsAppend(a: seq<string>, b: seq<string>)
    ensures AllWords(a + b) == AllWords(a) + AllWords(b)
  {
    if a == [] {
      assert a + b == b;
    } else {
      assert (a + b)[1..] == a[1..] + b;
      AllWordsAppend(a[1..], b);
    }
  }

  lemma AllWordsSnoc(texts: seq<string>, last: string)
    ensures AllWords(texts + [last]) == AllWords(texts) + Split(last)
  {
    hide Split;
    AllWordsAppend(texts, [last]);
    assert [last][1..] == [] && Split(last) + [] == Split(last);
  }

  /** Joining with whitespace keeps the words. */
  lemma {:induction false} SplitJoin(texts: seq<string>, sep: string)
    requires sep != "" && All(IsSpace, sep)
    ensures Split(Join(texts, sep)) == AllWords(texts)
  {
    if texts == [] {
      SplitNothing();
    } else if |texts| == 1 {
      assert texts[1..] == [];
    } else {
      var rest := Join(texts[1..], sep);
      SplitJoin(texts[1..], sep);
      assert texts[0] + sep + rest == texts[0] + (sep + rest);
      assert (sep + rest)[0] == sep[0] && IsSpace(sep[0]);
      SplitAppend(texts[0], sep + rest);
      SplitSpaces(sep, rest);
    }
  }

  lemma {:induction false} WordsOfWords(words: seq<string>)
    requires AreWords(words)
    ensures AllWords(words) == words
  {
    if words != [] {
      WordsOfWords(words[1..]);
      assert words[0] + "" == words[0];
      SplitWord(words[0], "");
      SplitNothing();
      assert words == [words[0]] + words[1..];
    }
  }

  /** Joining words with blanks and splitting again gives the words. */
  lemma SplitOfJoinedWords(words: seq<string>)
    requires AreWords(words)
    ensures Split(Join(words, " ")) == words
  {
    SplitJoin(words, " ");
    WordsOfWords(words);
  }
}
