/** Packing paragraphs into chunks of a bounded number of words (`apps/rag/fleet_rag/ingest/chunk.py`). */
module Chunks {
  import opened Wrappers
  import opened Text
  import Words

  function WordCount(s: string): nat {
    |Words.Split(s)|
  }

  /** `text.split("\n\n")`. */
  function Parts(text: string): seq<string>
    decreases |text|
  {
    match FindBlank(text)
    case None => [text]
    case Some(n) => [text[..n]] + Parts(text[n + 2..])
  }

  function Strip(s: string): string {
    Trim(IsSpace, s)
  }

  /** The parts that are not blank, stripped. */
  function StripAll(parts: seq<string>): seq<string> {
    if parts == [] then []
    else (if Strip(parts[0]) != "" then [Strip(parts[0])] else []) + StripAll(parts[1..])
  }

  function Paragraphs(text: string): seq<string> {
    StripAll(Parts(text))
  }

  const BLANK_LINE: string := "\n\n"

  function Flush(current: seq<string>): seq<string> {
    if current == [] then [] else [Join(current, BLANK_LINE)]
  }

  /** A long paragraph in pieces of `max` words. */
  function Pieces(words: seq<string>, max: nat): seq<string>
    requires max > 0
    decreases |words|
  {
    if words == [] then []
    else if |words| <= max then [Join(words, " ")]
    else [Join(words[..max], " ")] + Pieces(words[max..], max)
  }

  function Total(paragraphs: seq<string>): nat {
    if paragraphs == [] then 0 else Total(paragraphs[..|paragraphs| - 1]) + WordCount(paragraphs[|paragraphs| - 1])
  }

  /** The chunks made of what is being packed and the paragraphs to come. */
  function Packed(paragraphs: seq<string>, current: seq<string>, max: nat): seq<string>
    requires max > 0
    decreases |paragraphs|
  {
    if paragraphs == [] then Flush(current)
    else
      var p, rest := paragraphs[0], paragraphs[1..];
      if WordCount(p) > max then Flush(current) + Pieces(Words.Split(p), max) + Packed(rest, [], max)
      else if Total(current) + WordCount(p) > max && current != [] then Flush(current) + Packed(rest, [p], max)
      else Packed(rest, current + [p], max)
  }

  function ChunksOf(text: string, max: nat): seq<string>
    requires max > 0
  {
    Packed(Paragraphs(text), [], max)
  }

  // ---- The loop

  lemma TotalSnoc(current: seq<string>, p: string)
    ensures Total(current + [p]) == Total(current) + WordCount(p)
  {
    assert (current + [p])[..|current|] == current;
  }

  /** `chunk_text`; a budget of zero words is refused by `range`. */
  method ChunkText(text: string, max: nat) returns (chunks: seq<string>)
    requires max > 0
    ensures chunks == ChunksOf(text, max)
  {
    hide WordCount, Words.Split, Join, Pieces, Paragraphs;
    var paragraphs := Paragraphs(text);
    chunks := [];
    if paragraphs == [] {
      return;
    }
    var current: seq<string> := [];
    var currentLen := 0;
    for k := 0 to |paragraphs|
      invariant currentLen == Total(current)
      invariant ChunksOf(text, max) == chunks + Packed(paragraphs[k..], current, max)
    {
      var para := paragraphs[k];
      assert paragraphs[k..][0] == para && paragraphs[k..][1..] == paragraphs[k + 1..];
      var words := Words.Split(para);
      assert WordCount(para) == |words| by {
        CountIsLength(para);
      }
      if |words| > max {
        chunks := chunks + Flush(current);
        current, currentLen := [], 0;
        var pieces := CutWords(words, max);
        chunks := chunks + pieces;
      } else {
        if currentLen + |words| > max && current != [] {
          chunks := chunks + Flush(current);
          current, currentLen := [], 0;
          assert [para] == [] + [para];
        }
        TotalSnoc(current, para);
        current := current + [para];
        currentLen := currentLen + |words|;
      }
    }
    assert paragraphs[|paragraphs|..] == [];
    chunks := chunks + Flush(current);
  }

  lemma CountIsLength(s: string)
    ensures WordCount(s) == |Words.Split(s)|
  {
  }

  /** `range(0, len(words), max_tokens)`. */
  method CutWords(words: seq<string>, max: nat) returns (pieces: seq<string>)
    requires max > 0
    ensures pieces == Pieces(words, max)
  {
    hide Join;
    pieces := [];
    var i := 0;
    while i < |words|
      invariant i <= |words| ==> Pieces(words, max) == pieces + Pieces(words[i..], max)
      invariant i > |words| ==> Pieces(words, max) == pieces
    {
      var rest := words[i..];
      if |rest| <= max {
        assert words[i..|words|] == rest;
        pieces := pieces + [Join(rest, " ")];
      } else {
        assert words[i..i + max] == rest[..max] && words[i + max..] == rest[max..];
        pieces := pieces + [Join(words[i..i + max], " ")];
      }
      i := i + max;
    }
  }

  // ---- No word is lost

  lemma {:induction false} PartsKeepWords(text: string)
    ensures Words.AllWords(Parts(text)) == Words.Split(text)
    decreases |text|
  {
    hide Words.Split, FindBlank;
    match FindBlank(text)
    case None => assert [text][1..] == [];
    case Some(n) =>
      var rest := text[n + 2..];
      PartsKeepWords(rest);
      assert text == text[..n] + (text[n..n + 2] + rest);
      var tail := text[n..n + 2] + rest;
      assert tail[0] == text[n];
      Words.SplitAppend(text[..n], tail);
      Words.SplitSpaces(text[n..n + 2], rest);
  }

  lemma {:induction false} StripKeepsWords(parts: seq<string>)
    ensures Words.AllWords(StripAll(parts)) == Words.AllWords(parts)
  {
    hide Words.Split, Trim;
    if parts != [] {
      StripKeepsWords(parts[1..]);
      Words.SplitTrim(parts[0]);
      if Strip(parts[0]) == "" {
        Words.SplitNothing();
        assert StripAll(parts) == StripAll(parts[1..]);
      } else {
        assert StripAll(parts)[1..] == StripAll(parts[1..]);
      }
    }
  }

  lemma FlushKeepsWords(current: seq<string>)
    ensures Words.AllWords(Flush(current)) == Words.AllWords(current)
  {
    hide Words.Split, Join;
    if current != [] {
      assert forall i | 0 <= i < |BLANK_LINE| :: BLANK_LINE[i] == '\n';
      Words.SplitJoin(current, BLANK_LINE);
      assert [Join(current, BLANK_LINE)][1..] == [];
    }
  }

  lemma {:induction false} PiecesKeepWords(words: seq<string>, max: nat)
    requires max > 0 && Words.AreWords(words)
    ensures Words.AllWords(Pieces(words, max)) == words
    decreases |words|
  {
    hide Words.Split, Join, Words.IsOneWord;
    if words == [] {
    } else if |words| <= max {
      Words.SplitOfJoinedWords(words);
      assert [Join(words, " ")][1..] == [];
    } else {
      Words.SplitOfJoinedWords(words[..max]);
      PiecesKeepWords(words[max..], max);
      assert words == words[..max] + words[max..];
    }
  }

  lemma {:induction false} PackedKeepsWords(paragraphs: seq<string>, current: seq<string>, max: nat)
    requires max > 0
    ensures Words.AllWords(Packed(paragraphs, current, max)) == Words.AllWords(current) + Words.AllWords(paragraphs)
    decreases |paragraphs|
  {
    hide *;
    PackedCases(paragraphs, current, max);
    FlushKeepsWords(current);
    AllWordsCases(paragraphs);
    if paragraphs != [] {
      var p, rest := paragraphs[0], paragraphs[1..];
      var words := Words.Split(p);
      LoneText(p);
      if WordCount(p) > max {
        PackedKeepsWords(rest, [], max);
        PiecesKeepWords(words, max);
        Words.AllWordsAppend(Flush(current) + Pieces(words, max), Packed(rest, [], max));
        Words.AllWordsAppend(Flush(current), Pieces(words, max));
        AllWordsCases([]);
      } else if Total(current) + WordCount(p) > max && current != [] {
        PackedKeepsWords(rest, [p], max);
        Words.AllWordsAppend(Flush(current), Packed(rest, [p], max));
      } else {
        PackedKeepsWords(rest, current + [p], max);
        Words.AllWordsAppend(current, [p]);
      }
    }
  }

  lemma PackedCases(paragraphs: seq<string>, current: seq<string>, max: nat)
    requires max > 0
    ensures paragraphs == [] ==> Packed(paragraphs, current, max) == Flush(current)
    ensures paragraphs != [] ==>
              var p, rest := paragraphs[0], paragraphs[1..];
              Packed(paragraphs, current, max) ==
                if WordCount(p) > max then Flush(current) + Pieces(Words.Split(p), max) + Packed(rest, [], max)
                else if Total(current) + WordCount(p) > max && current != []
                then Flush(current) + Packed(rest, [p], max)
                else Packed(rest, current + [p], max)
  {
    hide Words.Split, Flush, Pieces, Total, WordCount;
  }

  lemma AllWordsCases(texts: seq<string>)
    ensures texts == [] ==> Words.AllWords(texts) == []
    ensures texts != [] ==> Words.AllWords(texts) == Words.Split(texts[0]) + Words.AllWords(texts[1..])
  {
    hide Words.Split;
  }

  lemma LoneText(p: string)
    ensures Words.AllWords([p]) == Words.Split(p)
  {
    hide Words.Split;
    assert [p][1..] == [];
  }

  /** The words of the chunks, in order, are the words of the text. */
  lemma ChunksKeepWords(text: string, max: nat)
    requires max > 0
    ensures Words.AllWords(ChunksOf(text, max)) == Words.Split(text)
  {
    hide Words.Split, Packed, Parts, StripAll;
    PackedKeepsWords(Paragraphs(text), [], max);
    StripKeepsWords(Parts(text));
    PartsKeepWords(text);
  }

  // ---- Every chunk has between one and `max` words

  predicate Bounded(chunks: seq<string>, max: nat) {
    forall i | 0 <= i < |chunks| :: 1 <= WordCount(chunks[i]) <= max
  }

  predicate NonBlank(paragraphs: seq<string>) {
    forall i | 0 <= i < |paragraphs| :: WordCount(paragraphs[i]) >= 1
  }

  lemma {:induction false} ParagraphsNonBlank(parts: seq<string>)
    ensures NonBlank(StripAll(parts))
  {
    hide WordCount, Trim;
    if parts != [] {
      ParagraphsNonBlank(parts[1..]);
      StrippedNonBlank(parts[0]);
    }
  }

  lemma StrippedNonBlank(part: string)
    ensures Strip(part) != "" ==> WordCount(Strip(part)) >= 1
  {
    hide Trim;
    Words.SplitTrim(part);
  }

  lemma {:induction false} TotalIsWords(current: seq<string>)
    ensures Total(current) == |Words.AllWords(current)|
  {
    hide Words.Split;
    if current != [] {
      var n := |current| - 1;
      TotalIsWords(current[..n]);
      assert current == current[..n] + [current[n]];
      Words.AllWordsAppend(current[..n], [current[n]]);
      LoneText(current[n]);
      CountIsLength(current[n]);
    }
  }

  lemma FlushBounded(current: seq<string>, max: nat)
    requires Total(current) <= max && NonBlank(current)
    ensures Bounded(Flush(current), max)
  {
    hide Words.Split, Words.AllWords, Total;
    if current != [] {
      var text := Join(current, BLANK_LINE);
      FlushKeepsWords(current);
      LoneText(text);
      TotalIsWords(current);
      TotalPositive(current);
    }
  }

  lemma TotalPositive(current: seq<string>)
    requires current != [] && NonBlank(current)
    ensures Total(current) >= 1
  {
    hide WordCount;
  }

  lemma {:induction false} PiecesBounded(words: seq<string>, max: nat)
    requires max > 0 && Words.AreWords(words)
    ensures Bounded(Pieces(words, max), max)
    decreases |words|
  {
    hide Words.Split, Join, Words.IsOneWord;
    if words == [] {
    } else if |words| <= max {
      Words.SplitOfJoinedWords(words);
    } else {
      Words.SplitOfJoinedWords(words[..max]);
      PiecesBounded(words[max..], max);
    }
  }

  lemma {:induction false} PackedBounded(paragraphs: seq<string>, current: seq<string>, max: nat)
    requires max > 0 && NonBlank(paragraphs) && NonBlank(current) && Total(current) <= max
    ensures Bounded(Packed(paragraphs, current, max), max)
    decreases |paragraphs|
  {
    hide WordCount, Pieces, Flush, Words.AreWords, Words.Split;
    FlushBounded(current, max);
    if paragraphs != [] {
      var p, rest := paragraphs[0], paragraphs[1..];
      TotalSnoc(current, p);
      TotalSnoc([], p);
      assert [] + [p] == [p];
      if WordCount(p) > max {
        PiecesBounded(Words.Split(p), max);
        PackedBounded(rest, [], max);
      } else if Total(current) + WordCount(p) > max && current != [] {
        PackedBounded(rest, [p], max);
      } else {
        PackedBounded(rest, current + [p], max);
      }
    }
  }

  /** No chunk is empty or over the budget. */
  lemma ChunksBounded(text: string, max: nat)
    requires max > 0
    ensures Bounded(ChunksOf(text, max), max)
  {
    hide Packed, StripAll, Parts;
    ParagraphsNonBlank(Parts(text));
    PackedBounded(Paragraphs(text), [], max);
  }

  // ---- Fewest chunks

  /** No paragraph is over the budget. */
  predicate Fits(paragraphs: seq<string>, max: nat) {
    forall i | 0 <= i < |paragraphs| :: WordCount(paragraphs[i]) <= max
  }

  function Concat(groups: seq<seq<string>>): seq<string> {
    if groups == [] then [] else groups[0] + Concat(groups[1..])
  }

  /** Some way of packing the paragraphs in order, without splitting any. */
  predicate Packing(groups: seq<seq<string>>, paragraphs: seq<string>, max: nat) {
    Concat(groups) == paragraphs && forall i | 0 <= i < |groups| :: Total(groups[i]) <= max
  }

  /** The number of chunks opened and the words in the last one, after packing `paragraphs` greedily. */
  function Greedy(count: nat, fill: nat, paragraphs: seq<string>, max: nat): (nat, nat)
    decreases paragraphs
  {
    if paragraphs == [] then (count, fill)
    else
      var n := WordCount(paragraphs[0]);
      if count > 0 && fill + n <= max then Greedy(count, fill + n, paragraphs[1..], max)
      else Greedy(count + 1, n, paragraphs[1..], max)
  }

  lemma {:induction false} GreedyAppend(count: nat, fill: nat, a: seq<string>, b: seq<string>, max: nat)
    ensures var (o, f) := Greedy(count, fill, a, max); Greedy(count, fill, a + b, max) == Greedy(o, f, b, max)
    decreases |a|
  {
    hide WordCount;
    if a == [] {
      assert a + b == b;
    } else {
      assert (a + b)[0] == a[0] && (a + b)[1..] == a[1..] + b;
      var n := WordCount(a[0]);
      if count > 0 && fill + n <= max {
        GreedyAppend(count, fill + n, a[1..], b, max);
      } else {
        GreedyAppend(count + 1, n, a[1..], b, max);
      }
    }
  }

  lemma {:induction false} GreedyShift(count: nat, fill: nat, paragraphs: seq<string>, max: nat)
    requires count > 0
    ensures Greedy(count + 1, fill, paragraphs, max).0 == Greedy(count, fill, paragraphs, max).0 + 1
    decreases |paragraphs|
  {
    hide WordCount;
    if paragraphs != [] {
      var n := WordCount(paragraphs[0]);
      if fill + n <= max {
        GreedyShift(count, fill + n, paragraphs[1..], max);
      } else {
        GreedyShift(count + 1, n, paragraphs[1..], max);
      }
    }
  }

  /** Packing opens as many chunks as the greedy count. */
  lemma {:induction false} PackedIsGreedy(paragraphs: seq<string>, current: seq<string>, max: nat)
    requires max > 0 && Fits(paragraphs, max)
    ensures |Packed(paragraphs, current, max)|
         == Greedy(if current == [] then 0 else 1, Total(current), paragraphs, max).0
    decreases |paragraphs|
  {
    hide WordCount, Join, Pieces;
    if paragraphs != [] {
      var p, rest := paragraphs[0], paragraphs[1..];
      TotalSnoc(current, p);
      TotalSnoc([], p);
      assert [] + [p] == [p];
      if Total(current) + WordCount(p) > max && current != [] {
        PackedIsGreedy(rest, [p], max);
        GreedyShift(1, WordCount(p), rest, max);
      } else {
        PackedIsGreedy(rest, current + [p], max);
      }
    }
  }

  /** While one more group is packed, greedy has either fewer chunks open or no more words in the last. */
  lemma {:induction false} GroupAhead(count: nat, fill: nat, others: nat, group: seq<string>, max: nat)
    requires count <= others && Total(group) <= max
    ensures var (o, f) := Greedy(count, fill, group, max);
            o <= others || (o == others + 1 && f <= Total(group))
    decreases |group|
  {
    hide WordCount;
    if group != [] {
      var n := |group| - 1;
      GroupAhead(count, fill, others, group[..n], max);
      assert group == group[..n] + [group[n]];
      GreedyAppend(count, fill, group[..n], [group[n]], max);
      var (o, f) := Greedy(count, fill, group[..n], max);
      assert Greedy(o, f, [group[n]], max)
          == if o > 0 && f + WordCount(group[n]) <= max then (o, f + WordCount(group[n]))
             else (o + 1, WordCount(group[n])) by {
        assert [group[n]][1..] == [];
      }
    }
  }

  lemma {:induction false} GreedyStaysAhead(count: nat, fill: nat, others: nat, groups: seq<seq<string>>, max: nat)
    requires count <= others && forall i | 0 <= i < |groups| :: Total(groups[i]) <= max
    ensures Greedy(count, fill, Concat(groups), max).0 <= others + |groups|
    decreases |groups|
  {
    hide Total;
    if groups != [] {
      GroupAhead(count, fill, others, groups[0], max);
      var (o, f) := Greedy(count, fill, groups[0], max);
      GreedyAppend(count, fill, groups[0], Concat(groups[1..]), max);
      GreedyStaysAhead(o, f, others + 1, groups[1..], max);
    }
  }

  /** No order-preserving packing of paragraphs within the budget has fewer chunks. */
  lemma PackedFewest(paragraphs: seq<string>, groups: seq<seq<string>>, max: nat)
    requires max > 0 && Fits(paragraphs, max) && Packing(groups, paragraphs, max)
    ensures |Packed(paragraphs, [], max)| <= |groups|
  {
    hide Packed, Fits, Greedy;
    PackedIsGreedy(paragraphs, [], max);
    GreedyStaysAhead(0, 0, 0, groups, max);
  }

  lemma {:induction false} PackedAroundLong(before: seq<string>, current: seq<string>, long: string, after: seq<string>,
                                            max: nat)
    requires max > 0 && WordCount(long) > max
    ensures Packed(before + [long] + after, current, max)
            == Packed(before, current, max) + Pieces(Words.Split(long), max) + Packed(after, [], max)
    decreases |before|
  {
    hide *;
    if before == [] {
      assert before + [long] + after == [long] + after;
      PackedFirst(long, after, current, max);
      NothingPacked(current, max);
    } else {
      var p := before[0];
      assert before == [p] + before[1..];
      assert before + [long] + after == [p] + (before[1..] + [long] + after);
      PackedFirst(p, before[1..] + [long] + after, current, max);
      PackedFirst(p, before[1..], current, max);
      if WordCount(p) > max {
        PackedAroundLong(before[1..], [], long, after, max);
      } else if Total(current) + WordCount(p) > max && current != [] {
        PackedAroundLong(before[1..], [p], long, after, max);
      } else {
        PackedAroundLong(before[1..], current + [p], long, after, max);
      }
    }
  }

  lemma PackedFirst(p: string, rest: seq<string>, current: seq<string>, max: nat)
    requires max > 0
    ensures Packed([p] + rest, current, max)
         == if WordCount(p) > max then Flush(current) + Pieces(Words.Split(p), max) + Packed(rest, [], max)
            else if Total(current) + WordCount(p) > max && current != [] then Flush(current) + Packed(rest, [p], max)
            else Packed(rest, current + [p], max)
  {
    hide WordCount, Total, Pieces, Flush;
    assert ([p] + rest)[1..] == rest;
  }

  lemma NothingPacked(current: seq<string>, max: nat)
    requires max > 0
    ensures Packed([], current, max) == Flush(current)
  {
    hide Flush;
  }

  /**
   Between over-long paragraphs, which stand alone, every run of paragraphs is packed into
   the fewest chunks of any order-preserving packing.
   */
  lemma RunPackedFewest(before: seq<string>, long: string, run: seq<string>, groups: seq<seq<string>>, max: nat)
    requires max > 0 && WordCount(long) > max && Fits(run, max) && Packing(groups, run, max)
    ensures |Packed(before + [long] + run, [], max)|
            <= |Packed(before, [], max)| + |Pieces(Words.Split(long), max)| + |groups|
  {
    hide Packed, Fits, Packing, Pieces, WordCount;
    PackedAroundLong(before, [], long, run, max);
    PackedFewest(run, groups, max);
  }

  // ---- What a paragraph is

  /** No blank line inside. */
  predicate Unbroken(s: string) {
    forall i | 0 <= i < |s| - 1 :: !(s[i] == '\n' && s[i + 1] == '\n')
  }

  /** Text without a blank line that starts and ends with something visible. */
  predicate IsParagraph(p: string) {
    p != "" && !IsSpace(p[0]) && !IsSpace(p[|p| - 1]) && Unbroken(p)
  }

  predicate AreParagraphs(ps: seq<string>) {
    forall i | 0 <= i < |ps| :: IsParagraph(ps[i])
  }

  lemma {:induction false} BlankBehind(p: string, rest: string)
    requires Unbroken(p) && (p != "" ==> p[|p| - 1] != '\n')
    ensures FindBlank(p + "\n\n" + rest) == Some(|p|)
  {
    var s := p + "\n\n" + rest;
    if p != "" {
      assert s[0] == p[0] && s[1] == (if |p| == 1 then '\n' else p[1]);
      assert s[1..] == p[1..] + "\n\n" + rest;
      UnbrokenTail(p);
      BlankBehind(p[1..], rest);
    }
  }

  lemma UnbrokenTail(p: string)
    requires Unbroken(p) && p != ""
    ensures Unbroken(p[1..]) && (|p| > 1 ==> p[1..][|p| - 2] == p[|p| - 1] && !(p[0] == '\n' && p[1] == '\n'))
  {
  }

  lemma {:induction false} NoBlankInside(p: string)
    requires Unbroken(p)
    ensures FindBlank(p) == None
  {
    if |p| >= 2 {
      UnbrokenTail(p);
      NoBlankInside(p[1..]);
    }
  }

  lemma PartsBehind(p: string, rest: string)
    requires Unbroken(p) && (p != "" ==> p[|p| - 1] != '\n')
    ensures Parts(p + "\n\n" + rest) == [p] + Parts(rest)
  {
    hide FindBlank, Unbroken;
    var s := p + "\n\n" + rest;
    BlankBehind(p, rest);
    assert s[..|p|] == p && s[|p| + 2..] == rest;
  }

  lemma ParagraphStripped(p: string)
    requires IsParagraph(p)
    ensures Strip(p) == p
  {
    hide Trim, Unbroken;
    assert p == "" + p + "";
    TrimOfPadded(IsSpace, p, "", p, "");
  }

  /** Paragraphs joined by blank lines are found again. */
  lemma {:induction false} ParagraphsOfJoined(ps: seq<string>)
    requires AreParagraphs(ps)
    ensures Paragraphs(Join(ps, "\n\n")) == ps
  {
    hide Parts, Strip, IsParagraph;
    if ps == [] {
      NoParagraphs();
    } else {
      var p, rest := ps[0], ps[1..];
      assert IsParagraph(p) && forall i | 0 <= i < |rest| :: rest[i] == ps[i + 1];
      ParagraphStripped(p);
      ParagraphFacts(p);
      assert ps == [p] + rest;
      if rest == [] {
        LoneParagraph(p);
      } else {
        PartsBehind(p, Join(rest, "\n\n"));
        ParagraphsOfJoined(rest);
        assert ([p] + Parts(Join(rest, "\n\n")))[1..] == Parts(Join(rest, "\n\n"));
      }
    }
  }

  lemma ParagraphFacts(p: string)
    requires IsParagraph(p)
    ensures p != "" && p[|p| - 1] != '\n' && Unbroken(p)
  {
  }

  lemma NoParagraphs()
    ensures Paragraphs("") == []
  {
    assert Parts("") == [""] && [""][1..] == [];
  }

  lemma LoneParagraph(p: string)
    requires IsParagraph(p)
    ensures Paragraphs(p) == [p]
  {
    hide Strip, FindBlank;
    ParagraphStripped(p);
    NoBlankInside(p);
    assert Parts(p) == [p];
    assert [p][1..] == [] && [p] + [] == [p];
    assert StripAll([p]) == [p] + StripAll([p][1..]);
  }

  /** Each group of paragraphs as one text. */
  function Texts(groups: seq<seq<string>>): (texts: seq<string>)
    ensures |texts| == |groups|
  {
    seq(|groups|, i requires 0 <= i < |groups| => Join(groups[i], "\n\n"))
  }

  lemma {:induction false} PackedGroups(paragraphs: seq<string>, current: seq<string>, max: nat)
    returns (groups: seq<seq<string>>)
    requires max > 0 && Fits(paragraphs, max) && Total(current) <= max
    ensures Packing(groups, current + paragraphs, max) && (forall g | g in groups :: g != [])
    ensures Packed(paragraphs, current, max) == Texts(groups)
    decreases |paragraphs|
  {
    hide WordCount, Total, Join;
    if paragraphs == [] {
      assert current + paragraphs == current;
      groups := if current == [] then [] else [current];
      assert [current][1..] == [] && current + [] == current;
      assert Concat([current]) == current + Concat([current][1..]);
    } else {
      var p, rest := paragraphs[0], paragraphs[1..];
      assert WordCount(p) <= max;
      assert Fits(rest, max) by {
        assert forall i | 0 <= i < |rest| :: rest[i] == paragraphs[i + 1];
      }
      TotalOne(p);
      TotalSnoc(current, p);
      if Total(current) + WordCount(p) > max && current != [] {
        var more := PackedGroups(rest, [p], max);
        groups := [current] + more;
        assert groups[1..] == more && paragraphs == [p] + rest;
        assert Texts(groups) == [Join(current, "\n\n")] + Texts(more);
      } else {
        groups := PackedGroups(rest, current + [p], max);
        assert current + [p] + rest == current + paragraphs;
      }
    }
  }

  lemma TotalOne(p: string)
    ensures Total([p]) == WordCount(p) && Total([]) == 0
  {
    hide WordCount;
    assert [p][..0] == [];
  }

  /**
   A text of paragraphs within the cap is cut between paragraphs only: its chunks are consecutive groups of
   them, each joined by blank lines.
   */
  lemma ChunksAreParagraphs(ps: seq<string>, max: nat) returns (groups: seq<seq<string>>)
    requires max > 0 && AreParagraphs(ps) && Fits(ps, max)
    ensures ChunksOf(Join(ps, "\n\n"), max) == Texts(groups)
    ensures Concat(groups) == ps && (forall g | g in groups :: g != [])
    ensures forall i | 0 <= i < |groups| :: Total(groups[i]) <= max
  {
    hide Paragraphs, Packed, Join, AreParagraphs, Fits;
    ParagraphsOfJoined(ps);
    groups := PackedGroups(ps, [], max);
    assert [] + ps == ps;
  }
}
