/**
 Context budget and grounded answers (`apps/rag/fleet_rag/query/`): which hits reach the
 prompt, and what a citation number stands for.
 */
module Answering {
  import opened Wrappers
  import opened Text
  import opened Decimal
  import opened Ranking
  import Words
  import Guardrails

  function Tokens(h: Hit): nat {
    |Words.Split(h.content)|
  }

  /** `_truncate`. */
  function Truncate(h: Hit, cap: nat): Hit {
    var words := Words.Split(h.content);
    if |words| <= cap then h else h.(content := Join(words[..cap], " "))
  }

  /** A hit that is too long keeps its first words, set apart by blanks, and everything but its content. */
  lemma TruncateKeepsPrefix(h: Hit, cap: nat)
    ensures var t := Truncate(h, cap);
            && Words.Split(t.content) == Take(Words.Split(h.content), cap)
            && t.id == h.id && t.score == h.score && t.documentId == h.documentId && t.chunkRef == h.chunkRef
            && t.redacted == h.redacted
            && (|Words.Split(h.content)| <= cap ==> t.content == h.content)
            && (Join(Words.Split(h.content), " ") == h.content ==> t.content <= h.content)
    ensures Tokens(Truncate(h, cap)) <= cap
  {
    var words := Words.Split(h.content);
    if |words| > cap {
      Words.SplitOfJoinedWords(words[..cap]);
      JoinFront(words, cap, " ");
    }
  }

  lemma {:induction false} JoinFront(items: seq<string>, n: nat, sep: string)
    requires n <= |items|
    ensures Join(items[..n], sep) <= Join(items, sep)
  {
    if n > 0 && |items| > 1 {
      JoinFront(items[1..], n - 1, sep);
      assert items[..n][1..] == items[1..][..n - 1];
      assert Join(items, sep) == items[0] + sep + Join(items[1..], sep);
    } else if n > 0 {
      assert items[..n] == items;
    }
  }

  function TruncateAll(hits: seq<Hit>, cap: nat): (capped: seq<Hit>)
    ensures |capped| == |hits|
    ensures forall i | 0 <= i < |hits| :: capped[i] == Truncate(hits[i], cap)
  {
    seq(|hits|, i requires 0 <= i < |hits| => Truncate(hits[i], cap))
  }

  function Spent(hits: seq<Hit>): nat {
    if hits == [] then 0 else Spent(hits[..|hits| - 1]) + Tokens(hits[|hits| - 1])
  }

  /** What is spent are the words of the contents. */
  lemma {:induction false} SpentIsWords(hits: seq<Hit>)
    ensures Spent(hits) == |Words.AllWords(Contents(hits))|
  {
    hide Tokens, Words.Split;
    if hits != [] {
      var front, last := hits[..|hits| - 1], hits[|hits| - 1];
      SpentIsWords(front);
      assert Contents(hits) == Contents(front) + [last.content];
      Words.AllWordsSnoc(Contents(front), last.content);
      assert Tokens(last) == |Words.Split(last.content)| by {
        TokensAreWords(last);
      }
    }
  }

  lemma TokensAreWords(h: Hit)
    ensures Tokens(h) == |Words.Split(h.content)|
  {
  }

  /** The first `n` hits may be kept: one hit always, more only within the budget. */
  predicate Affordable(hits: seq<Hit>, n: nat, total: nat)
    requires n <= |hits|
  {
    n <= 1 || Spent(hits[..n]) <= total
  }

  lemma SpentNext(hits: seq<Hit>, k: nat)
    requires k < |hits|
    ensures Spent(hits[..k + 1]) == Spent(hits[..k]) + Tokens(hits[k])
  {
    hide Tokens;
    assert hits[..k + 1][..k] == hits[..k];
  }

  lemma {:induction false} SpentGrows(hits: seq<Hit>, m: nat, n: nat)
    requires m <= n <= |hits|
    ensures Spent(hits[..m]) <= Spent(hits[..n])
  {
    hide Spent, Tokens;
    if m < n {
      SpentNext(hits, n - 1);
      SpentGrows(hits, m, n - 1);
    }
  }

  /** When the next hit does not fit, no longer prefix does. */
  lemma NoneLonger(hits: seq<Hit>, k: nat, total: nat)
    requires 0 < k < |hits| && Spent(hits[..k]) + Tokens(hits[k]) > total
    ensures forall n | k < n <= |hits| :: !Affordable(hits, n, total)
  {
    hide Spent, Tokens;
    SpentNext(hits, k);
    forall n | k < n <= |hits|
      ensures !Affordable(hits, n, total)
    {
      SpentGrows(hits, k + 1, n);
    }
  }

  lemma SpentOne(rawHits: seq<Hit>, cap: nat)
    requires rawHits != []
    ensures Spent(TruncateAll(rawHits, cap)[..1]) <= cap
    ensures Spent(TruncateAll(rawHits, cap)[..0]) == 0
  {
    hide Tokens, Truncate;
    SpentNext(TruncateAll(rawHits, cap), 0);
    TruncateKeepsPrefix(rawHits[0], cap);
  }

  lemma AffordableCases(hits: seq<Hit>, n: nat, total: nat)
    requires n <= |hits|
    ensures Affordable(hits, n, total) <==> n <= 1 || Spent(hits[..n]) <= total
    ensures Spent(hits[..0]) == 0
  {
    hide Tokens;
  }

  /** The hit as it was found, with at most the first `cap` words of its content. */
  predicate CutFrom(kept: Hit, raw: Hit, cap: nat) {
    && kept == raw.(content := kept.content)
    && Words.Split(kept.content) == Take(Words.Split(raw.content), cap)
    && (|Words.Split(raw.content)| <= cap ==> kept.content == raw.content)
  }

  lemma TruncatedIsCut(h: Hit, cap: nat)
    ensures CutFrom(Truncate(h, cap), h, cap)
  {
    hide Truncate, Words.Split, Join;
    TruncateKeepsPrefix(h, cap);
  }

  /** `retrieve`: the longest affordable prefix of the truncated hits, best first. */
  method Retrieve(rawHits: seq<Hit>, perChunk: nat, total: nat) returns (kept: seq<Hit>)
    ensures kept <= TruncateAll(rawHits, perChunk)
    ensures rawHits != [] ==> kept != []
    ensures Affordable(TruncateAll(rawHits, perChunk), |kept|, total)
    ensures forall n | |kept| < n <= |rawHits| :: !Affordable(TruncateAll(rawHits, perChunk), n, total)
    ensures Spent(kept) <= if total >= perChunk then total else perChunk
    ensures |kept| <= |rawHits| && forall i | 0 <= i < |kept| :: CutFrom(kept[i], rawHits[i], perChunk)
  {
    hide *;
    var capped := TruncateAll(rawHits, perChunk);
    kept := [];
    var spent := 0;
    var k := 0;
    AffordableCases(capped, 0, total);
    while k < |capped|
      invariant k <= |capped| && kept == capped[..k] && spent == Spent(kept)
      invariant Affordable(capped, k, total)
    {
      var tokens := Tokens(capped[k]);
      SpentNext(capped, k);
      AffordableCases(capped, k + 1, total);
      if spent + tokens > total && kept != [] {
        NoneLonger(capped, k, total);
        break;
      }
      kept := kept + [capped[k]];
      spent := spent + tokens;
      k := k + 1;
    }
    AffordableCases(capped, k, total);
    forall i | 0 <= i < |kept|
      ensures CutFrom(kept[i], rawHits[i], perChunk)
    {
      TruncatedIsCut(rawHits[i], perChunk);
    }
    if rawHits != [] {
      SpentOne(rawHits, perChunk);
    }
  }

  // ---- Citations

  datatype Citation = Citation(chunkRef: string, documentId: int)

  datatype Reply = Reply(text: string, positions: seq<int>)

  datatype Answer = Grounded(text: string, citations: seq<Citation>) | Degraded

  function CitationOf(h: Hit): Citation {
    Citation(h.chunkRef, h.documentId)
  }

  /** Every position names one of the hits, and there is at least one. */
  predicate Resolvable(positions: seq<int>, hits: seq<Hit>) {
    positions != [] && forall i | 0 <= i < |positions| :: 1 <= positions[i] <= |hits|
  }

  /** `_resolve_citations`. */
  method ResolveCitations(positions: seq<int>, hits: seq<Hit>) returns (r: Option<seq<Citation>>)
    ensures r.Some? <==> Resolvable(positions, hits)
    ensures r.Some? ==> |r.value| == |positions| && forall i | 0 <= i < |positions| ::
              r.value[i] == CitationOf(hits[positions[i] - 1])
  {
    if positions == [] {
      return None;
    }
    var citations: seq<Citation> := [];
    for i := 0 to |positions|
      invariant |citations| == i
      invariant forall j | 0 <= j < i ::
                  1 <= positions[j] <= |hits| && citations[j] == CitationOf(hits[positions[j] - 1])
    {
      if positions[i] < 1 || positions[i] > |hits| {
        return None;
      }
      citations := citations + [CitationOf(hits[positions[i] - 1])];
    }
    return Some(citations);
  }

  /** `build_answer`; `replies(i)` is what the model gives at the attempt numbered `i`. */
  method BuildAnswer(hits: seq<Hit>, replies: nat -> Reply, maxAttempts: nat) returns (answer: Answer, attempts: nat)
    ensures attempts <= maxAttempts
    ensures hits == [] ==> attempts == 0
    ensures answer.Grounded? ==>
              && attempts > 0 && Resolvable(replies(attempts - 1).positions, hits)
              && answer.text == replies(attempts - 1).text
              && |answer.citations| == |replies(attempts - 1).positions|
              && (forall i | 0 <= i < |answer.citations| ::
                    answer.citations[i] == CitationOf(hits[replies(attempts - 1).positions[i] - 1]))
              && (forall i: nat | i < attempts - 1 :: !Resolvable(replies(i).positions, hits))
    ensures answer.Degraded? && hits != [] ==>
              attempts == maxAttempts && forall i: nat | i < maxAttempts :: !Resolvable(replies(i).positions, hits)
  {
    attempts := 0;
    if hits == [] {
      return Degraded, 0;
    }
    while attempts < maxAttempts
      invariant attempts <= maxAttempts
      invariant forall i: nat | i < attempts :: !Resolvable(replies(i).positions, hits)
    {
      var reply := replies(attempts);
      var citations := ResolveCitations(reply.positions, hits);
      attempts := attempts + 1;
      if citations.Some? {
        return Grounded(reply.text, citations.value), attempts;
      }
    }
    return Degraded, attempts;
  }

  // ---- Citation markers

  const MARK: string := "[chunk:"

  function Marker(n: nat): string {
    MARK + Digits(n) + "]"
  }

  /** A marker at the head of `s`: its number and its length. */
  function ReadMarker(s: string): (r: Option<(nat, nat)>)
    ensures r.Some? ==> 0 < r.value.1 <= |s|
  {
    if !(MARK <= s) then None else
    var t := s[|MARK|..];
    var n := Span(IsDigit, t);
    if n > 0 && "]" <= t[n..] then Some((Number(t[..n]), |MARK| + n + 1)) else None
  }

  /** `_parse_citations`: the numbers of all markers, left to right. */
  function ParseCitations(s: string): seq<nat>
    decreases |s|
  {
    if s == "" then []
    else
      match ReadMarker(s)
      case Some((n, length)) => [n] + ParseCitations(s[length..])
      case None => ParseCitations(s[1..])
  }

  /** No marker starts in `text` when `rest` follows it. */
  predicate NoMarkerIn(text: string, rest: string) {
    forall i | 0 <= i < |text| :: ReadMarker((text + rest)[i..]) == None
  }

  lemma {:induction false} NoMarkerNoCitation(text: string, rest: string)
    requires NoMarkerIn(text, rest)
    ensures ParseCitations(text + rest) == ParseCitations(rest)
    decreases |text|
  {
    hide ReadMarker;
    if text == "" {
      assert text + rest == rest;
    } else {
      assert (text + rest)[0..] == text + rest && (text + rest)[1..] == text[1..] + rest;
      forall i | 0 <= i < |text[1..]|
        ensures ReadMarker((text[1..] + rest)[i..]) == None
      {
        assert (text[1..] + rest)[i..] == (text + rest)[i + 1..];
      }
      NoMarkerNoCitation(text[1..], rest);
    }
  }

  lemma ReadOwnMarker(n: nat, rest: string)
    ensures ReadMarker(Marker(n) + rest) == Some((n, |Marker(n)|))
  {
    var s := Marker(n) + rest;
    var tail := "]" + rest;
    assert s[|MARK|..] == Digits(n) + tail;
    SpanOfRun(IsDigit, Digits(n), tail);
    assert (Digits(n) + tail)[..|Digits(n)|] == Digits(n) && (Digits(n) + tail)[|Digits(n)|..] == tail;
    NumberOfDigits(n);
  }

  /** An answer written as stretches of text, each followed by a marker. */
  function Cited(parts: seq<(string, nat)>, end: string): string {
    if parts == [] then end else parts[0].0 + Marker(parts[0].1) + Cited(parts[1..], end)
  }

  function Cites(parts: seq<(string, nat)>): seq<nat> {
    if parts == [] then [] else [parts[0].1] + Cites(parts[1..])
  }

  /** No stretch of text holds or completes a marker of its own. */
  predicate Apart(parts: seq<(string, nat)>, end: string) {
    if parts == [] then NoMarkerIn(end, "")
    else NoMarkerIn(parts[0].0, Marker(parts[0].1) + Cited(parts[1..], end)) && Apart(parts[1..], end)
  }

  /** The markers an answer was written with are the ones parsed out of it, in order. */
  lemma {:induction false} ParseCited(parts: seq<(string, nat)>, end: string)
    requires Apart(parts, end)
    ensures ParseCitations(Cited(parts, end)) == Cites(parts)
  {
    hide NoMarkerIn, ReadMarker, Marker;
    if parts == [] {
      assert end + "" == end;
      NoMarkerNoCitation(end, "");
    } else {
      var (text, n) := parts[0];
      var rest := Cited(parts[1..], end);
      ParseCited(parts[1..], end);
      assert text + Marker(n) + rest == text + (Marker(n) + rest);
      NoMarkerNoCitation(text, Marker(n) + rest);
      CitedFirst(n, rest);
    }
  }

  lemma CitedFirst(n: nat, rest: string)
    ensures ParseCitations(Marker(n) + rest) == [n] + ParseCitations(rest)
  {
    hide ReadMarker;
    ReadOwnMarker(n, rest);
    assert (Marker(n) + rest)[|Marker(n)|..] == rest;
  }

  // ---- The whole query

  function Contents(hits: seq<Hit>): (contents: seq<string>)
    ensures |contents| == |hits|
    ensures forall i | 0 <= i < |hits| :: contents[i] == hits[i].content
  {
    seq(|hits|, i requires 0 <= i < |hits| => hits[i].content)
  }

  /** The user message of `_generate`. */
  function Prompt(letter: Guardrails.Letters, hits: seq<Hit>, nonce: string, question: string): string {
    Guardrails.Wrap(letter, Guardrails.Many(Contents(hits)), nonce) + "\n\nQuestion: " + question
  }

  /** What the prompt shows of each kept hit: its citation number and its defanged text. */
  function Excerpts(letter: Guardrails.Letters, first: nat, hits: seq<Hit>): (excerpts: seq<string>)
    ensures |excerpts| == |hits|
    ensures forall i | 0 <= i < |hits| ::
              excerpts[i] == Marker(first + i) + " " + Guardrails.Neutralise(letter, hits[i].content)
  {
    seq(|hits|, i requires 0 <= i < |hits| => Marker(first + i) + " " + Guardrails.Neutralise(letter, hits[i].content))
  }

  /** The user message with these excerpts in its quarantine block. */
  function Framed(excerpts: seq<string>, nonce: string, question: string): string {
    Guardrails.OpenTag(nonce) + "\n" + Join(excerpts, "\n\n") + "\n" + Guardrails.CloseTag(nonce)
    + "\n\nQuestion: " + question
  }

  lemma {:induction false} NumberedIsJoined(letter: Guardrails.Letters, first: nat, hits: seq<Hit>)
    ensures Guardrails.Numbered(letter, first, Contents(hits)) == Join(Excerpts(letter, first, hits), "\n\n")
    decreases |hits|
  {
    hide Guardrails.Neutralise, Digits;
    if hits != [] {
      var rest := hits[1..];
      NumberedIsJoined(letter, first + 1, rest);
      assert Contents(hits)[1..] == Contents(rest);
      assert Excerpts(letter, first, hits)[1..] == Excerpts(letter, first + 1, rest);
      assert Excerpts(letter, first, hits)[0] == Guardrails.NumberedItem(letter, first, hits[0].content);
    }
  }

  /** The prompt is the frame around one excerpt per kept hit, in order, the n-th one numbered n. */
  lemma PromptIsFramed(letter: Guardrails.Letters, hits: seq<Hit>, nonce: string, question: string)
    ensures Prompt(letter, hits, nonce, question) == Framed(Excerpts(letter, 1, hits), nonce, question)
  {
    hide Guardrails.OpenTag, Guardrails.CloseTag, Guardrails.Numbered, Join, Excerpts;
    NumberedIsJoined(letter, 1, hits);
  }

  /** What `_generate` returns when the model answers `text`. */
  function ReplyOf(text: string): Reply {
    Reply(text, ParseCitations(text))
  }

  /**
   `answer_query` after the search: `model(prompt, i)` is the completion of attempt `i` and
   `nonces(i)` its quarantine nonce. Each citation of a grounded answer is the kept hit whose
   excerpt stood in the prompt at the place, and under the number, cited.
   */
  method AnswerQuery(letter: Guardrails.Letters, rawHits: seq<Hit>, perChunk: nat, total: nat, question: string,
                     nonces: nat -> string, model: (string, nat) -> string, maxAttempts: nat)
    returns (answer: Answer, kept: seq<Hit>, attempts: nat)
    ensures kept <= TruncateAll(rawHits, perChunk) && attempts <= maxAttempts
    ensures answer.Grounded? ==>
              && attempts > 0
              && answer.text == model(Framed(Excerpts(letter, 1, kept), nonces(attempts - 1), question), attempts - 1)
              && answer.citations != [] && |answer.citations| == |ParseCitations(answer.text)|
    ensures answer.Grounded? ==> forall i | 0 <= i < |answer.citations| ::
              var n := ParseCitations(answer.text)[i];
              && 1 <= n <= |kept| <= |rawHits|
              && answer.citations[i] == Citation(rawHits[n - 1].chunkRef, rawHits[n - 1].documentId)
              && CutFrom(kept[n - 1], rawHits[n - 1], perChunk)
              && Excerpts(letter, 1, kept)[n - 1]
                 == Marker(n) + " " + Guardrails.Neutralise(letter, kept[n - 1].content)
    ensures answer.Degraded? ==>
              rawHits == []
              || (attempts == maxAttempts
                  && forall j: nat | j < maxAttempts ::
                       var text := model(Framed(Excerpts(letter, 1, kept), nonces(j), question), j);
                       !Resolvable(ParseCitations(text), kept))
  {
    hide Prompt, Framed, Marker, Guardrails.Neutralise, ParseCitations, Truncate, Spent, CutFrom, Excerpts;
    kept := Retrieve(rawHits, perChunk, total);
    var shown := kept;
    var replies := (i: nat) => ReplyOf(model(Prompt(letter, shown, nonces(i), question), i));
    answer, attempts := BuildAnswer(kept, replies, maxAttempts);
    forall j: nat
      ensures Prompt(letter, kept, nonces(j), question) == Framed(Excerpts(letter, 1, kept), nonces(j), question)
    {
      PromptIsFramed(letter, kept, nonces(j), question);
    }
    forall j: nat
      ensures replies(j).positions
           == ParseCitations(model(Framed(Excerpts(letter, 1, kept), nonces(j), question), j))
    {
    }
    assert answer.Degraded? && rawHits != [] ==> kept != [];
    forall j: nat | answer.Degraded? && rawHits != [] && j < maxAttempts
      ensures !Resolvable(ParseCitations(model(Framed(Excerpts(letter, 1, kept), nonces(j), question), j)), kept)
    {
      assert !Resolvable(replies(j).positions, kept);
    }
    if answer.Grounded? {
      forall i | 0 <= i < |kept|
        ensures CitationOf(kept[i]) == Citation(rawHits[i].chunkRef, rawHits[i].documentId)
      {
        CitesItsSource(kept[i], rawHits[i], perChunk);
      }
    }
  }

  lemma CitesItsSource(kept: Hit, raw: Hit, cap: nat)
    requires CutFrom(kept, raw, cap)
    ensures CitationOf(kept) == Citation(raw.chunkRef, raw.documentId)
  {
  }
}
