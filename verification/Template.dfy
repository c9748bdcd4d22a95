/**
 The one template form a recipe may use, `{{steps.<id>.<path>}}`, and the check on
 every text field of a recipe (`apps/api/fleet_api/recipes/schema.py`).
 */
module Template {
  import opened Wrappers
  import opened Text

  /** The pieces of one match of the reference pattern; `path` is the dotted path, word by word. */
  datatype Reference = Reference(lead: string, step: string, path: seq<string>, trail: string)

  /** A text is cut into literal stretches and references. */
  datatype Segment = Lit(text: string) | Ref(ref: Reference)

  predicate IsStepChar(c: char) {
    'a' <= c <= 'z' || IsDigit(c) || c == '_'
  }

  predicate ValidPath(path: seq<string>) {
    && path != []
    && forall i | 0 <= i < |path| :: path[i] != "" && All(IsWord, path[i])
  }

  /** What the reference pattern demands of its parts. */
  predicate Valid(r: Reference) {
    && All(IsSpace, r.lead)
    && 1 <= |r.step| <= 64
    && All(IsStepChar, r.step)
    && ValidPath(r.path)
    && All(IsSpace, r.trail)
  }

  function Dotted(path: seq<string>): string {
    Join(path, ".")
  }

  /** The text a reference was written as. */
  function Render(r: Reference): (s: string)
    ensures |s| > 4
  {
    "{{" + r.lead + "steps." + r.step + "." + Dotted(r.path) + r.trail + "}}"
  }

  /** The longest dotted path at the head of `s`. */
  function MatchPath(s: string): (r: Option<seq<string>>)
    ensures r.Some? <==> s != "" && IsWord(s[0])
    ensures r.Some? ==> ValidPath(r.value) && Dotted(r.value) <= s
  {
    var n := Span(IsWord, s);
    if n == 0 then None
    else if n + 1 < |s| && s[n] == '.' && IsWord(s[n + 1]) then
      var tail := MatchPath(s[n + 1..]).value;
      var path := [s[..n]] + tail;
      assert path[1..] == tail;
      assert s == s[..n] + "." + s[n + 1..];
      Some(path)
    else
      Some([s[..n]])
  }

  /** What may follow a dotted path for the match to end there. */
  predicate EndsPath(rest: string) {
    rest == "" || (!IsWord(rest[0]) && !(rest[0] == '.' && |rest| > 1 && IsWord(rest[1])))
  }

  lemma {:induction false} MatchPathOfDotted(path: seq<string>, rest: string)
    requires ValidPath(path) && EndsPath(rest)
    ensures MatchPath(Dotted(path) + rest) == Some(path)
  {
    hide MatchPath, Span;
    var w := path[0];
    if |path| == 1 {
      MatchLastWord(w, rest);
      assert path == [w];
    } else {
      var after := Dotted(path[1..]) + rest;
      var s := Dotted(path) + rest;
      assert s == w + ("." + after);
      SpanOfRun(IsWord, w, "." + after);
      DottedStartsWithWord(path[1..]);
      MatchPathOfDotted(path[1..], rest);
      MatchPathStep(s, w, after);
      assert [w] + path[1..] == path;
    }
  }

  lemma MatchLastWord(w: string, rest: string)
    requires ValidPath([w]) && EndsPath(rest)
    ensures MatchPath(w + rest) == Some([w])
  {
    hide Span;
    assert [w][0] == w;
    SpanOfRun(IsWord, w, rest);
    assert (w + rest)[..|w|] == w;
    assert |w| < |w + rest| ==> (w + rest)[|w|] == rest[0];
    assert |w| + 1 < |w + rest| ==> (w + rest)[|w| + 1] == rest[1];
  }

  lemma MatchPathStep(s: string, w: string, after: string)
    requires s == w + ("." + after) && w != "" && Span(IsWord, s) == |w|
    requires after != "" && IsWord(after[0])
    ensures MatchPath(s) == Some([w] + MatchPath(after).value)
  {
    assert s[|w| + 1..] == after;
    assert s[..|w|] == w;
  }

  lemma DottedStartsWithWord(path: seq<string>)
    requires ValidPath(path)
    ensures Dotted(path) != "" && IsWord(Dotted(path)[0])
  {
  }

  /** `{{`, whitespace, `steps.`: answers the whitespace. */
  function MatchOpen(s: string): (r: Option<string>)
    ensures r.Some? ==> All(IsSpace, r.value) && Open(r.value) <= s
  {
    if !("{{" <= s) then None else
    var n := Span(IsSpace, s[2..]);
    assert s == "{{" + s[2..][..n] + s[2 + n..];
    if "steps." <= s[2 + n..] then Some(s[2..][..n]) else None
  }

  function Open(lead: string): string {
    "{{" + lead + "steps."
  }

  lemma MatchOpenComplete(lead: string, rest: string)
    requires All(IsSpace, lead)
    ensures MatchOpen(Open(lead) + rest) == Some(lead)
  {
    var s := Open(lead) + rest;
    var tail := "steps." + rest;
    assert s == "{{" + (lead + tail);
    assert s[2..] == lead + tail;
    SpanOfRun(IsSpace, lead, tail);
    assert s[2 + |lead|..] == tail;
  }

  /** A step id of 1 to 64 characters followed by a dot. */
  function MatchStep(s: string): (r: Option<string>)
    ensures r.Some? ==> 1 <= |r.value| <= 64 && All(IsStepChar, r.value) && r.value + "." <= s
  {
    var n := Span(IsStepChar, s);
    if 1 <= n <= 64 && n < |s| && s[n] == '.' then Some(s[..n]) else None
  }

  lemma MatchStepComplete(step: string, rest: string)
    requires 1 <= |step| <= 64 && All(IsStepChar, step)
    ensures MatchStep(step + "." + rest) == Some(step)
  {
    assert step + "." + rest == step + ("." + rest);
    SpanOfRun(IsStepChar, step, "." + rest);
  }

  /** Whitespace and `}}`: answers the whitespace. */
  function MatchClose(s: string): (r: Option<string>)
    ensures r.Some? ==> All(IsSpace, r.value) && r.value + "}}" <= s
  {
    var n := Span(IsSpace, s);
    assert s == s[..n] + s[n..];
    if "}}" <= s[n..] then Some(s[..n]) else None
  }

  lemma MatchCloseComplete(trail: string, rest: string)
    requires All(IsSpace, trail)
    ensures MatchClose(trail + "}}" + rest) == Some(trail)
  {
    assert trail + "}}" + rest == trail + ("}}" + rest);
    SpanOfRun(IsSpace, trail, "}}" + rest);
  }

  /** The reference pattern anchored at the head of `s`. */
  function MatchAt(s: string): (r: Option<Reference>)
    ensures r.Some? ==> Valid(r.value) && Render(r.value) <= s
  {
    var lead :- MatchOpen(s);
    var s1 := s[|Open(lead)|..];
    assert s == Open(lead) + s1;
    var step :- MatchStep(s1);
    var s2 := s1[|step| + 1..];
    assert s1 == step + "." + s2;
    var path :- MatchPath(s2);
    var s3 := s2[|Dotted(path)|..];
    assert s2 == Dotted(path) + s3;
    var trail :- MatchClose(s3);
    var r := Reference(lead, step, path, trail);
    RenderedPrefix(s, r, s1, s2, s3);
    Some(r)
  }

  lemma RenderedPrefix(s: string, r: Reference, s1: string, s2: string, s3: string)
    requires s == Open(r.lead) + s1
    requires s1 == r.step + "." + s2
    requires s2 == Dotted(r.path) + s3
    requires r.trail + "}}" <= s3
    ensures Render(r) <= s
  {
    var s4 := s3[|r.trail| + 2..];
    assert s3 == r.trail + "}}" + s4;
    assert s == Render(r) + s4;
  }

  /** Completeness: a valid reference at the head of a text is found, whatever follows it. */
  lemma MatchAtComplete(r: Reference, rest: string)
    requires Valid(r)
    ensures MatchAt(Render(r) + rest) == Some(r)
  {
    var s3 := r.trail + "}}" + rest;
    var s2 := Dotted(r.path) + s3;
    var s1 := r.step + "." + s2;
    MatchOpenComplete(r.lead, s1);
    MatchStepComplete(r.step, s2);
    PathBeforeClose(r, rest);
    MatchCloseComplete(r.trail, rest);
    MatchAtParts(r, s1, s2, s3);
    RenderSplit(r, rest);
  }

  lemma RenderSplit(r: Reference, rest: string)
    ensures Render(r) + rest == Open(r.lead) + (r.step + "." + (Dotted(r.path) + (r.trail + "}}" + rest)))
  {
    var d := Dotted(r.path);
    assert Render(r) == "{{" + r.lead + "steps." + r.step + "." + d + r.trail + "}}";
    assert Open(r.lead) == "{{" + r.lead + "steps.";
  }

  lemma PathBeforeClose(r: Reference, rest: string)
    requires Valid(r)
    ensures MatchPath(Dotted(r.path) + (r.trail + "}}" + rest)) == Some(r.path)
  {
    var s3 := r.trail + "}}" + rest;
    assert s3[0] == if r.trail == "" then '}' else r.trail[0];
    MatchPathOfDotted(r.path, s3);
  }

  lemma MatchAtParts(r: Reference, s1: string, s2: string, s3: string)
    requires MatchOpen(Open(r.lead) + s1) == Some(r.lead)
    requires s1 == r.step + "." + s2 && MatchStep(s1) == Some(r.step)
    requires s2 == Dotted(r.path) + s3 && MatchPath(s2) == Some(r.path)
    requires MatchClose(s3) == Some(r.trail)
    ensures MatchAt(Open(r.lead) + s1) == Some(r)
  {
    assert (Open(r.lead) + s1)[|Open(r.lead)|..] == s1;
    assert s1[|r.step| + 1..] == s2;
    assert s2[|Dotted(r.path)|..] == s3;
  }

  /** The leftmost reference in `s`: where it starts, and its parts. */
  function Find(s: string): (r: Option<(nat, Reference)>)
    ensures r.Some? ==> Valid(r.value.1) && r.value.0 + |Render(r.value.1)| <= |s|
    ensures r.Some? ==> Render(r.value.1) <= s[r.value.0..]
  {
    var here := MatchAt(s);
    if here.Some? then Some((0, here.value))
    else if s == "" then None
    else
      var later :- Find(s[1..]);
      Some((later.0 + 1, later.1))
  }

  /** No reference starts within the first `n` characters of `s`. */
  ghost predicate NoMatchBefore(s: string, n: nat)
    requires n <= |s|
  {
    forall k | 0 <= k < n :: MatchAt(s[k..]) == None
  }

  lemma {:induction false} FindIsLeftmost(s: string)
    ensures NoMatchBefore(s, if Find(s).Some? then Find(s).value.0 else |s|)
    ensures Find(s).Some? ==> MatchAt(s[Find(s).value.0..]) == Some(Find(s).value.1)
  {
    hide MatchAt, Render;
    assert s[0..] == s;
    if MatchAt(s) == None && s != "" {
      FindIsLeftmost(s[1..]);
      var n := if Find(s).Some? then Find(s).value.0 else |s|;
      LaterMatches(s, n);
      assert s[1..][n - 1..] == s[n..];
    }
  }

  lemma LaterMatches(s: string, n: nat)
    requires 0 < n <= |s| && MatchAt(s) == None && NoMatchBefore(s[1..], n - 1)
    ensures NoMatchBefore(s, n)
  {
    hide MatchAt;
    forall k | 0 <= k < n
      ensures MatchAt(s[k..]) == None
    {
      assert k == 0 ==> s[k..] == s;
      assert k > 0 ==> s[k..] == s[1..][k - 1..];
    }
  }

  lemma TailMatches(s: string, n: nat)
    requires 0 < n <= |s| && NoMatchBefore(s, n)
    ensures MatchAt(s) == None && NoMatchBefore(s[1..], n - 1)
  {
    hide MatchAt;
    assert s[0..] == s;
    forall k | 0 <= k < n - 1
      ensures MatchAt(s[1..][k..]) == None
    {
      assert s[1..][k..] == s[k + 1..];
    }
  }

  lemma {:induction false} FindUnique(s: string, n: nat, r: Reference)
    requires n <= |s| && NoMatchBefore(s, n) && MatchAt(s[n..]) == Some(r)
    ensures Find(s) == Some((n, r))
  {
    hide *;
    FindUnfolds(s);
    if n == 0 {
      assert s[0..] == s;
    } else {
      TailMatches(s, n);
      assert s[1..][n - 1..] == s[n..];
      FindUnique(s[1..], n - 1, r);
    }
  }

  lemma FindUnfolds(s: string)
    ensures MatchAt(s).Some? ==> Find(s) == Some((0, MatchAt(s).value))
    ensures MatchAt(s) == None && s != "" && Find(s[1..]).Some? ==>
              Find(s) == Some((Find(s[1..]).value.0 + 1, Find(s[1..]).value.1))
    ensures MatchAt(s) == None && (s == "" || Find(s[1..]) == None) ==> Find(s) == None
  {
    hide MatchAt, Render;
  }

  lemma {:induction false} FindNone(s: string)
    requires NoMatchBefore(s, |s|)
    ensures Find(s) == None
  {
    hide *;
    FindUnfolds(s);
    if s == "" {
      NothingMatches();
    } else {
      TailMatches(s, |s|);
      FindNone(s[1..]);
    }
  }

  lemma NothingMatches()
    ensures MatchAt("") == None
  {
  }

  /** The text cut at its references, left to right, without empty literals. */
  function Split(s: string): seq<Segment> {
    match Find(s)
    case None => Plain(s)
    case Some((n, r)) => Plain(s[..n]) + [Ref(r)] + Split(s[n + |Render(r)|..])
  }

  function Plain(s: string): seq<Segment> {
    if s == "" then [] else [Lit(s)]
  }

  function Written(seg: Segment): string {
    match seg
    case Lit(t) => t
    case Ref(r) => Render(r)
  }

  function Source(segs: seq<Segment>): string {
    if segs == [] then "" else Written(segs[0]) + Source(segs[1..])
  }

  /**
   The only way of cutting a text that the reference pattern allows: valid references,
   non-empty literals that do not touch, and no reference starting inside a literal.
   */
  ghost predicate Canonical(segs: seq<Segment>) {
    segs == [] ||
    (var tail := segs[1..];
     && Canonical(tail)
     && match segs[0]
        case Ref(r) => Valid(r)
        case Lit(t) =>
          && t != ""
          && (tail == [] || tail[0].Ref?)
          && NoMatchBefore(t + Source(tail), |t|))
  }

  lemma SplitAt(s: string, n: nat, r: Reference, rest: string)
    requires Find(s) == Some((n, r)) && n + |Render(r)| <= |s| && s[n + |Render(r)|..] == rest
    ensures Split(s) == Plain(s[..n]) + [Ref(r)] + Split(rest)
  {
    hide *;
    SplitUnfolds(s);
  }

  lemma SplitUnfolds(s: string)
    ensures Find(s) == None ==> Split(s) == Plain(s)
    ensures Find(s).Some? ==>
              var (n, r) := Find(s).value; Split(s) == Plain(s[..n]) + [Ref(r)] + Split(s[n + |Render(r)|..])
  {
    hide Find, Render, Plain, MatchAt;
  }

  lemma Behind(s: string, n: nat, front: string, rest: string)
    requires n <= |s| && s[n..] == front + rest
    ensures n + |front| <= |s| && s[n + |front|..] == rest
  {
    assert s[n..][|front|..] == rest;
  }

  /** `Split` loses nothing and yields the canonical cutting. */
  lemma {:induction false} SplitLossless(s: string)
    ensures Source(Split(s)) == s
    ensures Canonical(Split(s))
    decreases |s|
  {
    hide MatchAt, Render;
    FindIsLeftmost(s);
    match Find(s)
    case None =>
      hide Find;
      SplitNone(s);
      if s == "" {
        NothingInNothing();
      } else {
        LoneLiteral(s);
      }
    case Some((n, r)) =>
      hide Find;
      var rest := s[n + |Render(r)|..];
      assert s[n..] == Render(r) + rest;
      SplitLossless(rest);
      SplitAt(s, n, r, rest);
      CanonicalStep(s, n, r, Split(rest));
  }

  lemma SplitNone(s: string)
    requires Find(s) == None
    ensures Split(s) == Plain(s)
  {
    hide *;
    SplitUnfolds(s);
  }

  lemma LoneLiteral(s: string)
    requires s != "" && NoMatchBefore(s, |s|)
    ensures Source([Lit(s)]) == s
    ensures Canonical([Lit(s)])
  {
    hide MatchAt, Find, Render;
    var none: seq<Segment> := [];
    assert [Lit(s)][1..] == none;
    assert s + Source(none) == s;
  }

  lemma CanonicalStep(s: string, n: nat, r: Reference, segs: seq<Segment>)
    requires n <= |s| && s[n..] == Render(r) + Source(segs) && Valid(r)
    requires NoMatchBefore(s, n)
    requires Canonical(segs)
    ensures Source(Plain(s[..n]) + [Ref(r)] + segs) == s
    ensures Canonical(Plain(s[..n]) + [Ref(r)] + segs)
  {
    hide MatchAt, Render;
    var tail := [Ref(r)] + segs;
    assert tail[1..] == segs;
    assert s == s[..n] + s[n..];
    var all := Plain(s[..n]) + [Ref(r)] + segs;
    if n == 0 {
      assert all == tail;
    } else {
      assert all == [Lit(s[..n])] + tail;
      assert all[1..] == tail;
    }
  }

  /** A canonical cutting is the one `Split` finds: cutting and writing back are inverse. */
  lemma {:induction false} SplitUnique(segs: seq<Segment>)
    requires Canonical(segs)
    ensures Split(Source(segs)) == segs
    decreases |segs|
  {
    hide MatchAt, Find, Render, Split, NoMatchBefore;
    if segs == [] {
      NothingInNothing();
    } else {
      var tail := segs[1..];
      match segs[0]
      case Ref(r) =>
        SplitUnique(tail);
        SplitUniqueFirst(r, tail);
        assert [Ref(r)] + tail == segs;
      case Lit(t) =>
        if tail == [] {
          SplitUniqueLiteral(t);
          assert [Lit(t)] == segs;
        } else {
          var rest := tail[1..];
          assert tail == [tail[0]] + rest;
          SplitUnique(rest);
          SplitUniqueRef(t, tail[0].ref, rest);
          assert [Lit(t)] + [tail[0]] + rest == segs;
        }
    }
  }

  lemma SplitUniqueLiteral(t: string)
    requires t != "" && NoMatchBefore(t + Source([]), |t|)
    ensures Split(Source([Lit(t)])) == [Lit(t)]
  {
    hide MatchAt, Find, Render, NoMatchBefore;
    assert Source([Lit(t)]) == t + Source([]) == t;
    FindNone(t);
    SplitNone(t);
  }

  lemma SplitUniqueFirst(r: Reference, rest: seq<Segment>)
    requires Valid(r) && Split(Source(rest)) == rest
    ensures Split(Source([Ref(r)] + rest)) == [Ref(r)] + rest
  {
    hide MatchAt, Find, Render, Split, Source;
    var s := Source([Ref(r)] + rest);
    assert "" + s == s;
    assert NoMatchBefore("" + s, 0);
    SplitUniqueRef("", r, rest);
  }

  lemma NothingInNothing()
    ensures Split("") == []
    ensures Source([]) == "" && Canonical([])
  {
  }

  lemma SplitUniqueRef(t: string, r: Reference, rest: seq<Segment>)
    requires Valid(r) && Split(Source(rest)) == rest
    requires NoMatchBefore(t + Source([Ref(r)] + rest), |t|)
    ensures Split(t + Source([Ref(r)] + rest)) == Plain(t) + [Ref(r)] + rest
  {
    hide MatchAt, Find, Render, Split, Plain, NoMatchBefore;
    var tail := [Ref(r)] + rest;
    assert tail[1..] == rest;
    var s := t + Source(tail);
    MatchAtComplete(r, Source(rest));
    assert s[|t|..] == Render(r) + Source(rest);
    FindUnique(s, |t|, r);
    assert s[..|t|] == t;
    Behind(s, |t|, Render(r), Source(rest));
    SplitAt(s, |t|, r, Source(rest));
  }

  /** The ids a text refers to, in the order they occur. */
  function References(segs: seq<Segment>): seq<string> {
    if segs == [] then []
    else (if segs[0].Ref? then [segs[0].ref.step] else []) + References(segs[1..])
  }

  /** What is left of a text once its references are removed. */
  function Residue(segs: seq<Segment>): string {
    if segs == [] then ""
    else (if segs[0].Lit? then segs[0].text else "") + Residue(segs[1..])
  }

  /** `check_text`: no leading `=`, and no brace outside the references. */
  predicate CheckText(value: string) {
    !("=" <= value) && BraceFree(Residue(Split(value)))
  }

  lemma {:induction false} BraceFreeLiterals(segs: seq<Segment>, i: nat)
    requires BraceFree(Residue(segs)) && i < |segs| && segs[i].Lit?
    ensures BraceFree(segs[i].text)
  {
    var head := if segs[0].Lit? then segs[0].text else "";
    assert Residue(segs) == head + Residue(segs[1..]);
    if i > 0 {
      assert forall c | c in Residue(segs[1..]) :: c in Residue(segs);
      BraceFreeLiterals(segs[1..], i - 1);
    } else {
      assert forall c | c in head :: c in Residue(segs);
    }
  }

  lemma {:induction false} BraceFreeResidue(segs: seq<Segment>)
    requires forall i | 0 <= i < |segs| && segs[i].Lit? :: BraceFree(segs[i].text)
    ensures BraceFree(Residue(segs))
  {
    if segs != [] {
      BraceFreeResidue(segs[1..]);
    }
  }

  /** A text is accepted exactly when no literal of its cutting holds a brace and it does not start with `=`. */
  lemma TextsAcceptedExactlyWhen(segs: seq<Segment>)
    requires Canonical(segs)
    ensures CheckText(Source(segs))
       <==> && (Source(segs) == "" || Source(segs)[0] != '=')
            && forall i | 0 <= i < |segs| && segs[i].Lit? :: '{' !in segs[i].text && '}' !in segs[i].text
  {
    hide Canonical, Split, Source, Residue;
    SplitUnique(segs);
    if BraceFree(Residue(segs)) {
      forall i | 0 <= i < |segs| && segs[i].Lit?
        ensures BraceFree(segs[i].text)
      {
        BraceFreeLiterals(segs, i);
      }
    }
    if forall i | 0 <= i < |segs| && segs[i].Lit? :: BraceFree(segs[i].text) {
      BraceFreeResidue(segs);
    }
  }
}
