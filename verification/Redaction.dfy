/**
 Masking personal data (`_redact` and `apply_pii_policy` in `apps/rag/fleet_rag/ingest/pii.py`).
 The scan itself is not modelled: its findings are arbitrary.
 */
module Redaction {
  import opened Wrappers
  import opened Sorting

  datatype Finding = Finding(kind: string, start: nat, end: nat)

  function Tag(f: Finding): string {
    "[" + f.kind + "]"
  }

  predicate Inside(f: Finding, length: nat) {
    f.start < f.end <= length
  }

  predicate Apart(f: Finding, g: Finding) {
    f.end <= g.start || g.end <= f.start
  }

  predicate Disjoint(findings: seq<Finding>) {
    forall i, j | 0 <= i < j < |findings| :: Apart(findings[i], findings[j])
  }

  predicate AllInside(findings: seq<Finding>, length: nat) {
    forall f | f in findings :: Inside(f, length)
  }

  // ---- What masking should do, position by position

  predicate Covered(findings: seq<Finding>, k: nat) {
    exists f | f in findings :: f.start <= k < f.end
  }

  /** The tag of the finding that starts at `k`, if any does. */
  function TagAt(findings: seq<Finding>, k: nat): string {
    if findings == [] then ""
    else if findings[0].start == k then Tag(findings[0])
    else TagAt(findings[1..], k)
  }

  /** What position `k` contributes: its character, or the tag of the finding that starts there, or nothing. */
  function Piece(text: string, findings: seq<Finding>, k: nat): string
    requires k < |text|
  {
    if Covered(findings, k) then TagAt(findings, k) else [text[k]]
  }

  /** The contributions of the first `n` positions, left to right. */
  function Rendered(text: string, findings: seq<Finding>, n: nat): string
    requires n <= |text|
  {
    if n == 0 then "" else Rendered(text, findings, n - 1) + Piece(text, findings, n - 1)
  }

  // ---- What the code does

  function Start(f: Finding): real {
    f.start as real
  }

  /** A slice bound beyond the end counts as the end. */
  function Cut<T>(items: seq<T>, n: nat): nat {
    if n <= |items| then n else |items|
  }

  function Replace<T>(items: seq<T>, start: nat, end: nat, put: seq<T>): seq<T> {
    items[..Cut(items, start)] + put + items[Cut(items, end)..]
  }

  function Mask(text: string, f: Finding): string {
    Replace(text, f.start, f.end, Tag(f))
  }

  function MaskAll(text: string, findings: seq<Finding>): string
    decreases |findings|
  {
    if findings == [] then text else MaskAll(Mask(text, findings[0]), findings[1..])
  }

  /** What `_redact` makes of a text. */
  function Masked(text: string, findings: seq<Finding>): string {
    MaskAll(text, Sort(Start, findings))
  }

  // ---- Sorting

  lemma {:induction false} InsertDisjoint(f: Finding, sorted: seq<Finding>)
    requires Disjoint(sorted) && forall g | g in sorted :: Apart(f, g)
    ensures Disjoint(Insert(Start, f, sorted))
  {
    hide Apart;
    if sorted != [] {
      DisjointRest(sorted[0], sorted[1..]);
      assert [sorted[0]] + sorted[1..] == sorted;
      InsertDisjoint(f, sorted[1..]);
      InsertAdds(Start, f, sorted[1..]);
      ApartInserted(f, sorted[0], sorted[1..]);
      ApartSwaps(f, sorted[0]);
      DisjointRest(sorted[0], Insert(Start, f, sorted[1..]));
    }
    DisjointRest(f, sorted);
  }

  lemma DisjointRest(f: Finding, rest: seq<Finding>)
    ensures Disjoint([f] + rest) <==> Disjoint(rest) && forall g | g in rest :: Apart(f, g)
  {
    hide Apart;
    var all := [f] + rest;
    if Disjoint(all) {
      forall i | 0 <= i < |rest|
        ensures Apart(f, rest[i])
      {
        assert all[0] == f && all[i + 1] == rest[i];
      }
      forall i, j | 0 <= i < j < |rest|
        ensures Apart(rest[i], rest[j])
      {
        assert all[i + 1] == rest[i] && all[j + 1] == rest[j];
      }
    }
  }

  lemma ApartSwaps(f: Finding, g: Finding)
    ensures Apart(f, g) <==> Apart(g, f)
  {
  }

  lemma ApartInserted(f: Finding, g: Finding, sorted: seq<Finding>)
    requires Apart(f, g) && forall h | h in sorted :: Apart(g, h)
    requires multiset(Insert(Start, f, sorted)) == multiset(sorted) + multiset{f}
    ensures forall h | h in Insert(Start, f, sorted) :: Apart(g, h)
  {
    hide Apart, Insert;
    ApartSwaps(f, g);
    forall h | h in Insert(Start, f, sorted)
      ensures Apart(g, h)
    {
      assert h in multiset(Insert(Start, f, sorted));
    }
  }

  lemma {:induction false} SortDisjoint(findings: seq<Finding>)
    requires Disjoint(findings)
    ensures Disjoint(Sort(Start, findings))
  {
    hide Insert;
    if findings != [] {
      var front, f := findings[..|findings| - 1], findings[|findings| - 1];
      SortDisjoint(front);
      SortMembers(Start, front);
      forall g | g in Sort(Start, front)
        ensures Apart(f, g)
      {
        var i :| 0 <= i < |front| && front[i] == g;
        assert Apart(findings[i], findings[|findings| - 1]);
      }
      InsertDisjoint(f, Sort(Start, front));
    }
  }

  // ---- Right to left equals left to right

  lemma {:induction false} TagOfFinding(findings: seq<Finding>, f: Finding)
    requires Disjoint(findings) && f in findings
    requires forall g | g in findings :: g.start < g.end
    ensures TagAt(findings, f.start) == Tag(f)
  {
    if findings[0].start != f.start {
      TagOfFinding(findings[1..], f);
    } else {
      ApartMembers(findings, f, findings[0]);
    }
  }

  lemma {:induction false} NoTag(findings: seq<Finding>, k: nat)
    requires forall g | g in findings :: g.start != k
    ensures TagAt(findings, k) == ""
  {
    if findings != [] {
      NoTag(findings[1..], k);
    }
  }

  /** A stretch without findings is copied. */
  lemma {:induction false} RenderedPlain(text: string, findings: seq<Finding>, m: nat, n: nat)
    requires m <= n <= |text|
    requires forall k | m <= k < n :: !Covered(findings, k)
    ensures Rendered(text, findings, n) == Rendered(text, findings, m) + text[m..n]
  {
    hide Covered;
    if m == n {
      assert Rendered(text, findings, m) + text[m..m] == Rendered(text, findings, m);
    } else {
      RenderedPlain(text, findings, m, n - 1);
      assert text[m..n] == text[m..n - 1] + [text[n - 1]];
    }
  }

  lemma PieceOfFinding(text: string, findings: seq<Finding>, f: Finding, k: nat)
    requires Disjoint(findings) && AllInside(findings, |text|) && f in findings
    requires f.start <= k < f.end && k < |text|
    ensures Piece(text, findings, k) == if k == f.start then Tag(f) else ""
  {
    hide TagAt, Disjoint, Tag;
    assert Covered(findings, k);
    if k == f.start {
      TagOfFinding(findings, f);
    } else {
      forall g | g in findings
        ensures g.start != k
      {
        ApartMembers(findings, f, g);
      }
      NoTag(findings, k);
    }
  }

  /** A finding contributes its tag and nothing else. */
  lemma {:induction false} RenderedFinding(text: string, findings: seq<Finding>, f: Finding, n: nat)
    requires Disjoint(findings) && AllInside(findings, |text|) && f in findings
    requires f.start < n <= f.end && f.end <= |text|
    ensures Rendered(text, findings, n) == Rendered(text, findings, f.start) + Tag(f)
  {
    hide Piece, Disjoint, AllInside, Tag;
    PieceOfFinding(text, findings, f, n - 1);
    if n > f.start + 1 {
      RenderedFinding(text, findings, f, n - 1);
      assert Rendered(text, findings, n - 1) + "" == Rendered(text, findings, n - 1);
    }
  }

  lemma ApartMembers(findings: seq<Finding>, f: Finding, g: Finding)
    requires Disjoint(findings) && f in findings && g in findings
    ensures f == g || Apart(f, g)
  {
    var i :| 0 <= i < |findings| && findings[i] == f;
    var j :| 0 <= j < |findings| && findings[j] == g;
    assert i < j ==> Apart(findings[i], findings[j]);
    assert j < i ==> Apart(findings[j], findings[i]);
  }

  /** Masking findings that end by `n` leaves everything from `n` on alone. */
  lemma {:induction false} MaskAllLocal(text: string, tail: string, sorted: seq<Finding>)
    requires Disjoint(sorted) && Descending(Start, sorted) && AllInside(sorted, |text|)
    ensures MaskAll(text + tail, sorted) == MaskAll(text, sorted) + tail
    decreases |sorted|
  {
    if sorted != [] {
      var f := sorted[0];
      assert f in sorted;
      assert Mask(text + tail, f) == Mask(text, f) + tail;
      RestBefore(sorted);
      MaskAllLocal(Mask(text, f), tail, sorted[1..]);
    }
  }

  /** In descending order all others end where the first starts. */
  lemma RestBefore(sorted: seq<Finding>)
    requires sorted != [] && Disjoint(sorted) && Descending(Start, sorted)
    requires forall g | g in sorted :: g.start < g.end
    ensures AllInside(sorted[1..], sorted[0].start)
    ensures Disjoint(sorted[1..]) && Descending(Start, sorted[1..])
  {
    forall g | g in sorted[1..]
      ensures Inside(g, sorted[0].start)
    {
      var i :| 0 <= i < |sorted| - 1 && sorted[1..][i] == g;
      assert Apart(sorted[0], sorted[i + 1]) && sorted[0] in sorted && sorted[i + 1] in sorted;
    }
  }

  /** `sorted` are the findings before position `n`, which no finding crosses. */
  predicate Before(findings: seq<Finding>, sorted: seq<Finding>, n: nat) {
    && (forall g | g in sorted :: g in findings && g.end <= n)
    && (forall g | g in findings :: g in sorted || n <= g.start)
  }

  lemma {:induction false} MaskedPrefix(text: string, findings: seq<Finding>, sorted: seq<Finding>, n: nat)
    requires n <= |text| && Disjoint(findings) && AllInside(findings, |text|)
    requires Disjoint(sorted) && Descending(Start, sorted) && Before(findings, sorted, n)
    ensures MaskAll(text[..n], sorted) == Rendered(text, findings, n)
    decreases |sorted|
  {
    hide Rendered, Disjoint, Descending, Mask, Tag;
    if sorted == [] {
      UncoveredBetween(findings, 0, n);
      RenderedPlain(text, findings, 0, n);
      NothingRendered(text, findings);
      assert "" + text[0..n] == text[..n];
    } else {
      var f := sorted[0];
      assert f in sorted && f in findings && Inside(f, |text|);
      RestBefore(sorted);
      BeforeFirst(findings, sorted, n);
      MaskedPrefix(text, findings, sorted[1..], f.start);
      RenderedUpTo(text, findings, f, n);
      MaskUpTo(text, f, n);
      MaskAllLocal(text[..f.start], Tag(f) + text[f.end..n], sorted[1..]);
    }
  }

  lemma RenderedUpTo(text: string, findings: seq<Finding>, f: Finding, n: nat)
    requires Disjoint(findings) && AllInside(findings, |text|) && f in findings && f.end <= n <= |text|
    requires forall g | g in findings :: g.end <= f.end || n <= g.start
    ensures Rendered(text, findings, n) == Rendered(text, findings, f.start) + (Tag(f) + text[f.end..n])
  {
    hide Rendered, Disjoint, Tag;
    RenderedFinding(text, findings, f, f.end);
    UncoveredBetween(findings, f.end, n);
    RenderedPlain(text, findings, f.end, n);
  }

  lemma MaskUpTo(text: string, f: Finding, n: nat)
    requires f.start < f.end <= n <= |text|
    ensures Mask(text[..n], f) == text[..f.start] + (Tag(f) + text[f.end..n])
  {
    hide Tag;
  }

  lemma NothingRendered(text: string, findings: seq<Finding>)
    ensures Rendered(text, findings, 0) == ""
  {
  }

  lemma UncoveredBetween(findings: seq<Finding>, m: nat, n: nat)
    requires forall g | g in findings :: g.end <= m || n <= g.start
    ensures forall k | m <= k < n :: !Covered(findings, k)
  {
  }

  lemma BeforeFirst(findings: seq<Finding>, sorted: seq<Finding>, n: nat)
    requires sorted != [] && Disjoint(sorted) && Descending(Start, sorted) && Before(findings, sorted, n)
    requires forall g | g in sorted :: g.start < g.end
    ensures Before(findings, sorted[1..], sorted[0].start)
    ensures forall g | g in findings :: g.end <= sorted[0].end || n <= g.start
  {
    RestBefore(sorted);
    assert sorted == [sorted[0]] + sorted[1..];
  }

  /** Masking right to left gives the left-to-right rendering, in whatever order the findings came. */
  lemma MaskedIsRendered(text: string, findings: seq<Finding>)
    requires Disjoint(findings) && AllInside(findings, |text|)
    ensures Masked(text, findings) == Rendered(text, findings, |text|)
  {
    hide Rendered, Sort, Disjoint, Descending;
    SortMembers(Start, findings);
    SortPermutes(Start, findings);
    SortDisjoint(findings);
    MaskedPrefix(text, findings, Sort(Start, findings), |text|);
    assert text[..|text|] == text;
  }

  // ---- Which characters survive

  /** A character of the masked text: one of the original, by its position, or one of a tag. */
  datatype Cell = Own(k: nat) | Put(c: char)

  function Source(n: nat): (cells: seq<Cell>)
    ensures |cells| == n && forall k | 0 <= k < n :: cells[k] == Own(k)
  {
    seq(n, k requires 0 <= k < n => Own(k))
  }

  function TagCells(f: Finding): (cells: seq<Cell>)
    ensures |cells| == |Tag(f)| && forall i | 0 <= i < |cells| :: cells[i] == Put(Tag(f)[i])
  {
    seq(|Tag(f)|, i requires 0 <= i < |Tag(f)| => Put(Tag(f)[i]))
  }

  function MaskCells(cells: seq<Cell>, f: Finding): seq<Cell> {
    Replace(cells, f.start, f.end, TagCells(f))
  }

  function MaskAllCells(cells: seq<Cell>, findings: seq<Finding>): seq<Cell>
    decreases |findings|
  {
    if findings == [] then cells else MaskAllCells(MaskCells(cells, findings[0]), findings[1..])
  }

  /** The masked text with its provenance. */
  function MaskedCells(n: nat, findings: seq<Finding>): seq<Cell> {
    MaskAllCells(Source(n), Sort(Start, findings))
  }

  predicate Within(cells: seq<Cell>, n: nat) {
    forall i | 0 <= i < |cells| && cells[i].Own? :: cells[i].k < n
  }

  function Shown(text: string, cells: seq<Cell>): (s: string)
    requires Within(cells, |text|)
    ensures |s| == |cells|
    ensures forall i | 0 <= i < |cells| :: s[i] == if cells[i].Own? then text[cells[i].k] else cells[i].c
  {
    seq(|cells|, i requires 0 <= i < |cells| => if cells[i].Own? then text[cells[i].k] else cells[i].c)
  }

  lemma ShownMask(text: string, cells: seq<Cell>, f: Finding)
    requires Within(cells, |text|)
    ensures Within(MaskCells(cells, f), |text|)
    ensures Shown(text, MaskCells(cells, f)) == Mask(Shown(text, cells), f)
  {
  }

  lemma {:induction false} ShownMaskAll(text: string, cells: seq<Cell>, findings: seq<Finding>)
    requires Within(cells, |text|)
    ensures Within(MaskAllCells(cells, findings), |text|)
    ensures Shown(text, MaskAllCells(cells, findings)) == MaskAll(Shown(text, cells), findings)
    decreases |findings|
  {
    hide Within, MaskCells, Mask;
    if findings != [] {
      ShownMask(text, cells, findings[0]);
      ShownMaskAll(text, MaskCells(cells, findings[0]), findings[1..]);
    }
  }

  /** The cells are the masked text. */
  lemma CellsAreMasked(text: string, findings: seq<Finding>)
    ensures Within(MaskedCells(|text|, findings), |text|)
    ensures Shown(text, MaskedCells(|text|, findings)) == Masked(text, findings)
  {
    hide MaskAll, MaskAllCells, Sort;
    assert Shown(text, Source(|text|)) == text;
    ShownMaskAll(text, Source(|text|), Sort(Start, findings));
  }

  // ---- Exactly which characters survive

  /** Whether what stands at position `p` outlasts all cuts; a cut before it moves it by the tag put in. */
  predicate Survives(p: nat, sorted: seq<Finding>)
    requires forall f | f in sorted :: f.start < f.end
    decreases |sorted|
  {
    sorted == []
    || var f := sorted[0];
       if p < f.start then Survives(p, sorted[1..])
       else p >= f.end && Survives(p - (f.end - f.start) + |Tag(f)|, sorted[1..])
  }

  /** Character `k` stands at position `p` and nowhere else. */
  predicate StandsAt(cells: seq<Cell>, k: nat, p: nat) {
    p < |cells| && forall i | 0 <= i < |cells| :: cells[i] == Own(k) <==> i == p
  }

  lemma MaskMoves(cells: seq<Cell>, f: Finding, k: nat, p: nat)
    requires StandsAt(cells, k, p) && f.start < f.end
    ensures p < f.start ==> StandsAt(MaskCells(cells, f), k, p)
    ensures f.start <= p < f.end ==> Own(k) !in MaskCells(cells, f)
    ensures p >= f.end ==> StandsAt(MaskCells(cells, f), k, p - (f.end - f.start) + |Tag(f)|)
  {
    hide Tag;
    var after, from, to := MaskCells(cells, f), Cut(cells, f.start), Cut(cells, f.end);
    forall i | 0 <= i < |after|
      ensures i < from ==> after[i] == cells[i]
      ensures from <= i < from + |Tag(f)| ==> after[i].Put?
      ensures i >= from + |Tag(f)| ==> after[i] == cells[i - from - |Tag(f)| + to]
    {
    }
  }

  lemma {:induction false} GoneStaysGone(cells: seq<Cell>, sorted: seq<Finding>, k: nat)
    requires Own(k) !in cells
    ensures Own(k) !in MaskAllCells(cells, sorted)
    decreases |sorted|
  {
    hide Tag;
    if sorted != [] {
      assert forall i | 0 <= i < |TagCells(sorted[0])| :: TagCells(sorted[0])[i].Put?;
      GoneStaysGone(MaskCells(cells, sorted[0]), sorted[1..], k);
    }
  }

  lemma {:induction false} StandingSurvives(cells: seq<Cell>, sorted: seq<Finding>, k: nat, p: nat)
    requires StandsAt(cells, k, p) && forall f | f in sorted :: f.start < f.end
    ensures Own(k) in MaskAllCells(cells, sorted) <==> Survives(p, sorted)
    decreases |sorted|
  {
    hide MaskCells, Tag;
    if sorted == [] {
      assert cells[p] == Own(k);
    } else {
      var f, rest := sorted[0], sorted[1..];
      assert f in sorted;
      MaskMoves(cells, f, k, p);
      if p < f.start {
        StandingSurvives(MaskCells(cells, f), rest, k, p);
      } else if p < f.end {
        GoneStaysGone(MaskCells(cells, f), rest, k);
      } else {
        StandingSurvives(MaskCells(cells, f), rest, k, p - (f.end - f.start) + |Tag(f)|);
      }
    }
  }

  lemma SortedInside(n: nat, findings: seq<Finding>)
    requires AllInside(findings, n)
    ensures AllInside(Sort(Start, findings), n) && Descending(Start, Sort(Start, findings))
    ensures forall k: nat :: Covered(Sort(Start, findings), k) <==> Covered(findings, k)
  {
    hide Sort;
    SortMembers(Start, findings);
    SortPermutes(Start, findings);
    forall k: nat
      ensures Covered(Sort(Start, findings), k) <==> Covered(findings, k)
    {
      assert forall f | f in findings :: f in Sort(Start, findings);
    }
  }

  /** For any findings inside the text, overlapping or not: which characters survive. */
  lemma SurvivesExactlyWhen(n: nat, findings: seq<Finding>, k: nat)
    requires AllInside(findings, n) && k < n
    ensures AllInside(Sort(Start, findings), n)
    ensures Own(k) in MaskedCells(n, findings) <==> Survives(k, Sort(Start, findings))
  {
    hide Sort, MaskAllCells, Survives;
    SortedInside(n, findings);
    StandingSurvives(Source(n), Sort(Start, findings), k, k);
  }

  // ---- Covered characters

  /** A tag that is put first and reached by a finding that ends later is no longer than what it replaces. */
  predicate NestedFit(sorted: seq<Finding>) {
    forall i, j | 0 <= i < j < |sorted| && sorted[i].start < sorted[j].end && sorted[i].end < sorted[j].end ::
      |Tag(sorted[i])| <= sorted[i].end - sorted[i].start
  }

  /** `p` is where a character has got to that was at `k`: unmoved, or behind every start still to come. */
  predicate HasMoved(p: nat, k: nat, sorted: seq<Finding>) {
    p == k || forall f | f in sorted :: f.start <= p
  }

  lemma MovedTail(p: nat, q: nat, k: nat, sorted: seq<Finding>)
    requires sorted != [] && Descending(Start, sorted) && HasMoved(p, k, sorted)
    requires q == p || q >= sorted[0].start
    ensures HasMoved(q, k, sorted[1..]) && Descending(Start, sorted[1..])
  {
    forall g | g in sorted[1..]
      ensures g in sorted && g.start <= sorted[0].start
    {
      var i :| 0 <= i < |sorted| - 1 && sorted[1..][i] == g;
      assert sorted[i + 1] == g && Start(sorted[0]) >= Start(sorted[i + 1]);
    }
  }

  lemma {:induction false} CoveredIsCut(p: nat, k: nat, sorted: seq<Finding>)
    requires Descending(Start, sorted) && NestedFit(sorted) && forall f | f in sorted :: f.start < f.end
    requires p <= k && Covered(sorted, k) && HasMoved(p, k, sorted)
    ensures !Survives(p, sorted)
    decreases |sorted|
  {
    hide Tag, HasMoved, Descending, NestedFit, Covered;
    CoveredSplit(sorted, k);
    var f, rest := sorted[0], sorted[1..];
    assert f in sorted && forall g | g in rest :: g in sorted;
    NestedTail(sorted, k);
    if p < f.start {
      HeadBehind(p, k, sorted);
      MovedTail(p, p, k, sorted);
      CoveredIsCut(p, k, rest);
    } else if p >= f.end {
      var q := p - (f.end - f.start) + |Tag(f)|;
      MovedTail(p, q, k, sorted);
      CoveredIsCut(q, k, rest);
    }
  }

  lemma CoveredSplit(sorted: seq<Finding>, k: nat)
    requires Covered(sorted, k)
    ensures sorted != [] && (sorted[0].start <= k < sorted[0].end || Covered(sorted[1..], k))
  {
    var g :| g in sorted && g.start <= k < g.end;
    assert sorted == [sorted[0]] + sorted[1..];
  }

  /** The rest nests, and the first tag fits if a finding of the rest covers a character behind the first's end. */
  lemma NestedTail(sorted: seq<Finding>, k: nat)
    requires sorted != [] && NestedFit(sorted) && forall f | f in sorted :: f.start < f.end
    ensures NestedFit(sorted[1..])
    ensures Covered(sorted[1..], k) && k >= sorted[0].end ==> |Tag(sorted[0])| <= sorted[0].end - sorted[0].start
  {
    hide Tag;
    var rest := sorted[1..];
    forall i, j | 0 <= i < j < |rest| && rest[i].start < rest[j].end && rest[i].end < rest[j].end
      ensures |Tag(rest[i])| <= rest[i].end - rest[i].start
    {
      assert rest[i] == sorted[i + 1] && rest[j] == sorted[j + 1];
    }
    if Covered(rest, k) && k >= sorted[0].end {
      var j :| 0 <= j < |rest| && rest[j].start <= k < rest[j].end;
      assert rest[j] == sorted[j + 1] && sorted[0] in sorted;
    }
  }

  /** A character before the first start has not moved, or all starts are behind it. */
  lemma HeadBehind(p: nat, k: nat, sorted: seq<Finding>)
    requires sorted != [] && HasMoved(p, k, sorted) && p < sorted[0].start
    ensures p == k
  {
    assert sorted[0] in sorted;
  }

  /** No covered character survives when every tag fits that a later-ending finding reaches. */
  lemma NoCoveredSurvives(n: nat, findings: seq<Finding>)
    requires AllInside(findings, n) && NestedFit(Sort(Start, findings))
    ensures forall k | Covered(findings, k) :: Own(k) !in MaskedCells(n, findings)
  {
    hide MaskedCells, Sort, NestedFit, Survives, Descending;
    SortedInside(n, findings);
    forall k: nat | Covered(findings, k)
      ensures Own(k) !in MaskedCells(n, findings)
    {
      CoveredInside(n, findings, k);
      SurvivesExactlyWhen(n, findings, k);
      CoveredIsCut(k, k, Sort(Start, findings));
    }
  }

  lemma CoveredInside(n: nat, findings: seq<Finding>, k: nat)
    requires AllInside(findings, n) && Covered(findings, k)
    ensures k < n && HasMoved(k, k, Sort(Start, findings))
  {
  }

  predicate TagsFit(findings: seq<Finding>) {
    forall f | f in findings :: |Tag(f)| <= f.end - f.start
  }

  /** Findings whose tags all fit, and disjoint findings, leave nothing for a tag to push out. */
  lemma FittingOrDisjointNest(n: nat, findings: seq<Finding>)
    requires AllInside(findings, n) && (TagsFit(findings) || Disjoint(findings))
    ensures NestedFit(Sort(Start, findings))
  {
    hide Sort, Tag;
    SortedInside(n, findings);
    SortMembers(Start, findings);
    if TagsFit(findings) {
      assert forall i | 0 <= i < |Sort(Start, findings)| :: Sort(Start, findings)[i] in findings;
    } else {
      SortDisjoint(findings);
      DisjointNest(Sort(Start, findings));
    }
  }

  lemma DisjointNest(sorted: seq<Finding>)
    requires Disjoint(sorted) && Descending(Start, sorted) && forall f | f in sorted :: f.start < f.end
    ensures NestedFit(sorted)
  {
    hide Tag;
    forall i, j | 0 <= i < j < |sorted|
      ensures sorted[j].end <= sorted[i].start
    {
      assert Apart(sorted[i], sorted[j]) && Start(sorted[i]) >= Start(sorted[j]);
      assert sorted[i] in sorted && sorted[j] in sorted;
    }
  }

  // ---- Where to look for a leak or a loss

  /** `y` is where some finding starts or ends. */
  predicate IsBoundary(findings: seq<Finding>, y: nat) {
    exists f | f in findings :: f.start == y || f.end == y
  }

  /** Between boundaries a later character survives whenever an earlier one does. */
  lemma {:induction false} LaterSurvives(p: nat, k: nat, sorted: seq<Finding>)
    requires Descending(Start, sorted) && forall f | f in sorted :: f.start < f.end
    requires !IsBoundary(sorted, k + 1) && HasMoved(p, k, sorted)
    ensures Survives(p, sorted) ==> Survives(p + 1, sorted)
    decreases |sorted|
  {
    hide Tag, HasMoved, Descending;
    if sorted != [] {
      var f, rest := sorted[0], sorted[1..];
      assert f in sorted && sorted == [f] + rest;
      assert f.start != k + 1 && f.end != k + 1;
      StartsBehind(p, k, sorted, f);
      var q := if p < f.start then p else if p >= f.end then p - (f.end - f.start) + |Tag(f)| else p;
      MovedTail(p, q, k, sorted);
      assert !IsBoundary(rest, k + 1);
      LaterSurvives(q, k, rest);
    }
  }

  lemma StartsBehind(p: nat, k: nat, sorted: seq<Finding>, f: Finding)
    requires HasMoved(p, k, sorted) && f in sorted
    ensures p == k || f.start <= p
  {
  }

  lemma NextSurvives(n: nat, findings: seq<Finding>, k: nat)
    requires AllInside(findings, n) && k + 1 < n && !IsBoundary(findings, k + 1)
    ensures Own(k) in MaskedCells(n, findings) ==> Own(k + 1) in MaskedCells(n, findings)
    ensures Covered(findings, k) <==> Covered(findings, k + 1)
  {
    hide MaskedCells, Sort, Survives, Descending;
    SortedInside(n, findings);
    SortMembers(Start, findings);
    SurvivesExactlyWhen(n, findings, k);
    SurvivesExactlyWhen(n, findings, k + 1);
    assert !IsBoundary(Sort(Start, findings), k + 1);
    LaterSurvives(k, k, Sort(Start, findings));
    forall f | f in findings
      ensures f.start <= k < f.end <==> f.start <= k + 1 < f.end
    {
      assert f.start != k + 1 && f.end != k + 1;
    }
  }

  /** A covered character that survives has one right before a boundary for company. */
  lemma {:induction false} LeakAtBoundary(n: nat, findings: seq<Finding>, k: nat) returns (y: nat)
    requires AllInside(findings, n) && Covered(findings, k) && k < n && Own(k) in MaskedCells(n, findings)
    ensures IsBoundary(findings, y) && 0 < y <= n && Covered(findings, y - 1) && Own(y - 1) in MaskedCells(n, findings)
    decreases n - k
  {
    hide MaskedCells, Covered, IsBoundary;
    if IsBoundary(findings, k + 1) {
      y := k + 1;
    } else {
      CoveredEnds(n, findings, k);
      NextSurvives(n, findings, k);
      y := LeakAtBoundary(n, findings, k + 1);
    }
  }

  lemma CoveredEnds(n: nat, findings: seq<Finding>, k: nat)
    requires AllInside(findings, n) && Covered(findings, k) && !IsBoundary(findings, k + 1)
    ensures k + 1 < n
  {
    var f :| f in findings && f.start <= k < f.end;
    assert f.end != k + 1;
  }

  /**
   For any findings: a covered character survives exactly when one does that stands right before the start
   or the end of a finding, so that as many characters need looking at as there are starts and ends.
   */
  lemma LeaksExactlyWhen(n: nat, findings: seq<Finding>)
    requires AllInside(findings, n)
    ensures AllInside(Sort(Start, findings), n)
    ensures (exists k: nat :: Covered(findings, k) && Own(k) in MaskedCells(n, findings))
       <==> (exists y: nat :: IsBoundary(findings, y) && 0 < y <= n && Covered(findings, y - 1)
                              && Survives(y - 1, Sort(Start, findings)))
  {
    hide MaskedCells, Sort, Survives, IsBoundary, Descending;
    SortedInside(n, findings);
    forall k: nat | k < n
      ensures Own(k) in MaskedCells(n, findings) <==> Survives(k, Sort(Start, findings))
    {
      SurvivesExactlyWhen(n, findings, k);
    }
    if k: nat :| Covered(findings, k) && Own(k) in MaskedCells(n, findings) {
      CoveredInside(n, findings, k);
      var y := LeakAtBoundary(n, findings, k);
      assert Survives(y - 1, Sort(Start, findings));
    }
  }

  /** An uncovered character that is lost has one right behind a boundary for company. */
  lemma {:induction false} LossAtBoundary(n: nat, findings: seq<Finding>, k: nat) returns (y: nat)
    requires AllInside(findings, n) && !Covered(findings, k) && k < n && Own(k) !in MaskedCells(n, findings)
    ensures IsBoundary(findings, y) && y < n && !Covered(findings, y) && Own(y) !in MaskedCells(n, findings)
    decreases k
  {
    hide MaskedCells, Covered, IsBoundary;
    FirstStays(n, findings);
    if k == 0 || IsBoundary(findings, k) {
      y := k;
    } else {
      NextSurvives(n, findings, k - 1);
      y := LossAtBoundary(n, findings, k - 1);
    }
  }

  /** The first character of the text stays unless a finding starts with it. */
  lemma FirstStays(n: nat, findings: seq<Finding>)
    requires AllInside(findings, n) && 0 < n
    ensures !IsBoundary(findings, 0) ==> Own(0) in MaskedCells(n, findings)
  {
    hide MaskedCells, Sort, Survives, Descending;
    SurvivesExactlyWhen(n, findings, 0);
    SortMembers(Start, findings);
    if !IsBoundary(findings, 0) {
      BeforeAll(0, Sort(Start, findings));
    }
  }

  lemma {:induction false} BeforeAll(p: nat, sorted: seq<Finding>)
    requires forall f | f in sorted :: p < f.start < f.end
    ensures Survives(p, sorted)
    decreases |sorted|
  {
    hide Tag;
    if sorted != [] {
      assert sorted[0] in sorted;
      BeforeAll(p, sorted[1..]);
    }
  }

  /** For any findings: an uncovered character is lost exactly when one is that stands at a start or an end. */
  lemma LosesExactlyWhen(n: nat, findings: seq<Finding>)
    requires AllInside(findings, n)
    ensures AllInside(Sort(Start, findings), n)
    ensures (exists k: nat :: k < n && !Covered(findings, k) && Own(k) !in MaskedCells(n, findings))
       <==> (exists y: nat :: IsBoundary(findings, y) && y < n && !Covered(findings, y)
                              && !Survives(y, Sort(Start, findings)))
  {
    hide MaskedCells, Sort, Survives, IsBoundary, Descending, Covered;
    SortedInside(n, findings);
    forall k: nat | k < n
      ensures Own(k) in MaskedCells(n, findings) <==> Survives(k, Sort(Start, findings))
    {
      SurvivesExactlyWhen(n, findings, k);
    }
    if k: nat :| k < n && !Covered(findings, k) && Own(k) !in MaskedCells(n, findings) {
      var y := LossAtBoundary(n, findings, k);
      assert !Survives(y, Sort(Start, findings));
    }
  }

  // ---- Two overlapping findings

  /** `g` is masked before `f`, which starts no later and reaches into `g`. */
  predicate Overlap(n: nat, f: Finding, g: Finding) {
    Inside(f, n) && Inside(g, n) && f.start <= g.start < f.end
  }

  /** Cutting from `s` to `e` after an earlier cut inside took `put`: its front goes, then what was behind it. */
  lemma ReplaceTwice<T>(items: seq<T>, s1: nat, e1: nat, put1: seq<T>, s: nat, e: nat, put: seq<T>)
    requires s <= s1 < e <= |items| && s1 < e1 <= |items|
    ensures Replace(Replace(items, s1, e1, put1), s, e, put)
         == items[..s] + put + (if e - s1 <= |put1| then put1[e - s1..] + items[e1..]
                                else items[Cut(items, e1 + (e - s1) - |put1|)..])
  {
    var once := Replace(items, s1, e1, put1);
    assert once == items[..s1] + put1 + items[e1..];
    assert once[..s] == items[..s];
    if e - s1 <= |put1| {
      assert once[e..] == put1[e - s1..] + items[e1..];
    } else {
      assert once[Cut(once, e)..] == items[Cut(items, e1 + (e - s1) - |put1|)..];
    }
  }

  /** The masked text of an overlapping pair in closed form: the tag masked first loses its front. */
  lemma OverlapMasked(text: string, f: Finding, g: Finding)
    requires Overlap(|text|, f, g)
    ensures var lost := f.end - g.start;
            MaskAll(text, [g, f])
            == text[..f.start] + Tag(f) + (if lost <= |Tag(g)| then Tag(g)[lost..] + text[g.end..]
                                           else text[Cut(text, g.end + lost - |Tag(g)|)..])
  {
    hide Replace, Tag;
    MaskPair(text, g, f);
    ReplaceTwice(text, g.start, g.end, Tag(g), f.start, f.end, Tag(f));
  }

  lemma MaskPair(text: string, a: Finding, b: Finding)
    ensures MaskAll(text, [a, b]) == Mask(Mask(text, a), b)
  {
    hide Mask;
    assert [a, b][1..] == [b] && [b][1..] == [];
    var once := Mask(text, a);
    assert MaskAll(once, [b]) == MaskAll(Mask(once, b), []);
  }

  /** Which characters of the text survive an overlapping pair. */
  lemma OverlapSurvivors(n: nat, f: Finding, g: Finding, k: nat)
    requires Overlap(n, f, g) && k < n
    ensures Own(k) in MaskAllCells(Source(n), [g, f])
       <==> k < f.start || (k >= g.end && k + |Tag(g)| >= f.end + (g.end - g.start))
  {
    hide MaskAllCells, Tag;
    StandingSurvives(Source(n), [g, f], k, k);
    assert [g, f][1..] == [f] && [f][1..] == [];
    var moved := if k >= g.end then k - (g.end - g.start) + |Tag(g)| else k;
    assert Survives(moved, [f]) <==> moved < f.start || moved >= f.end;
  }

  /** A covered character survives an overlapping pair exactly when the inner span ends first and its tag is longer. */
  lemma OverlapLeaksExactlyWhen(n: nat, findings: seq<Finding>, f: Finding, g: Finding)
    requires Overlap(n, f, g) && Sort(Start, findings) == [g, f]
    ensures (exists k :: Covered(findings, k) && Own(k) in MaskedCells(n, findings))
       <==> g.end < f.end && |Tag(g)| > g.end - g.start
  {
    hide MaskAllCells, Sort, Tag;
    SortMembers(Start, findings);
    forall k: nat
      ensures Covered(findings, k) <==> f.start <= k < f.end || g.start <= k < g.end
    {
      PairCovers(findings, f, g, k);
    }
    forall k: nat | k < n
      ensures Own(k) in MaskedCells(n, findings)
         <==> k < f.start || (k >= g.end && k + |Tag(g)| >= f.end + (g.end - g.start))
    {
      OverlapSurvivors(n, f, g, k);
    }
    if g.end < f.end && |Tag(g)| > g.end - g.start {
      assert Covered(findings, f.end - 1) && Own(f.end - 1) in MaskedCells(n, findings);
    }
  }

  lemma PairCovers(findings: seq<Finding>, f: Finding, g: Finding, k: nat)
    requires forall x :: x in [g, f] <==> x in findings
    ensures Covered(findings, k) <==> f.start <= k < f.end || g.start <= k < g.end
  {
    assert [g, f][0] in [g, f] && [g, f][1] in [g, f];
  }

  /** An uncovered character is lost exactly when the later end comes to lie before the outer one's. */
  lemma OverlapLosesExactlyWhen(n: nat, findings: seq<Finding>, f: Finding, g: Finding)
    requires Overlap(n, f, g) && Sort(Start, findings) == [g, f]
    ensures var end := if f.end >= g.end then f.end else g.end;
            (exists k: nat :: k < n && !Covered(findings, k) && Own(k) !in MaskedCells(n, findings))
            <==> end < n && end + |Tag(g)| < f.end + (g.end - g.start)
  {
    hide MaskAllCells, Sort, Tag;
    SortMembers(Start, findings);
    var end := if f.end >= g.end then f.end else g.end;
    forall k: nat
      ensures Covered(findings, k) <==> f.start <= k < f.end || g.start <= k < g.end
    {
      PairCovers(findings, f, g, k);
    }
    forall k: nat | k < n
      ensures Own(k) in MaskedCells(n, findings)
         <==> k < f.start || (k >= g.end && k + |Tag(g)| >= f.end + (g.end - g.start))
    {
      OverlapSurvivors(n, f, g, k);
    }
    if end < n && end + |Tag(g)| < f.end + (g.end - g.start) {
      assert !Covered(findings, end) && Own(end) !in MaskedCells(n, findings);
    }
  }

  /** An instance: a tag is lost and half a bracket of it stays, though nothing leaks. */
  lemma OverlapGarbles()
    ensures Masked("abcdefgh", [Finding("A", 0, 4), Finding("B", 2, 6)]) == "[A]]gh"
  {
    hide Sort, MaskAll;
    var f, g := Finding("A", 0, 4), Finding("B", 2, 6);
    SortPair(Start, g, f);
    OverlapMasked("abcdefgh", f, g);
    assert Tag(f) == "[A]" && Tag(g) == "[B]";
    assert "[B]"[2..] == "]" && "abcdefgh"[6..] == "gh";
  }

  /** An instance of the leak: characters 2 to 5 belong to a finding and survive. */
  lemma NestedFindingLeaks()
    ensures Masked("0123456789", [Finding("A", 0, 6), Finding("LOCATION", 1, 2)]) == "[A]TION]23456789"
    ensures exists k :: Covered([Finding("A", 0, 6), Finding("LOCATION", 1, 2)], k)
                        && Own(k) in MaskedCells(10, [Finding("A", 0, 6), Finding("LOCATION", 1, 2)])
  {
    NestedMasked();
    NestedLeaks();
  }

  lemma NestedMasked()
    ensures Masked("0123456789", [Finding("A", 0, 6), Finding("LOCATION", 1, 2)]) == "[A]TION]23456789"
  {
    hide Sort, MaskAll, Tag;
    var f, g := Finding("A", 0, 6), Finding("LOCATION", 1, 2);
    SortPair(Start, g, f);
    OverlapMasked("0123456789", f, g);
    NestedTags();
    NestedText();
  }

  lemma NestedTags()
    ensures Tag(Finding("A", 0, 6)) == "[A]"
    ensures var t := Tag(Finding("LOCATION", 1, 2)); |t| == 10 && t[5..] == "TION]"
  {
    assert "[" + "LOCATION" + "]" == "[LOCATION]";
    assert "[LOCATION]"[5..] == "TION]";
  }

  lemma NestedText()
    ensures "0123456789"[..0] + "[A]" + ("TION]" + "0123456789"[2..]) == "[A]TION]23456789"
  {
    assert "0123456789"[2..] == "23456789";
  }

  lemma NestedLeaks()
    ensures exists k :: Covered([Finding("A", 0, 6), Finding("LOCATION", 1, 2)], k)
                        && Own(k) in MaskedCells(10, [Finding("A", 0, 6), Finding("LOCATION", 1, 2)])
  {
    hide Sort, Covered, MaskedCells;
    var f, g := Finding("A", 0, 6), Finding("LOCATION", 1, 2);
    SortPair(Start, g, f);
    OverlapLeaksExactlyWhen(10, [f, g], f, g);
  }

  // ---- The code

  /** `_redact`. */
  method Redact(text: string, findings: seq<Finding>) returns (masked: string)
    ensures Within(MaskedCells(|text|, findings), |text|)
    ensures masked == Shown(text, MaskedCells(|text|, findings))
    ensures Disjoint(findings) && AllInside(findings, |text|) ==> masked == Rendered(text, findings, |text|)
    ensures AllInside(findings, |text|) ==>
              && AllInside(Sort(Start, findings), |text|)
              && forall k: nat | k < |text| ::
                   Own(k) in MaskedCells(|text|, findings) <==> Survives(k, Sort(Start, findings))
    ensures AllInside(findings, |text|) && NestedFit(Sort(Start, findings)) ==>
              forall k | Covered(findings, k) :: Own(k) !in MaskedCells(|text|, findings)
  {
    hide Rendered, Sort, Mask, NestedFit, Disjoint, Covered, MaskedCells, Within, Survives;
    masked := text;
    var sorted := Sort(Start, findings);
    for i := 0 to |sorted|
      invariant MaskAll(masked, sorted[i..]) == MaskAll(text, sorted)
    {
      assert sorted[i..][1..] == sorted[i + 1..];
      masked := Mask(masked, sorted[i]);
    }
    CellsAreMasked(text, findings);
    if Disjoint(findings) && AllInside(findings, |text|) {
      MaskedIsRendered(text, findings);
    }
    if AllInside(findings, |text|) {
      SortedInside(|text|, findings);
      forall k: nat | k < |text|
        ensures Own(k) in MaskedCells(|text|, findings) <==> Survives(k, Sort(Start, findings))
      {
        SurvivesExactlyWhen(|text|, findings, k);
      }
      if NestedFit(Sort(Start, findings)) {
        NoCoveredSurvives(|text|, findings);
      }
    }
  }

  // ---- Policies

  datatype PolicyResult = PolicyResult(text: string, redacted: bool, blocked: bool, localOnly: bool)

  /** A text that shows tags and uncovered characters of the original only. */
  ghost predicate OnlyUncovered(text: string, findings: seq<Finding>, shown: string) {
    exists cells :: Within(cells, |text|) && shown == Shown(text, cells)
                    && forall k | Covered(findings, k) :: Own(k) !in cells
  }

  lemma NothingCovered(text: string)
    ensures OnlyUncovered(text, [], text)
  {
    assert Shown(text, Source(|text|)) == text;
  }

  /** `apply_pii_policy` on a text with these findings; None for an unknown policy. */
  method ApplyPolicy(text: string, policy: string, findings: seq<Finding>) returns (r: Option<PolicyResult>)
    ensures r.None? <==> policy !in {"redact", "block", "allow-local-only"}
    ensures r.Some? && Disjoint(findings) && AllInside(findings, |text|) && !r.value.blocked && !r.value.localOnly
        ==> r.value.text == Rendered(text, findings, |text|)
    ensures r.Some? && AllInside(findings, |text|) && NestedFit(Sort(Start, findings))
        && !r.value.blocked && !r.value.localOnly
        ==> OnlyUncovered(text, findings, r.value.text)
    ensures r.Some? ==> (r.value.blocked <==> policy == "block" && findings != [])
    ensures r.Some? ==> (r.value.localOnly <==> policy == "allow-local-only")
    ensures r.Some? && r.value.blocked ==> r.value.text == ""
    ensures r.Some? && !r.value.blocked && !r.value.redacted ==> r.value.text == text
    ensures r.Some? ==> (r.value.redacted <==> policy == "redact" && findings != [])
  {
    hide Rendered, OnlyUncovered, MaskedCells, Within, NestedFit, Sort, AllInside, Covered, Survives;
    NothingMasked(text);
    NothingCovered(text);
    if policy !in {"redact", "block", "allow-local-only"} {
      return None;
    }
    if policy == "allow-local-only" {
      return Some(PolicyResult(text, false, false, true));
    }
    if policy == "block" {
      if findings != [] {
        return Some(PolicyResult("", false, true, false));
      }
      return Some(PolicyResult(text, false, false, false));
    }
    if findings == [] {
      return Some(PolicyResult(text, false, false, false));
    }
    var masked := Redact(text, findings);
    if AllInside(findings, |text|) && NestedFit(Sort(Start, findings)) {
      ShownUncovered(text, findings, MaskedCells(|text|, findings));
    }
    return Some(PolicyResult(masked, true, false, false));
  }

  lemma ShownUncovered(text: string, findings: seq<Finding>, cells: seq<Cell>)
    requires Within(cells, |text|) && forall k | Covered(findings, k) :: Own(k) !in cells
    ensures OnlyUncovered(text, findings, Shown(text, cells))
  {
  }

  lemma NothingMasked(text: string)
    ensures Rendered(text, [], |text|) == text
  {
    MaskedIsRendered(text, []);
    assert Sort(Start, []) == [];
  }
}
