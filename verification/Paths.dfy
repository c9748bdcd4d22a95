/**
 Well-formedness of the compiled graph, reachability, and which nodes lie on which paths.
 */
module Paths {
  import opened Wrappers
  import opened Recipes
  import opened Workflows
  import opened Wiring
  import opened Graph

  // ---- Layout

  lemma {:induction false} ColumnsGrow(r: Recipe, k: nat, l: nat)
    requires k < l < |r.steps|
    ensures ColumnOf(r, k) + Width(r.steps[k]) <= ColumnOf(r, l)
  {
    hide Width;
    assert r.steps[..l][..l - 1] == r.steps[..l - 1];
    WidthPositive(r.steps[l - 1]);
    if k < l - 1 {
      ColumnsGrow(r, k, l - 1);
    }
  }

  lemma WidthPositive(s: Step)
    ensures Width(s) >= 1
    ensures s.If? ==> Width(s) > |s.thenSteps| && Width(s) > |s.elseSteps|
  {
  }

  /** Two places never share a position. */
  lemma PositionsDistinct(r: Recipe, p: Place, q: Place)
    requires ValidPlace(r, p) && ValidPlace(r, q) && p != q
    ensures PositionOf(r, p) != PositionOf(r, q)
  {
    hide ColumnOf, Width;
    if p.Trig? && q.Trig? {
      TriggersDiffer();
    } else if !p.Trig? && !q.Trig? {
      WidthPositive(r.steps[p.k]);
      WidthPositive(r.steps[q.k]);
      if p.k < q.k {
        ColumnsGrow(r, p.k, q.k);
      } else if q.k < p.k {
        ColumnsGrow(r, q.k, p.k);
      }
    }
  }

  /** An edge leads strictly to the right. */
  lemma SuccessorGrows(r: Recipe, p: Place, o: nat)
    requires Accepted(r) && ValidPlace(r, p) && Successor(r, p, o).Some?
    ensures PositionOf(r, p).x < PositionOf(r, Successor(r, p, o).value).x
  {
    hide ColumnOf, Width, Accepted;
    if p.Trig? {
      AtLeastOneStep(r);
    } else {
      WidthPositive(r.steps[p.k]);
      if p.k + 1 < |r.steps| {
        ColumnsGrow(r, p.k, p.k + 1);
      }
    }
  }

  /** No two nodes of the workflow share a name or a position. */
  lemma NodesApart(r: Recipe, i: nat, j: nat)
    requires Accepted(r) && i < j < |Compiled(r).nodes|
    ensures Compiled(r).nodes[i].name != Compiled(r).nodes[j].name
    ensures Compiled(r).nodes[i].position != Compiled(r).nodes[j].position
  {
    hide Compiled, Accepted;
    var nodes := Compiled(r).nodes;
    CompiledNames(r);
    assert NodeNames(nodes)[i] != NodeNames(nodes)[j];
    assert NodeNames(nodes)[i] == nodes[i].name && NodeNames(nodes)[j] == nodes[j].name;
    var p := PlaceOfName(r, nodes[i].name);
    var q := PlaceOfName(r, nodes[j].name);
    hide *;
    NodeAtPlace(r, p);
    NodeAtPlace(r, q);
    FindDistinct(nodes, i);
    FindDistinct(nodes, j);
    PositionsDistinct(r, p, q);
  }

  /**
   Where the nodes stand: steps in columns of 240, a condition as wide as its longer branch, whose nodes stand in
   the following columns above and below it.
   */
  lemma Layout(r: Recipe, k: nat, j: nat)
    requires k < |r.steps|
    ensures PositionOf(r, Head(0)) == Position(240, 0) && PositionOf(r, Head(k)).y == 0
    ensures k + 1 < |r.steps| ==>
              PositionOf(r, Head(k + 1)).x - PositionOf(r, Head(k)).x
              == 240 + (if r.steps[k].Act? then 0
                        else if |r.steps[k].thenSteps| >= |r.steps[k].elseSteps| then 240 * |r.steps[k].thenSteps|
                        else 240 * |r.steps[k].elseSteps|)
    ensures r.steps[k].If? && j < |r.steps[k].thenSteps| ==>
              PositionOf(r, Then(k, j)) == Position(PositionOf(r, Head(k)).x + 240 * (j + 1), -160)
    ensures r.steps[k].If? && j < |r.steps[k].elseSteps| ==>
              PositionOf(r, Else(k, j)) == Position(PositionOf(r, Head(k)).x + 240 * (j + 1), 160)
  {
    assert r.steps[..0] == [];
    if k + 1 < |r.steps| {
      assert r.steps[..k + 1][..k] == r.steps[..k];
    }
  }

  /** The x coordinate of the node with this name. */
  function X(w: Workflow, name: string): int
    requires FindNode(w.nodes, name).Some?
  {
    FindNode(w.nodes, name).value.position.x
  }

  /** Each output has at most one target, which exists and lies further right: no run can loop. */
  lemma EdgesGoRight(r: Recipe, name: string, o: nat)
    requires Accepted(r)
    ensures var targets := Targets(Compiled(r).connections, name, o);
            |targets| <= 1 &&
            (targets != [] ==>
               && FindNode(Compiled(r).nodes, name).Some? && FindNode(Compiled(r).nodes, targets[0]).Some?
               && X(Compiled(r), name) < X(Compiled(r), targets[0]))
  {
    hide Compiled, Accepted, Successor, PositionOf, FindNode;
    if name in Compiled(r).connections {
      var p := PlaceOfName(r, name);
      TargetsAreSuccessors(r, p, o);
      NodeAtPlace(r, p);
      var next := Successor(r, p, o);
      if next.Some? {
        NodeAtPlace(r, next.value);
        SuccessorGrows(r, p, o);
      }
    }
  }

  // ---- Paths

  predicate Edge(w: Workflow, a: string, b: string) {
    exists o | 0 <= o < 2 :: b in Targets(w.connections, a, o)
  }

  predicate IsPath(w: Workflow, path: seq<string>) {
    path != [] && forall i | 0 <= i < |path| - 1 :: Edge(w, path[i], path[i + 1])
  }

  /** `q` is an edge away from `p`. */
  predicate Leads(r: Recipe, p: Place, q: Place)
    requires Accepted(r) && ValidPlace(r, p)
  {
    Successor(r, p, 0) == Some(q) || Successor(r, p, 1) == Some(q)
  }

  /** A path from place to place. */
  ghost predicate IsWalk(r: Recipe, walk: seq<Place>)
    requires Accepted(r)
  {
    && walk != []
    && (forall i | 0 <= i < |walk| :: ValidPlace(r, walk[i]))
    && forall i | 0 <= i < |walk| - 1 :: Leads(r, walk[i], walk[i + 1])
  }

  function WalkNames(r: Recipe, walk: seq<Place>): (names: seq<string>)
    requires forall i | 0 <= i < |walk| :: ValidPlace(r, walk[i])
    ensures |names| == |walk|
    ensures forall i | 0 <= i < |walk| :: names[i] == NameOf(r, walk[i])
  {
    seq(|walk|, i requires 0 <= i < |walk| => NameOf(r, walk[i]))
  }

  lemma EdgeOfLeads(r: Recipe, p: Place, q: Place)
    requires Accepted(r) && ValidPlace(r, p) && ValidPlace(r, q) && Leads(r, p, q)
    ensures Edge(Compiled(r), NameOf(r, p), NameOf(r, q))
  {
    hide Compiled, Accepted, Successor, NameOf, Targets;
    TargetsAreSuccessors(r, p, 0);
    TargetsAreSuccessors(r, p, 1);
    var o := if Successor(r, p, 0) == Some(q) then 0 else 1;
    assert NameOf(r, q) in Targets(Compiled(r).connections, NameOf(r, p), o);
  }

  lemma LeadsOfEdge(r: Recipe, p: Place, b: string) returns (q: Place)
    requires Accepted(r) && ValidPlace(r, p) && Edge(Compiled(r), NameOf(r, p), b)
    ensures ValidPlace(r, q) && NameOf(r, q) == b && Leads(r, p, q)
  {
    hide Compiled, Accepted, Successor, NameOf, Targets;
    var o :| 0 <= o < 2 && b in Targets(Compiled(r).connections, NameOf(r, p), o);
    TargetsAreSuccessors(r, p, o);
    q := Successor(r, p, o).value;
  }

  lemma WalkIsPath(r: Recipe, walk: seq<Place>)
    requires Accepted(r) && IsWalk(r, walk)
    ensures IsPath(Compiled(r), WalkNames(r, walk))
  {
    hide Compiled, Accepted, Leads, Edge, NameOf, ValidPlace;
    var names := WalkNames(r, walk);
    forall i | 0 <= i < |names| - 1
      ensures Edge(Compiled(r), names[i], names[i + 1])
    {
      EdgeOfLeads(r, walk[i], walk[i + 1]);
    }
  }

  /** A path that starts at a trigger runs through places only. */
  lemma {:induction false} PathIsWalk(r: Recipe, path: seq<string>) returns (walk: seq<Place>)
    requires Accepted(r) && IsPath(Compiled(r), path) && path[0] in Triggers(r.trigger)
    ensures IsWalk(r, walk) && WalkNames(r, walk) == path && walk[0].Trig?
    decreases |path|
  {
    hide Compiled, Accepted, Leads, Edge, Triggers;
    var n := |path| - 1;
    if n == 0 {
      var i :| 0 <= i < |Triggers(r.trigger)| && Triggers(r.trigger)[i] == path[0];
      walk := [Trig(i)];
    } else {
      hide NameOf, ValidPlace;
      var front := path[..n];
      walk := PathIsWalk(r, front);
      assert Edge(Compiled(r), front[n - 1], path[n]);
      assert WalkNames(r, walk)[n - 1] == NameOf(r, walk[n - 1]);
      var q := LeadsOfEdge(r, walk[n - 1], path[n]);
      walk := walk + [q];
    }
  }

  lemma WalkSnoc(r: Recipe, walk: seq<Place>, q: Place)
    requires Accepted(r) && IsWalk(r, walk) && ValidPlace(r, q) && Leads(r, walk[|walk| - 1], q)
    ensures IsWalk(r, walk + [q])
  {
    hide Accepted, Leads, ValidPlace;
  }

  lemma WalkInit(r: Recipe, walk: seq<Place>)
    requires Accepted(r) && IsWalk(r, walk) && |walk| > 1
    ensures IsWalk(r, walk[..|walk| - 1]) && Leads(r, walk[|walk| - 2], walk[|walk| - 1])
  {
    hide Accepted, Leads, ValidPlace;
    assert Leads(r, walk[|walk| - 2], walk[|walk| - 2 + 1]);
  }

  /** What an edge does to the step a place belongs to. */
  lemma LeadsWithinOrOn(r: Recipe, p: Place, q: Place)
    requires Accepted(r) && ValidPlace(r, p) && Leads(r, p, q)
    ensures !q.Trig?
    ensures p.Trig? ==> q == Head(0)
    ensures !p.Trig? ==> (q == Head(p.k + 1) || (q.k == p.k && !q.Head?))
  {
    hide Accepted;
  }

  // ---- Reachability

  /** Every place can be walked to from every trigger. */
  lemma WalkTo(r: Recipe, t: nat, p: Place) returns (walk: seq<Place>)
    requires Accepted(r) && t < |Triggers(r.trigger)| && ValidPlace(r, p) && !p.Trig?
    ensures IsWalk(r, walk) && walk[0] == Trig(t) && walk[|walk| - 1] == p
    decreases p.k, !p.Head?, if p.Head? then 0 else p.j
  {
    hide Accepted;
    var before: Place;
    if p == Head(0) {
      walk := [Trig(t)];
      before := Trig(t);
    } else {
      before := Predecessor(r, p);
      PredecessorLeads(r, p);
      walk := WalkTo(r, t, before);
    }
    hide Leads, Successor;
    WalkSnoc(r, walk, p);
    walk := walk + [p];
  }

  /** Some place an edge before `p`. */
  function Predecessor(r: Recipe, p: Place): (q: Place)
    requires ValidPlace(r, p) && !p.Trig? && p != Head(0)
    ensures ValidPlace(r, q) && !q.Trig?
    ensures q.k < p.k || (q.k == p.k && !p.Head? && (q.Head? || q.j < p.j))
  {
    match p
    case Head(k) =>
      var s := r.steps[k - 1];
      if s.If? && s.thenSteps != [] then Then(k - 1, |s.thenSteps| - 1) else Head(k - 1)
    case Then(k, j) => if j == 0 then Head(k) else Then(k, j - 1)
    case Else(k, j) => if j == 0 then Head(k) else Else(k, j - 1)
  }

  lemma PredecessorLeads(r: Recipe, p: Place)
    requires Accepted(r) && ValidPlace(r, p) && !p.Trig? && p != Head(0)
    ensures Leads(r, Predecessor(r, p), p)
  {
    hide Accepted;
  }

  /** Every step node is reachable from every trigger. */
  lemma EveryStepReachable(r: Recipe, trigger: string, name: string) returns (path: seq<string>)
    requires Accepted(r) && trigger in Triggers(r.trigger) && name in AllNames(r.steps)
    ensures IsPath(Compiled(r), path) && path[0] == trigger && path[|path| - 1] == name
  {
    hide Accepted, Compiled, AllNames, Triggers, StepNames, Leads, Edge, NodeName, ActionName, Successor, IsPath;
    var t :| 0 <= t < |Triggers(r.trigger)| && Triggers(r.trigger)[t] == trigger;
    var k := StepOfName(r.steps, name);
    var p := PlaceOfStepName(r, k, name);
    var walk := WalkTo(r, t, p);
    WalkIsPath(r, walk);
    path := WalkNames(r, walk);
  }

  // ---- What lies on every path

  /** A walk that has come to step `l` has passed the head of every step up to it. */
  lemma {:induction false} WalkCrossesHeads(r: Recipe, walk: seq<Place>, k: nat)
    requires Accepted(r) && IsWalk(r, walk) && walk[0].Trig?
    requires var last := walk[|walk| - 1]; !last.Trig? && k <= last.k
    ensures Head(k) in walk
    decreases |walk|
  {
    hide Accepted, Leads, ValidPlace;
    var n := |walk| - 1;
    var front, last, before := walk[..n], walk[n], walk[n - 1];
    WalkInit(r, walk);
    LeadsWithinOrOn(r, before, last);
    if last != Head(k) {
      WalkCrossesHeads(r, front, k);
      assert Head(k) in front;
    }
  }

  /** How much of each branch of step `k` a walk has covered: one branch from its start, the other not at all. */
  ghost predicate Covered(r: Recipe, walk: seq<Place>, k: nat, t: nat, e: nat)
    requires k < |r.steps| && r.steps[k].If?
  {
    && (forall j | 0 <= j < |r.steps[k].thenSteps| :: Then(k, j) in walk <==> j < t)
    && (forall j | 0 <= j < |r.steps[k].elseSteps| :: Else(k, j) in walk <==> j < e)
  }

  /** The extents of the branches of step `k` covered by a walk that ends at `last`. */
  predicate Extent(r: Recipe, k: nat, last: Place, t: nat, e: nat)
    requires k < |r.steps| && r.steps[k].If?
  {
    if last.Trig? || last.k < k || last == Head(k) then t == e == 0
    else if last.k > k then
      (t == |r.steps[k].thenSteps| && e == 0) || (t == 0 && e == |r.steps[k].elseSteps|)
    else if last.Then? then t == last.j + 1 && e == 0
    else t == 0 && last.Else? && e == last.j + 1
  }

  lemma {:induction false} WalkCovers(r: Recipe, walk: seq<Place>, k: nat) returns (t: nat, e: nat)
    requires Accepted(r) && IsWalk(r, walk) && walk[0].Trig? && k < |r.steps| && r.steps[k].If?
    ensures Covered(r, walk, k, t, e) && Extent(r, k, walk[|walk| - 1], t, e)
    decreases |walk|
  {
    hide Accepted, Leads, ValidPlace;
    var n := |walk| - 1;
    if n == 0 {
      t, e := 0, 0;
    } else {
      var front, last, before := walk[..n], walk[n], walk[n - 1];
      WalkInit(r, walk);
      t, e := WalkCovers(r, front, k);
      assert walk == front + [last];
      hide Covered, IsWalk;
      t, e := CoverOneMore(r, front, last, k, t, e);
    }
  }

  lemma CoverOneMore(r: Recipe, front: seq<Place>, last: Place, k: nat, t: nat, e: nat) returns (t': nat, e': nat)
    requires Accepted(r) && front != [] && k < |r.steps| && r.steps[k].If?
    requires ValidPlace(r, front[|front| - 1]) && Leads(r, front[|front| - 1], last)
    requires Covered(r, front, k, t, e) && Extent(r, k, front[|front| - 1], t, e)
    ensures Covered(r, front + [last], k, t', e') && Extent(r, k, last, t', e')
  {
    hide Accepted;
    var before := front[|front| - 1];
    LeadsWithinOrOn(r, before, last);
    t' := if last.Then? && last.k == k then last.j + 1 else t;
    e' := if last.Else? && last.k == k then last.j + 1 else e;
    ExtentMoves(r, before, last, k, t, e);
    hide Successor, Leads;
    assert forall x | x in front + [last] :: x in front || x == last;
    assert forall x | x in front :: x in front + [last];
    assert last in front + [last];
  }

  lemma ExtentMoves(r: Recipe, before: Place, last: Place, k: nat, t: nat, e: nat)
    requires Accepted(r) && k < |r.steps| && r.steps[k].If?
    requires ValidPlace(r, before) && Leads(r, before, last) && Extent(r, k, before, t, e)
    ensures last.Then? && last.k == k ==> t == last.j && e == 0 && Extent(r, k, last, t + 1, e)
    ensures last.Else? && last.k == k ==> t == 0 && e == last.j && Extent(r, k, last, t, e + 1)
    ensures !(last.Then? && last.k == k) && !(last.Else? && last.k == k) ==> Extent(r, k, last, t, e)
  {
    hide Accepted;
    LeadsWithinOrOn(r, before, last);
  }

  // ---- The same on paths of the workflow

  lemma NameOfInjective(r: Recipe, p: Place, q: Place)
    requires Accepted(r) && ValidPlace(r, p) && ValidPlace(r, q) && NameOf(r, p) == NameOf(r, q)
    ensures p == q
  {
    hide *;
    NodeAtPlace(r, p);
    NodeAtPlace(r, q);
    if p != q {
      PositionsDistinct(r, p, q);
    }
  }

  /** Membership of a name on a path is membership of its place on the walk. */
  lemma NameOnPath(r: Recipe, walk: seq<Place>, p: Place)
    requires Accepted(r) && IsWalk(r, walk) && ValidPlace(r, p)
    ensures NameOf(r, p) in WalkNames(r, walk) <==> p in walk
  {
    hide Accepted, NameOf, ValidPlace, Leads;
    if NameOf(r, p) in WalkNames(r, walk) {
      var i :| 0 <= i < |walk| && WalkNames(r, walk)[i] == NameOf(r, p);
      NameOfInjective(r, walk[i], p);
    }
    if p in walk {
      var i :| 0 <= i < |walk| && walk[i] == p;
      assert WalkNames(r, walk)[i] == NameOf(r, p);
    }
  }

  lemma LastPlace(r: Recipe, walk: seq<Place>, i: nat)
    requires Accepted(r) && IsWalk(r, walk) && i < |r.steps|
    requires WalkNames(r, walk)[|walk| - 1] in StepNames(r.steps[i])
    ensures var last := walk[|walk| - 1]; !last.Trig? && last.k == i
  {
    hide Accepted, NameOf, ValidPlace, Leads, StepNames;
    var p := PlaceOfStepName(r, i, WalkNames(r, walk)[|walk| - 1]);
    NameOfInjective(r, walk[|walk| - 1], p);
  }

  /** The node of a top-level step lies on every path from a trigger to that step or a later one. */
  lemma HeadOnEveryPath(r: Recipe, path: seq<string>, k: nat, i: nat)
    requires Accepted(r) && k <= i < |r.steps|
    requires IsPath(Compiled(r), path) && path[0] in Triggers(r.trigger) && path[|path| - 1] in StepNames(r.steps[i])
    ensures NodeName(r.steps[k]) in path
  {
    hide *;
    var walk := PathIsWalk(r, path);
    NonEmptyPath(r, path);
    LastPlace(r, walk, i);
    WalkCrossesHeads(r, walk, k);
    HeadPlace(r, k);
    NameOnPath(r, walk, Head(k));
  }

  lemma NonEmptyPath(r: Recipe, path: seq<string>)
    requires IsPath(Compiled(r), path)
    ensures path != []
  {
    hide Compiled;
  }

  lemma HeadPlace(r: Recipe, k: nat)
    requires k < |r.steps|
    ensures ValidPlace(r, Head(k)) && NameOf(r, Head(k)) == NodeName(r.steps[k])
  {
  }

  ghost predicate AllOn(path: seq<string>, branch: seq<ActionStep>) {
    forall j | 0 <= j < |branch| :: ActionName(branch[j]) in path
  }

  ghost predicate NoneOn(path: seq<string>, branch: seq<ActionStep>) {
    forall j | 0 <= j < |branch| :: ActionName(branch[j]) !in path
  }

  /** A path that has left a condition behind holds one of its branches whole and nothing of the other. */
  lemma OneBranchOnPath(r: Recipe, path: seq<string>, k: nat, i: nat)
    requires Accepted(r) && k < i < |r.steps| && r.steps[k].If?
    requires IsPath(Compiled(r), path) && path[0] in Triggers(r.trigger) && path[|path| - 1] in StepNames(r.steps[i])
    ensures (AllOn(path, r.steps[k].thenSteps) && NoneOn(path, r.steps[k].elseSteps))
         || (NoneOn(path, r.steps[k].thenSteps) && AllOn(path, r.steps[k].elseSteps))
  {
    hide Accepted, Compiled, Triggers, StepNames, ActionName, Leads, IsPath, NodeName;
    var walk := PathIsWalk(r, path);
    NonEmptyPath(r, path);
    LastPlace(r, walk, i);
    var t, e := WalkCovers(r, walk, k);
    forall j | 0 <= j < |r.steps[k].thenSteps|
      ensures ActionName(r.steps[k].thenSteps[j]) in path <==> j < t
    {
      NameOnPath(r, walk, Then(k, j));
    }
    forall j | 0 <= j < |r.steps[k].elseSteps|
      ensures ActionName(r.steps[k].elseSteps[j]) in path <==> j < e
    {
      NameOnPath(r, walk, Else(k, j));
    }
  }

  /**
   Scope of references: what a step refers to was declared by an earlier step; if at top
   level, its node lies on every path to the step, and if on a branch, on exactly the paths
   that hold its whole branch.
   */
  lemma ReferencesInScope(r: Recipe, i: nat, id: string, path: seq<string>) returns (k: nat)
    requires Accepted(r) && i < |r.steps| && id in r.steps[i].Refs()
    requires IsPath(Compiled(r), path) && path[0] in Triggers(r.trigger) && path[|path| - 1] in StepNames(r.steps[i])
    ensures k < i && id in r.steps[k].Ids()
    ensures id == r.steps[k].Id() ==> NodeName(r.steps[k]) in path
    ensures forall a | a in r.steps[k].Branches() && a.id == id ::
              ActionName(a) in path <==>
              if a in r.steps[k].thenSteps then AllOn(path, r.steps[k].thenSteps) else AllOn(path, r.steps[k].elseSteps)
  {
    k := DeclaringStep(r, i, id);
    hide Accepted, Compiled, Triggers, StepNames, ActionName, IsPath, NodeName, AllIds, Step.Refs;
    HeadOnEveryPath(r, path, k, i);
    if r.steps[k].If? {
      OneBranchOnPath(r, path, k, i);
      assert forall a | a in r.steps[k].Branches() :: a in r.steps[k].thenSteps || a in r.steps[k].elseSteps;
    }
  }

  lemma DeclaringStep(r: Recipe, i: nat, id: string) returns (k: nat)
    requires Accepted(r) && i < |r.steps| && id in r.steps[i].Refs()
    ensures k < i && id in r.steps[k].Ids()
  {
    assert OrderedAt(r.steps, i);
    k := StepOfId(r.steps[..i], id);
  }

  lemma {:induction false} StepOfId(steps: seq<Step>, id: string) returns (k: nat)
    requires id in AllIds(steps)
    ensures k < |steps| && id in steps[k].Ids()
  {
    hide Step.Ids;
    var n := |steps| - 1;
    if id in steps[n].Ids() {
      k := n;
    } else {
      k := StepOfId(steps[..n], id);
    }
  }
}
