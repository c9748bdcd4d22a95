/**
 The shape of a compiled workflow. Every node has a place in the recipe; the edges are
 the successor relation on places, and the layout is a function of the place.
 */
module Graph {
  import opened Wrappers
  import opened JsExpression
  import opened Recipes
  import opened Workflows
  import opened Patching
  import opened RecipeCompiler
  import opened Wiring
  import opened Preservation

  /** Where a node comes from: a trigger, a top-level step, or a step on a branch. */
  datatype Place = Trig(i: nat) | Head(k: nat) | Then(k: nat, j: nat) | Else(k: nat, j: nat)

  predicate ValidPlace(r: Recipe, p: Place) {
    match p
    case Trig(i) => i < |Triggers(r.trigger)|
    case Head(k) => k < |r.steps|
    case Then(k, j) => k < |r.steps| && r.steps[k].If? && j < |r.steps[k].thenSteps|
    case Else(k, j) => k < |r.steps| && r.steps[k].If? && j < |r.steps[k].elseSteps|
  }

  function NameOf(r: Recipe, p: Place): string
    requires ValidPlace(r, p)
  {
    match p
    case Trig(i) => Triggers(r.trigger)[i]
    case Head(k) => NodeName(r.steps[k])
    case Then(k, j) => ActionName(r.steps[k].thenSteps[j])
    case Else(k, j) => ActionName(r.steps[k].elseSteps[j])
  }

  function NextHead(r: Recipe, k: nat): Option<Place> {
    if k + 1 < |r.steps| then Some(Head(k + 1)) else None
  }

  /** Where output `o` of a place leads. */
  function Successor(r: Recipe, p: Place, o: nat): (next: Option<Place>)
    requires Accepted(r) && ValidPlace(r, p)
    ensures next.Some? ==> ValidPlace(r, next.value)
  {
    match p
    case Trig(_) => if o == 0 then Some(Head(0)) else None
    case Head(k) =>
      var s := r.steps[k];
      if s.Act? then if o == 0 then NextHead(r, k) else None
      else if o == 0 then if s.thenSteps != [] then Some(Then(k, 0)) else NextHead(r, k)
      else if o == 1 then if s.elseSteps != [] then Some(Else(k, 0)) else NextHead(r, k)
      else None
    case Then(k, j) =>
      if o != 0 then None else if j + 1 < |r.steps[k].thenSteps| then Some(Then(k, j + 1)) else NextHead(r, k)
    case Else(k, j) =>
      if o != 0 then None else if j + 1 < |r.steps[k].elseSteps| then Some(Else(k, j + 1)) else NextHead(r, k)
  }

  function ColumnOf(r: Recipe, k: nat): nat
    requires k < |r.steps|
  {
    Columns(r.steps[..k]) + 1
  }

  function PositionOf(r: Recipe, p: Place): Position
    requires ValidPlace(r, p)
  {
    match p
    case Trig(i) => Position(-400, if Triggers(r.trigger)[i] == SCHEDULE then 0 else 160)
    case Head(k) => At(ColumnOf(r, k), 0)
    case Then(k, j) => At(ColumnOf(r, k) + 1 + j, -160)
    case Else(k, j) => At(ColumnOf(r, k) + 1 + j, 160)
  }

  // ---- Edges and nodes by place

  function PlaceName(r: Recipe, p: Option<Place>): Option<string>
    requires p.Some? ==> ValidPlace(r, p.value)
  {
    if p.Some? then Some(NameOf(r, p.value)) else None
  }

  lemma PlaceInStep(r: Recipe, p: Place)
    requires ValidPlace(r, p) && !p.Trig?
    ensures NameOf(r, p) in StepNames(r.steps[p.k])
  {
    var s := r.steps[p.k];
    match p
    case Head(_) => OwnNodeName(s);
    case Then(_, j) => ActionNamesBranches(s); assert ActionNames(s.thenSteps)[j] == NameOf(r, p);
    case Else(_, j) => ActionNamesBranches(s); assert ActionNames(s.elseSteps)[j] == NameOf(r, p);
  }

  /** The successor of a place in terms of what follows in the recipe. */
  lemma SuccessorNames(r: Recipe, p: Place, o: nat)
    requires Accepted(r) && ValidPlace(r, p) && !p.Trig?
    ensures var s, next := r.steps[p.k], Following(r.steps, p.k, None);
            PlaceName(r, Successor(r, p, o))
            == match p
               case Head(_) =>
                 if o == 0 then (if s.Act? then next else Entry(s.thenSteps, next))
                 else if o == 1 && s.If? then Entry(s.elseSteps, next)
                 else None
               case Then(_, j) => if o == 0 then After(s.thenSteps, j, next) else None
               case Else(_, j) => if o == 0 then After(s.elseSteps, j, next) else None
  {
    hide Accepted, NodeName, ActionName;
  }

  lemma StepPlaceTargets(r: Recipe, p: Place, o: nat)
    requires Accepted(r) && ValidPlace(r, p) && !p.Trig?
    ensures Targets(StepLinks(r.steps[p.k], Following(r.steps, p.k, None)), NameOf(r, p), o)
            == Maybe(PlaceName(r, Successor(r, p, o)))
  {
    hide Accepted, StepLinks, Targets, NodeName, ActionName, Successor, PlaceName, Distinct, StepNames, After, Entry,
         Following;
    var s, next := r.steps[p.k], Following(r.steps, p.k, None);
    StepNamesDistinct(r, p.k);
    SuccessorNames(r, p, o);
    match p
    case Head(k) =>
      if s.Act? {
        ActionTargets(s, next, o);
      } else {
        ConditionTargets(s, next);
      }
    case Then(k, j) => ThenTargets(s, next, j, o);
    case Else(k, j) => ElseTargets(s, next, j, o);
  }

  lemma ActionTargets(s: Step, next: Option<string>, o: nat)
    requires s.Act?
    ensures Targets(StepLinks(s, next), NodeName(s), o) == if o == 0 then Maybe(next) else []
  {
    hide OutLinks, Targets;
    OutTargets(ActionName(s.step), next, None, o);
  }

  /** The edges of the workflow are the successor relation. */
  lemma TargetsAreSuccessors(r: Recipe, p: Place, o: nat)
    requires Accepted(r) && ValidPlace(r, p)
    ensures Targets(Compiled(r).connections, NameOf(r, p), o) == Maybe(PlaceName(r, Successor(r, p, o)))
  {
    CompiledNames(r);
    CompiledLinks(r);
    if p.Trig? {
      hide Accepted, AllLinks, Targets, NamesOk, Compiled;
      TriggerTargets(r.trigger, r.steps, None, NameOf(r, p), o);
      AtLeastOneStep(r);
    } else {
      StepPlaceTargets(r, p, o);
      hide Accepted, AllLinks, Targets, NamesOk, Compiled, Successor, NameOf, StepNames, StepLinks;
      PlaceInStep(r, p);
      StepTargets(r.trigger, r.steps, None, p.k, NameOf(r, p), o);
    }
  }

  lemma AtLeastOneStep(r: Recipe)
    requires Accepted(r)
    ensures r.steps != []
  {
  }

  lemma StepNodeAt(r: Recipe, p: Place) returns (node: Node)
    requires ValidPlace(r, p) && !p.Trig?
    ensures node in StepNodes(r.steps[p.k], Names(r.steps), ColumnOf(r, p.k))
    ensures node.name == NameOf(r, p) && node.position == PositionOf(r, p)
  {
    hide Names, StepNodes, HttpNodeOf, IfNodeOf, NodeName, ActionName, Columns;
    var s, names, column := r.steps[p.k], Names(r.steps), ColumnOf(r, p.k);
    if p.Head? {
      node := if s.Act? then HttpNodeOf(s.step, names, At(column, 0)) else IfNodeOf(s, names, At(column, 0));
      HeadNode(r, p.k);
    } else {
      var a := if p.Then? then s.thenSteps[p.j] else s.elseSteps[p.j];
      node := HttpNodeOf(a, names, PositionOf(r, p));
      BranchNodeInStep(s, names, column, p.j, p.Then?);
      BranchNode(r, p);
    }
  }

  lemma HeadNode(r: Recipe, k: nat)
    requires k < |r.steps|
    ensures var s, names, column := r.steps[k], Names(r.steps), ColumnOf(r, k);
            var node := if s.Act? then HttpNodeOf(s.step, names, At(column, 0)) else IfNodeOf(s, names, At(column, 0));
            node in StepNodes(s, names, column) && node.name == NodeName(s) && node.position == At(column, 0)
  {
    hide Names, PrintBody, PrintParam, RightOperand;
    if r.steps[k].If? {
      ConditionNodeInStep(r, k);
    }
  }

  lemma BranchNode(r: Recipe, p: Place)
    requires ValidPlace(r, p) && (p.Then? || p.Else?)
    ensures var s := r.steps[p.k];
            var a := if p.Then? then s.thenSteps[p.j] else s.elseSteps[p.j];
            NameOf(r, p) == ActionName(a)
            && HttpNodeOf(a, Names(r.steps), PositionOf(r, p)).name == ActionName(a)
            && HttpNodeOf(a, Names(r.steps), PositionOf(r, p)).position == PositionOf(r, p)
  {
    hide Names, PrintBody, ActionName;
  }

  /** Every place has its node, at the position of the place. */
  lemma NodeAtPlace(r: Recipe, p: Place)
    requires Accepted(r) && ValidPlace(r, p)
    ensures var node := FindNode(Compiled(r).nodes, NameOf(r, p)); node.Some? && node.value.position == PositionOf(r, p)
  {
    hide *;
    if p.Trig? {
      TriggerNodeAt(r, p);
    } else {
      PlaceStep(r, p);
      var node := StepNodeAt(r, p);
      ColumnOfStep(r, p.k);
      NodeFound(r, p.k, node);
    }
  }

  lemma TriggerNodeAt(r: Recipe, p: Place)
    requires Accepted(r) && ValidPlace(r, p) && p.Trig?
    ensures var node := FindNode(Compiled(r).nodes, NameOf(r, p)); node.Some? && node.value.position == PositionOf(r, p)
  {
    hide FindNode, Nodes, Names, AllLinks, Accepted, NamesOk, Distinct, AllNames;
    CompiledNames(r);
    TriggersDiffer();
    assert Compiled(r).nodes[p.i] == TriggerNodes(r)[p.i];
    FindDistinct(Compiled(r).nodes, p.i);
  }

  lemma PlaceStep(r: Recipe, p: Place)
    requires ValidPlace(r, p) && !p.Trig?
    ensures p.k < |r.steps|
  {
  }

  lemma ColumnOfStep(r: Recipe, k: nat)
    requires k < |r.steps|
    ensures ColumnOf(r, k) == Columns(r.steps[..k]) + 1
  {
  }

  /** Every node name of a step is the name of a place in it. */
  lemma PlaceOfStepName(r: Recipe, k: nat, name: string) returns (p: Place)
    requires k < |r.steps| && name in StepNames(r.steps[k])
    ensures ValidPlace(r, p) && NameOf(r, p) == name && !p.Trig? && p.k == k
  {
    hide ActionName, NodeName, StepNames;
    var s := r.steps[k];
    var i :| 0 <= i < |StepNames(s)| && StepNames(s)[i] == name;
    if i == 0 {
      FirstStepName(s);
      p := Head(k);
    } else {
      StepNamesLength(s);
      BranchIdAndName(s, i - 1);
      if i - 1 < |s.thenSteps| {
        p := Then(k, i - 1);
      } else {
        p := Else(k, i - 1 - |s.thenSteps|);
      }
    }
  }

  lemma FirstStepName(s: Step)
    ensures |StepNames(s)| > 0 && StepNames(s)[0] == NodeName(s)
  {
    hide NodeName;
  }

  lemma StepNamesLength(s: Step)
    ensures |StepNames(s)| == 1 + |s.Branches()|
  {
    hide NodeName;
  }

  lemma {:induction false} StepOfName(steps: seq<Step>, name: string) returns (k: nat)
    requires name in AllNames(steps)
    ensures k < |steps| && name in StepNames(steps[k])
  {
    hide StepNames;
    var n := |steps| - 1;
    if name in StepNames(steps[n]) {
      k := n;
    } else {
      k := StepOfName(steps[..n], name);
    }
  }

  /** Every node of the workflow, and every source of an edge, is some place. */
  lemma PlaceOfName(r: Recipe, name: string) returns (p: Place)
    requires Accepted(r)
    requires name in NodeNames(Compiled(r).nodes) || name in Compiled(r).connections
    ensures ValidPlace(r, p) && NameOf(r, p) == name
  {
    hide AllLinks, Nodes, AllNames, Accepted, Names, Compiled;
    CompiledNames(r);
    CompiledLinks(r);
    AllLinksKeys(r.trigger, r.steps, None);
    if name in AllNames(r.steps) {
      var k := StepOfName(r.steps, name);
      p := PlaceOfStepName(r, k, name);
    } else {
      var i :| 0 <= i < |Triggers(r.trigger)| && Triggers(r.trigger)[i] == name;
      p := Trig(i);
    }
  }
}
