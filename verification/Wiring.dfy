/** Looking up nodes and edges in a compiled workflow. */
module Wiring {
  import opened Wrappers
  import opened Recipes
  import opened Workflows
  import opened Naming
  import opened Patching

  /** Where output `o` of a node leads. */
  function Targets(links: Links, name: string, o: nat): seq<string> {
    if name in links && o < |links[name]| then links[name][o] else []
  }

  function Maybe(next: Option<string>): seq<string> {
    if next.Some? then [next.value] else []
  }

  /** What runs after step `k`. */
  function Following(steps: seq<Step>, k: nat, next: Option<string>): Option<string>
    requires k < |steps|
  {
    if k + 1 < |steps| then Some(NodeName(steps[k + 1])) else next
  }

  /** What runs after the action at `j` of a branch. */
  function After(branch: seq<ActionStep>, j: nat, next: Option<string>): Option<string>
    requires j < |branch|
  {
    if j + 1 < |branch| then Some(ActionName(branch[j + 1])) else next
  }

  // ---- Edges

  lemma OutTargets(name: string, first: Option<string>, second: Option<string>, o: nat)
    ensures Targets(OutLinks(name, first, second), name, o)
            == if o == 0 then Maybe(first) else if o == 1 then Maybe(second) else []
  {
  }

  lemma TargetsLeft(a: Links, b: Links, name: string, o: nat)
    requires name !in b
    ensures Targets(a + b, name, o) == Targets(a, name, o)
  {
  }

  lemma TargetsRight(a: Links, b: Links, name: string, o: nat)
    requires name !in a
    ensures Targets(a + b, name, o) == Targets(b, name, o)
  {
  }

  lemma {:induction false} BranchTargets(branch: seq<ActionStep>, next: Option<string>, j: nat, o: nat)
    requires j < |branch| && Distinct(ActionNames(branch))
    ensures Targets(BranchLinks(branch, next), ActionName(branch[j]), o)
         == if o == 0 then Maybe(After(branch, j, next)) else []
  {
    hide OutLinks, Targets, ActionName;
    var n := |branch| - 1;
    var last, name := ActionName(branch[n]), ActionName(branch[j]);
    var before := BranchLinks(branch[..n], Some(last));
    if j == n {
      OutTargets(last, next, None, o);
      BranchLinksKeys(branch[..n], Some(last));
      LastNameApart(branch);
      TargetsRight(before, OutLinks(last, next, None), name, o);
    } else {
      assert ActionNames(branch)[j] == name && ActionNames(branch)[n] == last;
      OutLinksKeys(last, next, None);
      TargetsLeft(before, OutLinks(last, next, None), name, o);
      DistinctNamesPrefix(branch, n);
      BranchTargets(branch[..n], Some(last), j, o);
    }
  }

  lemma OutLinksKeys(name: string, first: Option<string>, second: Option<string>)
    ensures OutLinks(name, first, second).Keys <= {name}
  {
  }

  /** The edges of one condition: into each branch, along it, and out of it. */
  lemma ConditionTargets(s: Step, next: Option<string>)
    requires s.If? && Distinct(StepNames(s))
    ensures Targets(StepLinks(s, next), NodeName(s), 0) == Maybe(Entry(s.thenSteps, next))
    ensures Targets(StepLinks(s, next), NodeName(s), 1) == Maybe(Entry(s.elseSteps, next))
    ensures forall o: nat | o >= 2 :: Targets(StepLinks(s, next), NodeName(s), o) == []
  {
    hide BranchLinks, OutLinks, Distinct;
    var name := NodeName(s);
    var out := OutLinks(name, Entry(s.thenSteps, next), Entry(s.elseSteps, next));
    var t, e := BranchLinks(s.thenSteps, next), BranchLinks(s.elseSteps, next);
    StepNamesApart(s);
    BranchLinksKeys(s.thenSteps, next);
    BranchLinksKeys(s.elseSteps, next);
    forall o: nat
      ensures Targets(out + t + e, name, o) == Targets(out, name, o)
    {
      TargetsLeft(out + t, e, name, o);
      TargetsLeft(out, t, name, o);
    }
    forall o: nat
      ensures Targets(out, name, o)
              == if o == 0 then Maybe(Entry(s.thenSteps, next))
                 else if o == 1 then Maybe(Entry(s.elseSteps, next))
                 else []
    {
      OutTargets(name, Entry(s.thenSteps, next), Entry(s.elseSteps, next), o);
    }
  }

  lemma ThenTargets(s: Step, next: Option<string>, j: nat, o: nat)
    requires s.If? && Distinct(StepNames(s)) && j < |s.thenSteps|
    ensures Targets(StepLinks(s, next), ActionName(s.thenSteps[j]), o)
         == if o == 0 then Maybe(After(s.thenSteps, j, next)) else []
  {
    hide BranchLinks, OutLinks, Distinct, After;
    var name := ActionName(s.thenSteps[j]);
    var out := OutLinks(NodeName(s), Entry(s.thenSteps, next), Entry(s.elseSteps, next));
    var t, e := BranchLinks(s.thenSteps, next), BranchLinks(s.elseSteps, next);
    StepNamesApart(s);
    assert ActionNames(s.thenSteps)[j] == name;
    OutLinksKeys(NodeName(s), Entry(s.thenSteps, next), Entry(s.elseSteps, next));
    BranchLinksKeys(s.elseSteps, next);
    TargetsLeft(out + t, e, name, o);
    TargetsRight(out, t, name, o);
    BranchTargets(s.thenSteps, next, j, o);
  }

  lemma ElseTargets(s: Step, next: Option<string>, j: nat, o: nat)
    requires s.If? && Distinct(StepNames(s)) && j < |s.elseSteps|
    ensures Targets(StepLinks(s, next), ActionName(s.elseSteps[j]), o)
         == if o == 0 then Maybe(After(s.elseSteps, j, next)) else []
  {
    hide BranchLinks, OutLinks, Distinct, After;
    var name := ActionName(s.elseSteps[j]);
    var out := OutLinks(NodeName(s), Entry(s.thenSteps, next), Entry(s.elseSteps, next));
    var t, e := BranchLinks(s.thenSteps, next), BranchLinks(s.elseSteps, next);
    StepNamesApart(s);
    assert ActionNames(s.elseSteps)[j] == name;
    OutLinksKeys(NodeName(s), Entry(s.thenSteps, next), Entry(s.elseSteps, next));
    BranchLinksKeys(s.thenSteps, next);
    TargetsRight(out + t, e, name, o);
    BranchTargets(s.elseSteps, next, j, o);
  }

  /** The node names of a recipe are distinct and none is a trigger's. */
  ghost predicate NamesOk(steps: seq<Step>) {
    Distinct(AllNames(steps)) && SCHEDULE !in AllNames(steps) && MANUAL !in AllNames(steps)
  }

  lemma NamesOkInit(steps: seq<Step>)
    requires steps != [] && NamesOk(steps)
    ensures NamesOk(steps[..|steps| - 1]) && Distinct(StepNames(steps[|steps| - 1]))
    ensures SetOf(StepNames(steps[|steps| - 1])) !! SetOf(AllNames(steps[..|steps| - 1])) + {SCHEDULE, MANUAL}
  {
    hide StepNames, Distinct;
    var n := |steps| - 1;
    DistinctAppend(AllNames(steps[..n]), StepNames(steps[n]));
  }

  /** In the whole graph a step's nodes have the edges of that step alone. */
  lemma {:induction false} StepTargets(trigger: Trigger, steps: seq<Step>, next: Option<string>, k: nat, name: string,
                                       o: nat)
    requires k < |steps| && NamesOk(steps) && name in StepNames(steps[k])
    ensures Targets(AllLinks(trigger, steps, next), name, o)
         == Targets(StepLinks(steps[k], Following(steps, k, next)), name, o)
  {
    hide *;
    var n := |steps| - 1;
    var last := Some(NodeName(steps[n]));
    var before := AllLinks(trigger, steps[..n], last);
    AllLinksLast(trigger, steps, next);
    NamesOkInit(steps);
    FollowingInit(steps, k, next);
    if k == n {
      AllLinksKeys(trigger, steps[..n], last);
      assert name in SetOf(StepNames(steps[n]));
      TargetsRight(before, StepLinks(steps[n], next), name, o);
    } else {
      NameInAll(steps[..n], k, name);
      StepLinksKeys(steps[n], next);
      TargetsLeft(before, StepLinks(steps[n], next), name, o);
      StepTargets(trigger, steps[..n], last, k, name, o);
    }
  }

  lemma FollowingInit(steps: seq<Step>, k: nat, next: Option<string>)
    requires k < |steps|
    ensures var n := |steps| - 1;
            Following(steps, k, next) == if k == n then next else Following(steps[..n], k, Some(NodeName(steps[n])))
  {
  }

  lemma AllLinksLast(trigger: Trigger, steps: seq<Step>, next: Option<string>)
    requires steps != []
    ensures var n := |steps| - 1;
            AllLinks(trigger, steps, next) == AllLinks(trigger, steps[..n], Some(NodeName(steps[n])))
               + StepLinks(steps[n], next)
  {
    hide StepLinks;
  }

  lemma {:induction false} NameInAll(steps: seq<Step>, k: nat, name: string)
    requires k < |steps| && name in StepNames(steps[k])
    ensures name in AllNames(steps)
  {
    hide StepNames;
    if k < |steps| - 1 {
      NameInAll(steps[..|steps| - 1], k, name);
    }
  }

  function First(steps: seq<Step>, next: Option<string>): Option<string> {
    if steps == [] then next else Some(NodeName(steps[0]))
  }

  /** A trigger leads to the first step. */
  lemma {:induction false} TriggerTargets(trigger: Trigger, steps: seq<Step>, next: Option<string>, name: string,
                                          o: nat)
    requires NamesOk(steps) && name in Triggers(trigger)
    ensures Targets(AllLinks(trigger, steps, next), name, o) == if o == 0 then Maybe(First(steps, next)) else []
  {
    hide StepLinks, NamesOk;
    if steps == [] {
      hide OutLinks;
      OutTargets(SCHEDULE, next, None, o);
      OutTargets(MANUAL, next, None, o);
      OutLinksKeys(SCHEDULE, next, None);
      OutLinksKeys(MANUAL, next, None);
      TriggersDiffer();
    } else {
      var n := |steps| - 1;
      NamesOkInit(steps);
      StepLinksKeys(steps[n], next);
      TargetsLeft(AllLinks(trigger, steps[..n], Some(NodeName(steps[n]))), StepLinks(steps[n], next), name, o);
      TriggerTargets(trigger, steps[..n], Some(NodeName(steps[n])), name, o);
    }
  }

  lemma TriggersDiffer()
    ensures SCHEDULE != MANUAL
  {
    assert SCHEDULE[0] != MANUAL[0];
  }

  // ---- Nodes

  function NodeNames(nodes: seq<Node>): (names: seq<string>)
    ensures |names| == |nodes|
    ensures forall i | 0 <= i < |nodes| :: names[i] == nodes[i].name
  {
    seq(|nodes|, i requires 0 <= i < |nodes| => nodes[i].name)
  }

  function FindNode(nodes: seq<Node>, name: string): Option<Node> {
    if nodes == [] then None
    else if nodes[0].name == name then Some(nodes[0])
    else FindNode(nodes[1..], name)
  }

  lemma {:induction false} FindDistinct(nodes: seq<Node>, i: nat)
    requires i < |nodes| && Distinct(NodeNames(nodes))
    ensures FindNode(nodes, nodes[i].name) == Some(nodes[i])
  {
    if i > 0 {
      assert NodeNames(nodes)[0] != NodeNames(nodes)[i];
      forall a, b | 0 <= a < b < |nodes[1..]|
        ensures NodeNames(nodes[1..])[a] != NodeNames(nodes[1..])[b]
      {
        assert NodeNames(nodes)[a + 1] != NodeNames(nodes)[b + 1];
      }
      FindDistinct(nodes[1..], i - 1);
    }
  }

  lemma StepNodeNames(s: Step, names: map<string, string>, column: nat)
    ensures NodeNames(StepNodes(s, names, column)) == StepNames(s)
  {
    hide *;
    if s.Act? {
      ActNodeNames(s, names, column);
    } else {
      IfNodeNames(s, names, column);
    }
  }

  lemma ActNodeNames(s: Step, names: map<string, string>, column: nat)
    requires s.Act?
    ensures NodeNames(StepNodes(s, names, column)) == StepNames(s)
  {
    hide HttpNodeOf;
    HttpName(s.step, names, At(column, 0));
    assert ActionNames(s.Branches()) == [];
  }

  lemma IfNodeNames(s: Step, names: map<string, string>, column: nat)
    requires s.If?
    ensures NodeNames(StepNodes(s, names, column)) == StepNames(s)
  {
    hide NodeName, ActionName, BranchNodes, ActionNames, IfNodeOf, NodeNames;
    var head := [IfNodeOf(s, names, At(column, 0))];
    var a, b := BranchNodes(s.thenSteps, names, column, -160), BranchNodes(s.elseSteps, names, column, 160);
    IfName(s, names, At(column, 0));
    OneNodeName(head[0]);
    BranchNodeNames(s.thenSteps, names, column, -160);
    BranchNodeNames(s.elseSteps, names, column, 160);
    NodeNamesAppend(head, a);
    NodeNamesAppend(head + a, b);
    ActionNamesBranches(s);
    assert [NodeName(s)] + ActionNames(s.thenSteps) + ActionNames(s.elseSteps)
        == [NodeName(s)] + (ActionNames(s.thenSteps) + ActionNames(s.elseSteps));
  }

  lemma OneNodeName(node: Node)
    ensures NodeNames([node]) == [node.name]
  {
  }

  lemma BranchNodeNames(branch: seq<ActionStep>, names: map<string, string>, column: nat, row: int)
    ensures NodeNames(BranchNodes(branch, names, column, row)) == ActionNames(branch)
  {
    hide ActionName, HttpNodeOf;
    var nodes := BranchNodes(branch, names, column, row);
    forall i | 0 <= i < |branch|
      ensures nodes[i].name == ActionName(branch[i])
    {
      HttpName(branch[i], names, At(column + 1 + i, row));
    }
  }

  lemma HttpName(a: ActionStep, names: map<string, string>, position: Position)
    ensures HttpNodeOf(a, names, position).name == ActionName(a)
  {
  }

  lemma IfName(s: Step, names: map<string, string>, position: Position)
    requires s.If?
    ensures IfNodeOf(s, names, position).name == NodeName(s)
  {
  }

  lemma {:induction false} AllNodeNames(steps: seq<Step>, names: map<string, string>)
    ensures NodeNames(Nodes(steps, names)) == AllNames(steps)
  {
    hide *;
    NodesUnfold(steps, names);
    if steps == [] {
      NoNodeNames();
    } else {
      var n := |steps| - 1;
      AllNodeNames(steps[..n], names);
      StepNodeNames(steps[n], names, Columns(steps[..n]) + 1);
      NodeNamesAppend(Nodes(steps[..n], names), StepNodes(steps[n], names, Columns(steps[..n]) + 1));
    }
  }

  lemma NodesUnfold(steps: seq<Step>, names: map<string, string>)
    ensures steps == [] ==> Nodes(steps, names) == [] && AllNames(steps) == []
    ensures steps != [] ==>
              var init, last := steps[..|steps| - 1], steps[|steps| - 1];
              && Nodes(steps, names) == Nodes(init, names) + StepNodes(last, names, Columns(init) + 1)
              && AllNames(steps) == AllNames(init) + StepNames(last)
  {
    hide StepNodes, StepNames, Columns;
  }

  lemma NoNodeNames()
    ensures NodeNames([]) == []
  {
  }

  lemma {:induction false} StepNodesInNodes(steps: seq<Step>, names: map<string, string>, k: nat, node: Node)
    requires k < |steps| && node in StepNodes(steps[k], names, Columns(steps[..k]) + 1)
    ensures node in Nodes(steps, names)
  {
    hide StepNodes;
    var n := |steps| - 1;
    if k < n {
      assert steps[..n][..k] == steps[..k];
      StepNodesInNodes(steps[..n], names, k, node);
    }
  }

  lemma TriggerNodeNames(r: Recipe)
    ensures NodeNames(TriggerNodes(r)) == Triggers(r.trigger)
  {
  }

  /** Every node of a compiled recipe has a name of its own. */
  lemma CompiledNames(r: Recipe)
    requires Accepted(r)
    ensures NodeNames(Compiled(r).nodes) == Triggers(r.trigger) + AllNames(r.steps)
    ensures Distinct(NodeNames(Compiled(r).nodes)) && NamesOk(r.steps)
  {
    hide *;
    TriggerNodeNames(r);
    AllNodeNames(r.steps, Names(r.steps));
    NodeNamesAppend(TriggerNodes(r), Nodes(r.steps, Names(r.steps)));
    CompiledNodes(r);
    NamesAccepted(r);
    TriggersApart(r.trigger, r.steps);
  }

  lemma NamesAccepted(r: Recipe)
    requires Accepted(r)
    ensures NamesOk(r.steps)
  {
    hide StepsOk, AllNames, Distinct;
    NamesDistinct(r.steps);
  }

  lemma TriggersApart(trigger: Trigger, steps: seq<Step>)
    requires NamesOk(steps)
    ensures Distinct(Triggers(trigger) + AllNames(steps))
  {
    hide SetOf, AllNames;
    var names := AllNames(steps);
    TriggersDiffer();
    assert Distinct(Triggers(trigger)) && SetOf(Triggers(trigger)) <= {SCHEDULE, MANUAL};
    DistinctAppend(Triggers(trigger), names);
  }

  lemma CompiledNodes(r: Recipe)
    ensures Compiled(r).nodes == TriggerNodes(r) + Nodes(r.steps, Names(r.steps))
  {
    hide Nodes, Names, AllLinks, TriggerNodes;
  }

  lemma NodeNamesAppend(a: seq<Node>, b: seq<Node>)
    ensures NodeNames(a + b) == NodeNames(a) + NodeNames(b)
  {
  }

  lemma CompiledHasNodes(r: Recipe)
    ensures forall node | node in Nodes(r.steps, Names(r.steps)) :: node in Compiled(r).nodes
  {
    hide Nodes, Names, AllLinks, TriggerNodes;
  }

  /** The node of a step is found under its name. */
  lemma NodeFound(r: Recipe, k: nat, node: Node)
    requires Accepted(r) && k < |r.steps|
    requires node in StepNodes(r.steps[k], Names(r.steps), Columns(r.steps[..k]) + 1)
    ensures FindNode(Compiled(r).nodes, node.name) == Some(node)
  {
    hide *;
    CompiledNames(r);
    StepNodesInNodes(r.steps, Names(r.steps), k, node);
    CompiledHasNodes(r);
    var nodes := Compiled(r).nodes;
    var i :| 0 <= i < |nodes| && nodes[i] == node;
    FindDistinct(nodes, i);
  }
}
