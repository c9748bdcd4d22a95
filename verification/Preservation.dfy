/** The compiled workflow of an accepted recipe runs as the recipe means. */
module Preservation {
  import opened Wrappers
  import opened Text
  import opened Template
  import opened JsValue
  import opened Recipes
  import opened Workflows
  import opened Compiler
  import opened RecipeCompiler
  import opened Wiring
  import opened Execution
  import opened Evaluation
  import opened Simulation

  // ---- Texts

  lemma RefsInNames(r: Recipe, k: nat)
    requires Accepted(r) && k < |r.steps|
    ensures forall x | x in r.steps[k].Refs() :: x in Names(r.steps)
  {
    hide Names, AllIds;
    RefsKnown(r.steps, k);
    NamesOfPrefixConsistent(r.steps, k);
  }

  lemma ParamRefsIn(params: seq<(string, string)>, i: nat)
    requires i < |params|
    ensures forall x | x in References(Split(params[i].1)) :: x in TextRefs(Values(params))
  {
    hide *;
    ParamRefsSplit(params, i);
  }

  lemma KeysBraceFree(a: Action, i: nat)
    requires i < |a.Params()|
    ensures BraceFree(a.Params()[i].0)
  {
  }

  lemma ParamsOfAction(a: ActionStep, names: NameMap)
    requires ActionStepOk(a) && NamesBraceFree(names)
    requires forall x | x in TextRefs(Values(a.action.Params())) :: x in names
    ensures ParamsReady(a.action.Params(), names)
  {
    var params := a.action.Params();
    hide CheckText, References, Split, TextRefs, NamesBraceFree;
    forall i | 0 <= i < |params|
      ensures BraceFree(params[i].0) && TextReady(params[i].1, names)
    {
      KeysBraceFree(a.action, i);
      ParamRefsIn(params, i);
      assert params[i] in params;
    }
  }

  // ---- Nodes and edges

  lemma ActionNodeFound(r: Recipe, k: nat, a: ActionStep, position: Position)
    requires Accepted(r) && k < |r.steps|
    requires HttpNodeOf(a, Names(r.steps), position) in StepNodes(r.steps[k], Names(r.steps), Columns(r.steps[..k]) + 1)
    ensures exists p :: FindNode(Compiled(r).nodes, ActionName(a)) == Some(HttpNodeOf(a, Names(r.steps), p))
  {
    hide *;
    NodeFound(r, k, HttpNodeOf(a, Names(r.steps), position));
    HttpName(a, Names(r.steps), position);
  }

  /** The edge out of an action, from the edges of its step. */
  lemma ActionEdge(r: Recipe, k: nat, a: ActionStep, next: Option<string>)
    requires Accepted(r) && k < |r.steps| && ActionName(a) in StepNames(r.steps[k])
    requires Targets(StepLinks(r.steps[k], Following(r.steps, k, None)), ActionName(a), 0) == Maybe(next)
    ensures Targets(Compiled(r).connections, ActionName(a), 0) == Maybe(next)
  {
    hide *;
    CompiledNames(r);
    StepTargets(r.trigger, r.steps, None, k, ActionName(a), 0);
    CompiledLinks(r);
  }

  lemma CompiledLinks(r: Recipe)
    ensures Compiled(r).connections == AllLinks(r.trigger, r.steps, None)
  {
    hide AllLinks, Nodes, Names;
  }

  lemma StepNamesDistinct(r: Recipe, k: nat)
    requires Accepted(r) && k < |r.steps|
    ensures Distinct(StepNames(r.steps[k]))
  {
    hide *;
    OwnNamesApart(r, k, None);
  }

  // ---- One step

  lemma LoneActionReady(r: Recipe, k: nat)
    requires Accepted(r) && k < |r.steps| && r.steps[k].Act?
    ensures ActionReady(Compiled(r), r.steps[k].step, Names(r.steps), Following(r.steps, k, None))
  {
    hide *;
    var s, names, next := r.steps[k], Names(r.steps), Following(r.steps, k, None);
    var a := s.step;
    LoneActionFacts(r, k);
    AcceptedNamesBraceFree(r.steps);
    RefsInNames(r, k);
    OwnName(r.steps, k, 0);
    ParamsOfAction(a, names);
    OutTargets(ActionName(a), next, None, 0);
    ActionNodeFound(r, k, a, At(Columns(r.steps[..k]) + 1, 0));
    ActionEdge(r, k, a, next);
    ActionReadyFrom(Compiled(r), a, names, next);
  }

  lemma LoneActionFacts(r: Recipe, k: nat)
    requires Accepted(r) && k < |r.steps| && r.steps[k].Act?
    ensures var s, names, next := r.steps[k], Names(r.steps), Following(r.steps, k, None);
            var a := s.step;
            && Distinct(AllIds(r.steps)) && StepsOk(r.steps) && ActionStepOk(a)
            && s.Refs() == TextRefs(Values(a.action.Params()))
            && |s.Ids()| == 1 && s.Ids()[0] == a.id && StepNames(s)[0] == ActionName(a) && ActionName(a) in StepNames(s)
            && StepLinks(s, next) == OutLinks(ActionName(a), next, None)
            && HttpNodeOf(a, names, At(Columns(r.steps[..k]) + 1, 0)) in StepNodes(s, names, Columns(r.steps[..k]) + 1)
  {
    hide HttpNodeOf, TextRefs, Values, ActionStepOk, AllIds, OutLinks, Columns, Names, Ordered;
    assert StepOk(r.steps[k]);
    assert StepNames(r.steps[k])[0] == ActionName(r.steps[k].step);
  }

  lemma ActionReadyFrom(w: Workflow, a: ActionStep, names: NameMap, next: Option<string>)
    requires a.id in names && names[a.id] == ActionName(a) && ParamsReady(a.action.Params(), names)
    requires exists position :: FindNode(w.nodes, ActionName(a)) == Some(HttpNodeOf(a, names, position))
    requires Targets(w.connections, ActionName(a), 0) == Maybe(next)
    ensures ActionReady(w, a, names, next)
  {
    hide FindNode, Targets, HttpNodeOf, ParamsReady;
  }

  /** An action on a branch, given its edges within the condition. */
  lemma BranchActionReady(r: Recipe, k: nat, a: ActionStep, position: Position, next: Option<string>)
    requires Accepted(r) && k < |r.steps| && r.steps[k].If? && a in r.steps[k].Branches()
    requires HttpNodeOf(a, Names(r.steps), position) in StepNodes(r.steps[k], Names(r.steps), Columns(r.steps[..k]) + 1)
    requires Targets(StepLinks(r.steps[k], Following(r.steps, k, None)), ActionName(a), 0) == Maybe(next)
    ensures ActionReady(Compiled(r), a, Names(r.steps), next)
  {
    hide *;
    BranchActionFacts(r, k, a);
    AcceptedNamesBraceFree(r.steps);
    RefsInNames(r, k);
    ConditionRefs(r.steps[k]);
    OwnBranchNames(r.steps, k);
    ParamsOfAction(a, Names(r.steps));
    ActionNodeFound(r, k, a, position);
    ActionEdge(r, k, a, next);
    ActionReadyFrom(Compiled(r), a, Names(r.steps), next);
  }

  lemma BranchActionFacts(r: Recipe, k: nat, a: ActionStep)
    requires Accepted(r) && k < |r.steps| && r.steps[k].If? && a in r.steps[k].Branches()
    ensures Distinct(AllIds(r.steps)) && StepsOk(r.steps) && ActionStepOk(a)
    ensures ActionName(a) in StepNames(r.steps[k])
  {
    hide ActionStepOk, AllIds, Ordered, CheckText, ActionName, Distinct, ValidStepId;
    assert StepOk(r.steps[k]);
    var i :| 0 <= i < |r.steps[k].Branches()| && r.steps[k].Branches()[i] == a;
    assert StepNames(r.steps[k])[i + 1] == ActionName(a);
  }

  lemma ConditionNodeInStep(r: Recipe, k: nat)
    requires k < |r.steps| && r.steps[k].If?
    ensures var s, names, column := r.steps[k], Names(r.steps), Columns(r.steps[..k]) + 1;
            IfNodeOf(s, names, At(column, 0)) in StepNodes(s, names, column)
  {
    hide IfNodeOf, Names, Columns, BranchNodes, At;
    var s, names, column := r.steps[k], Names(r.steps), Columns(r.steps[..k]) + 1;
    assert StepNodes(s, names, column)[0] == IfNodeOf(s, names, At(column, 0));
  }

  lemma BranchNodeInStep(s: Step, names: NameMap, column: nat, j: nat, inThen: bool)
    requires s.If? && j < |if inThen then s.thenSteps else s.elseSteps|
    ensures HttpNodeOf((if inThen then s.thenSteps else s.elseSteps)[j], names,
                       At(column + 1 + j, if inThen then -160 else 160))
            in StepNodes(s, names, column)
  {
    hide *;
    BranchNodeAt(if inThen then s.thenSteps else s.elseSteps, names, column, if inThen then -160 else 160, j);
    BranchesInStep(s, names, column);
  }

  lemma BranchesInStep(s: Step, names: NameMap, column: nat)
    requires s.If?
    ensures forall n | n in BranchNodes(s.thenSteps, names, column, -160) :: n in StepNodes(s, names, column)
    ensures forall n | n in BranchNodes(s.elseSteps, names, column, 160) :: n in StepNodes(s, names, column)
  {
    hide HttpNodeOf, IfNodeOf, BranchNodes;
  }

  lemma BranchNodeAt(branch: seq<ActionStep>, names: NameMap, column: nat, row: int, j: nat)
    requires j < |branch|
    ensures HttpNodeOf(branch[j], names, At(column + 1 + j, row)) in BranchNodes(branch, names, column, row)
  {
    hide HttpNodeOf;
    assert BranchNodes(branch, names, column, row)[j] == HttpNodeOf(branch[j], names, At(column + 1 + j, row));
  }

  lemma ThenReadyToRun(r: Recipe, k: nat, j: nat)
    requires Accepted(r) && k < |r.steps| && r.steps[k].If? && j < |r.steps[k].thenSteps|
    ensures ActionReady(Compiled(r), r.steps[k].thenSteps[j], Names(r.steps),
                        After(r.steps[k].thenSteps, j, Following(r.steps, k, None)))
  {
    hide *;
    var s, next, column := r.steps[k], Following(r.steps, k, None), Columns(r.steps[..k]) + 1;
    InBranches(s);
    StepNamesDistinct(r, k);
    BranchNodeInStep(s, Names(r.steps), column, j, true);
    ThenTargets(s, next, j, 0);
    BranchActionReady(r, k, s.thenSteps[j], At(column + 1 + j, -160), After(s.thenSteps, j, next));
  }

  lemma ElseReadyToRun(r: Recipe, k: nat, j: nat)
    requires Accepted(r) && k < |r.steps| && r.steps[k].If? && j < |r.steps[k].elseSteps|
    ensures ActionReady(Compiled(r), r.steps[k].elseSteps[j], Names(r.steps),
                        After(r.steps[k].elseSteps, j, Following(r.steps, k, None)))
  {
    hide *;
    var s, next, column := r.steps[k], Following(r.steps, k, None), Columns(r.steps[..k]) + 1;
    InBranches(s);
    StepNamesDistinct(r, k);
    BranchNodeInStep(s, Names(r.steps), column, j, false);
    ElseTargets(s, next, j, 0);
    BranchActionReady(r, k, s.elseSteps[j], At(column + 1 + j, 160), After(s.elseSteps, j, next));
  }

  lemma InBranches(s: Step)
    requires s.If?
    ensures forall j | 0 <= j < |s.thenSteps| :: s.thenSteps[j] in s.Branches()
    ensures forall j | 0 <= j < |s.elseSteps| :: s.elseSteps[j] in s.Branches()
  {
    assert s.Branches() == s.thenSteps + s.elseSteps;
  }

  lemma BranchesReadyToRun(r: Recipe, k: nat)
    requires Accepted(r) && k < |r.steps| && r.steps[k].If?
    ensures BranchReadyToRun(Compiled(r), r.steps[k].thenSteps, Names(r.steps), Following(r.steps, k, None))
    ensures BranchReadyToRun(Compiled(r), r.steps[k].elseSteps, Names(r.steps), Following(r.steps, k, None))
  {
    hide ActionReady, Names, Accepted, Following, Compiled, After;
    var s, next := r.steps[k], Following(r.steps, k, None);
    forall j | 0 <= j < |s.thenSteps|
      ensures ActionReady(Compiled(r), s.thenSteps[j], Names(r.steps), After(s.thenSteps, j, next))
    {
      ThenReadyToRun(r, k, j);
    }
    forall j | 0 <= j < |s.elseSteps|
      ensures ActionReady(Compiled(r), s.elseSteps[j], Names(r.steps), After(s.elseSteps, j, next))
    {
      ElseReadyToRun(r, k, j);
    }
  }

  lemma ConditionTexts(r: Recipe, k: nat)
    requires Accepted(r) && k < |r.steps| && r.steps[k].If?
    ensures TextReady(r.steps[k].left, Names(r.steps)) && TextReady(r.steps[k].right, Names(r.steps))
    ensures r.steps[k].cid in Names(r.steps) && Names(r.steps)[r.steps[k].cid] == NodeName(r.steps[k])
  {
    hide *;
    ConditionFacts(r, k);
    AcceptedNamesBraceFree(r.steps);
    RefsInNames(r, k);
    ConditionRefs(r.steps[k]);
    OwnName(r.steps, k, 0);
    TextReadyFrom(r.steps[k].left, Names(r.steps));
    TextReadyFrom(r.steps[k].right, Names(r.steps));
  }

  lemma ConditionFacts(r: Recipe, k: nat)
    requires Accepted(r) && k < |r.steps| && r.steps[k].If?
    ensures Distinct(AllIds(r.steps)) && StepsOk(r.steps)
    ensures CheckText(r.steps[k].left) && CheckText(r.steps[k].right)
    ensures |r.steps[k].Ids()| > 0 && r.steps[k].Ids()[0] == r.steps[k].cid
    ensures StepNames(r.steps[k])[0] == NodeName(r.steps[k])
  {
    hide ActionStepOk, AllIds, Ordered, CheckText;
    assert StepOk(r.steps[k]);
    assert StepNames(r.steps[k])[0] == NodeName(r.steps[k]);
  }

  lemma TextReadyFrom(value: string, names: NameMap)
    requires CheckText(value) && NamesBraceFree(names) && forall x | x in References(Split(value)) :: x in names
    ensures TextReady(value, names)
  {
    hide CheckText, References, Split, NamesBraceFree;
  }

  lemma ConditionNodeFound(r: Recipe, k: nat)
    requires Accepted(r) && k < |r.steps| && r.steps[k].If?
    ensures exists p :: FindNode(Compiled(r).nodes, NodeName(r.steps[k]))
                        == Some(IfNodeOf(r.steps[k], Names(r.steps), p))
  {
    hide *;
    var position := At(Columns(r.steps[..k]) + 1, 0);
    ConditionNodeInStep(r, k);
    NodeFound(r, k, IfNodeOf(r.steps[k], Names(r.steps), position));
    IfName(r.steps[k], Names(r.steps), position);
  }

  lemma ConditionEdges(r: Recipe, k: nat)
    requires Accepted(r) && k < |r.steps| && r.steps[k].If?
    ensures var s, next := r.steps[k], Following(r.steps, k, None);
            && Targets(Compiled(r).connections, NodeName(s), 0) == Maybe(Entry(s.thenSteps, next))
            && Targets(Compiled(r).connections, NodeName(s), 1) == Maybe(Entry(s.elseSteps, next))
  {
    hide *;
    var s, next := r.steps[k], Following(r.steps, k, None);
    CompiledNames(r);
    CompiledLinks(r);
    StepNamesDistinct(r, k);
    ConditionTargets(s, next);
    OwnNodeName(s);
    StepTargets(r.trigger, r.steps, None, k, NodeName(s), 0);
    StepTargets(r.trigger, r.steps, None, k, NodeName(s), 1);
  }

  lemma OwnNodeName(s: Step)
    ensures NodeName(s) in StepNames(s)
  {
    assert StepNames(s)[0] == NodeName(s);
  }

  lemma CompiledStepReady(r: Recipe, k: nat)
    requires Accepted(r) && k < |r.steps|
    ensures StepReady(Compiled(r), r.steps[k], Names(r.steps), Following(r.steps, k, None))
  {
    hide ActionReady, BranchReadyToRun, TextReady, Names, FindNode, Targets, IfNodeOf, Following, Compiled, Entry,
         Accepted;
    if r.steps[k].Act? {
      LoneActionReady(r, k);
    } else {
      ConditionTexts(r, k);
      ConditionNodeFound(r, k);
      ConditionEdges(r, k);
      BranchesReadyToRun(r, k);
    }
  }

  lemma CompiledStepsReady(r: Recipe)
    requires Accepted(r)
    ensures StepsReady(Compiled(r), r.steps, Names(r.steps))
  {
    hide StepReady, Names, Compiled, Following, Accepted;
    forall k | 0 <= k < |r.steps|
      ensures StepReady(Compiled(r), r.steps[k], Names(r.steps), Following(r.steps, k, None))
    {
      CompiledStepReady(r, k);
    }
  }

  // ---- The whole run

  /** What the run of the workflow and the run of the recipe have in common at the end. */
  ghost predicate SameRun(run: Machine, meant: State, names: NameMap) {
    && Halted(run)
    && run.calls == meant.calls
    && run.ok == meant.ok
    && (run.ok ==> SameResults(meant.env, run.env, names))
  }

  /** The trigger hands its item to the first step. */
  lemma TriggerSim(world: World, r: Recipe, trigger: string, item: Value)
    requires Accepted(r) && trigger in Triggers(r.trigger)
    ensures var m := MachineStep(world, Compiled(r), Start(trigger, item));
            Matches(State(item, map[], [], true), m, Names(r.steps), First(r.steps, None))
  {
    TriggerFound(r, trigger);
    var node := FindNode(Compiled(r).nodes, trigger).value;
    var m := Start(trigger, item);
    TriggerEdge(r, trigger);
    TriggerResults(r, trigger, item);
    hide FindNode, Targets, Compiled, SameResults, Names, Accepted;
    StepOfLoneArrival(world, Compiled(r), m, trigger, item, node);
    AdvanceToNext(Compiled(r), m, trigger, 0, item, [], First(r.steps, None));
  }

  lemma TriggerEdge(r: Recipe, trigger: string)
    requires Accepted(r) && trigger in Triggers(r.trigger)
    ensures Targets(Compiled(r).connections, trigger, 0) == Maybe(First(r.steps, None))
  {
    hide *;
    CompiledNames(r);
    CompiledLinks(r);
    TriggerTargets(r.trigger, r.steps, None, trigger, 0);
  }

  lemma TriggerFound(r: Recipe, trigger: string)
    requires Accepted(r) && trigger in Triggers(r.trigger)
    ensures var node := FindNode(Compiled(r).nodes, trigger);
            node.Some? && (node.value.ScheduleTrigger? || node.value.Webhook?)
  {
    hide FindNode, Nodes, Names, AllLinks, Accepted;
    CompiledNames(r);
    var i :| 0 <= i < |Triggers(r.trigger)| && Triggers(r.trigger)[i] == trigger;
    TriggerNodeNames(r);
    assert Compiled(r).nodes[i] == TriggerNodes(r)[i];
    FindDistinct(Compiled(r).nodes, i);
  }

  lemma TriggerResults(r: Recipe, trigger: string, item: Value)
    requires Accepted(r) && trigger in Triggers(r.trigger)
    ensures SameResults(map[], map[trigger := item], Names(r.steps))
  {
    hide Names;
    NamesInjective(r.steps);
  }

  lemma FinalState(st: State, m: Machine, names: NameMap)
    requires Matches(st, m, names, None)
    ensures SameRun(m, st, names) && Halted(m)
  {
    hide SameResults;
  }

  /** The length of a run is bounded by the number of nodes. */
  lemma NodeCount(r: Recipe)
    ensures |Compiled(r).nodes| >= 1 + |AllIds(r.steps)|
  {
    AllNodeNames(r.steps, Names(r.steps));
  }

  /**
   For every accepted recipe, every trigger, every way the endpoints answer and every
   starting item, the workflow halts within as many node runs as it has nodes, having made
   exactly the calls of the recipe read step by step.
   */
  lemma CompiledRunIsTheRecipe(world: World, r: Recipe, trigger: string, item: Value, fuel: nat)
    requires Accepted(r)
    requires trigger in Triggers(r.trigger) && fuel >= |Compiled(r).nodes|
    ensures SameRun(RunMachine(world, Compiled(r), fuel, Start(trigger, item)), Interpret(world, AsEmitted, r, item),
                    Names(r.steps))
  {
    hide *;
    var w, names, m, st := Compiled(r), Names(r.steps), Start(trigger, item), State(item, map[], [], true);
    NodeCount(r);
    StartRuns(trigger, item);
    TriggerSim(world, r, trigger, item);
    RunOne(world, w, fuel, m);
    CompiledStepsReady(r);
    AcceptedParts(r);
    NamesInjective(r.steps);
    NoSteps(world, r, item);
    var after, left := StepsSim(world, w, names, r.steps, 0, st, MachineStep(world, w, m), fuel - 1);
    FinalState(RunSteps(world, AsEmitted, r.steps[0..], st), after, names);
    HaltedStays(world, w, left, after);
  }

  lemma StartRuns(trigger: string, item: Value)
    ensures !Halted(Start(trigger, item))
  {
  }

  lemma AcceptedParts(r: Recipe)
    requires Accepted(r)
    ensures Distinct(AllIds(r.steps)) && StepsOk(r.steps)
  {
    hide Distinct, AllIds, StepsOk;
  }

  lemma NoSteps(world: World, r: Recipe, item: Value)
    ensures AllIds(r.steps[..0]) == [] && r.steps[0..] == r.steps
    ensures Interpret(world, AsEmitted, r, item) == RunSteps(world, AsEmitted, r.steps, State(item, map[], [], true))
  {
  }
}
