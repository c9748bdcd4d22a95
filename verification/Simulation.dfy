/**
 Meaning preservation: n8n walking the compiled workflow makes the calls the recipe
 means, in the same order, stops where it stops, and holds the same results.
 */
module Simulation {
  import opened Wrappers
  import opened Text
  import opened Template
  import opened JsExpression
  import opened JsValue
  import opened Recipes
  import opened Workflows
  import opened Naming
  import opened Compiler
  import opened Wiring
  import opened Execution
  import opened Evaluation

  function Waiting(next: Option<string>, item: Value): seq<Arrival> {
    if next.Some? then [Arrival(next.value, item)] else []
  }

  /** The machine stands in front of `next` in the state the recipe is in. */
  ghost predicate Matches(st: State, m: Machine, names: NameMap, next: Option<string>) {
    && m.ok == st.ok
    && m.calls == st.calls
    && (st.ok ==> SameResults(st.env, m.env, names) && m.queue == Waiting(next, st.item))
  }

  /** Different steps have different node names. */
  ghost predicate Injective(names: NameMap) {
    forall id1, id2 | id1 in names && id2 in names && names[id1] == names[id2] :: id1 == id2
  }

  ghost predicate ActionReady(w: Workflow, a: ActionStep, names: NameMap, next: Option<string>) {
    && a.id in names && names[a.id] == ActionName(a)
    && ParamsReady(a.action.Params(), names)
    && (exists position :: FindNode(w.nodes, ActionName(a)) == Some(HttpNodeOf(a, names, position)))
    && Targets(w.connections, ActionName(a), 0) == Maybe(next)
  }

  ghost predicate BranchReadyToRun(w: Workflow, branch: seq<ActionStep>, names: NameMap, next: Option<string>) {
    forall j | 0 <= j < |branch| :: ActionReady(w, branch[j], names, After(branch, j, next))
  }

  ghost predicate ConditionReady(w: Workflow, s: Step, names: NameMap, next: Option<string>)
    requires s.If?
  {
    && s.cid in names && names[s.cid] == NodeName(s)
    && TextReady(s.left, names) && TextReady(s.right, names)
    && (exists position :: FindNode(w.nodes, NodeName(s)) == Some(IfNodeOf(s, names, position)))
    && Targets(w.connections, NodeName(s), 0) == Maybe(Entry(s.thenSteps, next))
    && Targets(w.connections, NodeName(s), 1) == Maybe(Entry(s.elseSteps, next))
    && BranchReadyToRun(w, s.thenSteps, names, next)
    && BranchReadyToRun(w, s.elseSteps, names, next)
  }

  ghost predicate StepReady(w: Workflow, s: Step, names: NameMap, next: Option<string>) {
    if s.Act? then ActionReady(w, s.step, names, next) else ConditionReady(w, s, names, next)
  }

  // ---- Single node runs

  lemma SameResultsUpdate(steps: Env, nodes: Env, names: NameMap, id: string, v: Value)
    requires SameResults(steps, nodes, names) && Injective(names) && id in names
    ensures SameResults(steps[id := v], nodes[names[id] := v], names)
  {
  }

  lemma StepOfLoneArrival(world: World, w: Workflow, m: Machine, name: string, item: Value, node: Node)
    requires m.queue == [Arrival(name, item)] && FindNode(w.nodes, name) == Some(node)
    ensures MachineStep(world, w, m) == Advance(w, m, name, Exec(world, node, item, m.env, m.calls), [])
  {
    hide Exec, FindNode, Advance;
    assert m.queue[1..] == [];
  }

  /** A result that goes to at most one target is the only thing waiting. */
  lemma AdvanceToNext(w: Workflow, m: Machine, name: string, output: nat, result: Value, calls: seq<Call>,
                      next: Option<string>)
    requires Targets(w.connections, name, output) == Maybe(next)
    ensures Advance(w, m, name, Done(output, result, calls), [])
            == Machine(Waiting(next, result), m.env[name := result], calls, true)
  {
    hide Targets;
    ArrivalsOfMaybe(next, result);
    assert Waiting(next, result) + [] == Waiting(next, result);
  }

  lemma ArrivalsOfMaybe(next: Option<string>, item: Value)
    ensures Arrivals(Maybe(next), item) == Waiting(next, item)
  {
  }

  lemma ActionSim(world: World, w: Workflow, names: NameMap, a: ActionStep, next: Option<string>, st: State, m: Machine)
    requires Injective(names) && ActionReady(w, a, names, next) && st.ok
    requires Matches(st, m, names, Some(ActionName(a)))
    ensures !Halted(m)
    ensures Matches(RunAction(world, AsEmitted, a, st), MachineStep(world, w, m), names, next)
  {
    var position :| FindNode(w.nodes, ActionName(a)) == Some(HttpNodeOf(a, names, position));
    hide FindNode, Targets, HttpNodeOf, Exec, MachineStep, ParamsReady, SameResults, ActionCall, Stringify,
         Injective, ActionName;
    StepOfLoneArrival(world, w, m, ActionName(a), st.item, HttpNodeOf(a, names, position));
    HttpExecutes(world, a, names, position, st.item, st.env, m.env, m.calls);
    match ActionCall(world, AsEmitted, a.action, st.env)
    case None =>
    case Some(call) =>
      match world.respond(st.calls + [call])
      case None =>
      case Some(v) =>
        SameResultsUpdate(st.env, m.env, names, a.id, v);
        AdvanceToNext(w, m, ActionName(a), 0, v, st.calls + [call], next);
  }

  lemma HaltedStays(world: World, w: Workflow, fuel: nat, m: Machine)
    requires Halted(m)
    ensures RunMachine(world, w, fuel, m) == m
  {
  }

  lemma RunOne(world: World, w: Workflow, fuel: nat, m: Machine)
    requires fuel > 0 && !Halted(m)
    ensures m.queue != []
    ensures RunMachine(world, w, fuel, m) == RunMachine(world, w, fuel - 1, MachineStep(world, w, m))
  {
    hide MachineStep;
  }

  // ---- Branches

  lemma {:induction false} StoppedBranch(world: World, branch: seq<ActionStep>, st: State)
    requires !st.ok
    ensures RunBranch(world, AsEmitted, branch, st) == st
  {
    if branch != [] {
      StoppedBranch(world, branch[1..], st);
    }
  }

  lemma BranchReadyTail(w: Workflow, branch: seq<ActionStep>, names: NameMap, next: Option<string>)
    requires branch != [] && BranchReadyToRun(w, branch, names, next)
    ensures ActionReady(w, branch[0], names, Entry(branch[1..], next))
    ensures BranchReadyToRun(w, branch[1..], names, next)
  {
    hide ActionReady;
    assert After(branch, 0, next) == Entry(branch[1..], next);
    forall j | 0 <= j < |branch[1..]|
      ensures ActionReady(w, branch[1..][j], names, After(branch[1..], j, next))
    {
      assert ActionReady(w, branch[j + 1], names, After(branch, j + 1, next));
    }
  }

  /** A branch runs in as many node runs as it has actions, and leaves the machine in front of `next`. */
  lemma {:induction false} BranchSim(world: World, w: Workflow, names: NameMap, branch: seq<ActionStep>,
                                     next: Option<string>,
                                     st: State, m: Machine, fuel: nat)
      returns (after: Machine, left: nat)
    requires Injective(names) && BranchReadyToRun(w, branch, names, next)
    requires Matches(st, m, names, Entry(branch, next)) && fuel >= |branch|
    ensures Matches(RunBranch(world, AsEmitted, branch, st), after, names, next)
    ensures left >= fuel - |branch|
    ensures RunMachine(world, w, fuel, m) == RunMachine(world, w, left, after)
    decreases |branch|
  {
    hide *;
    if branch == [] {
      BranchEmpty(world, next, st);
      after, left := m, fuel;
    } else if !st.ok {
      StoppedMachine(world, w, names, Entry(branch, next), next, st, m);
      StoppedBranch(world, branch, st);
      after, left := m, fuel;
    } else {
      BranchReadyTail(w, branch, names, next);
      BranchUnfold(world, branch, next, st);
      ActionSim(world, w, names, branch[0], Entry(branch[1..], next), st, m);
      RunOne(world, w, fuel, m);
      after, left := BranchSim(world, w, names, branch[1..], next, RunAction(world, AsEmitted, branch[0], st),
                               MachineStep(world, w, m), fuel - 1);
    }
  }

  lemma BranchEmpty(world: World, next: Option<string>, st: State)
    ensures RunBranch(world, AsEmitted, [], st) == st && Entry([], next) == next
  {
  }

  lemma BranchUnfold(world: World, branch: seq<ActionStep>, next: Option<string>, st: State)
    requires branch != []
    ensures RunBranch(world, AsEmitted, branch, st)
            == RunBranch(world, AsEmitted, branch[1..], RunAction(world, AsEmitted, branch[0], st))
    ensures Entry(branch, next) == Some(ActionName(branch[0]))
  {
    hide RunAction;
  }

  lemma StoppedMachine(world: World, w: Workflow, names: NameMap, here: Option<string>, there: Option<string>,
                       st: State, m: Machine)
    requires Matches(st, m, names, here) && !st.ok
    ensures Matches(st, m, names, there) && Halted(m)
  {
  }

  // ---- Steps

  lemma ConditionSim(world: World, w: Workflow, names: NameMap, s: Step, next: Option<string>, st: State, m: Machine)
    requires s.If? && Injective(names) && ConditionReady(w, s, names, next) && st.ok
    requires Matches(st, m, names, Some(NodeName(s)))
    ensures !Halted(m)
    ensures match ConditionHolds(world, AsEmitted, s, st.env)
            case None => Matches(st.(ok := false), MachineStep(world, w, m), names, next)
            case Some(holds) =>
              Matches(st.(env := st.env[s.cid := st.item]), MachineStep(world, w, m), names,
                      Entry(if holds then s.thenSteps else s.elseSteps, next))
  {
    var position :| FindNode(w.nodes, NodeName(s)) == Some(IfNodeOf(s, names, position));
    hide FindNode, Targets, MachineStep, TextReady, Advance, SameResults, ConditionHolds, EvalCondition, Injective,
         NodeName, RightNumber, BranchReadyToRun, Entry, RightOperand, PrintParam, TextTerms;
    StepOfLoneArrival(world, w, m, NodeName(s), st.item, IfNodeOf(s, names, position));
    ConditionEvaluates(world, s, names, position, st.env, m.env);
    SameResultsUpdate(st.env, m.env, names, s.cid, st.item);
    match ConditionHolds(world, AsEmitted, s, st.env)
    case None =>
    case Some(holds) =>
      AdvanceToNext(w, m, NodeName(s), if holds then 0 else 1, st.item, m.calls,
                    Entry(if holds then s.thenSteps else s.elseSteps, next));
  }

  lemma StepIdCount(s: Step)
    ensures s.If? ==> |s.Ids()| >= 1 + |s.thenSteps| && |s.Ids()| >= 1 + |s.elseSteps|
    ensures |s.Ids()| >= 1
  {
  }

  /** One step of the recipe takes at most as many node runs as it has nodes. */
  lemma StepSim(world: World, w: Workflow, names: NameMap, s: Step, next: Option<string>, st: State, m: Machine,
                fuel: nat)
      returns (after: Machine, left: nat)
    requires Injective(names) && StepReady(w, s, names, next)
    requires Matches(st, m, names, Some(NodeName(s))) && fuel >= |s.Ids()|
    ensures Matches(RunStep(world, AsEmitted, s, st), after, names, next)
    ensures left >= fuel - |s.Ids()|
    ensures RunMachine(world, w, fuel, m) == RunMachine(world, w, left, after)
  {
    hide *;
    StepIdCount(s);
    StepUnfold(world, w, names, s, next, st);
    if !st.ok {
      StoppedMachine(world, w, names, Some(NodeName(s)), next, st, m);
      after, left := m, fuel;
    } else if s.Act? {
      ActionSim(world, w, names, s.step, next, st, m);
      RunOne(world, w, fuel, m);
      after, left := MachineStep(world, w, m), fuel - 1;
    } else {
      ConditionSim(world, w, names, s, next, st, m);
      RunOne(world, w, fuel, m);
      match ConditionHolds(world, AsEmitted, s, st.env)
      case None =>
        after, left := MachineStep(world, w, m), fuel - 1;
      case Some(holds) =>
        after, left := BranchSim(world, w, names, if holds then s.thenSteps else s.elseSteps, next,
                                 st.(env := st.env[s.cid := st.item]), MachineStep(world, w, m), fuel - 1);
    }
  }

  lemma StepUnfold(world: World, w: Workflow, names: NameMap, s: Step, next: Option<string>, st: State)
    requires StepReady(w, s, names, next)
    ensures !st.ok ==> RunStep(world, AsEmitted, s, st) == st
    ensures s.Act? ==>
              && ActionReady(w, s.step, names, next) && NodeName(s) == ActionName(s.step)
              && (st.ok ==> RunStep(world, AsEmitted, s, st) == RunAction(world, AsEmitted, s.step, st))
    ensures s.If? ==>
              && ConditionReady(w, s, names, next)
              && BranchReadyToRun(w, s.thenSteps, names, next) && BranchReadyToRun(w, s.elseSteps, names, next)
    ensures s.If? && st.ok ==>
              RunStep(world, AsEmitted, s, st)
              == match ConditionHolds(world, AsEmitted, s, st.env)
                 case None => st.(ok := false)
                 case Some(holds) =>
                   RunBranch(world, AsEmitted, if holds then s.thenSteps else s.elseSteps,
                             st.(env := st.env[s.cid := st.item]))
  {
    hide BranchReadyToRun, ActionReady, ConditionHolds, RunBranch, RunAction, TextReady, FindNode, Targets, IfNodeOf;
  }

  // ---- The whole recipe

  /** Every step is wired to its follower, from `k` on. */
  ghost predicate StepsReady(w: Workflow, steps: seq<Step>, names: NameMap) {
    forall k | 0 <= k < |steps| :: StepReady(w, steps[k], names, Following(steps, k, None))
  }

  lemma {:induction false} StepsSim(world: World, w: Workflow, names: NameMap, steps: seq<Step>, k: nat, st: State,
                                    m: Machine,
                                    fuel: nat)
      returns (after: Machine, left: nat)
    requires k <= |steps| && Injective(names) && StepsReady(w, steps, names)
    requires Matches(st, m, names, First(steps[k..], None))
    requires fuel + |AllIds(steps[..k])| >= |AllIds(steps)|
    ensures Matches(RunSteps(world, AsEmitted, steps[k..], st), after, names, None)
    ensures RunMachine(world, w, fuel, m) == RunMachine(world, w, left, after)
    decreases |steps| - k
  {
    hide *;
    StepsUnfold(world, w, steps, names, k, st);
    if k == |steps| {
      after, left := m, fuel;
    } else {
      var next := Following(steps, k, None);
      AllIdsSnoc(steps, k);
      AllIdsPrefix(steps, k + 1);
      after, left := StepSim(world, w, names, steps[k], next, st, m, fuel);
      after, left := StepsSim(world, w, names, steps, k + 1, RunStep(world, AsEmitted, steps[k], st), after, left);
    }
  }

  lemma StepsUnfold(world: World, w: Workflow, steps: seq<Step>, names: NameMap, k: nat, st: State)
    requires k <= |steps| && StepsReady(w, steps, names)
    ensures k == |steps| ==> RunSteps(world, AsEmitted, steps[k..], st) == st && First(steps[k..], None) == None
    ensures k < |steps| ==>
              && StepReady(w, steps[k], names, Following(steps, k, None))
              && First(steps[k..], None) == Some(NodeName(steps[k]))
              && First(steps[k + 1..], None) == Following(steps, k, None)
              && RunSteps(world, AsEmitted, steps[k..], st)
                 == RunSteps(world, AsEmitted, steps[k + 1..], RunStep(world, AsEmitted, steps[k], st))
  {
    hide StepReady, RunStep;
    if k < |steps| {
      assert steps[k..][1..] == steps[k + 1..];
    }
  }

  // ---- What an accepted recipe provides

  lemma NamesInjective(steps: seq<Step>)
    requires Distinct(AllIds(steps))
    ensures Injective(Names(steps))
    ensures forall id | id in Names(steps) :: Names(steps)[id] != SCHEDULE && Names(steps)[id] != MANUAL
    ensures forall id | id in Names(steps) :: NamesId(Names(steps)[id], id) && id in AllIds(steps)
  {
    hide AllIds, AllNames, Zip, NamesId;
    forall id | id in Names(steps)
      ensures NamesId(Names(steps)[id], id) && Names(steps)[id] != SCHEDULE && Names(steps)[id] != MANUAL
    {
      var i :| 0 <= i < |AllIds(steps)| && AllIds(steps)[i] == id;
      ZipAt(AllIds(steps), AllNames(steps), i);
      AllNamesIds(steps, i);
      TriggersNameNoId(id);
    }
    forall id1, id2 | id1 in Names(steps) && id2 in Names(steps) && Names(steps)[id1] == Names(steps)[id2]
      ensures id1 == id2
    {
      NameDeterminesId(Names(steps)[id1], id1, id2);
    }
  }

  lemma {:induction false} IdsValid(steps: seq<Step>, i: nat)
    requires StepsOk(steps) && i < |AllIds(steps)|
    ensures ValidStepId(AllIds(steps)[i])
  {
    hide ValidStepId, CheckText;
    var n := |steps| - 1;
    var before := AllIds(steps[..n]);
    if i < |before| {
      IdsValid(steps[..n], i);
    } else {
      assert StepOk(steps[n]);
      var j := i - |before|;
      if j > 0 && steps[n].If? {
        assert steps[n].Branches()[j - 1] in steps[n].Branches();
      }
    }
  }

  lemma ValidIdBraceFree(id: string)
    requires ValidStepId(id)
    ensures BraceFree(id)
  {
    var core := if id != "" && id[|id| - 1] == '\n' then id[..|id| - 1] else id;
    assert forall i | 0 <= i < |core| :: IsStepChar(core[i]);
    assert forall i | 0 <= i < |id| :: id[i] == '\n' || id[i] == core[i];
  }

  lemma NamedBraceFree(name: string, id: string)
    requires NamesId(name, id) && BraceFree(id)
    ensures BraceFree(name)
  {
    var kind :| kind in KINDS && name == Named(kind, id);
    KindBraceFree(kind);
  }

  lemma KindBraceFree(kind: string)
    requires kind in KINDS
    ensures BraceFree(kind)
  {
  }

  lemma AcceptedNamesBraceFree(steps: seq<Step>)
    requires StepsOk(steps) && Distinct(AllIds(steps))
    ensures NamesBraceFree(Names(steps))
  {
    hide *;
    NamesInjective(steps);
    forall id | id in Names(steps)
      ensures BraceFree(Names(steps)[id])
    {
      var i :| 0 <= i < |AllIds(steps)| && AllIds(steps)[i] == id;
      IdsValid(steps, i);
      ValidIdBraceFree(id);
      NamedBraceFree(Names(steps)[id], id);
    }
    BraceFreeNames(Names(steps));
  }

  lemma BraceFreeNames(names: NameMap)
    requires forall id | id in names :: BraceFree(names[id])
    ensures NamesBraceFree(names)
  {
  }
}
