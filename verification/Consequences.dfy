/** What meaning preservation gives the author of a recipe. */
module Consequences {
  import opened JsExpression
  import opened Template
  import opened JsValue
  import opened Meaning
  import opened Recipes
  import opened Workflows
  import opened Wiring
  import opened Execution
  import opened Evaluation
  import opened Preservation

  // ---- Comparisons as they are written

  lemma {:induction false} ParamsEmitted(world: World, params: seq<(string, string)>, env: Env)
    ensures ParamsMeaning(world, AsEmitted, params, env) == ParamsMeaning(world, AsChain, params, env)
  {
    hide ChainMeaning;
    if params != [] {
      ParamsEmitted(world, params[1..], env);
    }
  }

  lemma ActionEmitted(world: World, a: ActionStep, st: State)
    ensures RunAction(world, AsEmitted, a, st) == RunAction(world, AsChain, a, st)
  {
    hide ParamsMeaning, Stringify, ActionCall;
    ActionCallIsParams(world, AsEmitted, a.action, st.env);
    ActionCallIsParams(world, AsChain, a.action, st.env);
    ParamsEmitted(world, a.action.Params(), st.env);
  }

  lemma {:induction false} BranchEmitted(world: World, branch: seq<ActionStep>, st: State)
    ensures RunBranch(world, AsEmitted, branch, st) == RunBranch(world, AsChain, branch, st)
  {
    hide RunAction;
    if branch != [] {
      ActionEmitted(world, branch[0], st);
      BranchEmitted(world, branch[1..], RunAction(world, AsChain, branch[0], st));
    }
  }

  /** What the condition of a step, if it is one, compares shows no boolean word. */
  predicate StepAlike(world: World, s: Step, st: State) {
    s.If? && st.ok ==> ConvertsAlike(world, s, st.env)
  }

  predicate StepsAlike(world: World, steps: seq<Step>, st: State) {
    steps == []
    || (StepAlike(world, steps[0], st) && StepsAlike(world, steps[1..], RunStep(world, AsChain, steps[0], st)))
  }

  /** In the run started with `item` no condition compares a boolean word with a number. */
  predicate RunAlike(world: World, r: Recipe, item: Value) {
    StepsAlike(world, r.steps, State(item, map[], [], true))
  }

  lemma StepEmitted(world: World, s: Step, st: State)
    requires StepAlike(world, s, st)
    ensures RunStep(world, AsEmitted, s, st) == RunStep(world, AsChain, s, st)
  {
    hide RunAction, RunBranch, ConditionHolds, ConvertsAlike;
    if s.Act? {
      ActionEmitted(world, s.step, st);
    } else if st.ok {
      EmittedComparesTextsExactlyWhen(world, s, st.env);
      var inner := st.(env := st.env[s.cid := st.item]);
      BranchEmitted(world, s.thenSteps, inner);
      BranchEmitted(world, s.elseSteps, inner);
    }
  }

  lemma {:induction false} StepsEmitted(world: World, steps: seq<Step>, st: State)
    requires StepsAlike(world, steps, st)
    ensures RunSteps(world, AsEmitted, steps, st) == RunSteps(world, AsChain, steps, st)
  {
    hide RunStep, StepAlike;
    if steps != [] {
      StepEmitted(world, steps[0], st);
      StepsEmitted(world, steps[1..], RunStep(world, AsChain, steps[0], st));
    }
  }

  /** The workflow compares what the recipe's author wrote in every run in which no boolean word meets a number. */
  lemma CompiledRunComparesTexts(world: World, r: Recipe, trigger: string, item: Value, fuel: nat)
    requires Accepted(r) && RunAlike(world, r, item)
    requires trigger in Triggers(r.trigger) && fuel >= |Compiled(r).nodes|
    ensures SameRun(RunMachine(world, Compiled(r), fuel, Start(trigger, item)), Interpret(world, AsChain, r, item),
                    Names(r.steps))
  {
    hide Compiled, Names, RunMachine, RunSteps, SameRun, Accepted, StepsAlike;
    CompiledRunIsTheRecipe(world, r, trigger, item, fuel);
    StepsEmitted(world, r.steps, State(item, map[], [], true));
  }

  /** No numeric comparison of the recipe is against the word `true` or `false`. */
  predicate NoBooleanWords(r: Recipe) {
    forall k | 0 <= k < |r.steps| :: NoBooleanWord(r.steps[k])
  }

  /** A recipe without boolean words on the right of a numeric comparison is alike in every run. */
  lemma NoBooleanWordsAlike(world: World, r: Recipe, item: Value)
    requires NoBooleanWords(r)
    ensures RunAlike(world, r, item)
  {
    hide NoBooleanWord;
    StepsWithoutWords(world, r.steps, State(item, map[], [], true));
  }

  lemma {:induction false} StepsWithoutWords(world: World, steps: seq<Step>, st: State)
    requires forall k | 0 <= k < |steps| :: NoBooleanWord(steps[k])
    ensures StepsAlike(world, steps, st)
  {
    hide NoBooleanWord, RunStep;
    if steps != [] {
      StepsWithoutWords(world, steps[1..], RunStep(world, AsChain, steps[0], st));
    }
  }

  // ---- Templates as their author reads them

  predicate TextsAgree(engine: Engine, texts: seq<string>, env: Env) {
    forall i | 0 <= i < |texts| :: TextAgrees(engine, texts[i], env)
  }

  predicate ActionAgrees(world: World, a: ActionStep, st: State) {
    st.ok ==> TextsAgree(world.engine, Values(a.action.Params()), st.env)
  }

  predicate BranchAgrees(world: World, branch: seq<ActionStep>, st: State) {
    branch == []
    || (ActionAgrees(world, branch[0], st)
        && BranchAgrees(world, branch[1..], RunAction(world, AsSubstitution, branch[0], st)))
  }

  /** The branch a condition goes into, and the state it is entered in. */
  predicate ChosenAgrees(world: World, s: Step, st: State)
    requires s.If?
  {
    var holds := ConditionHolds(world, AsSubstitution, s, st.env);
    holds.None?
    || BranchAgrees(world, if holds.value then s.thenSteps else s.elseSteps, st.(env := st.env[s.cid := st.item]))
  }

  predicate StepAgrees(world: World, s: Step, st: State) {
    if s.Act? then ActionAgrees(world, s.step, st)
    else st.ok ==>
           && TextAgrees(world.engine, s.left, st.env) && TextAgrees(world.engine, s.right, st.env)
           && ChosenAgrees(world, s, st)
  }

  predicate StepsAgree(world: World, steps: seq<Step>, st: State) {
    steps == []
    || (StepAgrees(world, steps[0], st) && StepsAgree(world, steps[1..], RunStep(world, AsSubstitution, steps[0], st)))
  }

  /** In the run as its author reads it, the values of every text that is evaluated read as text. */
  predicate RunAgrees(world: World, r: Recipe, item: Value) {
    StepsAgree(world, r.steps, State(item, map[], [], true))
  }

  lemma {:induction false} ParamsSame(world: World, params: seq<(string, string)>, env: Env)
    requires TextsAgree(world.engine, Values(params), env)
    ensures ParamsMeaning(world, AsChain, params, env) == ParamsMeaning(world, AsSubstitution, params, env)
  {
    hide ChainMeaning, SubstitutionMeaning, TextAgrees;
    if params != [] {
      assert Values(params)[0] == params[0].1;
      assert forall i | 0 <= i < |params[1..]| :: Values(params[1..])[i] == Values(params)[i + 1];
      ChainIsSubstitutionHereExactlyWhen(world.engine, params[0].1, env);
      ParamsSame(world, params[1..], env);
    }
  }

  lemma ActionSame(world: World, a: ActionStep, st: State)
    requires ActionAgrees(world, a, st)
    ensures RunAction(world, AsChain, a, st) == RunAction(world, AsSubstitution, a, st)
  {
    hide ParamsMeaning, Stringify, TextsAgree, ActionCall;
    ActionCallIsParams(world, AsChain, a.action, st.env);
    ActionCallIsParams(world, AsSubstitution, a.action, st.env);
    if st.ok {
      ParamsSame(world, a.action.Params(), st.env);
    }
  }

  lemma {:induction false} BranchSame(world: World, branch: seq<ActionStep>, st: State)
    requires BranchAgrees(world, branch, st)
    ensures RunBranch(world, AsChain, branch, st) == RunBranch(world, AsSubstitution, branch, st)
  {
    hide RunAction, ActionAgrees;
    if branch != [] {
      ActionSame(world, branch[0], st);
      BranchSame(world, branch[1..], RunAction(world, AsSubstitution, branch[0], st));
    }
  }

  lemma ConditionSame(world: World, s: Step, env: Env)
    requires s.If? && TextAgrees(world.engine, s.left, env) && TextAgrees(world.engine, s.right, env)
    ensures ConditionHolds(world, AsChain, s, env) == ConditionHolds(world, AsSubstitution, s, env)
  {
    hide ChainMeaning, SubstitutionMeaning, TextAgrees;
    ChainIsSubstitutionHereExactlyWhen(world.engine, s.left, env);
    ChainIsSubstitutionHereExactlyWhen(world.engine, s.right, env);
  }

  lemma StepSame(world: World, s: Step, st: State)
    requires StepAgrees(world, s, st)
    ensures RunStep(world, AsChain, s, st) == RunStep(world, AsSubstitution, s, st)
  {
    hide RunAction, RunBranch, ConditionHolds, ActionAgrees, BranchAgrees, TextAgrees;
    if s.Act? {
      ActionSame(world, s.step, st);
    } else if st.ok {
      ConditionSame(world, s, st.env);
      var holds := ConditionHolds(world, AsSubstitution, s, st.env);
      if holds.Some? {
        BranchSame(world, if holds.value then s.thenSteps else s.elseSteps, st.(env := st.env[s.cid := st.item]));
      }
    }
  }

  lemma {:induction false} StepsSame(world: World, steps: seq<Step>, st: State)
    requires StepsAgree(world, steps, st)
    ensures RunSteps(world, AsChain, steps, st) == RunSteps(world, AsSubstitution, steps, st)
  {
    hide RunStep, StepAgrees;
    if steps != [] {
      StepSame(world, steps[0], st);
      StepsSame(world, steps[1..], RunStep(world, AsSubstitution, steps[0], st));
    }
  }

  /** The workflow does what substitution says in every run in which all values of a text read as text. */
  lemma CompiledRunIsSubstitution(world: World, r: Recipe, trigger: string, item: Value, fuel: nat)
    requires Accepted(r) && RunAlike(world, r, item) && RunAgrees(world, r, item)
    requires trigger in Triggers(r.trigger) && fuel >= |Compiled(r).nodes|
    ensures SameRun(RunMachine(world, Compiled(r), fuel, Start(trigger, item)),
                    Interpret(world, AsSubstitution, r, item), Names(r.steps))
  {
    hide Compiled, Names, RunMachine, RunSteps, SameRun, Accepted, RunAlike, StepsAgree;
    CompiledRunComparesTexts(world, r, trigger, item, fuel);
    StepsSame(world, r.steps, State(item, map[], [], true));
  }

  // ---- A premise that can be read off the recipe

  predicate TextsStartWithText(texts: seq<string>) {
    forall i | 0 <= i < |texts| :: StartsWithText(Split(texts[i]))
  }

  /** No text of the recipe opens with two references in a row. */
  predicate PlainTexts(r: Recipe) {
    forall k | 0 <= k < |r.steps| :: TextsStartWithText(r.steps[k].Texts())
  }

  lemma PlainTextAgrees(engine: Engine, text: string, env: Env)
    requires StartsWithText(Split(text))
    ensures TextAgrees(engine, text, env)
  {
    hide TextAgrees, LeadsWithString, StartsWithText, Split;
    TextLeadsWithString(text, env);
    ChainIsSubstitution(engine, text, env);
  }

  lemma PlainTextsAgree(engine: Engine, texts: seq<string>, env: Env)
    requires TextsStartWithText(texts)
    ensures TextsAgree(engine, texts, env)
  {
    hide TextAgrees, LeadsWithString, StartsWithText, Split;
    forall i | 0 <= i < |texts|
      ensures TextAgrees(engine, texts[i], env)
    {
      PlainTextAgrees(engine, texts[i], env);
    }
  }

  lemma {:induction false} PlainBranchAgrees(world: World, branch: seq<ActionStep>, st: State)
    requires TextsStartWithText(BranchTexts(branch))
    ensures BranchAgrees(world, branch, st)
  {
    hide RunAction, StartsWithText, Split, TextsAgree;
    if branch != [] {
      var own := Values(branch[0].action.Params());
      assert forall i | 0 <= i < |own| :: BranchTexts(branch)[i] == own[i];
      assert forall i | 0 <= i < |BranchTexts(branch[1..])| ::
          BranchTexts(branch[1..])[i] == BranchTexts(branch)[|own| + i];
      PlainTextsAgree(world.engine, own, st.env);
      PlainBranchAgrees(world, branch[1..], RunAction(world, AsSubstitution, branch[0], st));
    }
  }

  lemma {:induction false} BranchTextsAppend(a: seq<ActionStep>, b: seq<ActionStep>)
    ensures BranchTexts(a + b) == BranchTexts(a) + BranchTexts(b)
  {
    hide Values;
    if a == [] {
      assert a + b == b;
    } else {
      assert (a + b)[1..] == a[1..] + b;
      BranchTextsAppend(a[1..], b);
    }
  }

  lemma ConditionParts(s: Step)
    requires s.If? && TextsStartWithText(s.Texts())
    ensures StartsWithText(Split(s.left)) && StartsWithText(Split(s.right))
    ensures TextsStartWithText(BranchTexts(s.thenSteps)) && TextsStartWithText(BranchTexts(s.elseSteps))
  {
    hide StartsWithText, Split, BranchTexts;
    BranchTextsAppend(s.thenSteps, s.elseSteps);
    var texts, a, b := s.Texts(), BranchTexts(s.thenSteps), BranchTexts(s.elseSteps);
    assert texts == [s.left, s.right] + (a + b);
    assert texts[0] == s.left && texts[1] == s.right;
    assert forall i | 0 <= i < |a| :: a[i] == texts[2 + i];
    assert forall i | 0 <= i < |b| :: b[i] == texts[2 + |a| + i];
  }

  lemma PlainStepAgrees(world: World, s: Step, st: State)
    requires TextsStartWithText(s.Texts())
    ensures StepAgrees(world, s, st)
  {
    hide ConditionHolds, BranchAgrees, TextAgrees, TextsAgree, TextsStartWithText, StartsWithText, Split;
    if s.Act? {
      PlainTextsAgree(world.engine, Values(s.step.action.Params()), st.env);
    } else {
      ConditionParts(s);
      PlainTextAgrees(world.engine, s.left, st.env);
      PlainTextAgrees(world.engine, s.right, st.env);
      var inner := st.(env := st.env[s.cid := st.item]);
      PlainBranchAgrees(world, s.thenSteps, inner);
      PlainBranchAgrees(world, s.elseSteps, inner);
    }
  }

  lemma {:induction false} PlainStepsAgree(world: World, steps: seq<Step>, st: State)
    requires forall k | 0 <= k < |steps| :: TextsStartWithText(steps[k].Texts())
    ensures StepsAgree(world, steps, st)
  {
    hide RunStep, TextsStartWithText, Step.Texts, StepAgrees;
    if steps != [] {
      PlainStepAgrees(world, steps[0], st);
      PlainStepsAgree(world, steps[1..], RunStep(world, AsSubstitution, steps[0], st));
    }
  }

  /** With text among the first two segments of each template, and no boolean word, every run is a substitution. */
  lemma PlainRecipeIsSubstitution(world: World, r: Recipe, trigger: string, item: Value, fuel: nat)
    requires Accepted(r) && NoBooleanWords(r) && PlainTexts(r)
    requires trigger in Triggers(r.trigger) && fuel >= |Compiled(r).nodes|
    ensures SameRun(RunMachine(world, Compiled(r), fuel, Start(trigger, item)),
                    Interpret(world, AsSubstitution, r, item), Names(r.steps))
  {
    hide Compiled, Names, RunMachine, Interpret, SameRun, Accepted, NoBooleanWords, TextsStartWithText, StepsAgree,
         RunAlike;
    NoBooleanWordsAlike(world, r, item);
    PlainStepsAgree(world, r.steps, State(item, map[], [], true));
    CompiledRunIsSubstitution(world, r, trigger, item, fuel);
  }

  // ---- Which endpoints a recipe reaches

  const EMAIL_PATH: string := "/v1/service/email-send"

  predicate NoEmail(calls: seq<Call>) {
    forall i | 0 <= i < |calls| :: calls[i].path != EMAIL_PATH
  }

  /** No request node of the workflow is aimed at the email endpoint. */
  predicate NoEmailNode(nodes: seq<Node>) {
    forall i | 0 <= i < |nodes| && nodes[i].HttpRequest? :: nodes[i].url != URL_BASE + EMAIL_PATH
  }

  lemma EmailPathIsEmailSend(a: Action)
    ensures ServicePath(a) == EMAIL_PATH <==> a.EmailSend?
  {
    assert EMAIL_PATH[12] == 'e';
    match a
    case PgQuery(_) => assert ServicePath(a)[12] == 'p';
    case AgentRun(_, _) => assert ServicePath(a)[12] == 'a';
    case SlackPost(_, _) => assert ServicePath(a)[12] == 's';
    case EmailSend(_, _, _) =>
    case HttpNotify(_, _) => assert ServicePath(a)[12] == 'n';
  }

  lemma {:induction false} FoundIsNode(nodes: seq<Node>, name: string)
    requires FindNode(nodes, name).Some?
    ensures FindNode(nodes, name).value in nodes
  {
    if nodes[0].name != name {
      FoundIsNode(nodes[1..], name);
    }
  }

  lemma ExecNoEmail(world: World, node: Node, item: Value, env: Env, calls: seq<Call>)
    requires NoEmail(calls) && (node.HttpRequest? ==> node.url != URL_BASE + EMAIL_PATH)
    ensures NoEmail(Exec(world, node, item, env, calls).calls)
  {
    hide EvalCondition, Stringify, EvalFields;
    if node.HttpRequest? && URL_BASE <= node.url {
      assert node.url == URL_BASE + node.url[|URL_BASE|..];
    }
  }

  /** A workflow without an email node makes no email call, however it is wired and wherever it starts. */
  lemma {:induction false} MachineNoEmail(world: World, w: Workflow, fuel: nat, m: Machine)
    requires NoEmail(m.calls) && NoEmailNode(w.nodes)
    ensures NoEmail(RunMachine(world, w, fuel, m).calls)
  {
    hide Exec, NoEmail, Targets, Arrivals;
    if fuel > 0 && !Halted(m) {
      var Arrival(name, item) := m.queue[0];
      if FindNode(w.nodes, name).Some? {
        FoundIsNode(w.nodes, name);
        ExecNoEmail(world, FindNode(w.nodes, name).value, item, m.env, m.calls);
      }
      MachineNoEmail(world, w, fuel - 1, MachineStep(world, w, m));
    }
  }

  lemma StepNodesNoEmail(s: Step, names: map<string, string>, column: nat)
    requires !s.WriteExternal()
    ensures NoEmailNode(StepNodes(s, names, column))
  {
    hide PrintBody, PrintParam, ParamFields;
    if s.Act? {
      NodeNoEmail(s.step, names, At(column, 0));
    } else {
      var branch := s.Branches();
      assert forall i | 0 <= i < |s.thenSteps| :: s.thenSteps[i] == branch[i];
      assert forall i | 0 <= i < |s.elseSteps| :: s.elseSteps[i] == branch[|s.thenSteps| + i];
      BranchNodesNoEmail(s.thenSteps, names, column, -160);
      BranchNodesNoEmail(s.elseSteps, names, column, 160);
    }
  }

  lemma NodeNoEmail(a: ActionStep, names: map<string, string>, position: Position)
    requires !a.action.EmailSend?
    ensures HttpNodeOf(a, names, position).url != URL_BASE + EMAIL_PATH
  {
    EmailPathIsEmailSend(a.action);
    var url := URL_BASE + ServicePath(a.action);
    assert url[|URL_BASE|..] == ServicePath(a.action);
    assert (URL_BASE + EMAIL_PATH)[|URL_BASE|..] == EMAIL_PATH;
  }

  lemma BranchNodesNoEmail(branch: seq<ActionStep>, names: map<string, string>, column: nat, row: int)
    requires forall i | 0 <= i < |branch| :: !branch[i].action.EmailSend?
    ensures NoEmailNode(BranchNodes(branch, names, column, row))
  {
    hide HttpNodeOf;
    forall i | 0 <= i < |branch|
      ensures HttpNodeOf(branch[i], names, At(column + 1 + i, row)).HttpRequest? ==>
                HttpNodeOf(branch[i], names, At(column + 1 + i, row)).url != URL_BASE + EMAIL_PATH
    {
      NodeNoEmail(branch[i], names, At(column + 1 + i, row));
    }
  }

  lemma {:induction false} NodesNoEmail(steps: seq<Step>, names: map<string, string>)
    requires forall k | 0 <= k < |steps| :: !steps[k].WriteExternal()
    ensures NoEmailNode(Nodes(steps, names))
  {
    hide StepNodes, Step.WriteExternal;
    if steps != [] {
      var n := |steps| - 1;
      NodesNoEmail(steps[..n], names);
      StepNodesNoEmail(steps[n], names, Columns(steps[..n]) + 1);
    }
  }

  /** A recipe shown as free of external writes never reaches the email endpoint, whatever its conditions compare. */
  lemma OnlyWriteExternalReachesEmail(world: World, r: Recipe, fuel: nat, m: Machine)
    requires !HasWriteExternal(r) && NoEmail(m.calls)
    ensures NoEmail(RunMachine(world, Compiled(r), fuel, m).calls)
  {
    hide RunMachine, NoEmail, Nodes, Names, AllLinks, Step.WriteExternal;
    NodesNoEmail(r.steps, Names(r.steps));
    assert forall i | 0 <= i < |TriggerNodes(r)| :: !TriggerNodes(r)[i].HttpRequest?;
    MachineNoEmail(world, Compiled(r), fuel, m);
  }
}
