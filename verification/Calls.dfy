/**
 The calls a compiled workflow makes, as its endpoints see them: which actions make them, in which
 order, under which keys, and what becomes of an email.
 */
module Calls {
  import opened Wrappers
  import opened Template
  import opened JsExpression
  import opened JsValue
  import opened Meaning
  import opened Recipes
  import opened Workflows
  import opened Wiring
  import opened Execution
  import opened Evaluation
  import opened Simulation
  import opened Preservation
  import Approvals
  import Recipients

  // ---- What JSON.stringify keeps

  lemma {:induction false} StringifyAppend(a: Body, b: Body)
    ensures Stringify(a + b) == Stringify(a) + Stringify(b)
  {
    if a == [] {
      assert a + b == b;
    } else {
      assert (a + b)[0] == a[0] && (a + b)[1..] == a[1..] + b;
      StringifyAppend(a[1..], b);
    }
  }

  /** A request holds every entry under its key, apart from missing values; a NaN has become null. */
  lemma {:induction false} StringifyEntries(body: Body)
    ensures forall key, v :: (key, v) in Stringify(body)
                             <==> || (v != Missing && v != NotANumber && (key, v) in body)
                                  || (v == Null && (key, NotANumber) in body)
    ensures (forall entry | entry in body :: entry.1 != Missing && entry.1 != NotANumber) ==> Stringify(body) == body
  {
    if body != [] {
      StringifyEntries(body[1..]);
      assert body == [body[0]] + body[1..];
      forall key, v
        ensures (key, v) in Stringify(body)
           <==> || (v != Missing && v != NotANumber && (key, v) in body)
                || (v == Null && (key, NotANumber) in body)
      {
        assert (key, v) in body <==> (key, v) == body[0] || (key, v) in body[1..];
        assert (key, NotANumber) in body <==> (key, NotANumber) == body[0] || (key, NotANumber) in body[1..];
        assert (key, v) in Stringify(body) <==> (key, v) in Stringify([body[0]]) || (key, v) in Stringify(body[1..]);
      }
    }
  }

  // ---- Which actions make the calls

  /** Every action of the steps, in the order they are declared. */
  function Actions(steps: seq<Step>): seq<Action> {
    if steps == [] then [] else StepActions(steps[0]) + Actions(steps[1..])
  }

  function StepActions(s: Step): seq<Action> {
    if s.Act? then [s.step.action] else BranchActions(s.thenSteps) + BranchActions(s.elseSteps)
  }

  function BranchActions(branch: seq<ActionStep>): (actions: seq<Action>)
    ensures |actions| == |branch|
  {
    seq(|branch|, i requires 0 <= i < |branch| => branch[i].action)
  }

  /** The calls are those of some of the actions, each made once and in order, with some results to refer to. */
  ghost predicate MadeBy(world: World, reading: Reading, actions: seq<Action>, calls: seq<Call>)
    decreases |actions|
  {
    calls == []
    || (actions != []
        && (MadeBy(world, reading, actions[1..], calls)
            || ((exists env :: ActionCall(world, reading, actions[0], env) == Some(calls[0]))
                && MadeBy(world, reading, actions[1..], calls[1..]))))
  }

  lemma {:induction false} MadeByMore(world: World, reading: Reading, front: seq<Action>, actions: seq<Action>,
                                      calls: seq<Call>)
    requires MadeBy(world, reading, actions, calls)
    ensures MadeBy(world, reading, front + actions, calls)
  {
    hide ActionCall;
    if front == [] {
      assert front + actions == actions;
    } else {
      assert (front + actions)[1..] == front[1..] + actions;
      MadeByMore(world, reading, front[1..], actions, calls);
    }
  }

  lemma {:induction false} MadeByBoth(world: World, reading: Reading, a: seq<Action>, b: seq<Action>, c: seq<Call>,
                                      d: seq<Call>)
    requires MadeBy(world, reading, a, c) && MadeBy(world, reading, b, d)
    ensures MadeBy(world, reading, a + b, c + d)
    decreases |a|
  {
    hide ActionCall;
    if c == [] {
      assert c + d == d;
      MadeByMore(world, reading, a, b, d);
    } else {
      assert (a + b)[0] == a[0] && (a + b)[1..] == a[1..] + b && (c + d)[0] == c[0] && (c + d)[1..] == c[1..] + d;
      if MadeBy(world, reading, a[1..], c) {
        MadeByBoth(world, reading, a[1..], b, c, d);
      } else {
        MadeByBoth(world, reading, a[1..], b, c[1..], d);
      }
    }
  }

  lemma NothingMade(world: World, reading: Reading, actions: seq<Action>)
    ensures MadeBy(world, reading, actions, [])
  {
  }

  lemma OneMade(world: World, reading: Reading, action: Action, env: Env, call: Call)
    requires ActionCall(world, reading, action, env) == Some(call)
    ensures MadeBy(world, reading, [action], [call])
  {
    hide ActionCall;
    NothingMade(world, reading, [action][1..]);
    assert [call][1..] == [] && [call][0] == call && [action][0] == action;
    assert ActionCall(world, reading, [action][0], env) == Some([call][0]);
  }

  /** What was called by the time `t` is reached and had not been in `s`, given by the actions in between. */
  ghost predicate Since(world: World, reading: Reading, actions: seq<Action>, s: State, t: State) {
    s.calls <= t.calls && MadeBy(world, reading, actions, t.calls[|s.calls|..])
  }

  lemma SinceThen(world: World, reading: Reading, a: seq<Action>, b: seq<Action>, s: State, t: State, u: State)
    requires Since(world, reading, a, s, t) && Since(world, reading, b, t, u)
    ensures Since(world, reading, a + b, s, u)
  {
    hide MadeBy;
    MadeByBoth(world, reading, a, b, t.calls[|s.calls|..], u.calls[|t.calls|..]);
    assert t.calls == u.calls[..|t.calls|];
    assert u.calls[|s.calls|..] == t.calls[|s.calls|..] + u.calls[|t.calls|..];
  }

  lemma NoneSince(world: World, reading: Reading, actions: seq<Action>, s: State, t: State)
    requires t.calls == s.calls
    ensures Since(world, reading, actions, s, t)
  {
    hide MadeBy;
    NothingMade(world, reading, actions);
    assert t.calls[|s.calls|..] == [];
  }

  lemma ActionMakes(world: World, reading: Reading, a: ActionStep, st: State)
    ensures Since(world, reading, [a.action], st, RunAction(world, reading, a, st))
  {
    hide ActionCall, MadeBy;
    var t := RunAction(world, reading, a, st);
    if t.calls == st.calls {
      NoneSince(world, reading, [a.action], st, t);
    } else {
      var call := ActionCall(world, reading, a.action, st.env).value;
      assert t.calls == st.calls + [call];
      assert t.calls[|st.calls|..] == [call];
      OneMade(world, reading, a.action, st.env, call);
    }
  }

  lemma {:induction false} BranchMakes(world: World, reading: Reading, branch: seq<ActionStep>, st: State)
    ensures Since(world, reading, BranchActions(branch), st, RunBranch(world, reading, branch, st))
  {
    hide RunAction, Since;
    if branch == [] {
      NoneSince(world, reading, BranchActions(branch), st, st);
    } else {
      var next := RunAction(world, reading, branch[0], st);
      ActionMakes(world, reading, branch[0], st);
      BranchMakes(world, reading, branch[1..], next);
      SinceThen(world, reading, [branch[0].action], BranchActions(branch[1..]), st, next,
                RunBranch(world, reading, branch, st));
      assert BranchActions(branch) == [branch[0].action] + BranchActions(branch[1..]);
    }
  }

  lemma StepMakes(world: World, reading: Reading, s: Step, st: State)
    ensures Since(world, reading, StepActions(s), st, RunStep(world, reading, s, st))
  {
    hide RunAction, RunBranch, Since, ConditionHolds, BranchActions;
    var t := RunStep(world, reading, s, st);
    if s.Act? {
      ActionMakes(world, reading, s.step, st);
      if !st.ok {
        NoneSince(world, reading, StepActions(s), st, t);
      }
    } else if !st.ok || ConditionHolds(world, reading, s, st.env).None? {
      NoneSince(world, reading, StepActions(s), st, t);
    } else {
      ChosenMakes(world, reading, s, st, ConditionHolds(world, reading, s, st.env).value);
    }
  }

  lemma ChosenMakes(world: World, reading: Reading, s: Step, st: State, holds: bool)
    requires s.If?
    ensures var inner := st.(env := st.env[s.cid := st.item]);
            Since(world, reading, StepActions(s), st,
                  RunBranch(world, reading, if holds then s.thenSteps else s.elseSteps, inner))
  {
    hide RunBranch, BranchActions, Since;
    var inner := st.(env := st.env[s.cid := st.item]);
    var t := RunBranch(world, reading, if holds then s.thenSteps else s.elseSteps, inner);
    var first, second := BranchActions(s.thenSteps), BranchActions(s.elseSteps);
    if holds {
      BranchMakes(world, reading, s.thenSteps, inner);
      NoneSince(world, reading, second, t, t);
      SinceThen(world, reading, first, second, inner, t, t);
    } else {
      BranchMakes(world, reading, s.elseSteps, inner);
      NoneSince(world, reading, first, inner, inner);
      SinceThen(world, reading, first, second, inner, inner, t);
    }
    SameCalls(world, reading, first + second, inner, st, t);
  }

  lemma SameCalls(world: World, reading: Reading, actions: seq<Action>, s: State, s': State, t: State)
    requires Since(world, reading, actions, s, t) && s'.calls == s.calls
    ensures Since(world, reading, actions, s', t)
  {
    hide MadeBy;
  }

  lemma {:induction false} StepsMake(world: World, reading: Reading, steps: seq<Step>, st: State)
    ensures Since(world, reading, Actions(steps), st, RunSteps(world, reading, steps, st))
  {
    hide RunStep, Since, StepActions;
    if steps == [] {
      NoneSince(world, reading, [], st, st);
    } else {
      var next := RunStep(world, reading, steps[0], st);
      StepMakes(world, reading, steps[0], st);
      StepsMake(world, reading, steps[1..], next);
      SinceThen(world, reading, StepActions(steps[0]), Actions(steps[1..]), st, next,
                RunSteps(world, reading, steps, st));
    }
  }

  /**
   The calls a compiled recipe makes are those of its actions: each at most once, in the order they are
   declared, and each with its own parameters under their own names.
   */
  lemma RunMakesItsActions(world: World, r: Recipe, trigger: string, item: Value, fuel: nat)
    requires Accepted(r)
    requires trigger in Triggers(r.trigger) && fuel >= |Compiled(r).nodes|
    ensures MadeBy(world, AsEmitted, Actions(r.steps), RunMachine(world, Compiled(r), fuel, Start(trigger, item)).calls)
  {
    hide Compiled, Names, RunMachine, RunSteps, Accepted, Triggers, MadeBy, Actions;
    CompiledRunIsTheRecipe(world, r, trigger, item, fuel);
    var st := State(item, map[], [], true);
    StepsMake(world, AsEmitted, r.steps, st);
    var t := Interpret(world, AsEmitted, r, item);
    assert t.calls[|st.calls|..] == t.calls;
  }

  /** Any one of them is the call of some action. */
  lemma {:induction false} CallOfAction(world: World, reading: Reading, actions: seq<Action>, calls: seq<Call>, i: nat)
    requires MadeBy(world, reading, actions, calls) && i < |calls|
    ensures exists action, env :: action in actions && ActionCall(world, reading, action, env) == Some(calls[i])
    decreases |actions|
  {
    hide ActionCall;
    var rest := actions[1..];
    if MadeBy(world, reading, rest, calls) {
      CallOfAction(world, reading, rest, calls, i);
      var action, env :| action in rest && ActionCall(world, reading, action, env) == Some(calls[i]);
      assert action in actions;
    } else if i == 0 {
      assert actions[0] in actions;
    } else {
      CallOfAction(world, reading, rest, calls[1..], i - 1);
      var action, env :| action in rest && ActionCall(world, reading, action, env) == Some(calls[1..][i - 1]);
      assert action in actions && calls[1..][i - 1] == calls[i];
    }
  }

  // ---- The nodes that make them

  const FLEET: string := "={{ $env.FLEET_API_BASE_URL }}"

  /** A request node of this kind for the action step `id`, posting these keys and chains to this path. */
  predicate Posts(node: Node, kind: string, id: string, path: string, fields: Fields, textResponse: bool) {
    && node.HttpRequest? && node.name == kind + " (" + id + ")" && node.url == FLEET + path
    && node.jsonBody == PrintBody(fields) && node.textResponse == textResponse
  }

  /** The request node of an action: its name, its address, its body, and whether the answer is read as text. */
  predicate IsNodeOf(a: ActionStep, names: map<string, string>, node: Node) {
    match a.action
    case PgQuery(sql) =>
      Posts(node, "pg.query", a.id, "/v1/service/pg-query", [("sql", TextTerms(sql, names))], false)
    case AgentRun(agent, question) =>
      Posts(node, "agent.run", a.id, "/v1/service/agent-run",
            [("agent", TextTerms(agent, names)), ("question", TextTerms(question, names))], false)
    case SlackPost(channel, text) =>
      Posts(node, "slack.post", a.id, "/v1/service/slack-post",
            [("channel", TextTerms(channel, names)), ("text", TextTerms(text, names))], true)
    case EmailSend(to, subject, body) =>
      Posts(node, "email.send", a.id, "/v1/service/email-send",
            [("to", TextTerms(to, names)), ("subject", TextTerms(subject, names)), ("body", TextTerms(body, names))],
            false)
    case HttpNotify(title, message) =>
      Posts(node, "http.notify", a.id, "/v1/service/notify",
            [("title", TextTerms(title, names)), ("message", TextTerms(message, names))], false)
  }

  lemma HttpNodeIsItsOwn(a: ActionStep, names: map<string, string>, position: Position)
    ensures IsNodeOf(a, names, HttpNodeOf(a, names, position))
  {
    hide PrintBody, TextTerms;
    var fields := ParamFields(a.action.Params(), names);
    match a.action
    case PgQuery(sql) => assert fields == [("sql", TextTerms(sql, names))];
    case AgentRun(agent, question) =>
      assert fields == [("agent", TextTerms(agent, names)), ("question", TextTerms(question, names))];
    case SlackPost(channel, text) =>
      assert fields == [("channel", TextTerms(channel, names)), ("text", TextTerms(text, names))];
    case EmailSend(to, subject, body) =>
      assert fields == [("to", TextTerms(to, names)), ("subject", TextTerms(subject, names)),
                        ("body", TextTerms(body, names))];
    case HttpNotify(title, message) =>
      assert fields == [("title", TextTerms(title, names)), ("message", TextTerms(message, names))];
  }

  /** Every action of a recipe, on a branch or not, has its node in the workflow. */
  lemma EveryActionHasItsNode(r: Recipe, k: nat, a: ActionStep)
    requires k < |r.steps| && (if r.steps[k].Act? then a == r.steps[k].step else a in r.steps[k].Branches())
    ensures exists node :: node in Compiled(r).nodes && IsNodeOf(a, Names(r.steps), node)
  {
    hide *;
    var s, names, column := r.steps[k], Names(r.steps), Columns(r.steps[..k]) + 1;
    var position := ActionPosition(s, a, names, column);
    var node := HttpNodeOf(a, names, position);
    StepNodesInNodes(r.steps, names, k, node);
    CompiledHasNodes(r);
    HttpNodeIsItsOwn(a, names, position);
  }

  lemma ActionPosition(s: Step, a: ActionStep, names: map<string, string>, column: nat) returns (position: Position)
    requires if s.Act? then a == s.step else a in s.Branches()
    ensures HttpNodeOf(a, names, position) in StepNodes(s, names, column)
  {
    hide HttpNodeOf, IfNodeOf, BranchNodes;
    if s.Act? {
      position := At(column, 0);
    } else {
      var i :| 0 <= i < |s.Branches()| && s.Branches()[i] == a;
      var j := if i < |s.thenSteps| then i else i - |s.thenSteps|;
      position := At(column + 1 + j, if i < |s.thenSteps| then -160 else 160);
      BranchNodeInStep(s, names, column, j, i < |s.thenSteps|);
    }
  }

  /** What starts a workflow: its schedule, if it has one, and always the webhook of a manual run. */
  lemma TriggersSpelled(r: Recipe)
    ensures Compiled(r).name == "fleet-recipe-" + r.name
    ensures Webhook("Manual run (from Fleet)", Position(-400, 160), "recipe-" + r.name + "-run") in Compiled(r).nodes
    ensures r.trigger.Schedule? ==>
              ScheduleTrigger("Schedule", Position(-400, 0), r.trigger.cron) in Compiled(r).nodes
    ensures Triggers(r.trigger) == (if r.trigger.Schedule? then ["Schedule", "Manual run (from Fleet)"]
                                    else ["Manual run (from Fleet)"])
  {
    hide Nodes, Names, AllLinks;
    assert forall node | node in TriggerNodes(r) :: node in Compiled(r).nodes;
  }

  /** A recipe is shown as writing externally exactly when one of its actions sends an email. */
  lemma {:induction false} WriteExternalExactly(steps: seq<Step>)
    ensures (exists k | 0 <= k < |steps| :: steps[k].WriteExternal())
       <==> exists action | action in Actions(steps) :: action.EmailSend?
  {
    hide Step.WriteExternal, StepActions;
    if steps != [] {
      var first, rest := StepActions(steps[0]), Actions(steps[1..]);
      WriteExternalExactly(steps[1..]);
      StepWritesExternal(steps[0]);
      assert forall k | 0 < k < |steps| :: steps[k] == steps[1..][k - 1];
      assert forall action :: action in first + rest <==> action in first || action in rest;
      if k :| 0 <= k < |steps| && steps[k].WriteExternal() {
        assert k > 0 ==> steps[1..][k - 1].WriteExternal();
      }
      if action :| action in rest && action.EmailSend? {
        var k :| 0 <= k < |steps[1..]| && steps[1..][k].WriteExternal();
        assert steps[k + 1].WriteExternal();
      }
    }
  }

  lemma StepWritesExternal(s: Step)
    ensures s.WriteExternal() <==> exists action | action in StepActions(s) :: action.EmailSend?
  {
    var branch := s.Branches();
    if s.If? {
      var actions := BranchActions(s.thenSteps) + BranchActions(s.elseSteps);
      assert |actions| == |branch| && forall i | 0 <= i < |branch| :: actions[i] == branch[i].action;
      if s.WriteExternal() {
        var i :| 0 <= i < |branch| && branch[i].action.EmailSend?;
        assert actions[i] in actions;
      }
      if action :| action in actions && action.EmailSend? {
        var i :| 0 <= i < |actions| && actions[i] == action;
        assert branch[i].action.EmailSend?;
      }
    }
  }

  lemma HasWriteExternalExactly(r: Recipe)
    ensures HasWriteExternal(r) <==> exists action | action in Actions(r.steps) :: action.EmailSend?
  {
    hide Step.WriteExternal, Actions;
    WriteExternalExactly(r.steps);
  }

  // ---- What becomes of an email

  /** The value a request holds under `key`. */
  function FieldOf(body: Body, key: string): Option<Value> {
    if body == [] then None else if body[0].0 == key then Some(body[0].1) else FieldOf(body[1..], key)
  }

  /** The request as the email endpoint takes it in (`EmailSendIn`): three strings by name. */
  function EmailIn(call: Call): Option<Approvals.Email> {
    match (FieldOf(call.body, "to"), FieldOf(call.body, "subject"), FieldOf(call.body, "body"))
    case (Some(Str(to)), Some(Str(subject)), Some(Str(body))) =>
      if call.path == "/v1/service/email-send" then Some(Approvals.Email(to, subject, body)) else None
    case _ => None
  }

  predicate PlainText(text: string) {
    References(Split(text)) == []
  }

  /** An email step written without references asks for the email it says, whatever the run has brought. */
  lemma PlainEmailAsksForItself(world: World, to: string, subject: string, body: string, env: Env)
    requires PlainText(to) && PlainText(subject) && PlainText(body)
    ensures var call := ActionCall(world, AsEmitted, EmailSend(to, subject, body), env);
            call.Some? && EmailIn(call.value) == Some(Approvals.Email(to, subject, body))
  {
    hide Split, References, ChainMeaning, Stringify, FieldOf;
    PlainTextMeaning(world.engine, to, env);
    PlainTextMeaning(world.engine, subject, env);
    PlainTextMeaning(world.engine, body, env);
    ThreeEntries(Str(to), Str(subject), Str(body));
  }

  lemma ThreeEntries(t: Value, s: Value, b: Value)
    requires t.Str? && s.Str? && b.Str?
    ensures var entries := Stringify([("to", t), ("subject", s), ("body", b)]);
            FieldOf(entries, "to") == Some(t) && FieldOf(entries, "subject") == Some(s)
            && FieldOf(entries, "body") == Some(b)
  {
    hide Stringify;
    var entries := [("to", t), ("subject", s), ("body", b)];
    StringifyEntries(entries);
    assert entries[1..] == [("subject", s), ("body", b)] && entries[1..][1..] == [("body", b)];
    assert FieldOf(entries[1..], "subject") == Some(s) && FieldOf(entries[1..][1..], "body") == Some(b);
  }

  /** Every call to the email endpoint comes from an email step, and carries what that step's texts mean. */
  lemma EmailCallsAreEmailSteps(world: World, r: Recipe, trigger: string, item: Value, fuel: nat, i: nat)
    requires Accepted(r) && trigger in Triggers(r.trigger) && fuel >= |Compiled(r).nodes|
    requires var calls := RunMachine(world, Compiled(r), fuel, Start(trigger, item)).calls;
             i < |calls| && calls[i].path == "/v1/service/email-send"
    ensures var call := RunMachine(world, Compiled(r), fuel, Start(trigger, item)).calls[i];
            exists to, subject, body, env, t, s, b ::
              && EmailSend(to, subject, body) in Actions(r.steps)
              && ChainMeaning(world.engine, to, env) == Some(t)
              && ChainMeaning(world.engine, subject, env) == Some(s)
              && ChainMeaning(world.engine, body, env) == Some(b)
              && call.body == Stringify([("to", t), ("subject", s), ("body", b)])
  {
    hide Compiled, RunMachine, Accepted, Triggers, MadeBy, Actions, ActionCall;
    RunMakesItsActions(world, r, trigger, item, fuel);
    var calls := RunMachine(world, Compiled(r), fuel, Start(trigger, item)).calls;
    CallOfAction(world, AsEmitted, Actions(r.steps), calls, i);
    var action, env :| action in Actions(r.steps) && ActionCall(world, AsEmitted, action, env) == Some(calls[i]);
    OnlyEmailSendAsks(world, action, env, calls[i]);
  }

  lemma OnlyEmailSendAsks(world: World, action: Action, env: Env, call: Call)
    requires ActionCall(world, AsEmitted, action, env) == Some(call) && call.path == "/v1/service/email-send"
    ensures action.EmailSend?
    ensures var t := ChainMeaning(world.engine, action.to, env);
            var s := ChainMeaning(world.engine, action.subject, env);
            var b := ChainMeaning(world.engine, action.body, env);
            && t.Some? && s.Some? && b.Some?
            && call.body == Stringify([("to", t.value), ("subject", s.value), ("body", b.value)])
  {
    hide ChainMeaning, Stringify;
    assert "/v1/service/email-send"[12] == 'e';
    assert "/v1/service/pg-query"[12] == 'p' && "/v1/service/agent-run"[12] == 'a';
    assert "/v1/service/slack-post"[12] == 's' && "/v1/service/notify"[12] == 'n';
  }

  /**
   The call of an email step without references, queued under a new run id, approved as it is and resumed,
   sends the email the step was written with.
   */
  lemma PlainEmailGoesOut(world: World, to: string, subject: string, body: string, env: Env,
                          agents: Approvals.Agents, s: Approvals.State, runId: string, approver: string)
    requires PlainText(to) && PlainText(subject) && PlainText(body)
    requires agents.Consistent() && "automation_recipe" in agents.idOf
    requires Recipients.Allowed(to, {"fleet.local", "example.com"})
    requires forall i | 0 <= i < |s.rows| :: s.rows[i].runId != runId
    ensures var call := ActionCall(world, AsEmitted, EmailSend(to, subject, body), env);
            && call.Some? && EmailIn(call.value).Some?
            && var queued := Approvals.QueueEmail(agents, s, EmailIn(call.value).value, runId).0;
               var decided := Approvals.Decide(agents, queued, |s.rows|, "approve", None, approver).0;
               && queued.sent == decided.sent == s.sent && |s.rows| in decided.jobs
               && Approvals.Resume(decided, |s.rows|).sent
                  == s.sent + [Approvals.Sent(|s.rows|, Approvals.Email(to, subject, body))]
  {
    hide ActionCall, PlainText, EmailIn, Approvals.QueueEmail, Approvals.Decide, Approvals.Resume, Recipients.Allowed;
    PlainEmailAsksForItself(world, to, subject, body, env);
    Approvals.QueuedApprovedSent(agents, s, Approvals.Email(to, subject, body), runId, approver);
  }
}
