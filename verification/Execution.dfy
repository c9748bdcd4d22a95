/**
 Two ways of running a recipe: step by step from the recipe itself, and by letting n8n
 walk the nodes and edges of a workflow, reading every parameter from its text.
 */
module Execution {
  import opened Wrappers
  import opened Template
  import opened JsExpression
  import opened JsValue
  import opened Meaning
  import opened Recipes
  import opened Operands
  import opened Workflows
  import opened Wiring

  type Body = seq<(string, Value)>

  datatype Call = Call(path: string, body: Body)

  /** The surroundings of a run; `respond` answers the last call given all calls so far, or refuses it. */
  datatype World = World(engine: Engine, loose: Loose, respond: seq<Call> -> Option<Value>)

  /** `JSON.stringify` on the entries: an undefined value is dropped, a NaN becomes null. */
  function Stringify(body: Body): Body {
    if body == [] then []
    else
      var (key, value) := body[0];
      (if value == Missing then [] else [(key, if value == NotANumber then Null else value)]) + Stringify(body[1..])
  }

  /** `part` occurs in `s`. */
  predicate Holds(s: string, part: string) {
    exists i | 0 <= i <= |s| :: part <= s[i..]
  }

  lemma HoldsExactly(s: string, part: string)
    ensures Holds(s, part) <==> exists before: string, after: string :: s == before + part + after
  {
    if Holds(s, part) {
      var i :| 0 <= i <= |s| && part <= s[i..];
      assert s == s[..i] + part + s[i + |part|..];
    }
    if before: string, after: string :| s == before + part + after {
      assert s[|before|..] == part + after;
    }
  }

  // ---- The recipe itself

  /**
   How a template is read: as the chain JavaScript evaluates, or as text with values put in. `AsEmitted` is the
   chain, except that the right side of a numeric comparison that is a JSON scalar compares as that scalar.
   */
  datatype Reading = AsEmitted | AsChain | AsSubstitution

  function TextMeaning(world: World, reading: Reading, value: string, env: Env): Option<Value> {
    if reading.AsSubstitution? then SubstitutionMeaning(world.engine, value, env)
    else ChainMeaning(world.engine, value, env)
  }

  /** The call an action stands for, each parameter under its own name; None when a template cannot be read. */
  function ActionCall(world: World, reading: Reading, action: Action, env: Env): Option<Call> {
    match action
    case PgQuery(sql) =>
      var s :- TextMeaning(world, reading, sql, env);
      Some(Call("/v1/service/pg-query", Stringify([("sql", s)])))
    case AgentRun(agent, question) =>
      var a :- TextMeaning(world, reading, agent, env);
      var q :- TextMeaning(world, reading, question, env);
      Some(Call("/v1/service/agent-run", Stringify([("agent", a), ("question", q)])))
    case SlackPost(channel, text) =>
      var c :- TextMeaning(world, reading, channel, env);
      var t :- TextMeaning(world, reading, text, env);
      Some(Call("/v1/service/slack-post", Stringify([("channel", c), ("text", t)])))
    case EmailSend(to, subject, body) =>
      var t :- TextMeaning(world, reading, to, env);
      var s :- TextMeaning(world, reading, subject, env);
      var b :- TextMeaning(world, reading, body, env);
      Some(Call("/v1/service/email-send", Stringify([("to", t), ("subject", s), ("body", b)])))
    case HttpNotify(title, message) =>
      var t :- TextMeaning(world, reading, title, env);
      var m :- TextMeaning(world, reading, message, env);
      Some(Call("/v1/service/notify", Stringify([("title", t), ("message", m)])))
  }

  /** The item handed on, the results by step id, the calls made, and whether the run still goes on. */
  datatype State = State(item: Value, env: Env, calls: seq<Call>, ok: bool)

  function RunAction(world: World, reading: Reading, a: ActionStep, st: State): State {
    if !st.ok then st
    else
      match ActionCall(world, reading, a.action, st.env)
      case None => st.(ok := false)
      case Some(call) =>
        var calls := st.calls + [call];
        match world.respond(calls)
        case None => st.(calls := calls, ok := false)
        case Some(v) => State(v, st.env[a.id := v], calls, true)
  }

  function RunBranch(world: World, reading: Reading, branch: seq<ActionStep>, st: State): State {
    if branch == [] then st else RunBranch(world, reading, branch[1..], RunAction(world, reading, branch[0], st))
  }

  /** A right side that reads as a number without being evaluated. */
  predicate IsScalar(text: string) {
    References(Split(text)) == [] && LoadScalar(text).Some? && !LoadScalar(text).value.Expression?
  }

  /** The number on the right of a comparison, written as `text` and evaluated to `right`. */
  function RightNumber(world: World, reading: Reading, text: string, right: Value): Option<real> {
    if reading.AsEmitted? && IsScalar(text) then ScalarNumber(world.loose, LoadScalar(text).value)
    else LooseNumber(world.loose, right)
  }

  function ConditionHolds(world: World, reading: Reading, s: Step, env: Env): Option<bool>
    requires s.If?
  {
    var left :- TextMeaning(world, reading, s.left, env);
    var right :- TextMeaning(world, reading, s.right, env);
    if s.operator.Numeric() then
      var l :- LooseNumber(world.loose, left);
      var r :- RightNumber(world, reading, s.right, right);
      Some(match s.operator case Gt => l > r case Gte => l >= r case Lt => l < r case Lte => l <= r)
    else
      var l, r := world.loose.toText(left), world.loose.toText(right);
      Some(match s.operator case Eq => l == r case Ne => l != r case Contains => Holds(l, r))
  }

  /** A condition hands its item through to one branch; an empty branch falls through. */
  function RunStep(world: World, reading: Reading, s: Step, st: State): State {
    if !st.ok then st
    else if s.Act? then RunAction(world, reading, s.step, st)
    else
      match ConditionHolds(world, reading, s, st.env)
      case None => st.(ok := false)
      case Some(holds) =>
        RunBranch(world, reading, if holds then s.thenSteps else s.elseSteps, st.(env := st.env[s.cid := st.item]))
  }

  function RunSteps(world: World, reading: Reading, steps: seq<Step>, st: State): State {
    if steps == [] then st else RunSteps(world, reading, steps[1..], RunStep(world, reading, steps[0], st))
  }

  /** A run started with `item` by either trigger. */
  function Interpret(world: World, reading: Reading, r: Recipe, item: Value): State {
    RunSteps(world, reading, r.steps, State(item, map[], [], true))
  }

  // ---- The workflow

  datatype Arrival = Arrival(node: string, item: Value)

  /** Items waiting in front of nodes, node results by name, the calls made, and whether no node has failed. */
  datatype Machine = Machine(queue: seq<Arrival>, env: Env, calls: seq<Call>, ok: bool)

  datatype Effect = Done(output: nat, item: Value, calls: seq<Call>) | Failed(calls: seq<Call>)

  function EvalFields(engine: Engine, fields: Fields, env: Env): Body
    requires Valued(fields)
  {
    seq(|fields|, i requires 0 <= i < |fields| => (fields[i].0, EvalSum(engine, fields[i].1, env)))
  }

  function ExecHttp(world: World, url: string, jsonBody: string, env: Env, calls: seq<Call>): Effect {
    match ReadBody(jsonBody)
    case None => Failed(calls)
    case Some(fields) =>
      if !(URL_BASE <= url) then Failed(calls)
      else
        var after := calls + [Call(url[|URL_BASE|..], Stringify(EvalFields(world.engine, fields, env)))];
        match world.respond(after)
        case None => Failed(after)
        case Some(v) => Done(0, v, after)
  }

  function EvalParam(world: World, param: string, env: Env): Option<Value> {
    match ReadParam(param)
    case None => None
    case Some(terms) => Some(EvalSum(world.engine, terms, env))
  }

  /** n8n's number operations by name. */
  function CompareNumbers(operation: string, l: real, r: real): Option<bool> {
    if operation == "gt" then Some(l > r)
    else if operation == "gte" then Some(l >= r)
    else if operation == "lt" then Some(l < r)
    else if operation == "lte" then Some(l <= r)
    else None
  }

  /** n8n's string operations by name. */
  function CompareTexts(operation: string, l: string, r: string): Option<bool> {
    if operation == "equals" then Some(l == r)
    else if operation == "notEquals" then Some(l != r)
    else if operation == "contains" then Some(Holds(l, r))
    else None
  }

  function OperandNumber(world: World, o: Operand, env: Env): Option<real> {
    match o
    case Expression(param) =>
      var v :- EvalParam(world, param, env);
      LooseNumber(world.loose, v)
    case _ => ScalarNumber(world.loose, o)
  }

  /** The comparison of an `if` node; a type n8n does not know is an error. */
  function EvalCondition(world: World, left: string, kind: string, operation: string, right: Operand,
                         env: Env): Option<bool>
  {
    var l :- EvalParam(world, left, env);
    if kind == "number" then
      var x :- LooseNumber(world.loose, l);
      var y :- OperandNumber(world, right, env);
      CompareNumbers(operation, x, y)
    else if kind == "string" && right.Expression? then
      var r :- EvalParam(world, right.param, env);
      CompareTexts(operation, world.loose.toText(l), world.loose.toText(r))
    else
      None
  }

  function Exec(world: World, node: Node, item: Value, env: Env, calls: seq<Call>): Effect {
    match node
    case ScheduleTrigger(_, _, _) => Done(0, item, calls)
    case Webhook(_, _, _) => Done(0, item, calls)
    case IfNode(_, _, left, kind, operation, right) =>
      (match EvalCondition(world, left, kind, operation, right, env)
       case None => Failed(calls)
       case Some(holds) => Done(if holds then 0 else 1, item, calls))
    case HttpRequest(_, _, url, jsonBody, _) => ExecHttp(world, url, jsonBody, env, calls)
  }

  function Arrivals(targets: seq<string>, item: Value): (arrivals: seq<Arrival>)
    ensures |arrivals| == |targets|
  {
    seq(|targets|, i requires 0 <= i < |targets| => Arrival(targets[i], item))
  }

  /** A node's result goes to the targets of the chosen output, before what was already `waiting`. */
  function Advance(w: Workflow, m: Machine, name: string, effect: Effect, waiting: seq<Arrival>): Machine {
    match effect
    case Failed(calls) => m.(calls := calls, ok := false)
    case Done(output, result, calls) =>
      Machine(Arrivals(Targets(w.connections, name, output), result) + waiting, m.env[name := result], calls, true)
  }

  /** The node at the head of the queue runs. */
  function MachineStep(world: World, w: Workflow, m: Machine): Machine
    requires m.queue != []
  {
    var Arrival(name, item) := m.queue[0];
    match FindNode(w.nodes, name)
    case None => m.(ok := false)
    case Some(node) => Advance(w, m, name, Exec(world, node, item, m.env, m.calls), m.queue[1..])
  }

  predicate Halted(m: Machine) {
    m.queue == [] || !m.ok
  }

  /** At most `fuel` node runs. */
  function RunMachine(world: World, w: Workflow, fuel: nat, m: Machine): Machine {
    if fuel == 0 || Halted(m) then m else RunMachine(world, w, fuel - 1, MachineStep(world, w, m))
  }

  /** A run started at a trigger node. */
  function Start(trigger: string, item: Value): Machine {
    Machine([Arrival(trigger, item)], map[], [], true)
  }
}
