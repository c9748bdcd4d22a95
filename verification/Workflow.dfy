/**
 The n8n workflow a recipe stands for, given directly: every node from its step, every
 edge from what runs next. The compiler's back-patching loops are proved to build it.
 */
module Workflows {
  import opened Wrappers
  import opened Template
  import opened JsExpression
  import opened Recipes
  import opened Operands

  datatype Position = Position(x: int, y: int)

  datatype Node =
    | ScheduleTrigger(name: string, position: Position, cron: string)
    | Webhook(name: string, position: Position, path: string)
    | IfNode(name: string, position: Position, left: string, kind: string, operation: string,
             right: Operand)
    | HttpRequest(name: string, position: Position, url: string, jsonBody: string, textResponse: bool)

  /** For each source, for each output, the targets in the order they were added. */
  type Links = map<string, seq<seq<string>>>

  datatype Workflow = Workflow(name: string, nodes: seq<Node>, connections: Links)

  // ---- Names

  const SCHEDULE: string := "Schedule"
  const MANUAL: string := "Manual run (from Fleet)"

  function Named(kind: string, id: string): string {
    kind + " (" + id + ")"
  }

  function ActionName(a: ActionStep): string {
    Named(a.action.Name(), a.id)
  }

  function NodeName(s: Step): string {
    if s.Act? then ActionName(s.step) else Named("if", s.cid)
  }

  function ActionNames(branch: seq<ActionStep>): (names: seq<string>)
    ensures |names| == |branch|
    ensures forall i | 0 <= i < |branch| :: names[i] == ActionName(branch[i])
  {
    seq(|branch|, i requires 0 <= i < |branch| => ActionName(branch[i]))
  }

  /** The names of a step's nodes, in the order of its ids. */
  function StepNames(s: Step): (names: seq<string>)
    ensures |names| == |s.Ids()|
  {
    [NodeName(s)] + ActionNames(s.Branches())
  }

  function AllNames(steps: seq<Step>): (names: seq<string>)
    ensures |names| == |AllIds(steps)|
  {
    if steps == [] then [] else AllNames(steps[..|steps| - 1]) + StepNames(steps[|steps| - 1])
  }

  function Zip(ids: seq<string>, names: seq<string>): (m: map<string, string>)
    requires |ids| == |names|
    ensures m.Keys == SetOf(ids)
  {
    if ids == [] then map[]
    else
      var n := |ids| - 1;
      assert ids == ids[..n] + [ids[n]];
      Zip(ids[..n], names[..n])[ids[n] := names[n]]
  }

  /** Step id to node name, for all of `steps`. */
  function Names(steps: seq<Step>): map<string, string> {
    Zip(AllIds(steps), AllNames(steps))
  }

  function NameFor(names: map<string, string>, id: string): string {
    if id in names then names[id] else ""
  }

  // ---- Parameters

  function TermOf(seg: Segment, names: map<string, string>): Term {
    match seg
    case Lit(text) => Literal(text)
    case Ref(r) => Field(NameFor(names, r.step), r.path)
  }

  function Terms(segs: seq<Segment>, names: map<string, string>): (terms: seq<Term>)
    ensures |terms| == |segs|
    ensures forall i | 0 <= i < |segs| :: terms[i] == TermOf(segs[i], names)
  {
    seq(|segs|, i requires 0 <= i < |segs| => TermOf(segs[i], names))
  }

  /** The chain a text becomes; the empty text becomes the empty literal. */
  function TextTerms(value: string, names: map<string, string>): (terms: seq<Term>)
    ensures terms != []
  {
    var segs := Split(value);
    if segs == [] then [Literal("")] else Terms(segs, names)
  }

  function ParamFields(params: seq<(string, string)>, names: map<string, string>): (fields: Fields)
    ensures |fields| == |params|
    ensures forall i | 0 <= i < |params| :: fields[i] == (params[i].0, TextTerms(params[i].1, names))
  {
    seq(|params|, i requires 0 <= i < |params| => (params[i].0, TextTerms(params[i].1, names)))
  }

  const URL_BASE: string := "={{ $env.FLEET_API_BASE_URL }}"

  function ServicePath(a: Action): string {
    match a
    case PgQuery(_) => "/v1/service/pg-query"
    case AgentRun(_, _) => "/v1/service/agent-run"
    case SlackPost(_, _) => "/v1/service/slack-post"
    case EmailSend(_, _, _) => "/v1/service/email-send"
    case HttpNotify(_, _) => "/v1/service/notify"
  }

  function HttpNodeOf(a: ActionStep, names: map<string, string>, position: Position): Node {
    HttpRequest(ActionName(a), position, URL_BASE + ServicePath(a.action),
                PrintBody(ParamFields(a.action.Params(), names)), a.action.SlackPost?)
  }

  /** The type and the operation a comparison has in n8n (`_OPERATORS`). */
  function Comparison(operator: Operator): (string, string) {
    match operator
    case Eq => ("string", "equals")
    case Ne => ("string", "notEquals")
    case Contains => ("string", "contains")
    case Gt => ("number", "gt")
    case Gte => ("number", "gte")
    case Lt => ("number", "lt")
    case Lte => ("number", "lte")
  }

  /** A plain text that reads as a number or boolean is emitted as such for a numeric operator. */
  function RightOperand(operator: Operator, right: string, names: map<string, string>): Operand {
    if Comparison(operator).0 == "number" && References(Split(right)) == [] && LoadScalar(right).Some?
    then LoadScalar(right).value
    else Expression(PrintParam(TextTerms(right, names)))
  }

  function IfNodeOf(s: Step, names: map<string, string>, position: Position): Node
    requires s.If?
  {
    var (kind, operation) := Comparison(s.operator);
    IfNode(NodeName(s), position, PrintParam(TextTerms(s.left, names)), kind, operation,
           RightOperand(s.operator, s.right, names))
  }

  // ---- Layout

  function Max(a: nat, b: nat): nat {
    if a >= b then a else b
  }

  /** Columns a step takes. */
  function Width(s: Step): nat {
    if s.Act? then 1 else 1 + Max(|s.thenSteps|, |s.elseSteps|)
  }

  function Columns(steps: seq<Step>): nat {
    if steps == [] then 0 else Columns(steps[..|steps| - 1]) + Width(steps[|steps| - 1])
  }

  function At(column: nat, row: int): Position {
    Position(column * 240, row)
  }

  function BranchNodes(branch: seq<ActionStep>, names: map<string, string>, column: nat, row: int): (nodes: seq<Node>)
    ensures |nodes| == |branch|
  {
    seq(|branch|, i requires 0 <= i < |branch| => HttpNodeOf(branch[i], names, At(column + 1 + i, row)))
  }

  function StepNodes(s: Step, names: map<string, string>, column: nat): seq<Node> {
    match s
    case Act(a) => [HttpNodeOf(a, names, At(column, 0))]
    case If(_, _, _, _, thenSteps, elseSteps) =>
      [IfNodeOf(s, names, At(column, 0))]
      + BranchNodes(thenSteps, names, column, -160) + BranchNodes(elseSteps, names, column, 160)
  }

  function Nodes(steps: seq<Step>, names: map<string, string>): seq<Node> {
    if steps == [] then []
    else
      var init := steps[..|steps| - 1];
      Nodes(init, names) + StepNodes(steps[|steps| - 1], names, Columns(init) + 1)
  }

  // ---- Edges

  /** The output lists of a node whose two outputs lead to `first` and `second`. */
  function Outputs(first: Option<string>, second: Option<string>): seq<seq<string>> {
    match (first, second)
    case (None, None) => []
    case (Some(a), None) => [[a]]
    case (None, Some(b)) => [[], [b]]
    case (Some(a), Some(b)) => [[a], [b]]
  }

  function OutLinks(name: string, first: Option<string>, second: Option<string>): Links {
    if first == None && second == None then map[] else map[name := Outputs(first, second)]
  }

  /** Where a branch is entered: its first action, or what follows when it is empty. */
  function Entry(branch: seq<ActionStep>, next: Option<string>): Option<string> {
    if branch == [] then next else Some(ActionName(branch[0]))
  }

  function BranchLinks(branch: seq<ActionStep>, next: Option<string>): Links {
    if branch == [] then map[]
    else
      var n := |branch| - 1;
      BranchLinks(branch[..n], Some(ActionName(branch[n]))) + OutLinks(ActionName(branch[n]), next, None)
  }

  function StepLinks(s: Step, next: Option<string>): Links {
    match s
    case Act(a) => OutLinks(ActionName(a), next, None)
    case If(_, _, _, _, thenSteps, elseSteps) =>
      OutLinks(NodeName(s), Entry(thenSteps, next), Entry(elseSteps, next))
      + BranchLinks(thenSteps, next) + BranchLinks(elseSteps, next)
  }

  function Triggers(trigger: Trigger): seq<string> {
    if trigger.Schedule? then [SCHEDULE, MANUAL] else [MANUAL]
  }

  function TriggerLinks(trigger: Trigger, next: Option<string>): Links {
    (if trigger.Schedule? then OutLinks(SCHEDULE, next, None) else map[]) + OutLinks(MANUAL, next, None)
  }

  /** Every edge of the first steps, when what follows them is `next`. */
  function AllLinks(trigger: Trigger, steps: seq<Step>, next: Option<string>): Links {
    if steps == [] then TriggerLinks(trigger, next)
    else
      var n := |steps| - 1;
      AllLinks(trigger, steps[..n], Some(NodeName(steps[n]))) + StepLinks(steps[n], next)
  }

  function TriggerNodes(r: Recipe): seq<Node> {
    (match r.trigger
     case Schedule(cron) => [ScheduleTrigger(SCHEDULE, Position(-400, 0), cron)]
     case Manual => [])
    + [Webhook(MANUAL, Position(-400, 160), "recipe-" + r.name + "-run")]
  }

  /** The workflow of a recipe. */
  function Compiled(r: Recipe): Workflow {
    Workflow("fleet-recipe-" + r.name,
             TriggerNodes(r) + Nodes(r.steps, Names(r.steps)),
             AllLinks(r.trigger, r.steps, None))
  }
}
