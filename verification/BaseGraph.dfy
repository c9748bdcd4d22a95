/**
 The base graph of every agent (`build_graph` in `apps/runtime/core/graph.py`) as runs that
 interleave with each other, with pauses and resumptions, and with the passing of time. The logs
 of reads, answers, model calls and tool calls are history: no step decides by them.
 */
module BaseGraph {
  import opened Wrappers
  import opened KillSwitches

  datatype Tool = Tool(name: string, risk: string)

  datatype AgentSpec = AgentSpec(name: string, tools: seq<Tool>, passRate: real, autonomy: bool)

  datatype Node =
    | Gate
    | GateRead(since: int)
    | ContextBuilder
    | GuardrailsIn
    | CallModel
    | Hitl(tool: Tool)
    | ExecuteTool(tool: Tool)
    | RunTool(tool: Tool)
    | CitationAttach
    | Finished
    | Failed

  /** One run: where it is, when its gate began, and whether a person approved its tool call. */
  datatype Run = Run(spec: AgentSpec, node: Node, gatedAt: Option<int>, approved: bool)

  /** A read of an agent's pause flag. */
  datatype Fetched = Fetched(agent: string, paused: bool, at: int)

  /** An answer of `is_agent_paused`, and the read it goes back to. */
  datatype Answer = Answer(agent: string, paused: bool, at: int, source: nat)

  datatype Executed = Executed(run: nat, tool: Tool)

  datatype State = State(flags: map<string, string>, cache: map<string, Cached>, clock: int, runs: map<nat, Run>,
                         fetches: seq<Fetched>, sources: map<string, nat>, answers: seq<Answer>,
                         modelCalls: set<nat>, executed: seq<Executed>)

  datatype Event =
    | Start(run: nat, spec: AgentSpec)
    | CheckPaused(run: nat)
    | FetchPaused(run: nat)
    | Advance(run: nat)
    | Reply(run: nat, toolCall: Option<string>)
    | Decide(run: nat, approved: bool)
    | CheckReadOnly(run: nat)
    | Execute(run: nat)
    | Raise(run: nat)
    | Pause(agent: string)
    | Resume(agent: string)
    | SetReadOnly(enabled: bool)
    | Elapse(seconds: nat)

  function StartState(flags: map<string, string>, clock: int): State {
    State(flags, map[], clock, map[], [], map[], [], {}, [])
  }

  /** `_tool_by_name`: the first tool of that name. */
  function ToolByName(tools: seq<Tool>, name: string): Option<Tool> {
    if tools == [] then None else if tools[0].name == name then Some(tools[0]) else ToolByName(tools[1..], name)
  }

  function Needs(spec: AgentSpec, tool: Tool): Option<bool> {
    RequiresApproval(tool.risk, spec.passRate, spec.autonomy)
  }

  /** `route_after_model`; an unknown risk class raises. */
  function RouteAfterModel(spec: AgentSpec, toolCall: Option<string>): Node {
    if toolCall.None? then CitationAttach else
    match ToolByName(spec.tools, toolCall.value)
    case None => CitationAttach
    case Some(tool) =>
      match Needs(spec, tool)
      case None => Failed
      case Some(needed) => if needed then Hitl(tool) else ExecuteTool(tool)
  }

  function RouteAfterGate(paused: bool): Node {
    if paused then Finished else ContextBuilder
  }

  function Move(s: State, run: nat, node: Node): State
    requires run in s.runs
  {
    s.(runs := s.runs[run := s.runs[run].(node := node)])
  }

  /** The gate begins: no kill switch, a fresh cached answer, or a read still to be made. */
  function Check(guarded: bool, s: State, run: nat): State
    requires run in s.runs
  {
    var r := s.runs[run].(gatedAt := Some(s.clock));
    var agent := r.spec.name;
    if !guarded then s.(runs := s.runs[run := r.(node := ContextBuilder)])
    else if IsFresh(s.cache, agent, s.clock) then
      var paused := s.cache[agent].paused;
      s.(runs := s.runs[run := r.(node := RouteAfterGate(paused))],
         answers := s.answers + [Answer(agent, paused, s.clock, if agent in s.sources then s.sources[agent] else 0)])
    else s.(runs := s.runs[run := r.(node := GateRead(s.clock))])
  }

  /** The read of a gate: the answer is cached under the time the gate began. */
  function Fetch(s: State, run: nat): State
    requires run in s.runs && s.runs[run].node.GateRead?
  {
    var r := s.runs[run];
    var agent := r.spec.name;
    var paused := FlagSet(s.flags, PauseKey(agent));
    s.(runs := s.runs[run := r.(node := RouteAfterGate(paused))],
       cache := s.cache[agent := Cached(paused, r.node.since)],
       fetches := s.fetches + [Fetched(agent, paused, s.clock)],
       sources := s.sources[agent := |s.fetches|],
       answers := s.answers + [Answer(agent, paused, s.clock, |s.fetches|)])
  }

  function OwnStep(guarded: bool, s: State, e: Event, run: nat): State
    requires run in s.runs
  {
    var node := s.runs[run].node;
    match e
    case CheckPaused(_) => if node.Gate? then Check(guarded, s, run) else s
    case FetchPaused(_) => if node.GateRead? then Fetch(s, run) else s
    case Advance(_) =>
      if node.ContextBuilder? then Move(s, run, GuardrailsIn)
      else if node.GuardrailsIn? then Move(s, run, CallModel)
      else if node.CitationAttach? then Move(s, run, Finished)
      else s
    case Reply(_, toolCall) =>
      if !node.CallModel? then s else
      Move(s, run, RouteAfterModel(s.runs[run].spec, toolCall)).(modelCalls := s.modelCalls + {run})
    case Decide(_, approved) =>
      if !node.Hitl? then s else
      var next := if approved then ExecuteTool(node.tool) else CitationAttach;
      s.(runs := s.runs[run := s.runs[run].(node := next, approved := approved)])
    case CheckReadOnly(_) =>
      if !node.ExecuteTool? then s else
      var blocked := guarded && IsWrite(node.tool.risk) && FlagSet(s.flags, READ_ONLY_KEY);
      Move(s, run, if blocked then CitationAttach else RunTool(node.tool))
    case Execute(_) =>
      if !node.RunTool? then s else
      Move(s, run, CitationAttach).(executed := s.executed + [Executed(run, node.tool)])
    case Raise(_) => Move(s, run, Failed)
    case _ => s
  }

  function Step(guarded: bool, s: State, e: Event): State {
    match e
    case Start(run, spec) => if run in s.runs then s else s.(runs := s.runs[run := Run(spec, Gate, None, false)])
    case Pause(agent) => s.(flags := s.flags[PauseKey(agent) := "1"])
    case Resume(agent) => s.(flags := s.flags[PauseKey(agent) := "0"])
    case SetReadOnly(enabled) => s.(flags := s.flags[READ_ONLY_KEY := if enabled then "1" else "0"])
    case Elapse(seconds) => s.(clock := s.clock + seconds)
    case _ => if e.run in s.runs then OwnStep(guarded, s, e, e.run) else s
  }

  function Steps(guarded: bool, s: State, events: seq<Event>): State
    decreases |events|
  {
    if events == [] then s else Steps(guarded, Step(guarded, s, events[0]), events[1..])
  }

  predicate AtGate(node: Node) {
    node.Gate? || node.GateRead?
  }

  /** A run's step that has nothing to do with its gate. */
  predicate Quiet(s: State, t: State, run: nat) {
    && run in s.runs && run in t.runs
    && t == s.(runs := s.runs[run := t.runs[run]], modelCalls := t.modelCalls, executed := t.executed)
    && t.runs[run].spec == s.runs[run].spec && t.runs[run].gatedAt == s.runs[run].gatedAt
    && (AtGate(t.runs[run].node) || AtGate(s.runs[run].node) || s.runs[run].node.Finished? ==>
          t.runs[run].node == s.runs[run].node || t.runs[run].node.Failed?)
    && (s.runs[run].node.Failed? ==> t.runs[run].node.Failed?)
    && (t.modelCalls == s.modelCalls || (s.runs[run].node.CallModel? && t.modelCalls == s.modelCalls + {run}))
  }

  lemma OtherStepsAreQuiet(guarded: bool, s: State, e: Event, run: nat)
    requires run in s.runs && !e.CheckPaused? && !e.FetchPaused?
    ensures Quiet(s, OwnStep(guarded, s, e, run), run)
  {
    hide FlagSet, Needs, RouteAfterModel, IsWrite, Move, Quiet;
    NoStepIsQuiet(s, run);
    MoveIsQuiet(s, run);
    if e.Reply? && s.runs[run].node.CallModel? {
      RouteIsNoGate(s.runs[run].spec, e.toolCall);
      ReplyIsQuiet(s, run, RouteAfterModel(s.runs[run].spec, e.toolCall));
    } else if e.Decide? && s.runs[run].node.Hitl? {
      DecideIsQuiet(guarded, s, e, run);
    } else if e.Execute? && s.runs[run].node.RunTool? {
      ExecuteIsQuiet(s, run, s.runs[run].node.tool);
    }
  }

  lemma NoStepIsQuiet(s: State, run: nat)
    requires run in s.runs
    ensures Quiet(s, s, run)
  {
    assert s.runs[run := s.runs[run]] == s.runs;
  }

  /** Where a run may go without its gate having a part in it. */
  predicate QuietMove(r: Run, node: Node) {
    && !AtGate(node) && (AtGate(r.node) || r.node.Finished? ==> node.Failed?) && (r.node.Failed? ==> node.Failed?)
  }

  lemma MoveIsQuiet(s: State, run: nat)
    requires run in s.runs
    ensures forall node | QuietMove(s.runs[run], node) :: Quiet(s, Move(s, run, node), run)
  {
  }

  lemma RouteIsNoGate(spec: AgentSpec, toolCall: Option<string>)
    ensures !AtGate(RouteAfterModel(spec, toolCall))
  {
    hide ToolByName, Needs;
  }

  lemma ReplyIsQuiet(s: State, run: nat, node: Node)
    requires run in s.runs && s.runs[run].node.CallModel? && !AtGate(node)
    ensures Quiet(s, Move(s, run, node).(modelCalls := s.modelCalls + {run}), run)
  {
  }

  lemma DecideIsQuiet(guarded: bool, s: State, e: Event, run: nat)
    requires run in s.runs && s.runs[run].node.Hitl? && e.Decide?
    ensures Quiet(s, OwnStep(guarded, s, e, run), run)
  {
  }

  lemma ExecuteIsQuiet(s: State, run: nat, tool: Tool)
    requires run in s.runs && s.runs[run].node.RunTool?
    ensures Quiet(s, Move(s, run, CitationAttach).(executed := s.executed + [Executed(run, tool)]), run)
  {
  }

  // ---- Approval

  /** The tool may be executed: it needs no approval, or it was approved. */
  predicate Cleared(r: Run, tool: Tool) {
    Needs(r.spec, tool) == Some(false) || (Needs(r.spec, tool) == Some(true) && r.approved)
  }

  predicate BeforeDecision(node: Node) {
    node.Gate? || node.GateRead? || node.ContextBuilder? || node.GuardrailsIn? || node.CallModel? || node.Hitl?
  }

  predicate RunCleared(r: Run) {
    && (r.node.Hitl? ==> Needs(r.spec, r.node.tool) == Some(true))
    && (r.node.ExecuteTool? || r.node.RunTool? ==> Cleared(r, r.node.tool))
    && (BeforeDecision(r.node) ==> !r.approved)
  }

  predicate Past(node: Node) {
    node.CitationAttach? || node.Finished? || node.Failed?
  }

  predicate ExecutedOk(s: State, e: Executed) {
    e.run in s.runs && Cleared(s.runs[e.run], e.tool) && Past(s.runs[e.run].node)
  }

  predicate AllCleared(s: State) {
    && (forall run | run in s.runs :: RunCleared(s.runs[run]))
    && (forall i | 0 <= i < |s.executed| :: ExecutedOk(s, s.executed[i]))
    && (forall i, j | 0 <= i < j < |s.executed| :: s.executed[i].run != s.executed[j].run)
  }

  /** What one run's own step does to it. */
  predicate Progress(r: Run, r': Run) {
    && r'.spec == r.spec && RunCleared(r')
    && (Past(r.node) ==> Past(r'.node) && r'.approved == r.approved)
  }

  lemma RouteCleared(r: Run, toolCall: Option<string>)
    requires RunCleared(r) && r.node.CallModel?
    ensures Progress(r, r.(node := RouteAfterModel(r.spec, toolCall)))
  {
    hide ToolByName, RequiresApproval;
  }

  /** What a step of `run` does to the runs and to the log of executed tools. */
  predicate Advances(s: State, t: State, run: nat) {
    && run in s.runs && t.runs.Keys == s.runs.Keys && Progress(s.runs[run], t.runs[run])
    && (forall other | other in s.runs && other != run :: t.runs[other] == s.runs[other])
    && (t.executed == s.executed
        || (s.runs[run].node.RunTool? && Past(t.runs[run].node) && t.runs[run].approved == s.runs[run].approved
            && t.executed == s.executed + [Executed(run, s.runs[run].node.tool)]))
  }

  lemma GateAdvances(guarded: bool, s: State, run: nat)
    requires run in s.runs && RunCleared(s.runs[run])
    ensures s.runs[run].node.Gate? ==> Advances(s, Check(guarded, s, run), run)
    ensures s.runs[run].node.GateRead? ==> Advances(s, Fetch(s, run), run)
  {
    hide FlagSet, IsFresh, Needs;
  }

  lemma OwnProgress(guarded: bool, s: State, e: Event, run: nat)
    requires run in s.runs && RunCleared(s.runs[run])
    ensures Advances(s, OwnStep(guarded, s, e, run), run)
  {
    hide RouteAfterModel, Needs, FlagSet, Check, Fetch, Move, Advances;
    GateAdvances(guarded, s, run);
    MoveAdvances(s, run);
    NothingAdvances(s, run);
    if e.Reply? && s.runs[run].node.CallModel? {
      RouteCleared(s.runs[run], e.toolCall);
      ReplyAdvances(s, run, RouteAfterModel(s.runs[run].spec, e.toolCall));
    } else if e.Decide? && s.runs[run].node.Hitl? {
      DecideAdvances(guarded, s, e, run);
    } else if e.Execute? && s.runs[run].node.RunTool? {
      ExecuteAdvances(s, run);
    }
  }

  lemma NothingAdvances(s: State, run: nat)
    requires run in s.runs && RunCleared(s.runs[run])
    ensures Advances(s, s, run)
  {
    hide RunCleared;
  }

  lemma MoveAdvances(s: State, run: nat)
    requires run in s.runs
    ensures forall node | Progress(s.runs[run], s.runs[run].(node := node)) :: Advances(s, Move(s, run, node), run)
  {
    hide Progress;
  }

  lemma ReplyAdvances(s: State, run: nat, node: Node)
    requires run in s.runs && Progress(s.runs[run], s.runs[run].(node := node))
    ensures Advances(s, Move(s, run, node).(modelCalls := s.modelCalls + {run}), run)
  {
    hide Progress;
  }

  lemma DecideAdvances(guarded: bool, s: State, e: Event, run: nat)
    requires run in s.runs && RunCleared(s.runs[run]) && s.runs[run].node.Hitl? && e.Decide?
    ensures Advances(s, OwnStep(guarded, s, e, run), run)
  {
    hide Needs;
  }

  lemma ExecuteAdvances(s: State, run: nat)
    requires run in s.runs && RunCleared(s.runs[run]) && s.runs[run].node.RunTool?
    ensures Advances(s, Move(s, run, CitationAttach).(executed := s.executed + [Executed(run, s.runs[run].node.tool)]),
                     run)
  {
    hide Needs;
  }

  lemma OwnStepCleared(guarded: bool, s: State, e: Event, run: nat)
    requires AllCleared(s) && run in s.runs
    ensures AllCleared(OwnStep(guarded, s, e, run))
  {
    hide OwnStep, Needs;
    OwnProgress(guarded, s, e, run);
    var t := OwnStep(guarded, s, e, run);
    assert forall i | 0 <= i < |s.executed| :: ExecutedOk(s, s.executed[i]) && ExecutedOk(t, s.executed[i]);
  }

  lemma StepCleared(guarded: bool, s: State, e: Event)
    requires AllCleared(s)
    ensures AllCleared(Step(guarded, s, e))
  {
    hide OwnStep, AllCleared;
    if e.Start? {
      StartCleared(s, e.run, e.spec);
    } else if !(e.Pause? || e.Resume? || e.SetReadOnly? || e.Elapse?) && e.run in s.runs {
      OwnStepCleared(guarded, s, e, e.run);
    } else {
      ClearedKept(s, Step(guarded, s, e));
    }
  }

  lemma ClearedKept(s: State, t: State)
    requires AllCleared(s) && t.runs == s.runs && t.executed == s.executed
    ensures AllCleared(t)
  {
    hide RunCleared, Cleared, Past;
    assert forall i | 0 <= i < |s.executed| :: ExecutedOk(s, s.executed[i]);
  }

  lemma StartCleared(s: State, run: nat, spec: AgentSpec)
    requires AllCleared(s)
    ensures AllCleared(Step(true, s, Start(run, spec)))
    ensures AllCleared(Step(false, s, Start(run, spec)))
  {
    hide Needs;
    assert forall i | 0 <= i < |s.executed| :: ExecutedOk(s, s.executed[i]);
  }

  lemma {:induction false} StepsCleared(guarded: bool, s: State, events: seq<Event>)
    requires AllCleared(s)
    ensures AllCleared(Steps(guarded, s, events))
    decreases |events|
  {
    hide AllCleared, Step;
    if events != [] {
      StepCleared(guarded, s, events[0]);
      StepsCleared(guarded, Step(guarded, s, events[0]), events[1..]);
    }
  }

  /**
   In every interleaving a `write:external` tool is executed only in a run whose call a person
   approved, a `write:internal` one also under earned autonomy, and no run executes two tools.
   */
  lemma ExternalWritesAreApproved(guarded: bool, flags: map<string, string>, clock: int, events: seq<Event>, i: nat)
    requires i < |Steps(guarded, StartState(flags, clock), events).executed|
    ensures var s := Steps(guarded, StartState(flags, clock), events); var e := s.executed[i];
            && e.run in s.runs
            && (e.tool.risk == "write:external" ==> s.runs[e.run].approved)
            && (e.tool.risk == "write:internal" ==>
                  s.runs[e.run].approved
                  || (s.runs[e.run].spec.autonomy && s.runs[e.run].spec.passRate >= 0.9))
            && (forall j | 0 <= j < |s.executed| && j != i :: s.executed[j].run != e.run)
  {
    hide Steps;
    StepsCleared(guarded, StartState(flags, clock), events);
  }

  // ---- Read-only mode

  /** Runs that have passed their read-only check with a writing tool. */
  predicate Passed(s: State, run: nat) {
    run in s.runs && s.runs[run].node.RunTool? && "write:" <= s.runs[run].node.tool.risk
  }

  /** Since `s`, when the flag was set, no further writing tool got past its check. */
  predicate NoNewWrites(s: State, t: State) {
    && FlagSet(t.flags, READ_ONLY_KEY) && s.executed <= t.executed
    && (forall run | run in t.runs && Passed(t, run) :: Passed(s, run))
    && (forall i | |s.executed| <= i < |t.executed| && "write:" <= t.executed[i].tool.risk ::
          Passed(s, t.executed[i].run))
  }

  lemma OwnStepNoNewWrites(s: State, t: State, e: Event, run: nat)
    requires NoNewWrites(s, t) && run in t.runs
    ensures NoNewWrites(s, OwnStep(true, t, e, run))
  {
    hide OwnStep, NoNewWrites, Move;
    if e.Execute? && t.runs[run].node.RunTool? {
      ExecuteNoNewWrites(s, t, e, run);
    } else {
      OwnStepMoves(t, e, run);
      OwnStepPasses(s, t, e, run);
      MovedNoNewWrites(s, t, OwnStep(true, t, e, run), run);
    }
  }

  /** Only one run has moved, and executed nothing. */
  predicate Moved(t: State, u: State, run: nat) {
    && run in t.runs && run in u.runs && u.runs == t.runs[run := u.runs[run]]
    && u.flags == t.flags && u.executed == t.executed
  }

  lemma MovedNoNewWrites(s: State, t: State, u: State, run: nat)
    requires NoNewWrites(s, t) && Moved(t, u, run) && (Passed(u, run) ==> Passed(t, run))
    ensures NoNewWrites(s, u)
  {
    hide IsWrite, FlagSet;
  }

  lemma OwnStepMoves(t: State, e: Event, run: nat)
    requires run in t.runs && !(e.Execute? && t.runs[run].node.RunTool?)
    ensures Moved(t, OwnStep(true, t, e, run), run)
  {
    hide IsWrite, FlagSet, RouteAfterModel, Check, Fetch;
    assert t.runs[run := t.runs[run]] == t.runs;
    GateMoves(t, run);
  }

  lemma GateMoves(t: State, run: nat)
    requires run in t.runs
    ensures Moved(t, Check(true, t, run), run)
    ensures t.runs[run].node.GateRead? ==> Moved(t, Fetch(t, run), run)
  {
    hide IsFresh, FlagSet, RouteAfterGate, PauseKey;
  }

  lemma OwnStepPasses(s: State, t: State, e: Event, run: nat)
    requires NoNewWrites(s, t) && run in t.runs
    ensures Passed(OwnStep(true, t, e, run), run) ==> Passed(t, run)
  {
    hide FlagSet, IsFresh, Needs, ToolByName, PauseKey;
  }

  lemma ExecuteNoNewWrites(s: State, t: State, e: Event, run: nat)
    requires NoNewWrites(s, t) && run in t.runs && e.Execute? && t.runs[run].node.RunTool?
    ensures NoNewWrites(s, OwnStep(true, t, e, run))
  {
    hide FlagSet;
    assert "write:" <= t.runs[run].node.tool.risk ==> Passed(t, run);
  }

  lemma StepNoNewWrites(s: State, t: State, e: Event)
    requires NoNewWrites(s, t) && e != SetReadOnly(false)
    ensures NoNewWrites(s, Step(true, t, e))
  {
    hide OwnStep, IsWrite;
    match e
    case Start(_, _) =>
    case Pause(agent) => PauseKeysApart(agent, agent);
    case Resume(agent) => PauseKeysApart(agent, agent);
    case SetReadOnly(_) =>
    case Elapse(_) =>
    case _ =>
      if e.run in t.runs {
        OwnStepNoNewWrites(s, t, e, e.run);
      }
  }

  /** Once read-only mode is set, only tools already past their check still write, until it is unset. */
  lemma {:induction false} ReadOnlyStopsWrites(s: State, t: State, events: seq<Event>)
    requires NoNewWrites(s, t) && SetReadOnly(false) !in events
    ensures NoNewWrites(s, Steps(true, t, events))
    decreases |events|
  {
    hide NoNewWrites, Step;
    if events != [] {
      StepNoNewWrites(s, t, events[0]);
      ReadOnlyStopsWrites(s, Step(true, t, events[0]), events[1..]);
    }
  }

  /**
   From a reachable state in read-only mode with no tool past its check, every tool executed before the mode
   is unset only reads, whatever class the model asked for.
   */
  lemma NoWriteAfterReadOnly(flags: map<string, string>, clock: int, before: seq<Event>, after: seq<Event>, i: nat)
    requires var s := Steps(true, StartState(flags, clock), before);
             && "global:read_only" in s.flags && s.flags["global:read_only"] == "1"
             && (forall run | run in s.runs :: !s.runs[run].node.RunTool?)
             && |s.executed| <= i < |Steps(true, s, after).executed|
    requires SetReadOnly(false) !in after
    ensures Steps(true, Steps(true, StartState(flags, clock), before), after).executed[i].tool.risk == "read"
  {
    hide Steps, RequiresApproval;
    var s := Steps(true, StartState(flags, clock), before);
    StepsCleared(true, StartState(flags, clock), before);
    ReadOnlyStopsWrites(s, s, after);
    StepsCleared(true, s, after);
    var t := Steps(true, s, after);
    assert ExecutedOk(t, t.executed[i]);
    ClearedClasses(t.runs[t.executed[i].run], t.executed[i].tool);
  }

  /** Only tools of a known class are cleared, and each but `read` has a class that says it writes. */
  lemma ClearedClasses(r: Run, tool: Tool)
    requires Cleared(r, tool)
    ensures tool.risk == "read" || "write:" <= tool.risk
  {
  }

  // ---- Bounded staleness

  predicate CacheOk(s: State, agent: string) {
    && agent in s.cache && agent in s.sources && s.sources[agent] < |s.fetches|
    && var f := s.fetches[s.sources[agent]];
       f.agent == agent && f.paused == s.cache[agent].paused && s.cache[agent].at <= f.at <= s.clock
  }

  /** The answer is the flag as some read found it less than five seconds before. */
  predicate AnswerOk(fetches: seq<Fetched>, a: Answer) {
    && a.source < |fetches| && fetches[a.source].agent == a.agent && fetches[a.source].paused == a.paused
    && fetches[a.source].at <= a.at < fetches[a.source].at + 5
  }

  predicate GateOk(s: State, r: Run) {
    && (r.node.GateRead? ==> r.node.since <= s.clock && r.gatedAt == Some(r.node.since))
    && (r.gatedAt.Some? ==> r.gatedAt.value <= s.clock)
    && (r.gatedAt.None? ==> r.node.Gate? || r.node.Failed?)
  }

  predicate Timely(s: State) {
    && (forall agent | agent in s.cache :: CacheOk(s, agent))
    && (forall i | 0 <= i < |s.answers| :: AnswerOk(s.fetches, s.answers[i]))
    && (forall run | run in s.runs :: GateOk(s, s.runs[run]))
  }

  lemma CheckTimely(guarded: bool, s: State, run: nat)
    requires Timely(s) && run in s.runs && s.runs[run].node.Gate?
    ensures Timely(Check(guarded, s, run))
  {
  }

  lemma FetchTimely(s: State, run: nat)
    requires Timely(s) && run in s.runs && s.runs[run].node.GateRead?
    ensures Timely(Fetch(s, run))
  {
    hide FlagSet, PauseKey, CacheOk, AnswerOk, GateOk;
    var t, agent := Fetch(s, run), s.runs[run].spec.name;
    assert GateOk(s, s.runs[run]);
    forall other | other in t.cache
      ensures CacheOk(t, other)
    {
      FetchCache(s, run, other);
    }
    forall i | 0 <= i < |t.answers|
      ensures AnswerOk(t.fetches, t.answers[i])
    {
      assert i < |s.answers| ==> AnswerOk(s.fetches, s.answers[i]);
      FetchAnswer(s, run, i);
    }
    forall other | other in t.runs
      ensures GateOk(t, t.runs[other])
    {
      assert GateOk(s, s.runs[other]);
      FetchGate(s, run, other);
    }
  }

  lemma FetchCache(s: State, run: nat, agent: string)
    requires run in s.runs && s.runs[run].node.GateRead? && GateOk(s, s.runs[run])
    requires agent in s.cache ==> CacheOk(s, agent)
    ensures agent in Fetch(s, run).cache ==> CacheOk(Fetch(s, run), agent)
  {
    hide FlagSet, PauseKey;
  }

  lemma FetchAnswer(s: State, run: nat, i: nat)
    requires run in s.runs && s.runs[run].node.GateRead? && i < |Fetch(s, run).answers|
    requires i < |s.answers| ==> AnswerOk(s.fetches, s.answers[i])
    ensures AnswerOk(Fetch(s, run).fetches, Fetch(s, run).answers[i])
  {
    hide FlagSet, PauseKey;
  }

  lemma FetchGate(s: State, run: nat, other: nat)
    requires run in s.runs && s.runs[run].node.GateRead? && other in s.runs
    requires GateOk(s, s.runs[run]) && GateOk(s, s.runs[other])
    ensures GateOk(Fetch(s, run), Fetch(s, run).runs[other])
  {
    hide FlagSet, PauseKey;
  }

  lemma QuietTimely(s: State, t: State, run: nat)
    requires Timely(s) && Quiet(s, t, run)
    ensures Timely(t)
  {
  }

  lemma OwnStepTimely(guarded: bool, s: State, e: Event, run: nat)
    requires Timely(s) && run in s.runs
    ensures Timely(OwnStep(guarded, s, e, run))
  {
    hide Timely, Check, Fetch, Quiet, Move;
    if e.CheckPaused? {
      if s.runs[run].node.Gate? {
        CheckTimely(guarded, s, run);
      }
    } else if e.FetchPaused? {
      if s.runs[run].node.GateRead? {
        FetchTimely(s, run);
      }
    } else {
      OtherStepsAreQuiet(guarded, s, e, run);
      QuietTimely(s, OwnStep(guarded, s, e, run), run);
    }
  }

  lemma StepTimely(guarded: bool, s: State, e: Event)
    requires Timely(s)
    ensures Timely(Step(guarded, s, e))
  {
    hide OwnStep;
    if !(e.Start? || e.Pause? || e.Resume? || e.SetReadOnly? || e.Elapse?) && e.run in s.runs {
      OwnStepTimely(guarded, s, e, e.run);
    }
  }

  lemma {:induction false} StepsTimely(guarded: bool, s: State, events: seq<Event>)
    requires Timely(s)
    ensures Timely(Steps(guarded, s, events))
    decreases |events|
  {
    hide Timely, Step;
    if events != [] {
      StepTimely(guarded, s, events[0]);
      StepsTimely(guarded, Step(guarded, s, events[0]), events[1..]);
    }
  }

  /** Every answer of `is_agent_paused` was the stored flag at a read less than five seconds earlier. */
  lemma AnswersAreRecent(guarded: bool, flags: map<string, string>, clock: int, events: seq<Event>, i: nat)
    requires i < |Steps(guarded, StartState(flags, clock), events).answers|
    ensures var s := Steps(guarded, StartState(flags, clock), events); AnswerOk(s.fetches, s.answers[i])
  {
    hide Steps;
    StepsTimely(guarded, StartState(flags, clock), events);
  }

  // ---- A pause stops runs

  /** The run began its gate at least five seconds after the pause at time `p`. */
  predicate GatedLate(r: Run, agent: string, p: int) {
    r.spec.name == agent && r.gatedAt.Some? && r.gatedAt.value >= p + 5
  }

  predicate CallsOk(s: State) {
    && (forall run | run in s.runs && AtGate(s.runs[run].node) :: run !in s.modelCalls)
    && (forall run | run in s.modelCalls :: run in s.runs)
  }

  lemma OwnStepCallsOk(guarded: bool, s: State, e: Event, run: nat)
    requires CallsOk(s) && run in s.runs
    ensures CallsOk(OwnStep(guarded, s, e, run))
  {
    hide FlagSet, IsFresh, Quiet, Move;
    if !e.CheckPaused? && !e.FetchPaused? {
      OtherStepsAreQuiet(guarded, s, e, run);
      QuietCallsOk(s, OwnStep(guarded, s, e, run), run);
    }
  }

  lemma QuietCallsOk(s: State, t: State, run: nat)
    requires CallsOk(s) && Quiet(s, t, run)
    ensures CallsOk(t)
  {
  }

  lemma StepCallsOk(guarded: bool, s: State, e: Event)
    requires CallsOk(s)
    ensures CallsOk(Step(guarded, s, e))
  {
    hide OwnStep;
    if !(e.Start? || e.Pause? || e.Resume? || e.SetReadOnly? || e.Elapse?) && e.run in s.runs {
      OwnStepCallsOk(guarded, s, e, e.run);
    }
  }

  lemma {:induction false} StepsCallsOk(guarded: bool, s: State, events: seq<Event>)
    requires CallsOk(s)
    ensures CallsOk(Steps(guarded, s, events))
    decreases |events|
  {
    hide CallsOk, Step;
    if events != [] {
      StepCallsOk(guarded, s, events[0]);
      StepsCallsOk(guarded, Step(guarded, s, events[0]), events[1..]);
    }
  }

  /** Since the pause of `agent` at time `p`. */
  predicate Held(s: State, agent: string, p: int) {
    && FlagSet(s.flags, PauseKey(agent)) && p <= s.clock
    && (agent in s.cache && !s.cache[agent].paused ==> s.cache[agent].at <= p)
    && (forall run | run in s.runs && GatedLate(s.runs[run], agent, p) ::
          && run !in s.modelCalls
          && (s.runs[run].node.GateRead? || s.runs[run].node.Finished? || s.runs[run].node.Failed?))
    && CallsOk(s)
  }

  lemma CheckHeld(s: State, run: nat, agent: string, p: int)
    requires Held(s, agent, p) && run in s.runs && s.runs[run].node.Gate?
    ensures Held(Check(true, s, run), agent, p)
  {
    hide FlagSet, PauseKey;
  }

  lemma FetchHeld(s: State, run: nat, agent: string, p: int)
    requires Held(s, agent, p) && run in s.runs && s.runs[run].node.GateRead?
    ensures Held(Fetch(s, run), agent, p)
  {
    hide FlagSet, PauseKey;
  }

  lemma QuietHeld(s: State, t: State, run: nat, agent: string, p: int)
    requires Held(s, agent, p) && Quiet(s, t, run)
    ensures Held(t, agent, p)
  {
    hide FlagSet, PauseKey;
  }

  lemma OwnStepHeld(s: State, e: Event, run: nat, agent: string, p: int)
    requires Held(s, agent, p) && run in s.runs
    ensures Held(OwnStep(true, s, e, run), agent, p)
  {
    hide Held, Check, Fetch, Quiet, Move;
    if e.CheckPaused? {
      if s.runs[run].node.Gate? {
        CheckHeld(s, run, agent, p);
      }
    } else if e.FetchPaused? {
      if s.runs[run].node.GateRead? {
        FetchHeld(s, run, agent, p);
      }
    } else {
      OtherStepsAreQuiet(true, s, e, run);
      QuietHeld(s, OwnStep(true, s, e, run), run, agent, p);
    }
  }

  lemma StartHeld(s: State, run: nat, spec: AgentSpec, agent: string, p: int)
    requires Held(s, agent, p)
    ensures Held(Step(true, s, Start(run, spec)), agent, p)
  {
    hide FlagSet, PauseKey;
  }

  lemma FlagsHeld(s: State, key: string, value: string, agent: string, p: int)
    requires Held(s, agent, p) && (key == PauseKey(agent) ==> value == "1")
    ensures Held(s.(flags := s.flags[key := value]), agent, p)
  {
    hide PauseKey;
  }

  lemma ElapseHeld(s: State, seconds: nat, agent: string, p: int)
    requires Held(s, agent, p)
    ensures Held(s.(clock := s.clock + seconds), agent, p)
  {
    hide FlagSet, PauseKey;
  }

  lemma StepHeld(s: State, e: Event, agent: string, p: int)
    requires Held(s, agent, p) && e != Resume(agent)
    ensures Held(Step(true, s, e), agent, p)
  {
    hide OwnStep, PauseKey, Held;
    match e
    case Start(run, spec) => StartHeld(s, run, spec, agent, p);
    case Pause(other) => PauseKeysApart(agent, other); FlagsHeld(s, PauseKey(other), "1", agent, p);
    case Resume(other) => PauseKeysApart(agent, other); FlagsHeld(s, PauseKey(other), "0", agent, p);
    case SetReadOnly(enabled) =>
      PauseKeysApart(agent, agent);
      FlagsHeld(s, READ_ONLY_KEY, if enabled then "1" else "0", agent, p);
    case Elapse(seconds) => ElapseHeld(s, seconds, agent, p);
    case _ =>
      if e.run in s.runs {
        OwnStepHeld(s, e, e.run, agent, p);
      }
  }

  lemma {:induction false} StepsHeld(s: State, events: seq<Event>, agent: string, p: int)
    requires Held(s, agent, p) && Resume(agent) !in events
    ensures Held(Steps(true, s, events), agent, p)
    decreases |events|
  {
    hide Held, Step;
    if events != [] {
      StepHeld(s, events[0], agent, p);
      StepsHeld(Step(true, s, events[0]), events[1..], agent, p);
    }
  }

  /** A pause takes hold at once for every gate that begins five seconds later or more. */
  lemma PauseHolds(s: State, agent: string)
    requires Timely(s) && CallsOk(s)
    ensures Held(Step(true, s, Pause(agent)), agent, s.clock)
  {
    hide CallsOk, PauseKey;
    assert agent in s.cache ==> CacheOk(s, agent);
    assert forall run | run in s.runs :: GateOk(s, s.runs[run]);
    FlagsOnly(s, Step(true, s, Pause(agent)));
  }

  lemma FlagsOnly(s: State, t: State)
    requires CallsOk(s) && t.runs == s.runs && t.modelCalls == s.modelCalls
    ensures CallsOk(t)
  {
  }

  /** After a pause that is not lifted, no run gated at least five seconds later calls the model. */
  lemma PausedRunsNeverCallTheModel(flags: map<string, string>, clock: int, before: seq<Event>, agent: string,
                                    after: seq<Event>, run: nat)
    requires Resume(agent) !in after
    requires var s := Steps(true, StartState(flags, clock), before);
             var t := Steps(true, Step(true, s, Pause(agent)), after);
             run in t.runs && GatedLate(t.runs[run], agent, s.clock)
    ensures var s := Steps(true, StartState(flags, clock), before);
            var t := Steps(true, Step(true, s, Pause(agent)), after);
            && run !in t.modelCalls
            && (t.runs[run].node.GateRead? || t.runs[run].node.Finished? || t.runs[run].node.Failed?)
  {
    hide Steps, Step, FlagSet;
    var s := Steps(true, StartState(flags, clock), before);
    StepsTimely(true, StartState(flags, clock), before);
    StepsCallsOk(true, StartState(flags, clock), before);
    PauseHolds(s, agent);
    StepsHeld(Step(true, s, Pause(agent)), after, agent, s.clock);
  }

  /** A run of a paused agent that starts five seconds after the pause ends at its gate. */
  lemma RunsAfterPauseEndAtTheGate(flags: map<string, string>, clock: int, before: seq<Event>, agent: string,
                                   seconds: nat, run: nat, spec: AgentSpec)
    requires seconds >= 5 && spec.name == agent && run !in Steps(true, StartState(flags, clock), before).runs
    ensures var s := Steps(true, StartState(flags, clock), before);
            var t := Step(true, Step(true, s, Pause(agent)), Elapse(seconds));
            var u := Step(true, Step(true, Step(true, t, Start(run, spec)), CheckPaused(run)), FetchPaused(run));
            run in u.runs && u.runs[run].node == Finished && u.modelCalls == s.modelCalls
  {
    hide Steps, Timely, Check, Fetch;
    StartTimely(flags, clock);
    StepsTimely(true, StartState(flags, clock), before);
    var s := Steps(true, StartState(flags, clock), before);
    AnswersFromThePast(s, agent);
    GateCloses(Step(true, Step(true, s, Pause(agent)), Elapse(seconds)), run, spec);
  }

  lemma StartTimely(flags: map<string, string>, clock: int)
    ensures Timely(StartState(flags, clock))
  {
  }

  lemma AnswersFromThePast(s: State, agent: string)
    requires Timely(s)
    ensures agent in s.cache ==> s.cache[agent].at <= s.clock
  {
    assert agent in s.cache ==> CacheOk(s, agent);
  }

  lemma GateCloses(s: State, run: nat, spec: AgentSpec)
    requires run !in s.runs && PauseKey(spec.name) in s.flags && s.flags[PauseKey(spec.name)] == "1"
    requires spec.name in s.cache ==> s.cache[spec.name].at + 5 <= s.clock
    ensures var u := Step(true, Step(true, Step(true, s, Start(run, spec)), CheckPaused(run)), FetchPaused(run));
            run in u.runs && u.runs[run].node == Finished && u.modelCalls == s.modelCalls
  {
    hide PauseKey;
  }

  /** A run that starts five seconds after its agent was resumed passes its gate. */
  lemma RunsAfterResumePassTheGate(flags: map<string, string>, clock: int, before: seq<Event>, agent: string,
                                   seconds: nat, run: nat, spec: AgentSpec)
    requires seconds >= 5 && spec.name == agent && run !in Steps(true, StartState(flags, clock), before).runs
    ensures var s := Steps(true, StartState(flags, clock), before);
            var t := Step(true, Step(true, s, Resume(agent)), Elapse(seconds));
            var u := Step(true, Step(true, Step(true, t, Start(run, spec)), CheckPaused(run)), FetchPaused(run));
            run in u.runs && u.runs[run].node == ContextBuilder
  {
    hide Steps, Timely, Check, Fetch;
    StartTimely(flags, clock);
    StepsTimely(true, StartState(flags, clock), before);
    var s := Steps(true, StartState(flags, clock), before);
    AnswersFromThePast(s, agent);
    var t := Step(true, Step(true, s, Resume(agent)), Elapse(seconds));
    assert Unpaused(t, agent);
    GateOpens(true, t, run, spec);
  }

  /** Setting the mode holds back a tool that writes at its check, and unsetting it lets it through. */
  lemma ReadOnlyModeDecides(s: State, run: nat, enabled: bool)
    requires run in s.runs && s.runs[run].node.ExecuteTool?
    requires s.runs[run].node.tool.risk in {"write:internal", "write:external"}
    ensures var t := Step(true, s, SetReadOnly(enabled));
            Step(true, Step(true, Step(true, t, CheckReadOnly(run)), Execute(run)), Advance(run)).executed
            == if enabled then s.executed else s.executed + [Executed(run, s.runs[run].node.tool)]
  {
    hide OwnStep;
    ToolChecked(true, Step(true, s, SetReadOnly(enabled)), run);
  }

  // ---- What is let through

  lemma TwoSteps(guarded: bool, s: State, a: Event, b: Event)
    ensures Steps(guarded, s, [a, b]) == Step(guarded, Step(guarded, s, a), b)
  {
    hide Step;
    assert [a, b][1..] == [b] && [b][1..] == [];
    assert Steps(guarded, Step(guarded, s, a), [b]) == Steps(guarded, Step(guarded, Step(guarded, s, a), b), []);
  }

  lemma FiveSteps(guarded: bool, s: State, a: Event, b: Event, c: Event, d: Event, e: Event)
    ensures Steps(guarded, s, [a, b, c, d, e])
         == Step(guarded, Steps(guarded, Steps(guarded, s, [a, b]), [c, d]), e)
  {
    hide Step;
    StepsAppend(guarded, s, [a, b], [c, d] + [e]);
    StepsAppend(guarded, Steps(guarded, s, [a, b]), [c, d], [e]);
    assert [a, b] + ([c, d] + [e]) == [a, b, c, d, e];
    assert [e][1..] == [];
    assert Steps(guarded, Steps(guarded, Steps(guarded, s, [a, b]), [c, d]), [e])
        == Steps(guarded, Step(guarded, Steps(guarded, Steps(guarded, s, [a, b]), [c, d]), e), []);
  }

  lemma {:induction false} StepsAppend(guarded: bool, s: State, a: seq<Event>, b: seq<Event>)
    ensures Steps(guarded, s, a + b) == Steps(guarded, Steps(guarded, s, a), b)
    decreases |a|
  {
    hide Step;
    if a == [] {
      assert a + b == b;
    } else {
      assert (a + b)[0] == a[0] && (a + b)[1..] == a[1..] + b;
      StepsAppend(guarded, Step(guarded, s, a[0]), a[1..], b);
    }
  }

  /** No answer that is still fresh, and otherwise no flag, says that the agent is paused. */
  predicate Unpaused(s: State, agent: string) {
    if agent in s.cache && s.clock < s.cache[agent].at + 5 then !s.cache[agent].paused
    else "agent:paused:" + agent !in s.flags || s.flags["agent:paused:" + agent] != "1"
  }

  lemma GateOpens(guarded: bool, s: State, run: nat, spec: AgentSpec)
    requires run !in s.runs && (guarded ==> Unpaused(s, spec.name))
    ensures var t := Step(guarded, Step(guarded, s, Start(run, spec)), CheckPaused(run));
            var u := Step(guarded, t, FetchPaused(run));
            && run in u.runs && u.runs[run].node == ContextBuilder && u.runs[run].spec == spec
            && !u.runs[run].approved && u.executed == s.executed && u.flags == s.flags
  {
  }

  /** A run of an agent that is not paused gets to its model call. */
  lemma UnpausedRunsReachTheModel(guarded: bool, s: State, run: nat, spec: AgentSpec)
    requires run !in s.runs && (guarded ==> Unpaused(s, spec.name))
    ensures var t := Steps(guarded, s, [Start(run, spec), CheckPaused(run), FetchPaused(run), Advance(run),
                                        Advance(run)]);
            && run in t.runs && t.runs[run].node == CallModel && t.runs[run].spec == spec
            && t.executed == s.executed && t.flags == s.flags
  {
    hide Step, Unpaused;
    GateOpens(guarded, s, run, spec);
    FiveSteps(guarded, s, Start(run, spec), CheckPaused(run), FetchPaused(run), Advance(run), Advance(run));
    TwoSteps(guarded, s, Start(run, spec), CheckPaused(run));
    var t := Steps(guarded, s, [Start(run, spec), CheckPaused(run)]);
    TwoSteps(guarded, t, FetchPaused(run), Advance(run));
    TwoAdvances(guarded, Step(guarded, t, FetchPaused(run)), run);
  }

  lemma TwoAdvances(guarded: bool, s: State, run: nat)
    requires run in s.runs && s.runs[run].node == ContextBuilder
    ensures var t := Step(guarded, Step(guarded, s, Advance(run)), Advance(run));
            && run in t.runs && t.runs[run] == s.runs[run].(node := CallModel)
            && t.executed == s.executed && t.flags == s.flags
  {
  }

  lemma {:induction false} FirstOfItsName(tools: seq<Tool>, k: nat)
    requires k < |tools| && forall j | 0 <= j < k :: tools[j].name != tools[k].name
    ensures ToolByName(tools, tools[k].name) == Some(tools[k])
  {
    if k > 0 {
      FirstOfItsName(tools[1..], k - 1);
    }
  }

  /** The class asks for a person's approval in an agent of these settings. */
  predicate AsksFirst(spec: AgentSpec, risk: string) {
    risk == "write:external" || (risk == "write:internal" && !(spec.autonomy && spec.passRate >= 0.9))
  }

  /**
   A tool the model calls by name is executed, exactly once, unless it needs an approval that is refused or
   writes in read-only mode; either way the run comes to its end.
   */
  lemma CalledToolIsExecuted(guarded: bool, s: State, run: nat, k: nat, approves: bool)
    requires run in s.runs && s.runs[run].node == CallModel && k < |s.runs[run].spec.tools|
    requires forall j | 0 <= j < k :: s.runs[run].spec.tools[j].name != s.runs[run].spec.tools[k].name
    requires s.runs[run].spec.tools[k].risk in {"read", "write:internal", "write:external"}
    ensures var spec := s.runs[run].spec;
            var tool := spec.tools[k];
            var readOnly := "global:read_only" in s.flags && s.flags["global:read_only"] == "1";
            var t := Steps(guarded, s, [Reply(run, Some(tool.name)), Decide(run, approves), CheckReadOnly(run),
                                        Execute(run), Advance(run)]);
            && run in t.modelCalls && run in t.runs && t.runs[run].node == Finished
            && t.executed == (if AsksFirst(spec, tool.risk) && !approves then s.executed
                              else if guarded && readOnly && tool.risk != "read" then s.executed
                              else s.executed + [Executed(run, tool)])
  {
    hide Steps, Step, AsksFirst;
    var tool := s.runs[run].spec.tools[k];
    FiveSteps(guarded, s, Reply(run, Some(tool.name)), Decide(run, approves), CheckReadOnly(run), Execute(run),
              Advance(run));
    TwoSteps(guarded, s, Reply(run, Some(tool.name)), Decide(run, approves));
    var t := Step(guarded, Step(guarded, s, Reply(run, Some(tool.name))), Decide(run, approves));
    TwoSteps(guarded, t, CheckReadOnly(run), Execute(run));
    ReplyDecided(guarded, s, run, k, approves);
    if t.runs[run].node.ExecuteTool? {
      ToolChecked(guarded, t, run);
    } else {
      NothingToExecute(guarded, t, run);
    }
  }

  lemma ReplyDecided(guarded: bool, s: State, run: nat, k: nat, approves: bool)
    requires run in s.runs && s.runs[run].node == CallModel && k < |s.runs[run].spec.tools|
    requires forall j | 0 <= j < k :: s.runs[run].spec.tools[j].name != s.runs[run].spec.tools[k].name
    requires s.runs[run].spec.tools[k].risk in {"read", "write:internal", "write:external"}
    ensures var tool := s.runs[run].spec.tools[k];
            var t := Step(guarded, Step(guarded, s, Reply(run, Some(tool.name))), Decide(run, approves));
            && run in t.runs && run in t.modelCalls && t.executed == s.executed && t.flags == s.flags
            && t.runs[run].node == if AsksFirst(s.runs[run].spec, tool.risk) && !approves then CitationAttach
                                   else ExecuteTool(tool)
  {
    hide ToolByName;
    FirstOfItsName(s.runs[run].spec.tools, k);
  }

  lemma ToolChecked(guarded: bool, s: State, run: nat)
    requires run in s.runs && s.runs[run].node.ExecuteTool?
    requires s.runs[run].node.tool.risk in {"read", "write:internal", "write:external"}
    ensures var tool := s.runs[run].node.tool;
            var readOnly := "global:read_only" in s.flags && s.flags["global:read_only"] == "1";
            var t := Step(guarded, Step(guarded, Step(guarded, s, CheckReadOnly(run)), Execute(run)), Advance(run));
            && run in t.runs && t.runs[run].node == Finished && t.modelCalls == s.modelCalls
            && t.executed == (if guarded && readOnly && tool.risk != "read" then s.executed
                              else s.executed + [Executed(run, tool)])
  {
    hide Step;
    CheckDecides(guarded, s, run);
    var t := Step(guarded, s, CheckReadOnly(run));
    if t.runs[run].node.RunTool? {
      ExecuteThenEnd(guarded, t, run);
    } else {
      ThenEnd(guarded, t, run);
    }
  }

  lemma CheckDecides(guarded: bool, s: State, run: nat)
    requires run in s.runs && s.runs[run].node.ExecuteTool?
    requires s.runs[run].node.tool.risk in {"read", "write:internal", "write:external"}
    ensures var tool := s.runs[run].node.tool;
            var readOnly := "global:read_only" in s.flags && s.flags["global:read_only"] == "1";
            var t := Step(guarded, s, CheckReadOnly(run));
            && run in t.runs && t.modelCalls == s.modelCalls && t.executed == s.executed
            && t.runs[run].node == if guarded && readOnly && tool.risk != "read" then CitationAttach else RunTool(tool)
  {
  }

  lemma ExecuteThenEnd(guarded: bool, s: State, run: nat)
    requires run in s.runs && s.runs[run].node.RunTool?
    ensures var t := Step(guarded, Step(guarded, s, Execute(run)), Advance(run));
            && run in t.runs && t.runs[run].node == Finished && t.modelCalls == s.modelCalls
            && t.executed == s.executed + [Executed(run, s.runs[run].node.tool)]
  {
  }

  lemma ThenEnd(guarded: bool, s: State, run: nat)
    requires run in s.runs && s.runs[run].node == CitationAttach
    ensures var t := Step(guarded, Step(guarded, s, Execute(run)), Advance(run));
            && run in t.runs && t.runs[run].node == Finished && t.modelCalls == s.modelCalls
            && t.executed == s.executed
  {
  }

  lemma NothingToExecute(guarded: bool, s: State, run: nat)
    requires run in s.runs && s.runs[run].node == CitationAttach
    ensures var t := Step(guarded, Step(guarded, Step(guarded, s, CheckReadOnly(run)), Execute(run)), Advance(run));
            && run in t.runs && t.runs[run].node == Finished && t.modelCalls == s.modelCalls
            && t.executed == s.executed
  {
    hide Step;
    NothingToCheck(guarded, s, run);
    ThenEnd(guarded, s, run);
  }

  lemma NothingToCheck(guarded: bool, s: State, run: nat)
    requires run in s.runs && s.runs[run].node == CitationAttach
    ensures Step(guarded, s, CheckReadOnly(run)) == s
  {
  }
}
