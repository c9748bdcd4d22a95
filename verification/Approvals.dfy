/**
 The approval queue for recipe emails: `email_send` queues, `decide_approval` decides in one
 atomic read-check-commit, and the resumer of the `automation_recipe` agent sends, with other
 requests in between.
 */
module Approvals {
  import opened Wrappers
  import opened Recipients

  const RECIPE_AGENT: string := "automation_recipe"
  const EMAIL_ACTION: string := "email.send"
  const ALLOWED_DOMAINS: set<string> := {"fleet.local", "example.com"}
  const RESUMERS: set<string> :=
    {"dev_agent", "invoice_agent", "hr_agent", "dealer_onboarding", "automation_recipe"}

  datatype Status = Pending | Approved | Rejected

  /** A JSON value of a payload: a string, or any other value with what `str` prints for it. */
  datatype Field = Text(s: string) | Other(printed: string)

  function Str(f: Field): string {
    if f.Text? then f.s else f.printed
  }

  type Payload = map<string, Field>

  datatype Row = Row(agentId: nat, runId: string, action: string, payload: Payload, status: Status,
                     decidedBy: Option<string>)

  /** The agents table; names are unique. */
  datatype Agents = Agents(idOf: map<string, nat>, nameOf: map<nat, string>) {
    predicate Consistent() {
      && (forall name | name in idOf :: idOf[name] in nameOf && nameOf[idOf[name]] == name)
      && (forall id | id in nameOf :: nameOf[id] in idOf && idOf[nameOf[id]] == id)
    }
  }

  /** A committed decision whose resumer has not run yet. */
  datatype Job = Job(runId: string, agent: string, approved: bool)

  datatype Email = Email(to: string, subject: string, body: string)

  /** An email handed to the SMTP sender, and the decided row whose resumer did it. */
  datatype Sent = Sent(row: nat, email: Email)

  /** Rows are numbered in the order of insertion and never deleted; jobs go by the row decided. */
  datatype State = State(rows: seq<Row>, jobs: map<nat, Job>, sent: seq<Sent>)

  datatype Reply = Queued(id: nat) | Decided(id: nat) | Refused(code: nat)

  function EmailPayload(email: Email): Payload {
    map["to" := Text(email.to), "subject" := Text(email.subject), "body" := Text(email.body)]
  }

  /** The email a payload describes; None when a key is missing. */
  function EmailOf(payload: Payload): Option<Email> {
    if "to" in payload && "subject" in payload && "body" in payload
    then Some(Email(Str(payload["to"]), Str(payload["subject"]), Str(payload["body"])))
    else None
  }

  // ---- What each request does

  function QueueEmail(agents: Agents, s: State, email: Email, runId: string): (State, Reply) {
    if !Allowed(email.to, ALLOWED_DOMAINS) then (s, Refused(422))
    else if RECIPE_AGENT !in agents.idOf then (s, Refused(500))
    else
      var row := Row(agents.idOf[RECIPE_AGENT], runId, EMAIL_ACTION, EmailPayload(email), Pending, None);
      (s.(rows := s.rows + [row]), Queued(|s.rows|))
  }

  /** The row as a decision leaves it. */
  function DecidedRow(row: Row, approve: bool, edited: Option<Payload>, approver: string): Row {
    row.(payload := if edited.Some? then edited.value else row.payload,
         status := if approve then Approved else Rejected,
         decidedBy := Some(approver))
  }

  function Resumer(agents: Agents, row: Row): Option<string> {
    if row.agentId in agents.nameOf && agents.nameOf[row.agentId] in RESUMERS
    then Some(agents.nameOf[row.agentId]) else None
  }

  function Decide(agents: Agents, s: State, id: nat, decision: string, edited: Option<Payload>,
                  approver: string): (State, Reply)
  {
    if decision != "approve" && decision != "reject" then (s, Refused(422))
    else if id >= |s.rows| then (s, Refused(404))
    else if s.rows[id].status != Pending then (s, Refused(409))
    else
      match Resumer(agents, s.rows[id])
      case None => (s, Refused(500))
      case Some(agent) =>
        var approve := decision == "approve";
        var row := DecidedRow(s.rows[id], approve, edited, approver);
        (s.(rows := s.rows[id := row], jobs := s.jobs[id := Job(row.runId, agent, approve)]), Decided(id))
  }

  /** The rows of a run, in order. */
  function OfRun(rows: seq<Row>, runId: string): seq<nat> {
    if rows == [] then []
    else OfRun(rows[..|rows| - 1], runId) + (if rows[|rows| - 1].runId == runId then [|rows| - 1] else [])
  }

  lemma {:induction false} OfRunExactly(rows: seq<Row>, runId: string)
    ensures forall i: nat :: i in OfRun(rows, runId) <==> i < |rows| && rows[i].runId == runId
    ensures (forall i | 0 <= i < |rows| :: rows[i].runId != runId) ==> OfRun(rows, runId) == []
  {
    if rows != [] {
      OfRunExactly(rows[..|rows| - 1], runId);
    }
  }

  /** The email the resumer hands over: the only row of the run, read again, names an allowed recipient. */
  function ToSend(rows: seq<Row>, job: Job): Option<Email> {
    var found := OfRun(rows, job.runId);
    if !(job.approved && job.agent == RECIPE_AGENT && |found| == 1 && found[0] < |rows|) then None else
    var row := rows[found[0]];
    if row.action != EMAIL_ACTION then None else
    var email :- EmailOf(row.payload);
    if Allowed(email.to, ALLOWED_DOMAINS) then Some(email) else None
  }

  /** Runs the resumer of a decision; it is not run again, whatever becomes of it. */
  function Resume(s: State, id: nat): State
    requires id in s.jobs
  {
    var email := ToSend(s.rows, s.jobs[id]);
    s.(jobs := s.jobs - {id}, sent := s.sent + (if email.Some? then [Sent(id, email.value)] else []))
  }

  // ---- Runs

  datatype Event =
    | Queue(email: Email, runId: string)
    | OtherRow(row: Row)
    | Decision(id: nat, decision: string, edited: Option<Payload>, approver: string)
    | Resumption(id: nat)
    | Crash(id: nat)

  /** Rows of other agents are queued by their own routers. */
  predicate FromOtherAgent(agents: Agents, row: Row) {
    row.status == Pending && !IsRecipeRow(agents, row)
  }

  function Step(agents: Agents, s: State, e: Event): State {
    match e
    case Queue(email, runId) => QueueEmail(agents, s, email, runId).0
    case OtherRow(row) => if FromOtherAgent(agents, row) then s.(rows := s.rows + [row]) else s
    case Decision(id, decision, edited, approver) => Decide(agents, s, id, decision, edited, approver).0
    case Resumption(id) => if id in s.jobs then Resume(s, id) else s
    case Crash(id) => s.(jobs := s.jobs - {id})
  }

  function Run(agents: Agents, s: State, events: seq<Event>): State
    decreases |events|
  {
    if events == [] then s else Run(agents, Step(agents, s, events[0]), events[1..])
  }

  const START: State := State([], map[], [])

  // ---- Invariant

  predicate IsRecipeRow(agents: Agents, row: Row) {
    row.agentId in agents.nameOf && agents.nameOf[row.agentId] == RECIPE_AGENT
  }

  /** An email is the committed payload of an approved recipe row and goes to an allowed recipient. */
  predicate Accounted(agents: Agents, rows: seq<Row>, sent: Sent) {
    && sent.row < |rows| && rows[sent.row].status == Approved && IsRecipeRow(agents, rows[sent.row])
    && rows[sent.row].action == EMAIL_ACTION && EmailOf(rows[sent.row].payload) == Some(sent.email)
    && Allowed(sent.email.to, ALLOWED_DOMAINS)
  }

  predicate JobOk(agents: Agents, rows: seq<Row>, id: nat, job: Job) {
    && id < |rows| && rows[id].runId == job.runId && Resumer(agents, rows[id]) == Some(job.agent)
    && rows[id].status == (if job.approved then Approved else Rejected)
  }

  predicate Distinct(sent: seq<Sent>) {
    forall i, j | 0 <= i < j < |sent| :: sent[i].row != sent[j].row
  }

  predicate Invariant(agents: Agents, s: State) {
    && (forall i | 0 <= i < |s.sent| :: Accounted(agents, s.rows, s.sent[i]) && s.sent[i].row !in s.jobs)
    && (forall id | id in s.jobs :: JobOk(agents, s.rows, id, s.jobs[id]))
    && Distinct(s.sent)
  }

  /** Decided rows stay as they are. */
  predicate Frozen(rows: seq<Row>, rows': seq<Row>) {
    |rows| <= |rows'| && forall id | 0 <= id < |rows| && rows[id].status != Pending :: rows'[id] == rows[id]
  }

  lemma RowsGrow(agents: Agents, s: State, t: State)
    requires Invariant(agents, s) && Frozen(s.rows, t.rows)
    requires t.sent == s.sent && t.jobs == s.jobs
    ensures Invariant(agents, t)
  {
    hide EmailOf, Allowed, Resumer, IsRecipeRow;
  }

  lemma DecideKeeps(agents: Agents, s: State, id: nat, decision: string, edited: Option<Payload>, approver: string)
    requires Invariant(agents, s)
    ensures var t := Decide(agents, s, id, decision, edited, approver).0;
            Invariant(agents, t) && Frozen(s.rows, t.rows) && t.sent == s.sent
  {
    hide EmailOf, Allowed;
  }

  /** The row a job finds is the row that was decided. */
  lemma JobFindsItsRow(agents: Agents, s: State, id: nat)
    requires id in s.jobs && JobOk(agents, s.rows, id, s.jobs[id])
    requires ToSend(s.rows, s.jobs[id]).Some?
    ensures Accounted(agents, s.rows, Sent(id, ToSend(s.rows, s.jobs[id]).value))
  {
    hide EmailOf, Allowed;
    OfRunExactly(s.rows, s.jobs[id].runId);
    assert id in OfRun(s.rows, s.jobs[id].runId);
  }

  lemma ResumeKeeps(agents: Agents, s: State, id: nat)
    requires Invariant(agents, s) && id in s.jobs
    ensures Invariant(agents, Resume(s, id))
  {
    hide ToSend, Accounted, JobOk;
    if ToSend(s.rows, s.jobs[id]).Some? {
      JobFindsItsRow(agents, s, id);
    }
  }

  lemma StepKeeps(agents: Agents, s: State, e: Event)
    requires Invariant(agents, s)
    ensures Invariant(agents, Step(agents, s, e))
    ensures Frozen(s.rows, Step(agents, s, e).rows)
    ensures s.sent <= Step(agents, s, e).sent
  {
    hide Invariant, QueueEmail, Decide, Resume, Frozen;
    var t := Step(agents, s, e);
    match e
    case Queue(email, runId) =>
      QueueOnlyAppends(agents, s, email, runId);
      RowsGrow(agents, s, t);
    case OtherRow(row) =>
      AppendFreezes(s.rows, row);
      if t.rows != s.rows {
        RowsGrow(agents, s, t);
      }
    case Decision(id, decision, edited, approver) => DecideKeeps(agents, s, id, decision, edited, approver);
    case Resumption(id) =>
      AppendFreezes(s.rows, Row(0, "", "", map[], Pending, None));
      if id in s.jobs {
        ResumeKeeps(agents, s, id);
        ResumeOnlySends(s, id);
      }
    case Crash(id) =>
      CrashKeeps(agents, s, id);
  }

  lemma QueueOnlyAppends(agents: Agents, s: State, email: Email, runId: string)
    ensures var t := QueueEmail(agents, s, email, runId).0;
            Frozen(s.rows, t.rows) && t.sent == s.sent && t.jobs == s.jobs
  {
  }

  lemma AppendFreezes(rows: seq<Row>, row: Row)
    ensures Frozen(rows, rows + [row]) && Frozen(rows, rows)
  {
  }

  lemma ResumeOnlySends(s: State, id: nat)
    requires id in s.jobs
    ensures Frozen(s.rows, Resume(s, id).rows) && s.sent <= Resume(s, id).sent
  {
    hide ToSend;
  }

  lemma CrashKeeps(agents: Agents, s: State, id: nat)
    requires Invariant(agents, s)
    ensures Invariant(agents, s.(jobs := s.jobs - {id})) && Frozen(s.rows, s.rows)
  {
    hide Accounted, JobOk;
  }

  lemma {:induction false} RunKeeps(agents: Agents, s: State, events: seq<Event>)
    requires Invariant(agents, s)
    ensures Invariant(agents, Run(agents, s, events))
    ensures Frozen(s.rows, Run(agents, s, events).rows)
    ensures s.sent <= Run(agents, s, events).sent
    decreases |events|
  {
    hide Invariant, Step;
    if events != [] {
      StepKeeps(agents, s, events[0]);
      RunKeeps(agents, Step(agents, s, events[0]), events[1..]);
    }
  }

  /** After any interleaving every email sent is the payload of its own approved recipe row. */
  lemma EverySentEmailIsApproved(agents: Agents, events: seq<Event>, i: nat)
    requires i < |Run(agents, START, events).sent|
    ensures var s := Run(agents, START, events);
            && Accounted(agents, s.rows, s.sent[i])
            && forall j | 0 <= j < |s.sent| && j != i :: s.sent[j].row != s.sent[i].row
  {
    hide Run;
    RunKeeps(agents, START, events);
  }

  /** What goes out after a decision is the payload committed by it: nothing later changes or repeats it. */
  lemma DecisionFixesEmail(agents: Agents, before: seq<Event>, after: seq<Event>, id: nat, i: nat)
    requires var s := Run(agents, START, before); id < |s.rows| && s.rows[id].status != Pending
    requires var t := Run(agents, Run(agents, START, before), after); i < |t.sent| && t.sent[i].row == id
    ensures var s := Run(agents, START, before);
            && s.rows[id].status == Approved
            && EmailOf(s.rows[id].payload) == Some(Run(agents, s, after).sent[i].email)
  {
    hide Run, EmailOf, Allowed;
    RunKeeps(agents, START, before);
    RunKeeps(agents, Run(agents, START, before), after);
  }

  /** An approver's edit is what goes out. */
  lemma EditedPayloadGoesOut(agents: Agents, before: seq<Event>, id: nat, edited: Payload, approver: string,
                             after: seq<Event>, i: nat)
    requires var s := Run(agents, START, before); id < |s.rows| && s.rows[id].status == Pending
    requires var s := Run(agents, START, before); Resumer(agents, s.rows[id]).Some?
    requires var t := Run(agents, Step(agents, Run(agents, START, before),
                                       Decision(id, "approve", Some(edited), approver)), after);
             i < |t.sent| && t.sent[i].row == id
    ensures var t := Run(agents, Step(agents, Run(agents, START, before),
                                      Decision(id, "approve", Some(edited), approver)), after);
            EmailOf(edited) == Some(t.sent[i].email)
  {
    hide Run, EmailOf, Allowed;
    RunKeeps(agents, START, before);
    var s := Run(agents, START, before);
    var decided := Step(agents, s, Decision(id, "approve", Some(edited), approver));
    StepKeeps(agents, s, Decision(id, "approve", Some(edited), approver));
    RunKeeps(agents, decided, after);
  }

  /** Queued under a new run id, approved unchanged and resumed, an email goes out exactly as it was queued. */
  lemma QueuedApprovedSent(agents: Agents, s: State, email: Email, runId: string, approver: string)
    requires agents.Consistent() && RECIPE_AGENT in agents.idOf
    requires Allowed(email.to, ALLOWED_DOMAINS)
    requires forall i | 0 <= i < |s.rows| :: s.rows[i].runId != runId
    ensures var queued := QueueEmail(agents, s, email, runId).0;
            var decided := Decide(agents, queued, |s.rows|, "approve", None, approver).0;
            && queued.sent == s.sent && decided.sent == s.sent && |s.rows| in decided.jobs
            && Resume(decided, |s.rows|).sent == s.sent + [Sent(|s.rows|, email)]
  {
    hide Allowed, OfRun;
    var queued := QueueEmail(agents, s, email, runId).0;
    var decided := Decide(agents, queued, |s.rows|, "approve", None, approver).0;
    OnlyRowOfRun(s.rows, decided.rows[|s.rows|], runId);
    assert decided.rows == s.rows + [decided.rows[|s.rows|]];
  }

  lemma OnlyRowOfRun(rows: seq<Row>, row: Row, runId: string)
    requires row.runId == runId && forall i | 0 <= i < |rows| :: rows[i].runId != runId
    ensures OfRun(rows + [row], runId) == [|rows|]
  {
    OfRunExactly(rows, runId);
    assert (rows + [row])[..|rows|] == rows;
  }

  /**
   A pending recipe email that is alone in its run is sent once it is approved and resumed, as it stands or
   as it was edited; rejected and resumed it is not.
   */
  lemma DecidedThenResumed(agents: Agents, s: State, id: nat, edited: Option<Payload>, approver: string, email: Email)
    requires agents.Consistent() && id < |s.rows| && s.rows[id].status == Pending
    requires IsRecipeRow(agents, s.rows[id]) && s.rows[id].action == "email.send"
    requires forall i | 0 <= i < |s.rows| && i != id :: s.rows[i].runId != s.rows[id].runId
    requires EmailOf(if edited.Some? then edited.value else s.rows[id].payload) == Some(email)
    requires Allowed(email.to, {"fleet.local", "example.com"})
    ensures var approved := Decide(agents, s, id, "approve", edited, approver).0;
            id in approved.jobs && Resume(approved, id).sent == s.sent + [Sent(id, email)]
    ensures var rejected := Decide(agents, s, id, "reject", edited, approver).0;
            id in rejected.jobs && Resume(rejected, id).sent == s.sent
  {
    hide Allowed, OfRun, EmailOf;
    var rows := Decide(agents, s, id, "approve", edited, approver).0.rows;
    OfRunExactly(rows, s.rows[id].runId);
    LoneOfRun(rows, s.rows[id].runId, id);
  }

  lemma {:induction false} LoneOfRun(rows: seq<Row>, runId: string, id: nat)
    requires id < |rows| && rows[id].runId == runId
    requires forall i | 0 <= i < |rows| && i != id :: rows[i].runId != runId
    ensures OfRun(rows, runId) == [id]
  {
    var n := |rows| - 1;
    if id < n {
      LoneOfRun(rows[..n], runId, id);
    } else {
      OfRunExactly(rows[..n], runId);
    }
  }

  /** A pending row of any other agent is queued behind the rest. */
  lemma OtherRowsAreQueued(agents: Agents, s: State, row: Row)
    requires row.status == Pending
    requires row.agentId in agents.nameOf ==> agents.nameOf[row.agentId] != "automation_recipe"
    ensures Step(agents, s, OtherRow(row)) == s.(rows := s.rows + [row])
  {
  }

  /** The agents whose rows can be decided: those that have a resumer. */
  lemma ResumersSpelled(agents: Agents, row: Row)
    ensures Resumer(agents, row).Some?
       <==> && row.agentId in agents.nameOf
            && var name := agents.nameOf[row.agentId];
               || name == "dev_agent" || name == "invoice_agent" || name == "hr_agent"
               || name == "dealer_onboarding" || name == "automation_recipe"
    ensures Resumer(agents, row).Some? ==> Resumer(agents, row).value == agents.nameOf[row.agentId]
  {
  }

  /** The payload says this under the key, as a string or as something printed as it. */
  predicate Says(payload: Payload, key: string, s: string) {
    key in payload && (payload[key] == Text(s) || payload[key] == Other(s))
  }

  /** A payload describes an email exactly when it says its three parts, each under its own key. */
  lemma EmailOfExactly(payload: Payload, email: Email)
    ensures EmailOf(payload) == Some(email)
       <==> && Says(payload, "to", email.to) && Says(payload, "subject", email.subject)
            && Says(payload, "body", email.body)
  {
  }

  /** Every email sent is what the committed payload of its row says, and goes to one of the two domains. */
  lemma SentEmailsAreCommitted(agents: Agents, events: seq<Event>, i: nat)
    requires i < |Run(agents, START, events).sent|
    ensures var s := Run(agents, START, events); var sent := s.sent[i]; var email := sent.email;
            && sent.row < |s.rows| && s.rows[sent.row].status == Approved && s.rows[sent.row].action == "email.send"
            && Says(s.rows[sent.row].payload, "to", email.to)
            && Says(s.rows[sent.row].payload, "subject", email.subject)
            && Says(s.rows[sent.row].payload, "body", email.body)
            && exists local, newline ::
                 && Part(local)
                 && (email.to == Address(local, "fleet.local", newline)
                     || email.to == Address(local, "example.com", newline))
  {
    hide Run, EmailOf, Allowed, Says, Part, Address;
    EverySentEmailIsApproved(agents, events, i);
    var s := Run(agents, START, events);
    var sent := s.sent[i];
    EmailOfExactly(s.rows[sent.row].payload, sent.email);
    AllowedExactly(sent.email.to, ALLOWED_DOMAINS);
    var local, domain, newline :|
      sent.email.to == Address(local, domain, newline) && Part(local) && Part(domain) && domain in ALLOWED_DOMAINS;
    assert domain == "fleet.local" || domain == "example.com";
  }

  // ---- The requests as the routers carry them out

  class Desk {
    const agents: Agents
    var rows: seq<Row>
    var jobs: map<nat, Job>
    var sent: seq<Sent>

    function Model(): State
      reads this
    {
      State(rows, jobs, sent)
    }

    constructor (agents: Agents)
      requires agents.Consistent()
      ensures Model() == START && this.agents == agents
    {
      this.agents := agents;
      rows, jobs, sent := [], map[], [];
    }

    /** `email_send`: queues and never sends. */
    method EmailSend(email: Email, runId: string) returns (reply: Reply)
      modifies this`rows
      ensures (Model(), reply) == QueueEmail(agents, old(Model()), email, runId)
    {
      if !Allowed(email.to, ALLOWED_DOMAINS) {
        return Refused(422);
      }
      if RECIPE_AGENT !in agents.idOf {
        return Refused(500);
      }
      var approval := Row(agents.idOf[RECIPE_AGENT], runId, EMAIL_ACTION, EmailPayload(email), Pending, None);
      rows := rows + [approval];
      return Queued(|rows| - 1);
    }

    /** `decide_approval` up to its commit, which leaves the resumption as a job. */
    method DecideApproval(id: nat, decision: string, edited: Option<Payload>, approver: string) returns (reply: Reply)
      modifies this`rows, this`jobs
      ensures (Model(), reply) == Decide(agents, old(Model()), id, decision, edited, approver)
    {
      if decision != "approve" && decision != "reject" {
        return Refused(422);
      }
      if id >= |rows| {
        return Refused(404);
      }
      var approval := rows[id];
      if approval.status != Pending {
        return Refused(409);
      }
      if edited.Some? {
        approval := approval.(payload := edited.value);
      }
      if approval.agentId !in agents.nameOf || agents.nameOf[approval.agentId] !in RESUMERS {
        return Refused(500);
      }
      approval := approval.(status := if decision == "approve" then Approved else Rejected);
      approval := approval.(decidedBy := Some(approver));
      rows := rows[id := approval];
      jobs := jobs[id := Job(approval.runId, agents.nameOf[approval.agentId], decision == "approve")];
      return Decided(id);
    }

    /** The awaited resumer: `_resume_automation_recipe`, or another agent's, which sends nothing here. */
    method RunResumer(id: nat)
      requires id in jobs
      modifies this`jobs, this`sent
      ensures Model() == Resume(old(Model()), id)
    {
      var job := jobs[id];
      jobs := jobs - {id};
      if job.agent != RECIPE_AGENT || !job.approved {
        return;
      }
      var found := OfRun(rows, job.runId);
      OfRunExactly(rows, job.runId);
      if |found| != 1 {
        return;
      }
      assert found[0] in found;
      var approval := rows[found[0]];
      if approval.action != EMAIL_ACTION {
        return;
      }
      var email := EmailOf(approval.payload);
      if email.None? || !Allowed(email.value.to, ALLOWED_DOMAINS) {
        return;
      }
      sent := sent + [Sent(id, email.value)];
    }
  }
}
