/** The recipe language and what makes a recipe acceptable (`apps/api/fleet_api/recipes/schema.py`). */
module Recipes {
  import opened Wrappers
  import opened Text
  import opened Template

  /** One of the five allowed actions with its typed parameters. */
  datatype Action =
    | PgQuery(sql: string)
    | AgentRun(agent: string, question: string)
    | SlackPost(channel: string, text: string)
    | EmailSend(to: string, subject: string, body: string)
    | HttpNotify(title: string, message: string)
  {
    function Name(): string {
      match this
      case PgQuery(_) => "pg.query"
      case AgentRun(_, _) => "agent.run"
      case SlackPost(_, _) => "slack.post"
      case EmailSend(_, _, _) => "email.send"
      case HttpNotify(_, _) => "http.notify"
    }

    /** The parameters in the order of the typed model. */
    function Params(): (params: seq<(string, string)>)
      ensures params != []
    {
      match this
      case PgQuery(sql) => [("sql", sql)]
      case AgentRun(agent, question) => [("agent", agent), ("question", question)]
      case SlackPost(channel, text) => [("channel", channel), ("text", text)]
      case EmailSend(to, subject, body) => [("to", to), ("subject", subject), ("body", body)]
      case HttpNotify(title, message) => [("title", title), ("message", message)]
    }

    predicate LengthsOk() {
      match this
      case PgQuery(sql) => 1 <= |sql| <= 4000
      case AgentRun(agent, question) => 1 <= |agent| <= 64 && 1 <= |question| <= 4000
      case SlackPost(channel, text) => 2 <= |channel| <= 80 && 1 <= |text| <= 4000
      case EmailSend(to, subject, body) => 3 <= |to| <= 254 && 1 <= |subject| <= 200 && 1 <= |body| <= 8000
      case HttpNotify(title, message) => 1 <= |title| <= 200 && 1 <= |message| <= 4000
    }
  }

  datatype ActionStep = ActionStep(id: string, action: Action)

  datatype Operator = Eq | Ne | Contains | Gt | Gte | Lt | Lte {
    /** Whether n8n compares numbers rather than strings. */
    predicate Numeric() {
      Gt? || Gte? || Lt? || Lte?
    }
  }

  /** A condition carries two branches of actions and cannot nest. */
  datatype Step =
    | Act(step: ActionStep)
    | If(cid: string, left: string, operator: Operator, right: string,
         thenSteps: seq<ActionStep>, elseSteps: seq<ActionStep>)
  {
    function Id(): string {
      if Act? then step.id else cid
    }

    /** The actions inside, then-branch first. */
    function Branches(): seq<ActionStep> {
      if Act? then [] else thenSteps + elseSteps
    }

    /** Every id the step declares, its own first. */
    function Ids(): seq<string> {
      [Id()] + ActionIds(Branches())
    }

    /** Every text that may hold a reference. */
    function Texts(): seq<string> {
      if Act? then Values(step.action.Params())
      else [left, right] + BranchTexts(Branches())
    }

    /** The ids the step's texts refer to (`_references`). */
    function Refs(): seq<string> {
      TextRefs(Texts())
    }

    predicate WriteExternal() {
      if Act? then step.action.EmailSend?
      else exists i | 0 <= i < |Branches()| :: Branches()[i].action.EmailSend?
    }
  }

  datatype Trigger = Schedule(cron: string) | Manual

  datatype Recipe = Recipe(name: string, trigger: Trigger, steps: seq<Step>)

  function ActionIds(branch: seq<ActionStep>): (ids: seq<string>)
    ensures |ids| == |branch|
    ensures forall i | 0 <= i < |branch| :: ids[i] == branch[i].id
  {
    seq(|branch|, i requires 0 <= i < |branch| => branch[i].id)
  }

  function Values(params: seq<(string, string)>): (values: seq<string>)
    ensures |values| == |params|
    ensures forall i | 0 <= i < |params| :: values[i] == params[i].1
  {
    seq(|params|, i requires 0 <= i < |params| => params[i].1)
  }

  function BranchTexts(branch: seq<ActionStep>): seq<string> {
    if branch == [] then [] else Values(branch[0].action.Params()) + BranchTexts(branch[1..])
  }

  function TextRefs(texts: seq<string>): seq<string> {
    if texts == [] then [] else References(Split(texts[0])) + TextRefs(texts[1..])
  }

  /** Every id declared by `steps`, in order. */
  function AllIds(steps: seq<Step>): seq<string> {
    if steps == [] then [] else AllIds(steps[..|steps| - 1]) + steps[|steps| - 1].Ids()
  }

  predicate Distinct<T(==)>(items: seq<T>) {
    forall i, j | 0 <= i < j < |items| :: items[i] != items[j]
  }

  /** `^[a-z0-9_]{1,64}$` under `match`: the `$` also holds before a final newline. */
  predicate ValidStepId(id: string) {
    var core := if id != "" && id[|id| - 1] == '\n' then id[..|id| - 1] else id;
    1 <= |core| <= 64 && All(IsStepChar, core)
  }

  predicate ActionStepOk(s: ActionStep) {
    && ValidStepId(s.id)
    && s.action.LengthsOk()
    && forall p | p in s.action.Params() :: CheckText(p.1)
  }

  predicate StepOk(s: Step) {
    match s
    case Act(a) => ActionStepOk(a)
    case If(id, left, _, right, thenSteps, elseSteps) =>
      && ValidStepId(id)
      && 1 <= |left| <= 500 && |right| <= 500
      && CheckText(left) && CheckText(right)
      && (thenSteps != [] || elseSteps != [])
      && forall a | a in s.Branches() :: ActionStepOk(a)
  }

  /** No id is declared twice, and a step refers only to ids declared by the steps before it. */
  predicate WellOrdered(steps: seq<Step>) {
    Distinct(AllIds(steps)) && Ordered(steps)
  }

  predicate Ordered(steps: seq<Step>) {
    forall i | 0 <= i < |steps| :: OrderedAt(steps, i)
  }

  predicate OrderedAt(steps: seq<Step>, i: nat)
    requires i < |steps|
  {
    RefsBefore(steps[i].Refs(), AllIds(steps[..i]))
  }

  predicate RefsBefore(refs: seq<string>, ids: seq<string>) {
    forall r | r in refs :: r in ids
  }

  predicate StepsOk(steps: seq<Step>) {
    forall i | 0 <= i < |steps| :: StepOk(steps[i])
  }

  /** A recipe the schema lets through. */
  predicate Accepted(r: Recipe) {
    1 <= |r.steps| <= 20 && StepsOk(r.steps) && WellOrdered(r.steps)
  }

  /** Some step, on any branch, leaves the company. */
  predicate HasWriteExternal(r: Recipe) {
    exists i | 0 <= i < |r.steps| :: r.steps[i].WriteExternal()
  }

  // ---- The validator's loop

  function SetOf(ids: seq<string>): (s: set<string>)
    ensures forall id :: id in s <==> id in ids
  {
    set id | id in ids
  }

  /** `_unique_ids_and_ordered_refs`: one pass that grows `seen`. */
  method CheckIdsAndReferences(steps: seq<Step>) returns (ok: bool)
    ensures ok <==> WellOrdered(steps)
  {
    hide WellOrdered, AllIds, Distinct, SetOf, ActionIds;
    NothingOrdered();
    var seen: set<string> := {};
    for k := 0 to |steps|
      invariant seen == SetOf(AllIds(steps[..k]))
      invariant WellOrdered(steps[..k])
    {
      var step := steps[k];
      assert steps[..0] == [];
      SeenWith(steps, k);
      StepBreaksOrKeeps(steps, k);
      if step.Id() in seen {
        return false;
      }
      seen := seen + {step.Id()};
      var ordered := ReferencesRunBefore(step.Refs(), step.Id(), seen);
      if !ordered {
        return false;
      }
      var unused;
      unused, seen := AddBranchIds(step.Branches(), seen);
      if !unused {
        return false;
      }
    }
    assert steps[..|steps|] == steps;
    return true;
  }

  lemma NothingOrdered()
    ensures WellOrdered([]) && SetOf(AllIds([])) == {}
  {
  }

  lemma SeenWith(steps: seq<Step>, k: nat)
    requires k < |steps|
    ensures SetOf(AllIds(steps[..k + 1]))
         == SetOf(AllIds(steps[..k])) + {steps[k].Id()} + SetOf(ActionIds(steps[k].Branches()))
  {
    hide AllIds, ActionIds;
    AllIdsSnoc(steps, k);
  }

  /** Every reference names an id already seen, and not the step's own. */
  method ReferencesRunBefore(refs: seq<string>, own: string, seen: set<string>) returns (ok: bool)
    ensures ok <==> forall r | r in refs :: r in seen && r != own
  {
    for r := 0 to |refs|
      invariant forall q | 0 <= q < r :: refs[q] in seen && refs[q] != own
    {
      if refs[r] !in seen || refs[r] == own {
        return false;
      }
    }
    return true;
  }

  /** Adds the ids of the branches one by one, stopping at one already seen. */
  method AddBranchIds(branch: seq<ActionStep>, before: set<string>) returns (ok: bool, seen: set<string>)
    ensures ok <==> Distinct(ActionIds(branch)) && SetOf(ActionIds(branch)) !! before
    ensures ok ==> seen == before + SetOf(ActionIds(branch))
  {
    var ids := ActionIds(branch);
    seen := before;
    for b := 0 to |branch|
      invariant seen == before + SetOf(ids[..b])
      invariant Distinct(ids[..b]) && SetOf(ids[..b]) !! before
    {
      if branch[b].id in seen {
        assert ids[b] in SetOf(ids);
        return false, seen;
      }
      assert ids[..b + 1] == ids[..b] + [ids[b]];
      seen := seen + {branch[b].id};
    }
    assert ids[..|ids|] == ids;
    return true, seen;
  }

  lemma AllIdsSnoc(steps: seq<Step>, k: nat)
    requires k < |steps|
    ensures AllIds(steps[..k + 1]) == AllIds(steps[..k]) + steps[k].Ids()
  {
    assert steps[..k + 1][..k] == steps[..k];
  }

  lemma {:induction false} AllIdsPrefix(steps: seq<Step>, k: nat)
    requires k <= |steps|
    ensures AllIds(steps[..k]) <= AllIds(steps)
  {
    if k < |steps| {
      var front := steps[..|steps| - 1];
      assert front[..k] == steps[..k];
      AllIdsPrefix(front, k);
    } else {
      assert steps[..k] == steps;
    }
  }

  /** What one step adds to the order of the steps before it. */
  predicate StepFits(s: Step, before: set<string>) {
    && s.Id() !in before
    && (forall r | r in s.Refs() :: r in before)
    && Distinct(ActionIds(s.Branches()))
    && SetOf(ActionIds(s.Branches())) !! before + {s.Id()}
  }

  lemma StepBreaksOrKeeps(steps: seq<Step>, k: nat)
    requires k < |steps| && WellOrdered(steps[..k])
    ensures StepFits(steps[k], SetOf(AllIds(steps[..k]))) ==> WellOrdered(steps[..k + 1])
    ensures !StepFits(steps[k], SetOf(AllIds(steps[..k]))) ==> !WellOrdered(steps)
  {
    hide AllIds;
    var front, ids := AllIds(steps[..k]), steps[k].Ids();
    AllIdsSnoc(steps, k);
    FitsMeansDistinct(steps[k], front);
    if StepFits(steps[k], SetOf(front)) {
      assert OrderedAt(steps, k);
      OrderedSnoc(steps, k);
    } else {
      AllIdsPrefix(steps, k + 1);
      assert OrderedAt(steps, k) <==> RefsBefore(steps[k].Refs(), front);
      DistinctPrefix(front + ids, AllIds(steps));
    }
  }

  lemma DistinctPrefix(a: seq<string>, b: seq<string>)
    requires a <= b
    ensures Distinct(b) ==> Distinct(a)
  {
  }

  lemma FitsMeansDistinct(s: Step, front: seq<string>)
    requires Distinct(front)
    ensures StepFits(s, SetOf(front)) <==> RefsBefore(s.Refs(), front) && Distinct(front + s.Ids())
  {
    var own, inner := [s.Id()], ActionIds(s.Branches());
    DistinctAppend(front, own + inner);
    DistinctAppend(own, inner);
    assert SetOf(own + inner) == SetOf(own) + SetOf(inner);
    assert SetOf(own) == {s.Id()};
  }

  lemma DistinctAppend(a: seq<string>, b: seq<string>)
    ensures Distinct(a + b) <==> Distinct(a) && Distinct(b) && SetOf(a) !! SetOf(b)
  {
    var all := a + b;
    if Distinct(all) {
      assert a == all[..|a|];
      forall i, j | 0 <= i < j < |b|
        ensures b[i] != b[j]
      {
        assert all[|a| + i] != all[|a| + j];
      }
      forall i, j | 0 <= i < |a| && 0 <= j < |b|
        ensures a[i] != b[j]
      {
        assert all[i] != all[|a| + j];
      }
    } else if Distinct(a) && Distinct(b) {
      var i, j :| 0 <= i < j < |all| && all[i] == all[j];
      assert all[i] in SetOf(a) && all[j] in SetOf(b);
    }
  }

  lemma OrderedSnoc(steps: seq<Step>, k: nat)
    requires k < |steps| && OrderedAt(steps, k)
    requires Ordered(steps[..k])
    ensures Ordered(steps[..k + 1])
  {
    hide AllIds, RefsBefore, Step.Refs;
    var longer := steps[..k + 1];
    forall i | 0 <= i < |longer|
      ensures OrderedAt(longer, i)
    {
      assert longer[..i] == steps[..i];
      if i < k {
        assert OrderedAt(steps[..k], i);
        assert steps[..k][..i] == steps[..i];
      }
    }
  }

  // ---- Acceptance spelled out

  predicate StepName(core: string) {
    1 <= |core| <= 64 && forall i | 0 <= i < |core| :: core[i] == '_' || '0' <= core[i] <= '9' || 'a' <= core[i] <= 'z'
  }

  function Ended(core: string, newline: bool): string {
    core + (if newline then "\n" else "")
  }

  /** A step id is up to 64 lower-case letters, digits and underscores, possibly with one final newline. */
  lemma StepIdsSpelled(id: string)
    ensures ValidStepId(id) <==> exists core, newline :: id == Ended(core, newline) && StepName(core)
  {
    hide *;
    if ValidStepId(id) {
      var core, newline := CoreOfId(id);
    }
    if core, newline :| id == Ended(core, newline) && StepName(core) {
      EndedIsValid(core, newline);
    }
  }

  lemma CoreOfId(id: string) returns (core: string, newline: bool)
    requires ValidStepId(id)
    ensures id == Ended(core, newline) && StepName(core)
  {
    newline := id != "" && id[|id| - 1] == '\n';
    core := if newline then id[..|id| - 1] else id;
    AreStepChars(core);
    assert newline ==> id == id[..|id| - 1] + "\n";
  }

  lemma AreStepChars(core: string)
    ensures 1 <= |core| <= 64 && All(IsStepChar, core) <==> StepName(core)
  {
  }

  lemma EndedIsValid(core: string, newline: bool)
    requires StepName(core)
    ensures ValidStepId(Ended(core, newline))
  {
    hide IsStepChar;
    AreStepChars(core);
    var id := Ended(core, newline);
    assert core[|core| - 1] != '\n';
    assert newline ==> id[..|id| - 1] == core;
    assert !newline ==> id == core;
  }

  /** Text that holds no brace and does not start like an expression. */
  predicate Writable(text: string) {
    '{' !in text && '}' !in text && (text == "" || text[0] != '=')
  }

  lemma {:induction false} BraceFreeHasNoReference(text: string)
    requires '{' !in text
    ensures Find(text) == None
  {
    hide MatchPath, MatchStep, MatchClose;
    assert text != "" ==> text[0] != '{';
    if text != "" {
      BraceFreeHasNoReference(text[1..]);
    }
  }

  lemma SplitWithoutReference(text: string)
    requires References(Split(text)) == []
    ensures Residue(Split(text)) == text
  {
    hide Find, Render, Split, MatchAt;
    SplitLossless(text);
    ResidueIsSource(Split(text));
  }

  lemma {:induction false} ResidueIsSource(segs: seq<Segment>)
    requires References(segs) == []
    ensures Residue(segs) == Source(segs)
  {
    if segs != [] {
      ResidueIsSource(segs[1..]);
    }
  }

  /** A text that refers to nothing is accepted exactly when it is writable. */
  lemma PlainTextAccepted(text: string)
    ensures References(Split(text)) == [] && CheckText(text) <==> Writable(text)
  {
    hide Find, Render, Split;
    if References(Split(text)) == [] {
      SplitWithoutReference(text);
    }
    if Writable(text) {
      BraceFreeHasNoReference(text);
      SplitNone(text);
      hide Split;
      LoneReferences(text);
    }
  }

  lemma LoneReferences(text: string)
    ensures References(Plain(text)) == []
  {
    if text != "" {
      assert Plain(text) == [Lit(text)] && [Lit(text)][1..] == [];
    }
  }

  /** An action whose texts refer to nothing, with the limits of its fields. */
  predicate PlainAction(a: Action) {
    match a
    case PgQuery(sql) => 1 <= |sql| <= 4000 && Writable(sql)
    case AgentRun(agent, question) =>
      1 <= |agent| <= 64 && 1 <= |question| <= 4000 && Writable(agent) && Writable(question)
    case SlackPost(channel, text) =>
      2 <= |channel| <= 80 && 1 <= |text| <= 4000 && Writable(channel) && Writable(text)
    case EmailSend(to, subject, body) =>
      && 3 <= |to| <= 254 && 1 <= |subject| <= 200 && 1 <= |body| <= 8000
      && Writable(to) && Writable(subject) && Writable(body)
    case HttpNotify(title, message) =>
      1 <= |title| <= 200 && 1 <= |message| <= 4000 && Writable(title) && Writable(message)
  }

  lemma {:induction false} TextRefsOf(texts: seq<string>)
    ensures TextRefs(texts) == [] <==> forall i | 0 <= i < |texts| :: References(Split(texts[i])) == []
  {
    hide References, Split, TextRefs;
    FirstTextRefs(texts);
    if texts != [] {
      TextRefsOf(texts[1..]);
      assert forall i | 0 < i < |texts| :: texts[i] == texts[1..][i - 1];
    }
  }

  lemma FirstTextRefs(texts: seq<string>)
    ensures texts == [] ==> TextRefs(texts) == []
    ensures texts != [] ==>
              (TextRefs(texts) == [] <==> References(Split(texts[0])) == [] && TextRefs(texts[1..]) == [])
  {
    hide References, Split;
  }

  /** An action is accepted with texts that refer to nothing exactly when it is plain. */
  lemma PlainActionAccepted(a: ActionStep)
    ensures ActionStepOk(a) && TextRefs(Values(a.action.Params())) == [] <==> ValidStepId(a.id) && PlainAction(a.action)
  {
    hide ValidStepId, CheckText, References, Split, Writable, TextRefs;
    var params := a.action.Params();
    TextRefsOf(Values(params));
    forall i | 0 <= i < |params|
      ensures References(Split(params[i].1)) == [] && CheckText(params[i].1) <==> Writable(params[i].1)
    {
      PlainTextAccepted(params[i].1);
    }
    assert (forall p | p in params :: CheckText(p.1)) <==> forall i | 0 <= i < |params| :: CheckText(params[i].1);
    assert PlainAction(a.action) <==> a.action.LengthsOk() && forall i | 0 <= i < |params| :: Writable(params[i].1) by {
      match a.action
      case PgQuery(sql) => assert params[0].1 == sql;
      case AgentRun(agent, question) => assert params[0].1 == agent && params[1].1 == question;
      case SlackPost(channel, text) => assert params[0].1 == channel && params[1].1 == text;
      case EmailSend(to, subject, body) => assert params[0].1 == to && params[1].1 == subject && params[2].1 == body;
      case HttpNotify(title, message) => assert params[0].1 == title && params[1].1 == message;
    }
  }

  /** A recipe of one action is accepted exactly when its id is valid and the action plain. */
  lemma LoneActionAccepted(name: string, trigger: Trigger, a: ActionStep)
    ensures Accepted(Recipe(name, trigger, [Act(a)])) <==> ValidStepId(a.id) && PlainAction(a.action)
  {
    hide ValidStepId, ActionStepOk, TextRefs, Action.Params, PlainAction;
    var steps := [Act(a)];
    PlainActionAccepted(a);
    assert steps[..0] == [] && AllIds(steps[..0]) == [] && AllIds(steps) == [] + steps[0].Ids();
    assert steps[0].Ids() == [a.id];
    assert OrderedAt(steps, 0) <==> steps[0].Refs() == [] by {
      assert steps[0].Refs() != [] ==> steps[0].Refs()[0] in steps[0].Refs();
    }
  }

  lemma {:induction false} BranchTextRefs(branch: seq<ActionStep>)
    ensures (forall i | 0 <= i < |BranchTexts(branch)| :: References(Split(BranchTexts(branch)[i])) == [])
       <==> forall j | 0 <= j < |branch| :: TextRefs(Values(branch[j].action.Params())) == []
  {
    hide References, Split, TextRefs, Action.Params, Values;
    if branch != [] {
      var first, rest := Values(branch[0].action.Params()), BranchTexts(branch[1..]);
      BranchTextRefs(branch[1..]);
      TextRefsOf(first);
      NoRefsInBoth(first, rest);
      assert BranchTexts(branch) == first + rest;
      assert forall j | 0 < j < |branch| :: branch[j] == branch[1..][j - 1];
    }
  }

  lemma NoRefsInBoth(a: seq<string>, b: seq<string>)
    ensures (forall i | 0 <= i < |a + b| :: References(Split((a + b)[i])) == [])
       <==> && (forall i | 0 <= i < |a| :: References(Split(a[i])) == [])
            && (forall i | 0 <= i < |b| :: References(Split(b[i])) == [])
  {
    hide References, Split;
    var all := a + b;
    assert forall i | 0 <= i < |a| :: all[i] == a[i];
    assert forall i | 0 <= i < |b| :: all[|a| + i] == b[i];
    assert forall i | |a| <= i < |all| :: all[i] == b[i - |a|];
  }

  lemma NoRefsOfCondition(s: Step)
    requires s.If?
    ensures s.Refs() == []
       <==> && References(Split(s.left)) == [] && References(Split(s.right)) == []
            && forall j | 0 <= j < |s.Branches()| :: TextRefs(Values(s.Branches()[j].action.Params())) == []
  {
    hide References, Split, TextRefs, Action.Params, Values, BranchTexts;
    var texts, more := s.Texts(), BranchTexts(s.Branches());
    TextRefsOf(texts);
    BranchTextRefs(s.Branches());
    assert texts[0] == s.left && texts[1] == s.right;
    assert forall i | 0 <= i < |more| :: texts[i + 2] == more[i];
  }

  /** Every action of the branch is plain. */
  predicate PlainBranch(branch: seq<ActionStep>) {
    forall j | 0 <= j < |branch| :: ValidStepId(branch[j].id) && PlainAction(branch[j].action)
  }

  lemma PlainConditionOk(s: Step)
    requires s.If?
    ensures StepOk(s) && s.Refs() == []
       <==> && ValidStepId(s.cid) && 1 <= |s.left| <= 500 && |s.right| <= 500 && Writable(s.left) && Writable(s.right)
            && s.thenSteps + s.elseSteps != [] && PlainBranch(s.thenSteps + s.elseSteps)
  {
    hide ValidStepId, ActionStepOk, TextRefs, Action.Params, PlainAction, Writable, References, Split, CheckText,
         Step.Refs, Values;
    var branch := s.thenSteps + s.elseSteps;
    assert s.Branches() == branch;
    PlainTextAccepted(s.left);
    PlainTextAccepted(s.right);
    NoRefsOfCondition(s);
    forall j | 0 <= j < |branch|
      ensures ActionStepOk(branch[j]) && TextRefs(Values(branch[j].action.Params())) == []
         <==> ValidStepId(branch[j].id) && PlainAction(branch[j].action)
    {
      PlainActionAccepted(branch[j]);
    }
    assert (forall a | a in branch :: ActionStepOk(a)) <==> forall j | 0 <= j < |branch| :: ActionStepOk(branch[j]);
  }

  /** Actions that refer to nothing, under distinct valid ids, are accepted in any number from one to twenty. */
  lemma PlainActionsAccepted(name: string, trigger: Trigger, steps: seq<Step>)
    requires Distinct(AllIds(steps))
    requires forall k | 0 <= k < |steps| ::
               steps[k].Act? && ValidStepId(steps[k].step.id) && PlainAction(steps[k].step.action)
    ensures Accepted(Recipe(name, trigger, steps)) <==> 1 <= |steps| <= 20
  {
    hide ValidStepId, ActionStepOk, TextRefs, Action.Params, PlainAction, AllIds, Distinct;
    forall k | 0 <= k < |steps|
      ensures StepOk(steps[k]) && OrderedAt(steps, k)
    {
      PlainActionAccepted(steps[k].step);
    }
  }

  /** A recipe of one step is accepted exactly when the step is, with ids of its own and no reference. */
  lemma LoneStepAccepted(name: string, trigger: Trigger, s: Step)
    ensures Accepted(Recipe(name, trigger, [s])) <==> StepOk(s) && s.Refs() == [] && Distinct(s.Ids())
  {
    hide StepOk, Step.Refs, Distinct, Step.Ids;
    var steps := [s];
    var none: seq<string> := [];
    assert steps[..0] == [] && AllIds(steps[..0]) == none && none + s.Ids() == s.Ids();
    assert AllIds(steps) == AllIds(steps[..0]) + s.Ids();
    assert RefsBefore(s.Refs(), none) <==> s.Refs() == [] by {
      assert s.Refs() != [] ==> s.Refs()[0] in s.Refs();
    }
    assert OrderedAt(steps, 0) <==> RefsBefore(steps[0].Refs(), AllIds(steps[..0]));
    assert Ordered(steps) <==> OrderedAt(steps, 0);
    assert steps[0] == s && (StepsOk(steps) <==> StepOk(s));
  }

  /** A recipe of one condition whose texts refer to nothing, with the limits of its operands. */
  lemma LoneConditionAccepted(name: string, trigger: Trigger, s: Step)
    requires s.If?
    ensures Accepted(Recipe(name, trigger, [s]))
       <==> && ValidStepId(s.cid) && 1 <= |s.left| <= 500 && |s.right| <= 500 && Writable(s.left) && Writable(s.right)
            && s.thenSteps + s.elseSteps != [] && PlainBranch(s.thenSteps + s.elseSteps)
            && Distinct([s.cid] + ActionIds(s.thenSteps + s.elseSteps))
  {
    hide ValidStepId, StepOk, Step.Refs, Accepted, PlainBranch, Writable, Distinct;
    PlainConditionOk(s);
    LoneStepAccepted(name, trigger, s);
  }
}
