/** `compile_recipe`: one pass over the steps, proved to build the workflow of the recipe. */
module RecipeCompiler {
  import opened Wrappers
  import opened Template
  import opened JsExpression
  import opened Recipes
  import opened Operands
  import opened Workflows
  import opened Naming
  import opened Patching
  import opened Compiler

  // ---- Resolving against the names so far is resolving against all names

  ghost predicate Consistent(names: NameMap, full: NameMap) {
    forall id | id in names :: id in full && full[id] == names[id]
  }

  lemma {:induction false} RefInReferences(segs: seq<Segment>, i: nat)
    requires i < |segs| && segs[i].Ref?
    ensures segs[i].ref.step in References(segs)
  {
    if i > 0 {
      RefInReferences(segs[1..], i - 1);
    }
  }

  lemma TextTermsAgree(value: string, names: NameMap, full: NameMap)
    requires Consistent(names, full) && FirstUnknown(References(Split(value)), names) == None
    ensures TextTerms(value, names) == TextTerms(value, full)
  {
    hide Split, References, FirstUnknown;
    var segs := Split(value);
    FirstUnknownNone(References(segs), names);
    forall i | 0 <= i < |segs|
      ensures TermOf(segs[i], names) == TermOf(segs[i], full)
    {
      if segs[i].Ref? {
        RefInReferences(segs, i);
      }
    }
    assert Terms(segs, names) == Terms(segs, full);
  }

  lemma {:induction false} ParamUnknown(params: seq<(string, string)>, i: nat, names: NameMap)
    requires i < |params| && FirstUnknown(TextRefs(Values(params)), names) == None
    ensures FirstUnknown(References(Split(params[i].1)), names) == None
  {
    hide Split, References, TextRefs, FirstUnknown;
    ParamRefsSplit(params, i);
    var own := References(Split(params[i].1));
    var before, after := TextRefs(Values(params[..i])), TextRefs(Values(params[i + 1..]));
    FirstUnknownAppend(before, own, names);
    FirstUnknownAppend(before + own, after, names);
  }

  lemma HttpNodeAgrees(step: ActionStep, names: NameMap, full: NameMap, position: Position)
    requires Consistent(names, full) && FirstUnknown(TextRefs(Values(step.action.Params())), names) == None
    ensures HttpNodeOf(step, names, position) == HttpNodeOf(step, full, position)
  {
    hide TextTerms, TextRefs, FirstUnknown, Consistent, PrintBody;
    var params := step.action.Params();
    forall i | 0 <= i < |params|
      ensures TextTerms(params[i].1, names) == TextTerms(params[i].1, full)
    {
      ParamUnknown(params, i, names);
      TextTermsAgree(params[i].1, names, full);
    }
    assert ParamFields(params, names) == ParamFields(params, full);
  }

  lemma IfNodeAgrees(s: Step, names: NameMap, full: NameMap, position: Position)
    requires s.If? && Consistent(names, full)
    requires FirstUnknown(References(Split(s.right)) + References(Split(s.left)), names) == None
    ensures IfNodeOf(s, names, position) == IfNodeOf(s, full, position)
  {
    hide TextTerms, References, Split, FirstUnknown, Consistent, LoadScalar, PrintParam;
    FirstUnknownAppend(References(Split(s.right)), References(Split(s.left)), names);
    TextTermsAgree(s.left, names, full);
    TextTermsAgree(s.right, names, full);
  }

  // ---- Names while a step is compiled

  function NamesAfter(names: NameMap, branch: seq<ActionStep>): NameMap {
    if branch == [] then names
    else
      var n := |branch| - 1;
      NamesAfter(names, branch[..n])[branch[n].id := ActionName(branch[n])]
  }

  lemma {:induction false} NamesAfterConsistent(names: NameMap, branch: seq<ActionStep>, full: NameMap)
    requires Consistent(names, full)
    requires forall a | a in branch :: a.id in full && full[a.id] == ActionName(a)
    ensures Consistent(NamesAfter(names, branch), full)
    ensures names.Keys <= NamesAfter(names, branch).Keys
  {
    if branch != [] {
      NamesAfterConsistent(names, branch[..|branch| - 1], full);
    }
  }

  lemma {:induction false} NamesAfterAppend(names: NameMap, a: seq<ActionStep>, b: seq<ActionStep>)
    ensures NamesAfter(names, a + b) == NamesAfter(NamesAfter(names, a), b)
  {
    if b == [] {
      assert a + b == a;
    } else {
      var n := |b| - 1;
      assert (a + b)[..|a + b| - 1] == a + b[..n];
      NamesAfterAppend(names, a, b[..n]);
    }
  }

  lemma {:induction false} NamesAfterIsZip(ids: seq<string>, names: seq<string>, branch: seq<ActionStep>)
    requires |ids| == |names|
    ensures Zip(ids + ActionIds(branch), names + ActionNames(branch)) == NamesAfter(Zip(ids, names), branch)
  {
    hide Zip, ActionName, SetOf;
    if branch == [] {
      assert ids + ActionIds(branch) == ids && names + ActionNames(branch) == names;
    } else {
      var n := |branch| - 1;
      var init := branch[..n];
      NamesAfterIsZip(ids, names, init);
      assert ids + ActionIds(branch) == (ids + ActionIds(init)) + [branch[n].id];
      assert names + ActionNames(branch) == (names + ActionNames(init)) + [ActionName(branch[n])];
      ZipSnoc(ids + ActionIds(init), names + ActionNames(init), branch[n].id, ActionName(branch[n]));
    }
  }

  /** Declaring a step's own name and then its branches gives the names after the step. */
  lemma NamesAfterStep(steps: seq<Step>, k: nat)
    requires k < |steps|
    ensures Names(steps[..k + 1])
            == NamesAfter(Names(steps[..k])[steps[k].Id() := NodeName(steps[k])], steps[k].Branches())
  {
    hide Zip;
    var s := steps[k];
    var ids, names := AllIds(steps[..k]), AllNames(steps[..k]);
    AllIdsSnoc(steps, k);
    AllNamesSnoc(steps, k);
    assert ids + s.Ids() == (ids + [s.Id()]) + ActionIds(s.Branches());
    assert names + StepNames(s) == (names + [NodeName(s)]) + ActionNames(s.Branches());
    ZipSnoc(ids, names, s.Id(), NodeName(s));
    NamesAfterIsZip(ids + [s.Id()], names + [NodeName(s)], s.Branches());
  }

  // ---- One branch

  /** What a well-formed branch finds when its compilation starts. */
  ghost predicate BranchReady(branch: seq<ActionStep>, names: NameMap, full: NameMap, links: Links, source: string) {
    && Consistent(names, full)
    && (forall a | a in branch :: a.id in full && full[a.id] == ActionName(a))
    && (forall a | a in branch :: forall r | r in TextRefs(Values(a.action.Params())) :: r in names)
    && Distinct(ActionNames(branch))
    && SetOf(ActionNames(branch)) !! links.Keys + {source}
  }

  lemma BranchNodeAgrees(branch: seq<ActionStep>, j: nat, names: NameMap, full: NameMap, links: Links, source: string,
                         position: Position)
    requires j < |branch| && BranchReady(branch, names, full, links, source)
    ensures var current := NamesAfter(names, branch[..j + 1]);
            Checked(TextRefs(Values(branch[j].action.Params())), current, HttpNodeOf(branch[j], current, position))
            == Success(HttpNodeOf(branch[j], full, position))
  {
    hide FirstUnknown, TextRefs, HttpNodeOf;
    var current := NamesAfter(names, branch[..j + 1]);
    var refs := TextRefs(Values(branch[j].action.Params()));
    NamesAfterConsistent(names, branch[..j + 1], full);
    assert branch[j] in branch;
    FirstUnknownNone(refs, current);
    HttpNodeAgrees(branch[j], current, full, position);
  }

  datatype BranchResult = BranchResult(nodes: seq<Node>, names: NameMap, end: (string, nat))

  /** What compiling `branch` from an output of `source` comes to. */
  function BranchCompiled(branch: seq<ActionStep>, names: NameMap, full: NameMap, source: string, output: nat,
                          column: nat, row: int): BranchResult {
    BranchResult(BranchNodes(branch, full, column, row), NamesAfter(names, branch), BranchEnd(branch, source, output))
  }

  /** The inner loop over a branch, entered from an output of the condition. */
  method CompileBranch(connections: Connections, source: string, output: nat, branch: seq<ActionStep>,
                       nodeNames: NameMap, column: nat, row: int, ghost full: NameMap)
    returns (r: Result<BranchResult, string>)
    modifies connections
    ensures BranchReady(branch, nodeNames, full, old(connections.data), source) ==>
              && r == Success(BranchCompiled(branch, nodeNames, full, source, output, column, row))
              && connections.data == Grown(old(connections.data), source, output, branch)
  {
    hide HttpNodeOf, Grown, Linked, TextRefs, FirstUnknown, BranchReady, BranchCompiled;
    ghost var links := connections.data;
    ghost var ready := BranchReady(branch, nodeNames, full, links, source);
    var names := nodeNames;
    var nodes: seq<Node> := [];
    var end := (source, output);
    NothingCompiled(links, nodeNames, full, source, output, column, row);
    for j := 0 to |branch|
      invariant ready ==>
                  BranchResult(nodes, names, end)
                  == BranchCompiled(branch[..j], nodeNames, full, source, output, column, row)
      invariant ready ==> connections.data == Grown(links, source, output, branch[..j])
    {
      if ready {
        BranchStep(branch, j, nodeNames, full, links, source, output, column, row);
      }
      var step := branch[j];
      names := names[step.id := ActionName(step)];
      var node := HttpNode(step, names, At(column + 1 + j, row));
      if node.Failure? {
        return Failure(node.error);
      }
      nodes := nodes + [node.value];
      connections.Add(end.0, end.1, ActionName(step));
      end := (ActionName(step), 0);
    }
    assert branch[..|branch|] == branch;
    return Success(BranchResult(nodes, names, end));
  }

  lemma NothingCompiled(links: Links, names: NameMap, full: NameMap, source: string, output: nat, column: nat, row: int)
    ensures Grown(links, source, output, []) == links
    ensures BranchCompiled([], names, full, source, output, column, row) == BranchResult([], names, (source, output))
  {
  }

  /** One action further along a well-formed branch. */
  lemma BranchStep(branch: seq<ActionStep>, j: nat, names: NameMap, full: NameMap, links: Links, source: string,
                   output: nat, column: nat, row: int)
    requires j < |branch| && BranchReady(branch, names, full, links, source)
    ensures var done := BranchCompiled(branch[..j], names, full, source, output, column, row);
            var current := done.names[branch[j].id := ActionName(branch[j])];
            var position := At(column + 1 + j, row);
            && Checked(TextRefs(Values(branch[j].action.Params())), current, HttpNodeOf(branch[j], current, position))
               == Success(HttpNodeOf(branch[j], full, position))
            && BranchCompiled(branch[..j + 1], names, full, source, output, column, row)
               == BranchResult(done.nodes + [HttpNodeOf(branch[j], full, position)], current,
                               (ActionName(branch[j]), 0))
            && Linked(Grown(links, source, output, branch[..j]), done.end.0, done.end.1, ActionName(branch[j]))
               == Grown(links, source, output, branch[..j + 1])
  {
    hide Grown, Linked, HttpNodeOf, TextRefs, Checked, BranchReady, ActionName;
    var position := At(column + 1 + j, row);
    BranchNodeAgrees(branch, j, names, full, links, source, position);
    GrowReadyBranch(branch, j, names, full, links, source, output);
    assert branch[..j + 1][..j] == branch[..j];
    assert BranchNodes(branch[..j + 1], full, column, row)
        == BranchNodes(branch[..j], full, column, row) + [HttpNodeOf(branch[j], full, position)];
  }

  lemma GrowReadyBranch(branch: seq<ActionStep>, j: nat, names: NameMap, full: NameMap, links: Links, source: string,
                        output: nat)
    requires j < |branch| && BranchReady(branch, names, full, links, source)
    ensures var end := BranchEnd(branch[..j], source, output);
            Linked(Grown(links, source, output, branch[..j]), end.0, end.1, ActionName(branch[j]))
            == Grown(links, source, output, branch[..j + 1])
  {
    GrowBranch(links, source, output, branch, j);
  }

  // ---- The whole recipe

  /** What the main loop holds after `k` steps. */
  datatype Progress = Progress(nodes: seq<Node>, names: NameMap, pending: Pending, column: nat)

  function Reached(recipe: Recipe, k: nat): Progress
    requires k <= |recipe.steps|
  {
    var done := recipe.steps[..k];
    Progress(TriggerNodes(recipe) + Nodes(done, Names(recipe.steps)), Names(done), Ends(recipe.trigger, done),
             Columns(done))
  }

  function ReachedLinks(recipe: Recipe, k: nat): Links
    requires k <= |recipe.steps|
  {
    AllLinks(recipe.trigger, recipe.steps[..k], None)
  }

  // ---- What an accepted recipe provides at each step

  lemma NamesOfPrefixConsistent(steps: seq<Step>, k: nat)
    requires k <= |steps| && Distinct(AllIds(steps))
    ensures Consistent(Names(steps[..k]), Names(steps))
  {
    hide AllIds, AllNames, Zip;
    AllIdsPrefix(steps, k);
    AllNamesPrefix(steps, k);
    var ids := AllIds(steps[..k]);
    DistinctPrefix(ids, AllIds(steps));
    forall id | id in Names(steps[..k])
      ensures id in Names(steps) && Names(steps)[id] == Names(steps[..k])[id]
    {
      var i :| 0 <= i < |ids| && ids[i] == id;
      ZipAt(ids, AllNames(steps[..k]), i);
      ZipAt(AllIds(steps), AllNames(steps), i);
    }
  }

  lemma OwnName(steps: seq<Step>, k: nat, b: nat)
    requires k < |steps| && Distinct(AllIds(steps)) && b < |steps[k].Ids()|
    ensures var id := steps[k].Ids()[b]; id in Names(steps) && Names(steps)[id] == StepNames(steps[k])[b]
  {
    hide AllIds, AllNames, Zip, StepNames, Step.Ids, Distinct;
    AllIdsSnoc(steps, k);
    AllNamesSnoc(steps, k);
    AllIdsPrefix(steps, k + 1);
    AllNamesPrefix(steps, k + 1);
    ZipAt(AllIds(steps), AllNames(steps), |AllIds(steps[..k])| + b);
  }

  lemma RefsKnown(steps: seq<Step>, k: nat)
    requires k < |steps| && Ordered(steps)
    ensures forall r | r in steps[k].Refs() :: r in Names(steps[..k])
  {
    assert OrderedAt(steps, k);
  }

  lemma NamesOfPrefixDistinct(steps: seq<Step>, k: nat)
    requires k <= |steps| && Distinct(AllIds(steps))
    ensures Distinct(AllNames(steps[..k]))
    ensures SCHEDULE !in AllNames(steps[..k]) && MANUAL !in AllNames(steps[..k])
  {
    AllIdsPrefix(steps, k);
    DistinctPrefix(AllIds(steps[..k]), AllIds(steps));
    NamesDistinct(steps[..k]);
  }

  lemma PendingPatched(recipe: Recipe, k: nat)
    requires k < |recipe.steps| && Accepted(recipe)
    ensures LinkAll(ReachedLinks(recipe, k), Ends(recipe.trigger, recipe.steps[..k]), NodeName(recipe.steps[k]))
            == AllLinks(recipe.trigger, recipe.steps[..k], Some(NodeName(recipe.steps[k])))
  {
    hide LinkAll, AllLinks, AllNames, Ends;
    NamesOfPrefixDistinct(recipe.steps, k);
    EndsPatched(recipe.trigger, recipe.steps[..k], NodeName(recipe.steps[k]));
  }

  lemma ReachedLinksStep(recipe: Recipe, k: nat)
    requires k < |recipe.steps|
    ensures ReachedLinks(recipe, k + 1)
            == AllLinks(recipe.trigger, recipe.steps[..k], Some(NodeName(recipe.steps[k])))
               + StepLinks(recipe.steps[k], None)
  {
    hide StepLinks;
    assert recipe.steps[..k + 1][..k] == recipe.steps[..k];
  }

  lemma ReachedStep(recipe: Recipe, k: nat)
    requires k < |recipe.steps|
    ensures var p, s, full := Reached(recipe, k), recipe.steps[k], Names(recipe.steps);
            Reached(recipe, k + 1)
            == Progress(p.nodes + StepNodes(s, full, p.column + 1),
                        NamesAfter(p.names[s.Id() := NodeName(s)], s.Branches()), StepEnds(s), p.column + Width(s))
  {
    hide StepNodes, StepEnds, Names, NamesAfter, Width;
    assert recipe.steps[..k + 1][..k] == recipe.steps[..k];
    NamesAfterStep(recipe.steps, k);
    var full := Names(recipe.steps);
    var done := recipe.steps[..k];
    assert TriggerNodes(recipe) + (Nodes(done, full) + StepNodes(recipe.steps[k], full, Columns(done) + 1))
        == TriggerNodes(recipe) + Nodes(done, full) + StepNodes(recipe.steps[k], full, Columns(done) + 1);
  }

  /** Names after the step's own declaration: consistent with the final ones, and enough for its references. */
  lemma OwnDeclared(recipe: Recipe, k: nat)
    requires k < |recipe.steps| && Accepted(recipe)
    ensures var s := recipe.steps[k];
            var names := Names(recipe.steps[..k])[s.Id() := NodeName(s)];
            Consistent(names, Names(recipe.steps)) && forall r | r in s.Refs() :: r in names
  {
    hide Names, AllIds;
    NamesOfPrefixConsistent(recipe.steps, k);
    OwnName(recipe.steps, k, 0);
    RefsKnown(recipe.steps, k);
  }

  lemma ActionReaches(recipe: Recipe, k: nat)
    requires k < |recipe.steps| && Accepted(recipe) && recipe.steps[k].Act?
    ensures var p, step, full := Reached(recipe, k), recipe.steps[k].step, Names(recipe.steps);
            var names := p.names[step.id := ActionName(step)];
            var position := At(p.column + 1, 0);
            && Checked(TextRefs(Values(step.action.Params())), names, HttpNodeOf(step, names, position))
               == Success(HttpNodeOf(step, full, position))
            && Reached(recipe, k + 1)
               == Progress(p.nodes + [HttpNodeOf(step, full, position)], names, [(ActionName(step), 0)], p.column + 1)
            && LinkAll(ReachedLinks(recipe, k), p.pending, ActionName(step)) == ReachedLinks(recipe, k + 1)
  {
    hide HttpNodeOf, TextRefs, FirstUnknown, AllLinks, LinkAll, Names, Ends, Nodes, Columns, Accepted;
    var p, step, full := Reached(recipe, k), recipe.steps[k].step, Names(recipe.steps);
    var names := p.names[step.id := ActionName(step)];
    var position := At(p.column + 1, 0);
    OwnDeclared(recipe, k);
    FirstUnknownNone(TextRefs(Values(step.action.Params())), names);
    HttpNodeAgrees(step, names, full, position);
    ReachedStep(recipe, k);
    PendingPatched(recipe, k);
    ReachedLinksStep(recipe, k);
    var links := AllLinks(recipe.trigger, recipe.steps[..k], Some(ActionName(step)));
    assert links + map[] == links;
  }

  lemma {:induction false} BranchRefs(branch: seq<ActionStep>, i: nat, r: string)
    requires i < |branch| && r in TextRefs(Values(branch[i].action.Params()))
    ensures r in TextRefs(BranchTexts(branch))
  {
    hide Values, References, TextRefs, Split;
    var own, rest := Values(branch[0].action.Params()), BranchTexts(branch[1..]);
    TextRefsAppend(own, rest);
    if i > 0 {
      BranchRefs(branch[1..], i - 1, r);
    }
  }

  lemma ConditionRefs(s: Step)
    requires s.If?
    ensures forall r | r in References(Split(s.right)) + References(Split(s.left)) :: r in s.Refs()
    ensures forall a | a in s.Branches() :: forall r | r in TextRefs(Values(a.action.Params())) :: r in s.Refs()
  {
    hide Values, References, Split, BranchTexts, TextRefs;
    TextRefsAppend([s.left] + [s.right], BranchTexts(s.Branches()));
    TextRefsAppend([s.left], [s.right]);
    TextRefsOne(s.left);
    TextRefsOne(s.right);
    assert s.Texts() == [s.left] + [s.right] + BranchTexts(s.Branches());
    forall a, r | a in s.Branches() && r in TextRefs(Values(a.action.Params()))
      ensures r in s.Refs()
    {
      var i :| 0 <= i < |s.Branches()| && s.Branches()[i] == a;
      BranchRefs(s.Branches(), i, r);
    }
  }

  lemma BranchIdAndName(s: Step, i: nat)
    requires i < |s.Branches()|
    ensures i + 1 < |s.Ids()|
    ensures s.Ids()[i + 1] == s.Branches()[i].id && StepNames(s)[i + 1] == ActionName(s.Branches()[i])
  {
    hide ActionName;
  }

  lemma OwnBranchNames(steps: seq<Step>, k: nat)
    requires k < |steps| && Distinct(AllIds(steps))
    ensures forall a | a in steps[k].Branches() :: a.id in Names(steps) && Names(steps)[a.id] == ActionName(a)
  {
    hide *;
    var branch := steps[k].Branches();
    forall a | a in branch
      ensures a.id in Names(steps) && Names(steps)[a.id] == ActionName(a)
    {
      var i :| 0 <= i < |branch| && branch[i] == a;
      BranchIdAndName(steps[k], i);
      OwnName(steps, k, i + 1);
    }
  }

  /** The names of step `k` are distinct and unused so far. */
  lemma OwnNamesApart(recipe: Recipe, k: nat, next: Option<string>)
    requires k < |recipe.steps| && Accepted(recipe)
    ensures Distinct(StepNames(recipe.steps[k]))
    ensures SetOf(StepNames(recipe.steps[k])) !! AllLinks(recipe.trigger, recipe.steps[..k], next).Keys
  {
    hide StepNames, AllLinks, AllNames, AllIds, Distinct;
    var steps, s := recipe.steps, recipe.steps[k];
    NamesOfPrefixDistinct(steps, k + 1);
    AllNamesSnoc(steps, k);
    DistinctAppend(AllNames(steps[..k]), StepNames(s));
    AllLinksKeys(recipe.trigger, steps[..k], next);
    assert forall name | name in StepNames(s) :: name in AllNames(steps[..k + 1]);
  }

  lemma BranchesReady(s: Step, names: NameMap, full: NameMap, links: Links)
    requires s.If? && Consistent(names, full) && (forall r | r in s.Refs() :: r in names)
    requires forall a | a in s.Branches() :: a.id in full && full[a.id] == ActionName(a)
    requires Distinct(StepNames(s)) && SetOf(StepNames(s)) !! links.Keys
    ensures BranchReady(s.thenSteps, names, full, links, NodeName(s))
    ensures BranchReady(s.elseSteps, NamesAfter(names, s.thenSteps), full, Grown(links, NodeName(s), 0, s.thenSteps),
                        NodeName(s))
  {
    hide *;
    ThenReady(s, names, full, links);
    ElseReady(s, names, full, links);
  }

  lemma MakeReady(branch: seq<ActionStep>, names: NameMap, full: NameMap, links: Links, source: string)
    requires Consistent(names, full)
    requires forall a | a in branch :: a.id in full && full[a.id] == ActionName(a)
    requires forall a | a in branch :: forall r | r in TextRefs(Values(a.action.Params())) :: r in names
    requires Distinct(ActionNames(branch)) && SetOf(ActionNames(branch)) !! links.Keys
    requires source !in ActionNames(branch)
    ensures BranchReady(branch, names, full, links, source)
  {
    hide TextRefs, Values, ActionName, ActionNames, Consistent, Distinct;
  }

  lemma BranchMembers(s: Step)
    requires s.If?
    ensures forall a | a in s.thenSteps :: a in s.Branches()
    ensures forall a | a in s.elseSteps :: a in s.Branches()
    ensures SetOf(ActionNames(s.thenSteps)) <= SetOf(StepNames(s))
    ensures SetOf(ActionNames(s.elseSteps)) <= SetOf(StepNames(s))
  {
    hide ActionName, ActionNames;
    ActionNamesBranches(s);
  }

  lemma ThenReady(s: Step, names: NameMap, full: NameMap, links: Links)
    requires s.If? && Consistent(names, full) && (forall r | r in s.Refs() :: r in names)
    requires forall a | a in s.Branches() :: a.id in full && full[a.id] == ActionName(a)
    requires Distinct(StepNames(s)) && SetOf(StepNames(s)) !! links.Keys
    ensures BranchReady(s.thenSteps, names, full, links, NodeName(s))
  {
    hide *;
    StepNamesApart(s);
    BranchMembers(s);
    ConditionRefs(s);
    MakeReady(s.thenSteps, names, full, links, NodeName(s));
  }

  lemma ElseReady(s: Step, names: NameMap, full: NameMap, links: Links)
    requires s.If? && Consistent(names, full) && (forall r | r in s.Refs() :: r in names)
    requires forall a | a in s.Branches() :: a.id in full && full[a.id] == ActionName(a)
    requires Distinct(StepNames(s)) && SetOf(StepNames(s)) !! links.Keys
    ensures BranchReady(s.elseSteps, NamesAfter(names, s.thenSteps), full, Grown(links, NodeName(s), 0, s.thenSteps),
                        NodeName(s))
  {
    hide *;
    StepNamesApart(s);
    BranchMembers(s);
    ConditionRefs(s);
    NamesAfterConsistent(names, s.thenSteps, full);
    GrownKeys(links, NodeName(s), 0, s.thenSteps);
    ElseApart(s, links);
    MakeReady(s.elseSteps, NamesAfter(names, s.thenSteps), full, Grown(links, NodeName(s), 0, s.thenSteps),
              NodeName(s));
  }

  lemma ElseApart(s: Step, links: Links)
    requires s.If? && SetOf(StepNames(s)) !! links.Keys
    requires SetOf(ActionNames(s.elseSteps)) <= SetOf(StepNames(s))
    requires SetOf(ActionNames(s.thenSteps)) !! SetOf(ActionNames(s.elseSteps))
    requires NodeName(s) !in ActionNames(s.elseSteps)
    ensures SetOf(ActionNames(s.elseSteps)) !! links.Keys + {NodeName(s)} + SetOf(ActionNames(s.thenSteps))
  {
    hide ActionNames, StepNames, NodeName;
  }

  lemma GrownKeys(links: Links, source: string, output: nat, branch: seq<ActionStep>)
    ensures Grown(links, source, output, branch).Keys <= links.Keys + {source} + SetOf(ActionNames(branch))
  {
    hide Linked, BranchLinks;
    if branch != [] {
      LinkedKeys(links, source, output, ActionName(branch[0]));
      BranchLinksKeys(branch, None);
    }
  }

  lemma ConditionNodeReached(recipe: Recipe, k: nat)
    requires k < |recipe.steps| && Accepted(recipe) && recipe.steps[k].If?
    ensures var p, s, full := Reached(recipe, k), recipe.steps[k], Names(recipe.steps);
            var names := p.names[s.cid := NodeName(s)];
            var position := At(p.column + 1, 0);
            Checked(References(Split(s.right)) + References(Split(s.left)), names, IfNodeOf(s, names, position))
            == Success(IfNodeOf(s, full, position))
  {
    hide IfNodeOf, FirstUnknown, Names, Accepted, References, Split, Ends, Nodes, Columns;
    var p, s, full := Reached(recipe, k), recipe.steps[k], Names(recipe.steps);
    var names := p.names[s.cid := NodeName(s)];
    OwnDeclared(recipe, k);
    ConditionRefs(s);
    FirstUnknownNone(References(Split(s.right)) + References(Split(s.left)), names);
    IfNodeAgrees(s, names, full, At(p.column + 1, 0));
  }

  lemma ConditionProgress(recipe: Recipe, k: nat)
    requires k < |recipe.steps| && recipe.steps[k].If?
    ensures var p, s, full := Reached(recipe, k), recipe.steps[k], Names(recipe.steps);
            var name, column := NodeName(s), p.column + 1;
            Reached(recipe, k + 1)
            == Progress(p.nodes + [IfNodeOf(s, full, At(column, 0))] + BranchNodes(s.thenSteps, full, column, -160)
                        + BranchNodes(s.elseSteps, full, column, 160),
                        NamesAfter(NamesAfter(p.names[s.cid := name], s.thenSteps), s.elseSteps),
                        [BranchEnd(s.thenSteps, name, 0), BranchEnd(s.elseSteps, name, 1)],
                        column + Max(|s.thenSteps|, |s.elseSteps|))
  {
    hide IfNodeOf, Names, BranchNodes, BranchEnd, NamesAfter, Reached, NodeName, Max;
    var p, s, full := Reached(recipe, k), recipe.steps[k], Names(recipe.steps);
    ReachedStep(recipe, k);
    NamesAfterAppend(p.names[s.cid := NodeName(s)], s.thenSteps, s.elseSteps);
    var column := p.column + 1;
    var a := [IfNodeOf(s, full, At(column, 0))];
    var b, c := BranchNodes(s.thenSteps, full, column, -160), BranchNodes(s.elseSteps, full, column, 160);
    assert p.nodes + (a + b + c) == p.nodes + a + b + c;
  }

  lemma ConditionReaches(recipe: Recipe, k: nat)
    requires k < |recipe.steps| && Accepted(recipe) && recipe.steps[k].If?
    ensures var p, s, full := Reached(recipe, k), recipe.steps[k], Names(recipe.steps);
            var name, column := NodeName(s), p.column + 1;
            var names, position := p.names[s.cid := name], At(column, 0);
            var links := LinkAll(ReachedLinks(recipe, k), p.pending, name);
            var grown := Grown(links, name, 0, s.thenSteps);
            && Checked(References(Split(s.right)) + References(Split(s.left)), names, IfNodeOf(s, names, position))
               == Success(IfNodeOf(s, full, position))
            && BranchReady(s.thenSteps, names, full, links, name)
            && BranchReady(s.elseSteps, NamesAfter(names, s.thenSteps), full, grown, name)
            && Grown(grown, name, 1, s.elseSteps) == ReachedLinks(recipe, k + 1)
            && Reached(recipe, k + 1)
               == Progress(p.nodes + [IfNodeOf(s, full, position)] + BranchNodes(s.thenSteps, full, column, -160)
                           + BranchNodes(s.elseSteps, full, column, 160),
                           NamesAfter(NamesAfter(names, s.thenSteps), s.elseSteps),
                           [BranchEnd(s.thenSteps, name, 0), BranchEnd(s.elseSteps, name, 1)],
                           column + Max(|s.thenSteps|, |s.elseSteps|))
  {
    var s, full := recipe.steps[k], Names(recipe.steps);
    ConditionNodeReached(recipe, k);
    ConditionProgress(recipe, k);
    OwnDeclared(recipe, k);
    OwnBranchNames(recipe.steps, k);
    PendingPatched(recipe, k);
    var next := Some(NodeName(s));
    OwnNamesApart(recipe, k, next);
    hide *;
    ReachedParts(recipe, k);
    var links := AllLinks(recipe.trigger, recipe.steps[..k], next);
    BranchesReady(s, Names(recipe.steps[..k])[s.Id() := NodeName(s)], full, links);
    ConditionBuilt(links, s);
    ReachedLinksStep(recipe, k);
  }

  lemma ReachedParts(recipe: Recipe, k: nat)
    requires k <= |recipe.steps|
    ensures Reached(recipe, k).names == Names(recipe.steps[..k])
    ensures Reached(recipe, k).pending == Ends(recipe.trigger, recipe.steps[..k])
  {
  }

  method CompileAction(connections: Connections, recipe: Recipe, k: nat, p: Progress)
    returns (r: Result<Progress, string>)
    requires k < |recipe.steps| && recipe.steps[k].Act?
    modifies connections
    ensures Accepted(recipe) && p == Reached(recipe, k) && old(connections.data) == ReachedLinks(recipe, k) ==>
              r == Success(Reached(recipe, k + 1)) && connections.data == ReachedLinks(recipe, k + 1)
  {
    hide Reached, ReachedLinks, Accepted, HttpNodeOf, LinkAll, TextRefs, Checked, Names, ActionName;
    ghost var ready := Accepted(recipe) && p == Reached(recipe, k) && connections.data == ReachedLinks(recipe, k);
    if ready {
      ActionReaches(recipe, k);
    }
    var step := recipe.steps[k].step;
    var column := p.column + 1;
    var name := ActionName(step);
    var names := p.names[step.id := name];
    var node := HttpNode(step, names, At(column, 0));
    if node.Failure? {
      return Failure(node.error);
    }
    connections.Connect(p.pending, name);
    return Success(Progress(p.nodes + [node.value], names, [(name, 0)], column));
  }

  method CompileCondition(connections: Connections, recipe: Recipe, k: nat, p: Progress)
    returns (r: Result<Progress, string>)
    requires k < |recipe.steps| && recipe.steps[k].If?
    modifies connections
    ensures Accepted(recipe) && p == Reached(recipe, k) && old(connections.data) == ReachedLinks(recipe, k) ==>
              r == Success(Reached(recipe, k + 1)) && connections.data == ReachedLinks(recipe, k + 1)
  {
    hide Reached, ReachedLinks, Accepted, IfNodeOf, LinkAll, References, Split, Checked, BranchReady, Grown, Names,
         NodeName,
         BranchNodes, BranchEnd, NamesAfter, Max, At;
    ghost var full := Names(recipe.steps);
    ghost var ready := Accepted(recipe) && p == Reached(recipe, k) && connections.data == ReachedLinks(recipe, k);
    if ready {
      ConditionReaches(recipe, k);
    }
    var s := recipe.steps[k];
    var column := p.column + 1;
    var name := NodeName(s);
    var names := p.names[s.cid := name];
    var node := ConditionNode(s, names, At(column, 0));
    if node.Failure? {
      return Failure(node.error);
    }
    connections.Connect(p.pending, name);
    var first := CompileBranch(connections, name, 0, s.thenSteps, names, column, -160, full);
    if first.Failure? {
      return Failure(first.error);
    }
    var second := CompileBranch(connections, name, 1, s.elseSteps, first.value.names, column, 160, full);
    if second.Failure? {
      return Failure(second.error);
    }
    return Success(Progress(p.nodes + [node.value] + first.value.nodes + second.value.nodes, second.value.names,
                            [first.value.end, second.value.end], column + Max(|s.thenSteps|, |s.elseSteps|)));
  }

  /** `compile_recipe`: an accepted recipe compiles, to exactly its workflow. */
  method CompileRecipe(recipe: Recipe) returns (r: Result<Workflow, string>)
    ensures Accepted(recipe) ==> r == Success(Compiled(recipe))
  {
    hide Reached, ReachedLinks, Accepted;
    var connections := new Connections();
    var nodes: seq<Node> := [];
    var pending: Pending := [];
    if recipe.trigger.Schedule? {
      nodes := nodes + [ScheduleTrigger(SCHEDULE, Position(-400, 0), recipe.trigger.cron)];
      pending := pending + [(SCHEDULE, 0)];
    }
    nodes := nodes + [Webhook(MANUAL, Position(-400, 160), "recipe-" + recipe.name + "-run")];
    pending := pending + [(MANUAL, 0)];
    var p := Progress(nodes, map[], pending, 0);
    StartReached(recipe);
    for k := 0 to |recipe.steps|
      invariant Accepted(recipe) ==> p == Reached(recipe, k)
      invariant Accepted(recipe) ==> connections.data == ReachedLinks(recipe, k)
    {
      var next: Result<Progress, string>;
      if recipe.steps[k].Act? {
        next := CompileAction(connections, recipe, k, p);
      } else {
        next := CompileCondition(connections, recipe, k, p);
      }
      if next.Failure? {
        return Failure(next.error);
      }
      p := next.value;
    }
    EndReached(recipe);
    return Success(Workflow("fleet-recipe-" + recipe.name, p.nodes, connections.data));
  }

  lemma StartReached(recipe: Recipe)
    ensures Reached(recipe, 0) == Progress(TriggerNodes(recipe), map[], TriggerEnds(recipe.trigger), 0)
    ensures ReachedLinks(recipe, 0) == map[]
  {
    assert recipe.steps[..0] == [];
    assert TriggerNodes(recipe) + [] == TriggerNodes(recipe);
  }

  lemma EndReached(recipe: Recipe)
    ensures var n := |recipe.steps|;
            Compiled(recipe) == Workflow("fleet-recipe-" + recipe.name, Reached(recipe, n).nodes,
                                         ReachedLinks(recipe, n))
  {
    assert recipe.steps[..|recipe.steps|] == recipe.steps;
  }
}
