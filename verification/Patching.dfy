/**
 Back-patching: adding an edge for every waiting output once the next node is known
 turns the edges that lead nowhere into the edges that lead to it.
 */
module Patching {
  import opened Wrappers
  import opened Recipes
  import opened Workflows

  /** An output whose target is not known yet. */
  type Pending = seq<(string, nat)>

  function Pad(main: seq<seq<string>>, n: nat): seq<seq<string>> {
    if |main| >= n then main else main + seq(n - |main|, i => [])
  }

  /** `_Connections.add` as a function of the links. */
  function Linked(links: Links, source: string, output: nat, target: string): Links {
    var main := Pad(if source in links then links[source] else [], output + 1);
    links[source := main[output := main[output] + [target]]]
  }

  function LinkAll(links: Links, pending: Pending, target: string): Links {
    if pending == [] then links
    else
      var n := |pending| - 1;
      Linked(LinkAll(links, pending[..n], target), pending[n].0, pending[n].1, target)
  }

  /** The output a branch leaves waiting. */
  function BranchEnd(branch: seq<ActionStep>, source: string, output: nat): (string, nat) {
    if branch == [] then (source, output) else (ActionName(branch[|branch| - 1]), 0)
  }

  function StepEnds(s: Step): Pending {
    match s
    case Act(a) => [(ActionName(a), 0)]
    case If(_, _, _, _, thenSteps, elseSteps) =>
      [BranchEnd(thenSteps, NodeName(s), 0), BranchEnd(elseSteps, NodeName(s), 1)]
  }

  function TriggerEnds(trigger: Trigger): Pending {
    if trigger.Schedule? then [(SCHEDULE, 0), (MANUAL, 0)] else [(MANUAL, 0)]
  }

  /** The outputs waiting after `steps`. */
  function Ends(trigger: Trigger, steps: seq<Step>): Pending {
    if steps == [] then TriggerEnds(trigger) else StepEnds(steps[|steps| - 1])
  }

  // ---- Linking one output

  lemma LinkedRight(a: Links, b: Links, source: string, output: nat, target: string)
    requires source !in a
    ensures Linked(a + b, source, output, target) == a + Linked(b, source, output, target)
  {
  }

  lemma LinkedLeft(a: Links, b: Links, source: string, output: nat, target: string)
    requires source !in b
    ensures Linked(a + b, source, output, target) == Linked(a, source, output, target) + b
  {
  }

  lemma LinkedFirst(name: string, second: Option<string>, target: string)
    ensures Linked(OutLinks(name, None, second), name, 0, target) == OutLinks(name, Some(target), second)
  {
    var main := Pad(Outputs(None, second), 1);
    assert main == if second.Some? then [[], [second.value]] else [[]];
    assert main[0] + [target] == [target];
    assert main[0 := [target]] == Outputs(Some(target), second);
  }

  lemma LinkedSecond(name: string, first: Option<string>, target: string)
    ensures Linked(OutLinks(name, first, None), name, 1, target) == OutLinks(name, first, Some(target))
  {
    var main := Pad(Outputs(first, None), 2);
    assert main == if first.Some? then [[first.value], []] else [[], []];
    assert main[1] + [target] == [target];
    assert main[1 := [target]] == Outputs(first, Some(target));
  }

  // ---- Keys

  lemma {:induction false} BranchLinksKeys(branch: seq<ActionStep>, next: Option<string>)
    ensures BranchLinks(branch, next).Keys <= SetOf(ActionNames(branch))
  {
    if branch != [] {
      var n := |branch| - 1;
      BranchLinksKeys(branch[..n], Some(ActionName(branch[n])));
      ActionNamesSplit(branch, n);
    }
  }

  lemma ActionNamesSplit(branch: seq<ActionStep>, n: nat)
    requires n <= |branch|
    ensures ActionNames(branch) == ActionNames(branch[..n]) + ActionNames(branch[n..])
    ensures forall name | name in ActionNames(branch[..n]) :: name in ActionNames(branch)
  {
    assert ActionNames(branch) == ActionNames(branch[..n]) + ActionNames(branch[n..]);
  }

  lemma ActionNamesBranches(s: Step)
    requires s.If?
    ensures ActionNames(s.Branches()) == ActionNames(s.thenSteps) + ActionNames(s.elseSteps)
  {
  }

  lemma StepLinksKeys(s: Step, next: Option<string>)
    ensures StepLinks(s, next).Keys <= SetOf(StepNames(s))
  {
    hide BranchLinks;
    if s.If? {
      BranchLinksKeys(s.thenSteps, next);
      BranchLinksKeys(s.elseSteps, next);
      ActionNamesBranches(s);
    }
  }

  lemma {:induction false} AllLinksKeys(trigger: Trigger, steps: seq<Step>, next: Option<string>)
    ensures AllLinks(trigger, steps, next).Keys <= SetOf(AllNames(steps)) + SetOf(Triggers(trigger))
    ensures AllLinks(trigger, steps, next).Keys <= SetOf(AllNames(steps)) + {SCHEDULE, MANUAL}
  {
    hide StepLinks, StepNames;
    if steps != [] {
      var n := |steps| - 1;
      AllLinksKeys(trigger, steps[..n], Some(NodeName(steps[n])));
      StepLinksKeys(steps[n], next);
    }
  }

  // ---- Patching a branch

  lemma LinkedBranch(branch: seq<ActionStep>, target: string)
    requires branch != [] && Distinct(ActionNames(branch))
    ensures Linked(BranchLinks(branch, None), ActionName(branch[|branch| - 1]), 0, target)
         == BranchLinks(branch, Some(target))
  {
    var n := |branch| - 1;
    var last := ActionName(branch[n]);
    var before := BranchLinks(branch[..n], Some(last));
    hide Linked, Outputs;
    BranchLinksKeys(branch[..n], Some(last));
    LastNameApart(branch);
    LinkedRight(before, OutLinks(last, None, None), last, 0, target);
    LinkedFirst(last, None, target);
  }

  lemma LastNameApart(branch: seq<ActionStep>)
    requires branch != [] && Distinct(ActionNames(branch))
    ensures ActionName(branch[|branch| - 1]) !in SetOf(ActionNames(branch[..|branch| - 1]))
  {
    var n := |branch| - 1;
    assert forall i | 0 <= i < n :: ActionNames(branch[..n])[i] == ActionNames(branch)[i];
  }

  /** The links after compiling `branch` from an output of `source`. */
  function Grown(links: Links, source: string, output: nat, branch: seq<ActionStep>): Links {
    if branch == [] then links
    else Linked(links, source, output, ActionName(branch[0])) + BranchLinks(branch, None)
  }

  lemma GrowBranch(links: Links, source: string, output: nat, branch: seq<ActionStep>, j: nat)
    requires j < |branch| && Distinct(ActionNames(branch))
    requires SetOf(ActionNames(branch)) !! links.Keys + {source}
    ensures var end := BranchEnd(branch[..j], source, output);
            Linked(Grown(links, source, output, branch[..j]), end.0, end.1, ActionName(branch[j]))
            == Grown(links, source, output, branch[..j + 1])
  {
    hide Linked, Outputs;
    var name := ActionName(branch[j]);
    var done := branch[..j];
    assert branch[..j + 1][..j] == done;
    if j == 0 {
      assert branch[..1][..0] == [];
      assert BranchLinks(branch[..1], None) == map[];
      var grown := Linked(links, source, output, name);
      assert grown + map[] == grown;
    } else {
      DistinctNamesPrefix(branch, j);
      LinkedBranch(done, name);
      var last := ActionName(done[j - 1]);
      var first := Linked(links, source, output, ActionName(branch[0]));
      assert ActionNames(branch)[j - 1] == last;
      assert last !in first by {
        LinkedKeys(links, source, output, ActionName(branch[0]));
      }
      LinkedRight(first, BranchLinks(done, None), last, 0, name);
      assert BranchLinks(branch[..j + 1], None) == BranchLinks(done, Some(name));
    }
  }

  lemma LinkedKeys(links: Links, source: string, output: nat, target: string)
    ensures Linked(links, source, output, target).Keys == links.Keys + {source}
  {
  }

  lemma DistinctNamesPrefix(branch: seq<ActionStep>, j: nat)
    requires j <= |branch| && Distinct(ActionNames(branch))
    ensures Distinct(ActionNames(branch[..j]))
  {
    assert forall i | 0 <= i < j :: ActionNames(branch[..j])[i] == ActionNames(branch)[i];
  }

  // ---- Building and patching a condition

  /** What a step's names must satisfy for its links to be its own. */
  lemma StepNamesApart(s: Step)
    requires s.If? && Distinct(StepNames(s))
    ensures Distinct(ActionNames(s.thenSteps)) && Distinct(ActionNames(s.elseSteps))
    ensures SetOf(ActionNames(s.thenSteps)) !! SetOf(ActionNames(s.elseSteps))
    ensures NodeName(s) !in ActionNames(s.thenSteps) && NodeName(s) !in ActionNames(s.elseSteps)
  {
    hide Distinct;
    var a, b := ActionNames(s.thenSteps), ActionNames(s.elseSteps);
    ActionNamesBranches(s);
    DistinctAppend([NodeName(s)], a + b);
    DistinctAppend(a, b);
    assert SetOf([NodeName(s)]) == {NodeName(s)};
    assert SetOf(a + b) == SetOf(a) + SetOf(b);
    assert NodeName(s) in SetOf([NodeName(s)]);
  }

  /** Compiling both branches adds the links of the condition. */
  lemma ConditionBuilt(links: Links, s: Step)
    requires s.If?
    requires Distinct(StepNames(s)) && SetOf(StepNames(s)) !! links.Keys
    ensures Grown(Grown(links, NodeName(s), 0, s.thenSteps), NodeName(s), 1, s.elseSteps)
            == links + StepLinks(s, None)
  {
    hide BranchLinks, Distinct, OutLinks, Grown;
    assert NodeName(s) in SetOf(StepNames(s)) by {
      assert StepNames(s)[0] == NodeName(s);
    }
    hide StepNames;
    StepNamesApart(s);
    ThenBuilt(links, s);
    ElseBuilt(links, s);
    LinksAssociate(links, OutLinks(NodeName(s), Entry(s.thenSteps, None), Entry(s.elseSteps, None)),
                   BranchLinks(s.thenSteps, None), BranchLinks(s.elseSteps, None));
  }

  lemma LinksAssociate(a: Links, b: Links, c: Links, d: Links)
    ensures a + (b + c + d) == a + b + c + d
  {
  }

  lemma ThenBuilt(links: Links, s: Step)
    requires s.If? && NodeName(s) !in links
    ensures Grown(links, NodeName(s), 0, s.thenSteps)
            == links + OutLinks(NodeName(s), Entry(s.thenSteps, None), None) + BranchLinks(s.thenSteps, None)
  {
    hide BranchLinks, Linked, Outputs;
    EmptyBranchLinks();
    if s.thenSteps != [] {
      LinkFromNothing(links, NodeName(s), 0, ActionName(s.thenSteps[0]));
      LinkedFirst(NodeName(s), None, ActionName(s.thenSteps[0]));
    } else {
      assert links + map[] + map[] == links;
    }
  }

  lemma ElseBuilt(links: Links, s: Step)
    requires s.If? && NodeName(s) !in links && NodeName(s) !in ActionNames(s.thenSteps)
    ensures var first := Entry(s.thenSteps, None);
            Grown(links + OutLinks(NodeName(s), first, None) + BranchLinks(s.thenSteps, None), NodeName(s), 1,
                  s.elseSteps)
            == links + OutLinks(NodeName(s), first, Entry(s.elseSteps, None)) + BranchLinks(s.thenSteps, None)
               + BranchLinks(s.elseSteps, None)
  {
    hide BranchLinks, Linked, Outputs;
    EmptyBranchLinks();
    var name, first, t := NodeName(s), Entry(s.thenSteps, None), BranchLinks(s.thenSteps, None);
    var out := OutLinks(name, first, None);
    if s.elseSteps != [] {
      var entry := ActionName(s.elseSteps[0]);
      BranchLinksKeys(s.thenSteps, None);
      LinkedLeft(links + out, t, name, 1, entry);
      LinkedRight(links, out, name, 1, entry);
      LinkedSecond(name, first, entry);
    } else {
      assert links + out + t + map[] == links + out + t;
    }
  }

  lemma LinkFromNothing(links: Links, name: string, output: nat, target: string)
    requires name !in links
    ensures Linked(links, name, output, target) == links + Linked(OutLinks(name, None, None), name, output, target)
  {
  }

  lemma EmptyBranchLinks()
    ensures forall next :: BranchLinks([], next) == map[]
  {
  }

  /** Both waiting ends of a condition, patched, lead to `target`. */
  lemma ConditionPatched(s: Step, target: string)
    requires s.If? && Distinct(StepNames(s))
    ensures LinkAll(StepLinks(s, None), StepEnds(s), target) == StepLinks(s, Some(target))
  {
    hide BranchLinks, Distinct, Linked;
    var ends := StepEnds(s);
    var name := NodeName(s);
    StepNamesApart(s);
    ThenPatched(s, target);
    ElsePatched(s, target);
    LinkTwo(StepLinks(s, None), ends[0], ends[1], target);
  }

  lemma LinkTwo(links: Links, a: (string, nat), b: (string, nat), target: string)
    ensures LinkAll(links, [a, b], target) == Linked(Linked(links, a.0, a.1, target), b.0, b.1, target)
  {
    hide Linked;
    assert [a, b][..1] == [a] && [a][..0] == [];
    assert LinkAll(links, [a], target) == Linked(LinkAll(links, [], target), a.0, a.1, target);
  }

  /** The links of a condition whose branches lead to different places. */
  function ForkLinks(s: Step, thenNext: Option<string>, elseNext: Option<string>): Links
    requires s.If?
  {
    OutLinks(NodeName(s), Entry(s.thenSteps, thenNext), Entry(s.elseSteps, elseNext))
    + BranchLinks(s.thenSteps, thenNext) + BranchLinks(s.elseSteps, elseNext)
  }

  lemma ThenPatched(s: Step, target: string)
    requires s.If? && Distinct(StepNames(s))
    ensures var end := StepEnds(s)[0];
            Linked(ForkLinks(s, None, None), end.0, end.1, target) == ForkLinks(s, Some(target), None)
  {
    hide BranchLinks, Distinct, Linked, Outputs;
    StepNamesApart(s);
    var name, t, e := NodeName(s), BranchLinks(s.thenSteps, None), BranchLinks(s.elseSteps, None);
    BranchLinksKeys(s.thenSteps, None);
    BranchLinksKeys(s.elseSteps, None);
    var out := OutLinks(name, Entry(s.thenSteps, None), Entry(s.elseSteps, None));
    if s.thenSteps == [] {
      EmptyBranchLinks();
      LinkedLeft(out + t, e, name, 0, target);
      LinkedLeft(out, t, name, 0, target);
      LinkedFirst(name, Entry(s.elseSteps, None), target);
    } else {
      var last := ActionName(s.thenSteps[|s.thenSteps| - 1]);
      assert ActionNames(s.thenSteps)[|s.thenSteps| - 1] == last;
      LinkedLeft(out + t, e, last, 0, target);
      LinkedRight(out, t, last, 0, target);
      LinkedBranch(s.thenSteps, target);
    }
  }

  lemma ElsePatched(s: Step, target: string)
    requires s.If? && Distinct(StepNames(s))
    ensures var end := StepEnds(s)[1];
            Linked(ForkLinks(s, Some(target), None), end.0, end.1, target) == ForkLinks(s, Some(target), Some(target))
  {
    hide BranchLinks, Distinct, Linked, Outputs, ActionName, NodeName;
    StepNamesApart(s);
    var next := Some(target);
    var name, t, e := NodeName(s), BranchLinks(s.thenSteps, next), BranchLinks(s.elseSteps, None);
    BranchLinksKeys(s.thenSteps, next);
    BranchLinksKeys(s.elseSteps, None);
    var out := OutLinks(name, Entry(s.thenSteps, next), Entry(s.elseSteps, None));
    if s.elseSteps == [] {
      EmptyBranchLinks();
      LinkedLeft(out + t, e, name, 1, target);
      LinkedLeft(out, t, name, 1, target);
      LinkedSecond(name, Entry(s.thenSteps, next), target);
    } else {
      var last := ActionName(s.elseSteps[|s.elseSteps| - 1]);
      assert ActionNames(s.elseSteps)[|s.elseSteps| - 1] == last;
      LinkedRight(out + t, e, last, 0, target);
      LinkedBranch(s.elseSteps, target);
    }
  }

  lemma StepPatched(s: Step, target: string)
    requires Distinct(StepNames(s))
    ensures LinkAll(StepLinks(s, None), StepEnds(s), target) == StepLinks(s, Some(target))
  {
    if s.Act? {
      LinkOne(StepLinks(s, None), StepEnds(s)[0], target);
      LinkedFirst(ActionName(s.step), None, target);
    } else {
      ConditionPatched(s, target);
    }
  }

  lemma LinkOne(links: Links, a: (string, nat), target: string)
    ensures LinkAll(links, [a], target) == Linked(links, a.0, a.1, target)
  {
    hide Linked;
    assert [a][..0] == [];
  }

  lemma TriggersPatched(trigger: Trigger, target: string)
    ensures LinkAll(TriggerLinks(trigger, None), TriggerEnds(trigger), target) == TriggerLinks(trigger, Some(target))
  {
    hide Linked, Outputs;
    LinkedFirst(MANUAL, None, target);
    LinkedFirst(SCHEDULE, None, target);
    var none: Links := map[];
    assert SCHEDULE != MANUAL by {
      assert SCHEDULE[0] != MANUAL[0];
    }
    if trigger.Schedule? {
      LinkTwo(none, (SCHEDULE, 0), (MANUAL, 0), target);
      var one := OutLinks(SCHEDULE, Some(target), None);
      assert one + none == one;
      LinkedRight(one, none, MANUAL, 0, target);
    } else {
      LinkOne(none, (MANUAL, 0), target);
    }
  }

  lemma {:induction false} LinkAllRight(a: Links, b: Links, pending: Pending, target: string)
    requires forall i | 0 <= i < |pending| :: pending[i].0 !in a
    ensures LinkAll(a + b, pending, target) == a + LinkAll(b, pending, target)
  {
    hide Linked;
    if pending != [] {
      var n := |pending| - 1;
      LinkAllRight(a, b, pending[..n], target);
      LinkedRight(a, LinkAll(b, pending[..n], target), pending[n].0, pending[n].1, target);
    }
  }

  lemma StepEndsAreStepNames(s: Step)
    ensures forall i | 0 <= i < |StepEnds(s)| :: StepEnds(s)[i].0 in StepNames(s)
  {
    assert StepNames(s)[0] == NodeName(s);
    if s.If? {
      ActionNamesBranches(s);
      if s.thenSteps != [] {
        assert ActionNames(s.thenSteps)[|s.thenSteps| - 1] in StepNames(s);
      }
      if s.elseSteps != [] {
        assert ActionNames(s.elseSteps)[|s.elseSteps| - 1] in StepNames(s);
      }
    }
  }

  /** Patching every waiting output turns "leads nowhere" into "leads to `target`". */
  lemma EndsPatched(trigger: Trigger, steps: seq<Step>, target: string)
    requires Distinct(AllNames(steps)) && SCHEDULE !in AllNames(steps) && MANUAL !in AllNames(steps)
    ensures LinkAll(AllLinks(trigger, steps, None), Ends(trigger, steps), target)
            == AllLinks(trigger, steps, Some(target))
  {
    hide StepLinks, StepEnds, StepNames, LinkAll;
    if steps == [] {
      TriggersPatched(trigger, target);
    } else {
      var n := |steps| - 1;
      var s := steps[n];
      var before := AllLinks(trigger, steps[..n], Some(NodeName(s)));
      DistinctAppend(AllNames(steps[..n]), StepNames(s));
      AllLinksKeys(trigger, steps[..n], Some(NodeName(s)));
      StepEndsAreStepNames(s);
      EndsOutside(s, before, AllNames(steps[..n]));
      LinkAllRight(before, StepLinks(s, None), StepEnds(s), target);
      StepPatched(s, target);
    }
  }

  lemma EndsOutside(s: Step, before: Links, names: seq<string>)
    requires before.Keys <= SetOf(names) + {SCHEDULE, MANUAL}
    requires SetOf(names) !! SetOf(StepNames(s))
    requires SCHEDULE !in StepNames(s) && MANUAL !in StepNames(s)
    requires forall i | 0 <= i < |StepEnds(s)| :: StepEnds(s)[i].0 in StepNames(s)
    ensures forall i | 0 <= i < |StepEnds(s)| :: StepEnds(s)[i].0 !in before
  {
    hide StepEnds, StepNames;
    forall i | 0 <= i < |StepEnds(s)|
      ensures StepEnds(s)[i].0 !in before
    {
      assert StepEnds(s)[i].0 in SetOf(StepNames(s));
    }
  }
}
