/** Node names are distinct because step ids are: a name determines the id it was made from. */
module Naming {
  import opened Text
  import opened Recipes
  import opened Workflows

  const KINDS: set<string> := {"pg.query", "agent.run", "slack.post", "email.send", "http.notify", "if"}

  predicate NotSpace(c: char) {
    c != ' '
  }

  /** `name` is the name of a node for a step with this id. */
  ghost predicate NamesId(name: string, id: string) {
    exists kind | kind in KINDS :: name == Named(kind, id)
  }

  lemma NamedDeterminesId(kind1: string, id1: string, kind2: string, id2: string)
    requires All(NotSpace, kind1) && All(NotSpace, kind2)
    requires Named(kind1, id1) == Named(kind2, id2)
    ensures id1 == id2
  {
    var name := Named(kind1, id1);
    assert name == kind1 + (" (" + id1 + ")") == kind2 + (" (" + id2 + ")");
    SpanOfRun(NotSpace, kind1, " (" + id1 + ")");
    SpanOfRun(NotSpace, kind2, " (" + id2 + ")");
    assert name[|kind1| + 2..|name| - 1] == id1;
    assert name[|kind2| + 2..|name| - 1] == id2;
  }

  lemma NameDeterminesId(name: string, id1: string, id2: string)
    requires NamesId(name, id1) && NamesId(name, id2)
    ensures id1 == id2
  {
    hide Named;
    var kind1 :| kind1 in KINDS && name == Named(kind1, id1);
    var kind2 :| kind2 in KINDS && name == Named(kind2, id2);
    NamedDeterminesId(kind1, id1, kind2, id2);
  }

  lemma TriggersNameNoId(id: string)
    ensures !NamesId(SCHEDULE, id) && !NamesId(MANUAL, id)
  {
    forall kind | kind in KINDS
      ensures Named(kind, id) != SCHEDULE && Named(kind, id) != MANUAL
    {
      assert kind[0] in {'p', 'a', 's', 'e', 'h', 'i'};
      assert Named(kind, id)[0] == kind[0];
    }
  }

  lemma ActionNamesId(a: ActionStep)
    ensures NamesId(ActionName(a), a.id)
  {
    assert a.action.Name() in KINDS;
  }

  lemma StepNamesIds(s: Step, i: nat)
    requires i < |s.Ids()|
    ensures NamesId(StepNames(s)[i], s.Ids()[i])
  {
    hide ActionName, NamesId;
    if i > 0 {
      ActionNamesId(s.Branches()[i - 1]);
    } else {
      OwnNameNamesId(s);
    }
  }

  lemma OwnNameNamesId(s: Step)
    ensures NamesId(NodeName(s), s.Id())
  {
    if s.Act? {
      ActionNamesId(s.step);
    } else {
      assert "if" in KINDS;
    }
  }

  lemma {:induction false} AllNamesIds(steps: seq<Step>, i: nat)
    requires i < |AllIds(steps)|
    ensures NamesId(AllNames(steps)[i], AllIds(steps)[i])
  {
    var n := |steps| - 1;
    var before := AllIds(steps[..n]);
    if i < |before| {
      AllNamesIds(steps[..n], i);
    } else {
      StepNamesIds(steps[n], i - |before|);
    }
  }

  /** Distinct ids give distinct node names, none of them a trigger's. */
  lemma NamesDistinct(steps: seq<Step>)
    requires Distinct(AllIds(steps))
    ensures Distinct(AllNames(steps))
    ensures SCHEDULE !in AllNames(steps) && MANUAL !in AllNames(steps)
  {
    var ids, names := AllIds(steps), AllNames(steps);
    forall i, j | 0 <= i < j < |names|
      ensures names[i] != names[j]
    {
      AllNamesIds(steps, i);
      AllNamesIds(steps, j);
      if names[i] == names[j] {
        NameDeterminesId(names[i], ids[i], ids[j]);
      }
    }
    forall i | 0 <= i < |names|
      ensures names[i] != SCHEDULE && names[i] != MANUAL
    {
      AllNamesIds(steps, i);
      TriggersNameNoId(ids[i]);
    }
  }

  lemma {:induction false} ZipAt(ids: seq<string>, names: seq<string>, i: nat)
    requires |ids| == |names| && Distinct(ids) && i < |ids|
    ensures ids[i] in Zip(ids, names) && Zip(ids, names)[ids[i]] == names[i]
  {
    var n := |ids| - 1;
    if i < n {
      DistinctFront(ids);
      ZipAt(ids[..n], names[..n], i);
      assert ids[i] != ids[n];
    }
  }

  lemma DistinctFront(ids: seq<string>)
    requires Distinct(ids) && ids != []
    ensures Distinct(ids[..|ids| - 1])
  {
  }

  lemma ZipSnoc(ids: seq<string>, names: seq<string>, id: string, name: string)
    requires |ids| == |names|
    ensures Zip(ids + [id], names + [name]) == Zip(ids, names)[id := name]
  {
    assert (ids + [id])[..|ids|] == ids && (names + [name])[..|ids|] == names;
  }

  lemma AllNamesSnoc(steps: seq<Step>, k: nat)
    requires k < |steps|
    ensures AllNames(steps[..k + 1]) == AllNames(steps[..k]) + StepNames(steps[k])
  {
    assert steps[..k + 1][..k] == steps[..k];
  }

  lemma {:induction false} AllNamesPrefix(steps: seq<Step>, k: nat)
    requires k <= |steps|
    ensures AllNames(steps[..k]) <= AllNames(steps)
  {
    if k < |steps| {
      var front := steps[..|steps| - 1];
      assert front[..k] == steps[..k];
      AllNamesPrefix(front, k);
    } else {
      assert steps[..k] == steps;
    }
  }
}
