/**
 The compiler as it runs: cursors, growing lists and back-patched edges
 (`apps/api/fleet_api/recipes/compiler.py`), proved to build the workflow of the recipe.
 An unknown reference ends the compilation with the id it names.
 */
module Compiler {
  import opened Wrappers
  import opened Text
  import opened Template
  import opened JsonString
  import opened JsExpression
  import opened Recipes
  import opened Operands
  import opened Workflows
  import opened Patching

  type NameMap = map<string, string>

  /** The first of `refs` that has no node yet. */
  function FirstUnknown(refs: seq<string>, names: NameMap): Option<string> {
    if refs == [] then None
    else if refs[0] !in names then Some(refs[0])
    else FirstUnknown(refs[1..], names)
  }

  function Checked<T>(refs: seq<string>, names: NameMap, value: T): Result<T, string> {
    match FirstUnknown(refs, names)
    case None => Success(value)
    case Some(id) => Failure(id)
  }

  lemma {:induction false} FirstUnknownAppend(a: seq<string>, b: seq<string>, names: NameMap)
    ensures FirstUnknown(a + b, names)
            == if FirstUnknown(a, names).Some? then FirstUnknown(a, names) else FirstUnknown(b, names)
  {
    if a == [] {
      assert a + b == b;
    } else {
      assert (a + b)[1..] == a[1..] + b;
      FirstUnknownAppend(a[1..], b, names);
    }
  }

  lemma {:induction false} FirstUnknownNone(refs: seq<string>, names: NameMap)
    ensures FirstUnknown(refs, names) == None <==> forall r | r in refs :: r in names
  {
    if refs != [] {
      FirstUnknownNone(refs[1..], names);
    }
  }

  // ---- Expressions

  lemma {:induction false} ReferencesAppend(a: seq<Segment>, b: seq<Segment>)
    ensures References(a + b) == References(a) + References(b)
  {
    if a == [] {
      assert a + b == b;
      NoReferences();
    } else {
      assert (a + b)[0] == a[0] && (a + b)[1..] == a[1..] + b;
      ReferencesAppend(a[1..], b);
    }
  }

  lemma NoReferences()
    ensures References([]) == []
  {
  }

  /** The printed operands of a chain. */
  function Parts(terms: seq<Term>): (parts: seq<string>)
    ensures |parts| == |terms|
  {
    seq(|terms|, i requires 0 <= i < |terms| => PrintTerm(terms[i]))
  }

  lemma {:induction false} JoinPartsIsSum(terms: seq<Term>)
    ensures Join(Parts(terms), " + ") == PrintSum(terms)
  {
    hide PrintTerm, Parts;
    PartsTail(terms);
    if |terms| > 1 {
      JoinPartsIsSum(terms[1..]);
    }
  }

  lemma PartsTail(terms: seq<Term>)
    ensures terms != [] ==> Parts(terms)[0] == PrintTerm(terms[0]) && Parts(terms)[1..] == Parts(terms[1..])
  {
    hide PrintTerm;
  }

  lemma PartsAppend(a: seq<Segment>, b: seq<Segment>, names: NameMap)
    ensures Parts(Terms(a + b, names)) == Parts(Terms(a, names)) + Parts(Terms(b, names))
  {
  }

  /** What the walk has established when `done` has been read and the text from `cursor` on has not. */
  ghost predicate Walked(value: string, cursor: nat, done: seq<Segment>, parts: seq<string>, names: NameMap) {
    && cursor <= |value|
    && Split(value) == done + Split(value[cursor..])
    && parts == Parts(Terms(done, names))
    && FirstUnknown(References(done), names) == None
  }

  /** `_js_expression`: walks the matches with a cursor. */
  method WriteExpression(value: string, nodeNames: NameMap) returns (r: Result<string, string>)
    ensures r == Checked(References(Split(value)), nodeNames, PrintSum(TextTerms(value, nodeNames)))
  {
    hide Split, Find, PrintTerm, PrintSum, Quote, Walked;
    var parts: seq<string> := [];
    var cursor := 0;
    ghost var done: seq<Segment> := [];
    var next := Find(value);
    WalkStart(value, nodeNames);
    assert value[0..] == value;
    while next.Some?
      invariant cursor <= |value|
      invariant next == Find(value[cursor..])
      invariant Walked(value, cursor, done, parts, nodeNames)
      decreases |value| - cursor
    {
      var (offset, ref) := next.value;
      WalkStep(value, cursor, done, parts, nodeNames);
      assert parts + [] == parts;
      done := done + Plain(value[cursor..cursor + offset]) + [Ref(ref)];
      if offset > 0 {
        parts := parts + [Quote(value[cursor..cursor + offset])];
      }
      if ref.step !in nodeNames {
        return Failure(ref.step);
      }
      parts := parts + ["$(" + Quote(nodeNames[ref.step]) + JSON_OF + Dotted(ref.path)];
      cursor := cursor + offset + |Render(ref)|;
      next := Find(value[cursor..]);
    }
    WalkEnd(value, cursor, done, parts, nodeNames);
    assert parts + [] == parts;
    if cursor < |value| {
      parts := parts + [Quote(value[cursor..])];
    }
    if parts == [] {
      return Success(Quote(""));
    }
    return Success(Join(parts, " + "));
  }

  lemma WalkStart(value: string, names: NameMap)
    ensures Walked(value, 0, [], [], names)
  {
    hide Split;
    assert value[0..] == value;
    assert [] + Split(value) == Split(value);
  }

  /** One more reference: known, the walk goes on behind it; unknown, it is the first unknown one. */
  lemma WalkStep(value: string, cursor: nat, done: seq<Segment>, parts: seq<string>, names: NameMap)
    requires Walked(value, cursor, done, parts, names) && Find(value[cursor..]).Some?
    ensures var (offset, ref) := Find(value[cursor..]).value;
            var text := value[cursor..cursor + offset];
            var segs := done + Plain(text) + [Ref(ref)];
            if ref.step in names then
              Walked(value, cursor + offset + |Render(ref)|, segs,
                     parts + (if offset > 0 then [Quote(text)] else [])
                     + ["$(" + Quote(names[ref.step]) + JSON_OF + Dotted(ref.path)], names)
            else
              FirstUnknown(References(Split(value)), names) == Some(ref.step)
  {
    hide Split, Find, Render, Quote;
    var (offset, ref) := Find(value[cursor..]).value;
    var rest := value[cursor..];
    var text := value[cursor..cursor + offset];
    var after := rest[offset + |Render(ref)|..];
    assert rest[..offset] == text;
    assert rest[offset..] == Render(ref) + after;
    assert value[cursor + offset + |Render(ref)|..] == after;
    SplitAt(rest, offset, ref, after);
    var segs := done + Plain(text) + [Ref(ref)];
    assert done + (Plain(text) + [Ref(ref)] + Split(after)) == segs + Split(after);
    ReferencesStep(done, Plain(text), ref);
    PartsStep(done, text, ref, names);
    if ref.step in names {
      KnownAhead(References(done), ref.step, names);
    } else {
      UnknownAhead(segs, Split(after), References(done), ref.step, names);
    }
  }

  lemma WalkEnd(value: string, cursor: nat, done: seq<Segment>, parts: seq<string>, names: NameMap)
    requires Walked(value, cursor, done, parts, names) && Find(value[cursor..]) == None
    ensures FirstUnknown(References(Split(value)), names) == None
    ensures var all := parts + (if cursor < |value| then [Quote(value[cursor..])] else []);
            PrintSum(TextTerms(value, names)) == if all == [] then Quote("") else Join(all, " + ")
  {
    hide Find, Quote;
    var text := value[cursor..];
    SplitNone(text);
    hide Split;
    LastParts(done, text, names);
    JoinPartsIsSum(Terms(Split(value), names));
  }

  lemma ReferencesStep(done: seq<Segment>, lit: seq<Segment>, ref: Reference)
    requires lit == [] || (|lit| == 1 && lit[0].Lit?)
    ensures References(done + lit + [Ref(ref)]) == References(done) + [ref.step]
  {
    ReferencesAppend(done + lit, [Ref(ref)]);
    ReferencesAppend(done, lit);
    var none: seq<Segment> := [];
    assert [Ref(ref)][1..] == none;
    if lit != [] {
      assert lit[1..] == none;
    }
  }

  lemma UnknownAhead(grown: seq<Segment>, rest: seq<Segment>, refs: seq<string>, id: string, names: NameMap)
    requires References(grown) == refs + [id] && FirstUnknown(refs, names) == None && id !in names
    ensures FirstUnknown(References(grown + rest), names) == Some(id)
  {
    ReferencesAppend(grown, rest);
    FirstUnknownAppend(refs, [id], names);
    FirstUnknownAppend(refs + [id], References(rest), names);
  }

  lemma KnownAhead(refs: seq<string>, id: string, names: NameMap)
    requires FirstUnknown(refs, names) == None && id in names
    ensures FirstUnknown(refs + [id], names) == None
  {
    FirstUnknownAppend(refs, [id], names);
  }

  lemma PartsStep(done: seq<Segment>, text: string, ref: Reference, names: NameMap)
    ensures Parts(Terms(done + Plain(text) + [Ref(ref)], names))
            == Parts(Terms(done, names)) + (if text == "" then [] else [Quote(text)])
               + ["$(" + Quote(NameFor(names, ref.step)) + JSON_OF + Dotted(ref.path)]
  {
    hide Quote;
    PartsAppend(done + Plain(text), [Ref(ref)], names);
    PartsAppend(done, Plain(text), names);
  }

  lemma LastParts(done: seq<Segment>, text: string, names: NameMap)
    ensures Parts(Terms(done + Plain(text), names))
            == Parts(Terms(done, names)) + (if text == "" then [] else [Quote(text)])
    ensures References(done + Plain(text)) == References(done)
  {
    hide Quote;
    PartsAppend(done, Plain(text), names);
    ReferencesAppend(done, Plain(text));
    var none: seq<Segment> := [];
    if text != "" {
      assert Plain(text)[1..] == none;
    }
  }

  // ---- Nodes

  /** The printed entries of an object. */
  function Entries(fields: Fields): (entries: seq<string>)
    ensures |entries| == |fields|
  {
    seq(|fields|, i requires 0 <= i < |fields| => Quote(fields[i].0) + ": " + PrintSum(fields[i].1))
  }

  lemma {:induction false} JoinEntriesIsFields(fields: Fields)
    ensures Join(Entries(fields), ", ") == PrintFields(fields)
  {
    hide Quote, PrintSum;
    if |fields| > 1 {
      JoinEntriesIsFields(fields[1..]);
      assert Entries(fields)[1..] == Entries(fields[1..]);
    }
  }

  lemma {:induction false} TextRefsAppend(a: seq<string>, b: seq<string>)
    ensures TextRefs(a + b) == TextRefs(a) + TextRefs(b)
  {
    hide References, Split;
    if a == [] {
      assert a + b == b;
    } else {
      assert (a + b)[1..] == a[1..] + b;
      TextRefsAppend(a[1..], b);
    }
  }

  lemma TextRefsOne(text: string)
    ensures TextRefs([text]) == References(Split(text))
  {
    hide References, Split;
    assert [text][1..] == [];
  }

  /** The references of the first parameters, then of the next, then of the rest. */
  lemma ParamRefsSplit(params: seq<(string, string)>, k: nat)
    requires k < |params|
    ensures TextRefs(Values(params[..k + 1])) == TextRefs(Values(params[..k])) + References(Split(params[k].1))
    ensures TextRefs(Values(params)) == TextRefs(Values(params[..k + 1])) + TextRefs(Values(params[k + 1..]))
  {
    assert Values(params) == Values(params[..k + 1]) + Values(params[k + 1..]);
    assert Values(params[..k + 1]) == Values(params[..k]) + [params[k].1];
    TextRefsAppend(Values(params[..k + 1]), Values(params[k + 1..]));
    TextRefsAppend(Values(params[..k]), [params[k].1]);
    TextRefsOne(params[k].1);
  }

  /** `_json_body`. */
  method WriteJsonBody(params: seq<(string, string)>, nodeNames: NameMap) returns (r: Result<string, string>)
    ensures r == Checked(TextRefs(Values(params)), nodeNames, PrintBody(ParamFields(params, nodeNames)))
  {
    hide References, Split, TextTerms, PrintSum, Quote, TextRefs, FirstUnknown;
    var entries: seq<string> := [];
    NothingUnknown(nodeNames);
    for k := 0 to |params|
      invariant entries == Entries(ParamFields(params[..k], nodeNames))
      invariant FirstUnknown(TextRefs(Values(params[..k])), nodeNames) == None
    {
      var (key, value) := params[k];
      ParamRefsSplit(params, k);
      ghost var before, after := TextRefs(Values(params[..k])), TextRefs(Values(params[k + 1..]));
      FirstUnknownAppend(before, References(Split(value)), nodeNames);
      FirstUnknownAppend(before + References(Split(value)), after, nodeNames);
      var text := WriteExpression(value, nodeNames);
      if text.Failure? {
        return Failure(text.error);
      }
      entries := entries + [Quote(key) + ": " + text.value];
      assert ParamFields(params[..k + 1], nodeNames)
          == ParamFields(params[..k], nodeNames) + [(key, TextTerms(value, nodeNames))];
    }
    assert params[..|params|] == params;
    JoinEntriesIsFields(ParamFields(params, nodeNames));
    return Success(Braced(OBJECT_OPEN + Join(entries, ", ") + OBJECT_CLOSE));
  }

  lemma NothingUnknown(names: NameMap)
    ensures FirstUnknown(TextRefs(Values([])), names) == None
  {
    assert Values([]) == [];
  }

  method HttpNode(step: ActionStep, nodeNames: NameMap, position: Position) returns (r: Result<Node, string>)
    ensures r == Checked(TextRefs(Values(step.action.Params())), nodeNames, HttpNodeOf(step, nodeNames, position))
  {
    var body := WriteJsonBody(step.action.Params(), nodeNames);
    if body.Failure? {
      return Failure(body.error);
    }
    return Success(HttpRequest(ActionName(step), position, URL_BASE + ServicePath(step.action), body.value,
                               step.action.SlackPost?));
  }

  /** `_if_node`: the right side is written before the left. */
  method ConditionNode(s: Step, nodeNames: NameMap, position: Position) returns (r: Result<Node, string>)
    requires s.If?
    ensures r == Checked(References(Split(s.right)) + References(Split(s.left)), nodeNames,
                         IfNodeOf(s, nodeNames, position))
  {
    hide Split, PrintSum, TextTerms, LoadScalar;
    FirstUnknownAppend(References(Split(s.right)), References(Split(s.left)), nodeNames);
    var (kind, operation) := Comparison(s.operator);
    var right: Operand;
    var scalar := None;
    if kind == "number" && References(Split(s.right)) == [] {
      scalar := LoadScalar(s.right);
    }
    if scalar.Some? {
      right := scalar.value;
    } else {
      var text := WriteExpression(s.right, nodeNames);
      if text.Failure? {
        return Failure(text.error);
      }
      right := Expression(Braced(" " + text.value + " "));
    }
    var left := WriteExpression(s.left, nodeNames);
    if left.Failure? {
      return Failure(left.error);
    }
    return Success(IfNode(NodeName(s), position, Braced(" " + left.value + " "), kind, operation, right));
  }

  // ---- Edges

  /** `_Connections`. */
  class Connections {
    var data: Links

    constructor ()
      ensures data == map[]
    {
      data := map[];
    }

    method Add(source: string, output: nat, target: string)
      modifies this
      ensures data == Linked(old(data), source, output, target)
    {
      var main := if source in data then data[source] else [];
      ghost var before := main;
      while |main| <= output
        invariant |main| >= |before|
        invariant main == Pad(before, |main|)
        invariant |main| == |before| || |main| <= output + 1
      {
        main := main + [[]];
      }
      main := main[output := main[output] + [target]];
      data := data[source := main];
    }

    /** An edge to `target` from every waiting output. */
    method Connect(pending: Pending, target: string)
      modifies this
      ensures data == LinkAll(old(data), pending, target)
    {
      for i := 0 to |pending|
        invariant data == LinkAll(old(data), pending[..i], target)
      {
        assert pending[..i + 1][..i] == pending[..i];
        Add(pending[i].0, pending[i].1, target);
      }
      assert pending[..|pending|] == pending;
    }
  }
}
