/**
 A parameter the compiler printed, read back by n8n and evaluated over node results, is
 the recipe's template evaluated over step results.
 */
module Evaluation {
  import opened Wrappers
  import opened Text
  import opened Template
  import opened JsExpression
  import opened JsValue
  import opened Meaning
  import opened Recipes
  import opened Operands
  import opened Workflows
  import opened Compiler
  import opened RecipeCompiler
  import opened Execution

  /** Step results and node results agree through the names of the steps. */
  ghost predicate SameResults(steps: Env, nodes: Env, names: NameMap) {
    forall id | id in names :: Lookup(steps, id) == Lookup(nodes, names[id])
  }

  ghost predicate NamesBraceFree(names: NameMap) {
    forall id | id in names :: BraceFree(names[id])
  }

  /** What a text of an accepted recipe brings with it. */
  ghost predicate TextReady(value: string, names: NameMap) {
    && CheckText(value)
    && NamesBraceFree(names)
    && forall r | r in References(Split(value)) :: r in names
  }

  lemma {:induction false} CanonicalValid(segs: seq<Segment>, i: nat)
    requires Canonical(segs) && i < |segs| && segs[i].Ref?
    ensures Valid(segs[i].ref)
  {
    if i > 0 {
      CanonicalValid(segs[1..], i - 1);
    }
  }

  lemma TermReady(value: string, names: NameMap, i: nat)
    requires TextReady(value, names) && i < |Split(value)|
    ensures var seg := Split(value)[i];
            var t := TermOf(seg, names);
            && Printable(t) && TermBraceFree(t)
            && (seg.Ref? ==> seg.ref.step in names)
  {
    hide MatchAt, Find, Render;
    var segs := Split(value);
    SplitLossless(value);
    hide Split;
    if segs[i].Ref? {
      CanonicalValid(segs, i);
      RefInReferences(segs, i);
    } else {
      BraceFreeLiterals(segs, i);
    }
  }

  /** The printed operands can be read back, and close where they should. */
  lemma TextTermsReady(value: string, names: NameMap)
    requires TextReady(value, names)
    ensures AllPrintable(TextTerms(value, names)) && SumBraceFree(TextTerms(value, names))
    ensures AllJs(TextTerms(value, names)) <==> JsPaths(Split(value))
  {
    hide TextReady, Split, Printable, TermBraceFree;
    var segs, terms := Split(value), TextTerms(value, names);
    if segs == [] {
      EmptyLiteralReady();
    } else {
      forall i | 0 <= i < |terms|
        ensures Printable(terms[i]) && TermBraceFree(terms[i])
      {
        TermReady(value, names, i);
      }
      assert forall i | 0 <= i < |segs| :: terms[i] == TermOf(segs[i], names);
    }
  }

  lemma EmptyLiteralReady()
    ensures Printable(Term.Literal("")) && TermBraceFree(Term.Literal(""))
  {
  }

  lemma TextValues(value: string, names: NameMap, steps: Env, nodes: Env)
    requires TextReady(value, names) && SameResults(steps, nodes, names) && Split(value) != []
    ensures TermValues(TextTerms(value, names), nodes) == SegmentValues(Split(value), steps)
  {
    hide TextReady, Split, Get, Lookup;
    var segs, terms := Split(value), TextTerms(value, names);
    forall i | 0 <= i < |segs|
      ensures EvalTerm(terms[i], nodes) == SegmentValue(segs[i], steps)
    {
      TermReady(value, names, i);
    }
  }

  lemma TextSum(engine: Engine, value: string, names: NameMap, steps: Env, nodes: Env)
    requires TextReady(value, names) && SameResults(steps, nodes, names) && JsPaths(Split(value))
    ensures ChainMeaning(engine, value, steps) == Some(EvalSum(engine, TextTerms(value, names), nodes))
  {
    hide TextReady, Split, TermValues, SegmentValues, SameResults, JsPaths, Sum;
    if Split(value) == [] {
      SumOfEmpty(engine, nodes);
    } else {
      TextValues(value, names, steps, nodes);
    }
  }

  lemma SumOfEmpty(engine: Engine, nodes: Env)
    ensures EvalSum(engine, [Term.Literal("")], nodes) == Str("")
  {
    assert TermValues([Term.Literal("")], nodes) == [Str("")];
  }

  /** A condition operand as n8n sees it is the template's chain; unreadable exactly when the template is. */
  lemma ParamEvaluates(world: World, value: string, names: NameMap, steps: Env, nodes: Env)
    requires TextReady(value, names) && SameResults(steps, nodes, names)
    ensures EvalParam(world, PrintParam(TextTerms(value, names)), nodes) == ChainMeaning(world.engine, value, steps)
  {
    hide PrintParam, ReadParam, TextTerms, TextReady, SameResults, EvalSum, Split, JsPaths, Sum;
    TextTermsReady(value, names);
    ReadPrintedParam(TextTerms(value, names));
    if JsPaths(Split(value)) {
      TextSum(world.engine, value, names, steps, nodes);
    }
  }

  ghost predicate ParamsReady(params: seq<(string, string)>, names: NameMap) {
    forall i | 0 <= i < |params| :: BraceFree(params[i].0) && TextReady(params[i].1, names)
  }

  lemma ParamFieldsReady(params: seq<(string, string)>, names: NameMap)
    requires params != [] && ParamsReady(params, names)
    ensures FieldsPrintable(ParamFields(params, names)) && FieldsBraceFree(ParamFields(params, names))
    ensures FieldsJs(ParamFields(params, names)) <==> forall i | 0 <= i < |params| :: JsPaths(Split(params[i].1))
  {
    hide TextTerms, TextReady, AllPrintable, SumBraceFree, AllJs, JsPaths, Split;
    var fields := ParamFields(params, names);
    forall i | 0 <= i < |params|
      ensures AllPrintable(fields[i].1) && SumBraceFree(fields[i].1)
      ensures AllJs(fields[i].1) <==> JsPaths(Split(params[i].1))
    {
      TextTermsReady(params[i].1, names);
    }
  }

  /** The meanings of a list of parameters, each with its key. */
  function ParamsMeaning(world: World, reading: Reading, params: seq<(string, string)>, env: Env): Option<Body> {
    if params == [] then Some([])
    else
      var value :- TextMeaning(world, reading, params[0].1, env);
      var rest :- ParamsMeaning(world, reading, params[1..], env);
      Some([(params[0].0, value)] + rest)
  }

  /** What the compiler takes from its tables is the call of the action. */
  lemma ActionCallIsParams(world: World, reading: Reading, action: Action, env: Env)
    ensures ActionCall(world, reading, action, env)
            == match ParamsMeaning(world, reading, action.Params(), env)
               case None => None
               case Some(body) => Some(Call(ServicePath(action), Stringify(body)))
  {
    hide TextMeaning, Stringify, ParamsMeaning;
    match action
    case PgQuery(sql) => LoneParam(world, reading, ("sql", sql), env);
    case AgentRun(agent, question) => TwoParams(world, reading, ("agent", agent), ("question", question), env);
    case SlackPost(channel, text) => TwoParams(world, reading, ("channel", channel), ("text", text), env);
    case EmailSend(to, subject, body) =>
      TwoParams(world, reading, ("subject", subject), ("body", body), env);
      FirstParam(world, reading, ("to", to), [("subject", subject), ("body", body)], env);
      assert [("to", to)] + [("subject", subject), ("body", body)]
          == [("to", to), ("subject", subject), ("body", body)];
      EntriesOfThree(world, reading, to, subject, body, env);
    case HttpNotify(title, message) => TwoParams(world, reading, ("title", title), ("message", message), env);
  }

  lemma EntriesOfThree(world: World, reading: Reading, to: string, subject: string, body: string, env: Env)
    ensures match (TextMeaning(world, reading, to, env), TextMeaning(world, reading, subject, env),
                   TextMeaning(world, reading, body, env))
            case (Some(t), Some(s), Some(b)) =>
              [("to", t)] + [("subject", s), ("body", b)] == [("to", t), ("subject", s), ("body", b)]
            case _ => true
  {
  }

  lemma NoParams(world: World, reading: Reading, env: Env)
    ensures ParamsMeaning(world, reading, [], env) == Some([])
  {
  }

  lemma FirstParam(world: World, reading: Reading, p: (string, string), rest: seq<(string, string)>, env: Env)
    ensures ParamsMeaning(world, reading, [p] + rest, env)
            == match (TextMeaning(world, reading, p.1, env), ParamsMeaning(world, reading, rest, env))
               case (Some(v), Some(body)) => Some([(p.0, v)] + body)
               case _ => None
  {
    hide TextMeaning;
    assert ([p] + rest)[1..] == rest;
  }

  lemma LoneParam(world: World, reading: Reading, p: (string, string), env: Env)
    ensures ParamsMeaning(world, reading, [p], env)
            == match TextMeaning(world, reading, p.1, env) case Some(v) => Some([(p.0, v)]) case None => None
  {
    hide TextMeaning, ParamsMeaning;
    NoParams(world, reading, env);
    FirstParam(world, reading, p, [], env);
    assert [p] + [] == [p];
    if TextMeaning(world, reading, p.1, env).Some? {
      var entry := (p.0, TextMeaning(world, reading, p.1, env).value);
      assert [entry] + [] == [entry];
    }
  }

  lemma TwoParams(world: World, reading: Reading, p: (string, string), q: (string, string), env: Env)
    ensures ParamsMeaning(world, reading, [p, q], env)
            == match (TextMeaning(world, reading, p.1, env), TextMeaning(world, reading, q.1, env))
               case (Some(v), Some(w)) => Some([(p.0, v), (q.0, w)])
               case _ => None
  {
    hide TextMeaning, ParamsMeaning;
    LoneParam(world, reading, q, env);
    FirstParam(world, reading, p, [q], env);
    assert [p] + [q] == [p, q];
    if TextMeaning(world, reading, p.1, env).Some? && TextMeaning(world, reading, q.1, env).Some? {
      var v := (p.0, TextMeaning(world, reading, p.1, env).value);
      var w := (q.0, TextMeaning(world, reading, q.1, env).value);
      assert [v] + [w] == [v, w];
    }
  }

  lemma {:induction false} ParamsEvaluate(world: World, params: seq<(string, string)>, names: NameMap, steps: Env,
                                          nodes: Env)
    requires ParamsReady(params, names) && SameResults(steps, nodes, names)
    ensures ParamsMeaning(world, AsEmitted, params, steps)
            == if forall i | 0 <= i < |params| :: JsPaths(Split(params[i].1))
               then Some(EvalFields(world.engine, ParamFields(params, names), nodes)) else None
  {
    hide TextTerms, TextReady, SameResults, EvalSum, EvalFields, JsPaths, Split, Sum, SegmentValues;
    if params == [] {
      NoFields(world.engine, params, names, nodes);
    } else {
      RestReady(params, names);
      ParamsEvaluate(world, params[1..], names, steps, nodes);
      if JsPaths(Split(params[0].1)) {
        TextSum(world.engine, params[0].1, names, steps, nodes);
        FirstField(world.engine, params, names, nodes);
      }
      SplitParamsJs(params);
    }
  }

  lemma NoFields(engine: Engine, params: seq<(string, string)>, names: NameMap, nodes: Env)
    requires params == []
    ensures EvalFields(engine, ParamFields(params, names), nodes) == []
  {
  }

  lemma RestReady(params: seq<(string, string)>, names: NameMap)
    requires params != [] && ParamsReady(params, names)
    ensures ParamsReady(params[1..], names) && TextReady(params[0].1, names)
  {
    hide TextReady;
    assert forall i | 0 <= i < |params[1..]| :: params[1..][i] == params[i + 1];
  }

  lemma FirstField(engine: Engine, params: seq<(string, string)>, names: NameMap, nodes: Env)
    requires params != []
    ensures EvalFields(engine, ParamFields(params, names), nodes)
         == [(params[0].0, EvalSum(engine, TextTerms(params[0].1, names), nodes))]
            + EvalFields(engine, ParamFields(params[1..], names), nodes)
  {
    hide TextTerms, EvalSum;
    assert forall i | 0 <= i < |params[1..]| :: params[1..][i] == params[i + 1];
  }

  lemma SplitParamsJs(params: seq<(string, string)>)
    requires params != []
    ensures (forall i | 0 <= i < |params| :: JsPaths(Split(params[i].1)))
       <==> JsPaths(Split(params[0].1)) && forall i | 0 <= i < |params[1..]| :: JsPaths(Split(params[1..][i].1))
  {
    hide JsPaths, Split;
    assert forall i | 0 < i < |params| :: params[i] == params[1..][i - 1];
  }

  /** A request as n8n sends it is the action as the recipe means it. */
  lemma HttpExecutes(world: World, a: ActionStep, names: NameMap, position: Position, item: Value, steps: Env,
                     nodes: Env,
                     calls: seq<Call>)
    requires ParamsReady(a.action.Params(), names) && SameResults(steps, nodes, names)
    ensures Exec(world, HttpNodeOf(a, names, position), item, nodes, calls)
            == match ActionCall(world, AsEmitted, a.action, steps)
               case None => Failed(calls)
               case Some(call) =>
                 var after := calls + [call];
                 match world.respond(after) case None => Failed(after) case Some(v) => Done(0, v, after)
  {
    hide PrintBody, ReadBody, ParamFields, ParamsReady, SameResults, EvalFields, FieldsJs, FieldsPrintable,
         FieldsBraceFree,
         ParamsMeaning, JsPaths, Split, Stringify;
    var params := a.action.Params();
    ParamFieldsReady(params, names);
    ReadPrintedBody(ParamFields(params, names));
    ParamsEvaluate(world, params, names, steps, nodes);
    ActionCallIsParams(world, AsEmitted, a.action, steps);
    UrlPath(a.action);
  }

  lemma UrlPath(a: Action)
    ensures var url := URL_BASE + ServicePath(a);
            URL_BASE <= url && url[|URL_BASE|..] == ServicePath(a)
  {
  }

  lemma {:induction false} NoReferences(segs: seq<Segment>)
    requires Canonical(segs) && References(segs) == []
    ensures segs == [] || (|segs| == 1 && segs[0].Lit?)
  {
    hide MatchAt, Render;
    assert segs != [] ==> References(segs[1..]) == [];
  }

  /** A text without references stands for itself. */
  lemma PlainTextMeaning(engine: Engine, value: string, env: Env)
    requires References(Split(value)) == []
    ensures ChainMeaning(engine, value, env) == Some(Str(value))
  {
    hide MatchAt, Find, Render, Split;
    SplitLossless(value);
    NoReferences(Split(value));
    if Split(value) != [] {
      LoneSource(Split(value)[0].text);
      assert Split(value) == [Lit(Split(value)[0].text)];
    }
  }

  lemma LoneSource(text: string)
    ensures Source([Lit(text)]) == text
  {
    assert [Lit(text)][1..] == [];
    assert text + Source([]) == text;
  }

  /** No operand of a numeric comparison is the word `true` or `false`. */
  predicate NoBooleanWord(s: Step) {
    s.If? && s.operator.Numeric() && References(Split(s.right)) == [] ==> !BooleanWord(s.right)
  }

  /** n8n takes the branch the condition chooses as it was emitted. */
  lemma ConditionEvaluates(world: World, s: Step, names: NameMap, position: Position, steps: Env, nodes: Env)
    requires s.If?
    requires TextReady(s.left, names) && TextReady(s.right, names) && SameResults(steps, nodes, names)
    ensures var node := IfNodeOf(s, names, position);
            EvalCondition(world, node.left, node.kind, node.operation, node.right, nodes)
            == ConditionHolds(world, AsEmitted, s, steps)
  {
    hide PrintParam, TextTerms, TextReady, SameResults, LoadScalar, EvalParam, ChainMeaning, BooleanWord, ScalarNumber,
         LooseNumber, Split, References, Holds, Comparison, CompareNumbers, CompareTexts;
    ParamEvaluates(world, s.left, names, steps, nodes);
    ParamEvaluates(world, s.right, names, steps, nodes);
    ScalarIsNoExpression(s.right);
    OperatorsByName(s.operator);
    if s.operator.Numeric() && References(Split(s.right)) == [] {
      PlainTextMeaning(world.engine, s.right, steps);
    }
  }

  /** n8n finds each operation under the name it is emitted with. */
  lemma OperatorsByName(o: Operator)
    ensures Comparison(o).0 == (if o.Numeric() then "number" else "string") && "number" != "string"
    ensures forall l, r :: o.Numeric() ==>
              CompareNumbers(Comparison(o).1, l, r)
              == Some(match o case Gt => l > r case Gte => l >= r case Lt => l < r case _ => l <= r)
    ensures forall l, r :: !o.Numeric() ==>
              CompareTexts(Comparison(o).1, l, r)
              == Some(match o case Eq => l == r case Ne => l != r case _ => Holds(l, r))
  {
    hide Holds;
    assert "number"[0] == 'n' && "string"[0] == 's';
    assert |"gt"| == 2 && |"lt"| == 2 && |"gte"| == 3 && |"lte"| == 3 && "gt"[0] == "gte"[0] == 'g' && "lt"[0] == 'l';
    assert "lte"[0] == 'l' && |"equals"| == 6 && |"notEquals"| == 9 && |"contains"| == 8;
  }

  /** The two readings of a boolean word cannot show: there is none, or nothing number-like to compare it with. */
  predicate ConvertsAlike(world: World, s: Step, env: Env)
    requires s.If?
  {
    NoBooleanWord(s)
    || var left := ChainMeaning(world.engine, s.left, env);
       left.None? || LooseNumber(world.loose, left.value).None?
  }

  /** A condition decides as emitted like its texts exactly when no boolean word meets a number. */
  lemma EmittedComparesTextsExactlyWhen(world: World, s: Step, env: Env)
    requires s.If?
    ensures ConditionHolds(world, AsEmitted, s, env) == ConditionHolds(world, AsChain, s, env)
       <==> ConvertsAlike(world, s, env)
  {
    hide LoadScalar, ChainMeaning, BooleanWord, ScalarNumber, LooseNumber, Split, References;
    BooleanWordLoads(world.loose, s.right);
    ScalarIsNoExpression(s.right);
    if s.operator.Numeric() && References(Split(s.right)) == [] {
      PlainTextMeaning(world.engine, s.right, env);
      if LoadScalar(s.right).Some? {
        ScalarMeansItsTextExactlyWhen(world.loose, s.right);
      }
    }
  }

  lemma BooleanWordLoads(loose: Loose, text: string)
    ensures BooleanWord(text) ==>
              && LoadScalar(text).Some? && LoadScalar(text).value.Boolean?
              && ScalarNumber(loose, LoadScalar(text).value).Some? && LooseNumber(loose, Str(text)).None?
  {
    hide Trim, IsJsonNumber;
    if BooleanWord(text) {
      JsonCoreIsJsCore(text);
      BooleanWordsAreNotNumeric();
    }
  }

  lemma ScalarIsNoExpression(text: string)
    ensures LoadScalar(text).Some? ==> !LoadScalar(text).value.Expression?
  {
  }
}
