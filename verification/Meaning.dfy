/**
 What a template stands for: the chain JavaScript evaluates, and the substitution the
 form's author has in mind. They agree exactly when one of the first two segments is text.
 */
module Meaning {
  import opened Wrappers
  import opened Template
  import opened JsExpression
  import opened JsValue

  function SegmentValue(seg: Segment, env: Env): Value {
    match seg
    case Lit(text) => Str(text)
    case Ref(r) => Get(Lookup(env, r.step), r.path)
  }

  function SegmentValues(segs: seq<Segment>, env: Env): (values: seq<Value>)
    ensures |values| == |segs|
  {
    seq(|segs|, i requires 0 <= i < |segs| => SegmentValue(segs[i], env))
  }

  /** Every path in the template is a chain of JavaScript property names. */
  predicate JsPaths(segs: seq<Segment>) {
    forall i | 0 <= i < |segs| && segs[i].Ref? :: JsPath(segs[i].ref.path)
  }

  /** `env` holds results by step id; a digit-led path makes the expression unreadable. */
  function ChainMeaning(engine: Engine, value: string, env: Env): Option<Value> {
    var segs := Split(value);
    if !JsPaths(segs) then None
    else if segs == [] then Some(Str(""))
    else Some(Sum(engine, SegmentValues(segs, env)))
  }

  /** Each reference replaced by its value: the value itself when the template is one reference. */
  function SubstitutionMeaning(engine: Engine, value: string, env: Env): Option<Value> {
    var segs := Split(value);
    if !JsPaths(segs) then None
    else if |segs| == 1 then Some(SegmentValue(segs[0], env))
    else Some(Str(Concat(engine, SegmentValues(segs, env))))
  }

  /** Something other than two references stands in front. */
  predicate StartsWithText(segs: seq<Segment>) {
    |segs| < 2 || segs[0].Lit? || segs[1].Lit?
  }

  /** One of the first two segments has a string-like value: text, or a reference that answers one. */
  predicate LeadsWithString(value: string, env: Env) {
    var values := SegmentValues(Split(value), env);
    |values| < 2 || StringLike(values[0]) || StringLike(values[1])
  }

  lemma TextLeadsWithString(value: string, env: Env)
    requires StartsWithText(Split(value))
    ensures LeadsWithString(value, env)
  {
    hide Split;
    if |Split(value)| >= 2 {
      FirstTwo(Split(value), env);
    }
  }

  /** With these step results the text is unreadable either way, or its values read as text. */
  predicate TextAgrees(engine: Engine, value: string, env: Env) {
    JsPaths(Split(value)) && |Split(value)| >= 2 ==> ReadsAsText(engine, SegmentValues(Split(value), env))
  }

  /** With given step results the chain means the substitution exactly when the values read as text. */
  lemma ChainIsSubstitutionHereExactlyWhen(engine: Engine, value: string, env: Env)
    ensures ChainMeaning(engine, value, env) == SubstitutionMeaning(engine, value, env)
       <==> TextAgrees(engine, value, env)
  {
    hide Split, Concat, Sum, SegmentValues, ReadsAsText;
    var segs := Split(value);
    var values := SegmentValues(segs, env);
    if segs == [] {
      ConcatOfNothing(engine);
    } else if |segs| == 1 {
      LoneValue(segs[0], env);
      LoneSum(engine, SegmentValue(segs[0], env));
      assert segs == [segs[0]];
    } else {
      SumIsConcatExactlyWhen(engine, values);
    }
  }

  lemma LoneSum(engine: Engine, v: Value)
    ensures Sum(engine, [v]) == v
  {
  }

  /** The chain means the substitution as soon as one of the first two values is a string. */
  lemma ChainIsSubstitution(engine: Engine, value: string, env: Env)
    requires LeadsWithString(value, env)
    ensures TextAgrees(engine, value, env)
    ensures ChainMeaning(engine, value, env) == SubstitutionMeaning(engine, value, env)
  {
    hide Split, ReadsAsText, ChainMeaning, SubstitutionMeaning, SegmentValues;
    if |Split(value)| >= 2 {
      EarlyStringReads(engine, SegmentValues(Split(value), env));
    }
    ChainIsSubstitutionHereExactlyWhen(engine, value, env);
  }

  lemma LoneValue(seg: Segment, env: Env)
    ensures SegmentValues([seg], env) == [SegmentValue(seg, env)]
  {
  }

  /** Of two segments the chain is the substitution exactly when one of them has a string-like value. */
  lemma PairIsSubstitutionExactlyWhen(engine: Engine, value: string, env: Env)
    requires JsPaths(Split(value)) && |Split(value)| == 2
    ensures ChainMeaning(engine, value, env) == SubstitutionMeaning(engine, value, env) <==> LeadsWithString(value, env)
  {
    hide Split, Concat, SegmentValues;
    if LeadsWithString(value, env) {
      ChainIsSubstitution(engine, value, env);
    } else {
      PairAdds(engine, SegmentValues(Split(value), env));
    }
  }

  lemma PairAdds(engine: Engine, values: seq<Value>)
    requires |values| == 2 && !StringLike(values[0]) && !StringLike(values[1])
    ensures Sum(engine, values) == Plus(engine, values[0], values[1]) && !Sum(engine, values).Str?
  {
    assert values[..1] == [values[0]];
  }

  /** `{{steps.a.n}}{{steps.b.n}}`. */
  const TWO_REFERENCES: seq<Segment> :=
    [Ref(Reference("", "a", ["n"], "")), Ref(Reference("", "b", ["n"], ""))]

  function TwoNumbers(x: real, y: real): Env {
    map["a" := Obj(map["n" := Num(x)]), "b" := Obj(map["n" := Num(y)])]
  }

  /** An instance: two references that answer numbers are added, not put side by side. */
  lemma NumbersAreAdded(engine: Engine, x: real, y: real)
    ensures ChainMeaning(engine, Source(TWO_REFERENCES), TwoNumbers(x, y)) == Some(Num(x + y))
    ensures SubstitutionMeaning(engine, Source(TWO_REFERENCES), TwoNumbers(x, y))
         == Some(Str(engine.showNumber(x) + engine.showNumber(y)))
  {
    hide Split, MatchAt, Render;
    var segs, env := TWO_REFERENCES, TwoNumbers(x, y);
    TwoReferencesCanonical();
    SplitUnique(segs);
    var values := SegmentValues(segs, env);
    TwoNumberValues(x, y);
    PairAdds(engine, values);
    assert values[..1] == [values[0]] && values[..1][..0] == [];
    assert Concat(engine, values[..1]) == engine.showNumber(x);
  }

  lemma TwoReferencesCanonical()
    ensures Canonical(TWO_REFERENCES) && JsPaths(TWO_REFERENCES)
  {
    hide MatchAt, Render;
    assert TWO_REFERENCES[1..] == [TWO_REFERENCES[1]] && TWO_REFERENCES[1..][1..] == [];
    assert Canonical(TWO_REFERENCES[1..]);
  }

  lemma TwoNumberValues(x: real, y: real)
    ensures SegmentValues(TWO_REFERENCES, TwoNumbers(x, y)) == [Num(x), Num(y)]
  {
    var env := TwoNumbers(x, y);
    assert ["n"][1..] == [];
    assert Get(env["a"], ["n"]) == Num(x) && Get(env["b"], ["n"]) == Num(y);
  }

  lemma ConcatOfNothing(engine: Engine)
    ensures Concat(engine, []) == ""
  {
  }

  lemma FirstTwo(segs: seq<Segment>, env: Env)
    requires |segs| >= 2
    ensures SegmentValues(segs, env)[0] == SegmentValue(segs[0], env)
    ensures SegmentValues(segs, env)[1] == SegmentValue(segs[1], env)
    ensures segs[0].Lit? || segs[1].Lit? ==>
              StringLike(SegmentValues(segs, env)[0]) || StringLike(SegmentValues(segs, env)[1])
  {
  }

  lemma GetFromMissing(path: seq<string>)
    ensures Get(Missing, path) == Missing
  {
  }

  /** Nothing has run: two leading references make the chain differ from the substitution. */
  lemma ChainDiffersOnMissing(engine: Engine, value: string)
    requires JsPaths(Split(value)) && !StartsWithText(Split(value))
    ensures ChainMeaning(engine, value, map[]) != SubstitutionMeaning(engine, value, map[])
  {
    hide Split, Sum, Concat;
    var segs := Split(value);
    var values := SegmentValues(segs, map[]);
    forall i | 0 <= i < |segs|
      ensures values[i] == if segs[i].Ref? then Missing else Str(segs[i].text)
    {
      if segs[i].Ref? {
        GetFromMissing(segs[i].ref.path);
      }
    }
    SumOfMissing(engine, values);
  }

  /** Exactly when the `+` chain means the substitution, whatever the steps answered. */
  lemma ChainIsSubstitutionExactlyWhen(engine: Engine, value: string)
    requires JsPaths(Split(value))
    ensures (forall env :: ChainMeaning(engine, value, env) == SubstitutionMeaning(engine, value, env))
            <==> StartsWithText(Split(value))
  {
    hide ChainMeaning, SubstitutionMeaning, StartsWithText, LeadsWithString, JsPaths, Split;
    if StartsWithText(Split(value)) {
      forall env
        ensures ChainMeaning(engine, value, env) == SubstitutionMeaning(engine, value, env)
      {
        TextLeadsWithString(value, env);
        ChainIsSubstitution(engine, value, env);
      }
    } else {
      ChainDiffersOnMissing(engine, value);
    }
  }
}
