/**
 Values an expression works on, and JavaScript's `+` on them.
 A response of an endpoint is a value; a reference that leads nowhere is `Missing`.
 */
module JsValue {
  import opened Wrappers
  import opened JsExpression

  datatype Value =
    | Str(text: string)
    | Num(number: real)
    | NotANumber
    | Bool(truth: bool)
    | Null
    | Missing
    | Obj(fields: map<string, Value>)
    | Arr(items: seq<Value>)

  /** What is known of the JavaScript engine only by name: how it writes numbers and arrays. */
  datatype Engine = Engine(showNumber: real -> string, showItems: seq<Value> -> string)

  /** The results of the nodes that have run, by node name. */
  type Env = map<string, Value>

  function Get(v: Value, path: seq<string>): Value {
    if path == [] then v
    else if v.Obj? && path[0] in v.fields then Get(v.fields[path[0]], path[1..])
    else Missing
  }

  function Lookup(env: Env, name: string): Value {
    if name in env then env[name] else Missing
  }

  /** String conversion. */
  function Show(engine: Engine, v: Value): string {
    match v
    case Str(t) => t
    case Num(r) => engine.showNumber(r)
    case NotANumber => "NaN"
    case Bool(b) => if b then "true" else "false"
    case Null => "null"
    case Missing => "undefined"
    case Obj(_) => "[object Object]"
    case Arr(items) => engine.showItems(items)
  }

  /** `+` concatenates as soon as one side converts to a string primitive. */
  predicate StringLike(v: Value) {
    v.Str? || v.Obj? || v.Arr?
  }

  function Numeric(v: Value): Option<real> {
    match v
    case Num(r) => Some(r)
    case Bool(b) => Some(if b then 1.0 else 0.0)
    case Null => Some(0.0)
    case _ => None
  }

  function Plus(engine: Engine, a: Value, b: Value): Value {
    if StringLike(a) || StringLike(b) then Str(Show(engine, a) + Show(engine, b))
    else
      match (Numeric(a), Numeric(b))
      case (Some(x), Some(y)) => Num(x + y)
      case _ => NotANumber
  }

  /** A `+` chain, which associates to the left. */
  function Sum(engine: Engine, values: seq<Value>): Value
    requires values != []
  {
    if |values| == 1 then values[0]
    else Plus(engine, Sum(engine, values[..|values| - 1]), values[|values| - 1])
  }

  function Concat(engine: Engine, values: seq<Value>): string {
    if values == [] then ""
    else Concat(engine, values[..|values| - 1]) + Show(engine, values[|values| - 1])
  }

  /** The place of the first string-like value. */
  function FirstString(values: seq<Value>): (i: nat)
    ensures i <= |values|
    ensures i < |values| ==> StringLike(values[i])
    ensures forall j | 0 <= j < i :: !StringLike(values[j])
  {
    if values == [] || StringLike(values[0]) then 0 else 1 + FirstString(values[1..])
  }

  /** Values as text, and what `+` makes of two of them. */
  lemma ValuesShownAndAdded(engine: Engine, s: string, x: real, y: real, v: Value)
    ensures Show(engine, Str(s)) == s && Show(engine, Bool(true)) == "true" && Show(engine, Bool(false)) == "false"
    ensures Show(engine, Null) == "null" && Show(engine, Missing) == "undefined" && Show(engine, NotANumber) == "NaN"
    ensures v.Obj? ==> Show(engine, v) == "[object Object]"
    ensures Plus(engine, Str(s), v) == Str(s + Show(engine, v)) && Plus(engine, v, Str(s)) == Str(Show(engine, v) + s)
    ensures v.Obj? || v.Arr? ==> Plus(engine, v, Num(y)) == Str(Show(engine, v) + engine.showNumber(y))
    ensures Plus(engine, Num(x), Num(y)) == Num(x + y) && Plus(engine, Bool(true), Num(y)) == Num(1.0 + y)
    ensures Plus(engine, Null, Num(y)) == Plus(engine, Bool(false), Num(y)) == Num(y)
    ensures Plus(engine, Missing, Num(y)) == Plus(engine, Num(x), Missing) == NotANumber
  {
  }

  /** A path leads through the fields of objects. */
  lemma {:induction false} GetFollows(path: seq<string>, values: seq<Value>)
    requires |values| == |path| + 1
    requires forall i | 0 <= i < |path| ::
               values[i].Obj? && path[i] in values[i].fields && values[i + 1] == values[i].fields[path[i]]
    ensures Get(values[0], path) == values[|path|]
  {
    if path != [] {
      GetFollows(path[1..], values[1..]);
    }
  }

  /** Behind a value that is no object with the next field there is nothing. */
  lemma {:induction false} GetStops(path: seq<string>, values: seq<Value>)
    requires 0 < |values| <= |path|
    requires forall i | 0 <= i < |values| - 1 ::
               values[i].Obj? && path[i] in values[i].fields && values[i + 1] == values[i].fields[path[i]]
    requires var last := |values| - 1; !(values[last].Obj? && path[last] in values[last].fields)
    ensures Get(values[0], path) == Missing
  {
    if |values| > 1 {
      GetStops(path[1..], values[1..]);
    }
  }

  /** Without a string a chain comes to a number, or to what its single operand is. */
  lemma {:induction false} SumWithoutString(engine: Engine, values: seq<Value>)
    requires values != [] && forall i | 0 <= i < |values| :: !StringLike(values[i])
    ensures !StringLike(Sum(engine, values))
  {
    if |values| > 1 {
      SumWithoutString(engine, values[..|values| - 1]);
    }
  }

  /** What a chain has come to in front of position `i`, as text. */
  function SumText(engine: Engine, values: seq<Value>, i: nat): string
    requires i <= |values|
  {
    if i == 0 then "" else Show(engine, Sum(engine, values[..i]))
  }

  /** From the first string on, chain and concatenation grow by the same text. */
  lemma {:induction false} SameTail(engine: Engine, values: seq<Value>, i: nat, m: nat) returns (tail: string)
    requires i < m <= |values| && m >= 2 && StringLike(values[i])
    requires forall j | 0 <= j < i :: !StringLike(values[j])
    ensures Sum(engine, values[..m]) == Str(SumText(engine, values, i) + tail)
    ensures Concat(engine, values[..m]) == Concat(engine, values[..i]) + tail
  {
    hide Show, Sum, Concat;
    var last := Show(engine, values[m - 1]);
    SumLast(engine, values, m);
    if m == i + 1 {
      tail := last;
      SumWithoutString(engine, values[..i]);
    } else if m == 2 {
      tail := Show(engine, values[0]) + last;
      TwoShown(engine, values[..2]);
      NothingShown(engine, values);
    } else {
      var front := SameTail(engine, values, i, m - 1);
      tail := front + last;
      StringShown(engine, SumText(engine, values, i) + front);
    }
  }

  /** The first `m` operands in terms of those before the last. */
  lemma SumLast(engine: Engine, values: seq<Value>, m: nat)
    requires 2 <= m <= |values|
    ensures Sum(engine, values[..m]) == Plus(engine, Sum(engine, values[..m - 1]), values[m - 1])
    ensures Concat(engine, values[..m]) == Concat(engine, values[..m - 1]) + Show(engine, values[m - 1])
  {
    hide Show, Plus;
    assert values[..m][..m - 1] == values[..m - 1];
  }

  lemma NothingShown(engine: Engine, values: seq<Value>)
    ensures Concat(engine, values[..0]) == "" && SumText(engine, values, 0) == ""
  {
    hide Show;
  }

  lemma StringShown(engine: Engine, text: string)
    ensures Show(engine, Str(text)) == text
  {
  }

  lemma OneShown(engine: Engine, v: Value)
    ensures Concat(engine, [v]) == Show(engine, v)
  {
    hide Show;
    assert [v][..0] == [];
    assert Concat(engine, [v]) == Concat(engine, []) + Show(engine, v);
  }

  lemma TwoShown(engine: Engine, values: seq<Value>)
    requires |values| == 2
    ensures StringLike(values[0]) ==> Sum(engine, values) == Str(Show(engine, values[0]) + Show(engine, values[1]))
    ensures Concat(engine, values) == Show(engine, values[0]) + Show(engine, values[1])
  {
    hide Show;
    assert values[..1] == [values[0]];
    OneShown(engine, values[0]);
  }

  /** A string is among the values, and what stands before the first one adds up to its own text. */
  predicate ReadsAsText(engine: Engine, values: seq<Value>) {
    var i := FirstString(values);
    i < |values| && SumText(engine, values, i) == Concat(engine, values[..i])
  }

  /** Exactly when a chain of two or more operands is the concatenation of them all. */
  lemma SumIsConcatExactlyWhen(engine: Engine, values: seq<Value>)
    requires |values| >= 2
    ensures Sum(engine, values) == Str(Concat(engine, values)) <==> ReadsAsText(engine, values)
  {
    hide Sum, Concat, SumText, FirstString;
    var i := FirstString(values);
    if i < |values| {
      var tail := SameTail(engine, values, i, |values|);
      assert values[..|values|] == values;
      TailCancels(SumText(engine, values, i), Concat(engine, values[..i]), tail);
    } else {
      SumWithoutString(engine, values);
    }
  }

  lemma TailCancels(a: string, b: string, tail: string)
    ensures a + tail == b + tail <==> a == b
  {
    if a + tail == b + tail {
      assert |a| == |b|;
      assert (a + tail)[..|a|] == a && (b + tail)[..|b|] == b;
    }
  }

  /** A string among the first two is one such case. */
  lemma EarlyStringReads(engine: Engine, values: seq<Value>)
    requires |values| >= 2 && (StringLike(values[0]) || StringLike(values[1]))
    ensures ReadsAsText(engine, values)
  {
    hide Show;
    var i := FirstString(values);
    assert i <= 1;
    assert values[..0] == [];
    if i == 1 {
      assert values[..1] == [values[0]];
      OneShown(engine, values[0]);
    }
  }

  /** A chain of two or more operands with a string among the first two is concatenation. */
  lemma SumConcatenates(engine: Engine, values: seq<Value>)
    requires |values| >= 2 && (StringLike(values[0]) || StringLike(values[1]))
    ensures Sum(engine, values) == Str(Concat(engine, values))
  {
    hide Sum, Concat, ReadsAsText;
    EarlyStringReads(engine, values);
    SumIsConcatExactlyWhen(engine, values);
  }

  /** With two missing operands in front the chain never comes to the concatenation. */
  lemma {:induction false} SumOfMissing(engine: Engine, values: seq<Value>)
    requires |values| >= 2 && values[0] == values[1] == Missing
    requires forall i | 0 <= i < |values| :: values[i] == Missing || values[i].Str?
    ensures var sum := Sum(engine, values);
            sum == NotANumber || (sum.Str? && |sum.text| < |Concat(engine, values)|)
    ensures |Concat(engine, values)| > 3
  {
    var front := values[..|values| - 1];
    if |values| == 2 {
      assert front == [Missing];
      assert front[..0] == [];
      assert Concat(engine, front) == Concat(engine, []) + "undefined";
    } else {
      SumOfMissing(engine, front);
    }
  }

  function EvalTerm(t: Term, env: Env): Value {
    match t
    case Literal(text) => Str(text)
    case Field(node, path) => Get(Lookup(env, node), path)
  }

  function TermValues(terms: seq<Term>, env: Env): (values: seq<Value>)
    ensures |values| == |terms|
  {
    seq(|terms|, i requires 0 <= i < |terms| => EvalTerm(terms[i], env))
  }

  function EvalSum(engine: Engine, terms: seq<Term>, env: Env): Value
    requires terms != []
  {
    Sum(engine, TermValues(terms, env))
  }
}
