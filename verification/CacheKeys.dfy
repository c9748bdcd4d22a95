/**
 The keys of the semantic cache (`_generation_key` and `_prefix` in
 `apps/runtime/core/semantic_cache.py`): when a scan by prefix meets only its own entries.
 */
module CacheKeys {
  import opened Text
  import opened Decimal

  const ROOT: string := "semcache:"

  function GenerationKey(collection: nat): string {
    ROOT + ("gen:" + Digits(collection))
  }

  function Prefix(agent: string, collection: nat, generation: nat): string {
    ROOT + (agent + ":" + (Digits(collection) + ":" + (Digits(generation) + ":")))
  }

  /** An agent id without the separator and without the wildcards of the `KEYS` pattern. */
  predicate Plain(agent: string) {
    forall i | 0 <= i < |agent| :: agent[i] !in ":*?[\\"
  }

  lemma PlainSpelled(agent: string)
    ensures Plain(agent) <==> ':' !in agent && '*' !in agent && '?' !in agent && '[' !in agent && '\\' !in agent
  {
  }

  lemma FirstColon(x: string, r: string)
    requires ':' !in x
    ensures |x| < |x + ":" + r| && (x + ":" + r)[|x|] == ':'
    ensures forall i | 0 <= i < |x| :: (x + ":" + r)[i] != ':'
    ensures (x + ":" + r)[..|x|] == x && (x + ":" + r)[|x| + 1..] == r
  {
    forall i | 0 <= i < |x|
      ensures (x + ":" + r)[i] != ':'
    {
      assert x[i] in x;
    }
  }

  lemma FieldsAgree(x: string, r: string, y: string, s: string)
    requires ':' !in x && ':' !in y
    ensures x + ":" + r == y + ":" + s ==> x == y && r == s
  {
    FirstColon(x, r);
    FirstColon(y, s);
  }

  lemma DigitsHaveNoColon(n: nat)
    ensures ':' !in Digits(n)
  {
    assert All(IsDigit, Digits(n));
  }

  /** The three fields after the root. */
  function Fields(agent: string, collection: nat, generation: nat, rest: string): string {
    agent + ":" + (Digits(collection) + ":" + (Digits(generation) + ":" + rest))
  }

  lemma KeyFields(agent: string, collection: nat, generation: nat, rest: string)
    ensures Prefix(agent, collection, generation) + rest == ROOT + Fields(agent, collection, generation, rest)
  {
  }

  lemma RootCancels(a: string, b: string)
    ensures ROOT + a == ROOT + b ==> a == b
  {
    assert (ROOT + a)[|ROOT|..] == a && (ROOT + b)[|ROOT|..] == b;
  }

  lemma FieldsDetermine(agent: string, collection: nat, generation: nat, rest: string,
                        agent': string, collection': nat, generation': nat, rest': string)
    requires ':' !in agent && ':' !in agent'
    requires Fields(agent, collection, generation, rest) == Fields(agent', collection', generation', rest')
    ensures agent == agent' && collection == collection' && generation == generation' && rest == rest'
  {
    DigitsHaveNoColon(collection);
    DigitsHaveNoColon(collection');
    DigitsHaveNoColon(generation);
    DigitsHaveNoColon(generation');
    var counts, counts' := Digits(generation) + ":" + rest, Digits(generation') + ":" + rest';
    FieldsAgree(agent, Digits(collection) + ":" + counts, agent', Digits(collection') + ":" + counts');
    FieldsAgree(Digits(collection), counts, Digits(collection'), counts');
    FieldsAgree(Digits(generation), rest, Digits(generation'), rest');
    DigitsInjective(collection, collection');
    DigitsInjective(generation, generation');
  }

  /** A prefix scan finds exactly the keys made for the same agent, collection and generation. */
  lemma ScanFindsOwnExactly(agent: string, collection: nat, generation: nat,
                            agent': string, collection': nat, generation': nat, id: string)
    requires Plain(agent) && Plain(agent')
    ensures Prefix(agent, collection, generation) <= Prefix(agent', collection', generation') + id
       <==> agent == agent' && collection == collection' && generation == generation'
  {
    hide Prefix, Fields;
    var prefix, key := Prefix(agent, collection, generation), Prefix(agent', collection', generation') + id;
    if prefix <= key {
      var rest := key[|prefix|..];
      assert prefix + rest == key;
      KeyFields(agent, collection, generation, rest);
      KeyFields(agent', collection', generation', id);
      RootCancels(Fields(agent, collection, generation, rest), Fields(agent', collection', generation', id));
      FieldsDetermine(agent, collection, generation, rest, agent', collection', generation', id);
    }
  }

  /** No generation counter is met by a scan or overwritten by an entry, whatever the agent is called. */
  lemma CountersApart(agent: string, collection: nat, generation: nat, rest: string, counted: nat)
    requires Plain(agent)
    ensures Prefix(agent, collection, generation) + rest != GenerationKey(counted)
  {
    hide Prefix;
    var more := Digits(collection) + ":" + (Digits(generation) + ":" + rest);
    KeyFields(agent, collection, generation, rest);
    RootCancels(Fields(agent, collection, generation, rest), "gen:" + Digits(counted));
    assert "gen:" + Digits(counted) == "gen" + ":" + Digits(counted);
    FieldsAgree(agent, more, "gen", Digits(counted));
    DigitsHaveNoColon(counted);
    DigitsHaveNoColon(collection);
    FirstColon(Digits(collection), Digits(generation) + ":" + rest);
    assert more[|Digits(collection)|] in more;
  }

  lemma SameCounter(collection: nat, collection': nat)
    requires GenerationKey(collection) == GenerationKey(collection')
    ensures collection == collection'
  {
    RootCancels("gen:" + Digits(collection), "gen:" + Digits(collection'));
    assert ("gen:" + Digits(collection))[4..] == Digits(collection);
    assert ("gen:" + Digits(collection'))[4..] == Digits(collection');
    DigitsInjective(collection, collection');
  }

  // ---- Agent ids with colons

  function Head(agent: string, collection: nat, generation: nat): string {
    agent + ":" + Digits(collection) + ":" + Digits(generation) + ":"
  }

  lemma HeadFields(agent: string, collection: nat, generation: nat, rest: string)
    ensures Head(agent, collection, generation) + rest == Fields(agent, collection, generation, rest)
    ensures Prefix(agent, collection, generation) + rest == ROOT + (Head(agent, collection, generation) + rest)
    ensures Prefix(agent, collection, generation) == ROOT + Head(agent, collection, generation)
  {
  }

  lemma PrefixesCompare(a: string, b: string)
    ensures ROOT + a <= ROOT + b <==> a <= b
  {
    assert ROOT + a <= ROOT + b ==> (ROOT + b)[|ROOT|..][..|a|] == a;
    assert (ROOT + b)[|ROOT|..] == b;
    if a <= b {
      assert b == a + b[|a|..];
      assert ROOT + b == (ROOT + a) + b[|a|..];
    }
  }

  /** The last field of a text that ends in one. */
  lemma LastFieldAgrees(x: string, r: string, y: string, s: string)
    requires ':' !in r && ':' !in s
    requires x + ":" + r + ":" == y + ":" + s + ":"
    ensures x == y && r == s
  {
    var left, right := x + ":" + r + ":", y + ":" + s + ":";
    LastColon(x, r);
    LastColon(y, s);
    assert |x| == |y|;
    assert left[..|x|] == x && right[..|y|] == y;
    assert left[|x| + 1..|left| - 1] == r && right[|y| + 1..|right| - 1] == s;
  }

  lemma LastColon(x: string, r: string)
    requires ':' !in r
    ensures var t := x + ":" + r + ":";
            t[|x|] == ':' && forall i | |x| < i < |t| - 1 :: t[i] != ':'
  {
    var t := x + ":" + r + ":";
    forall i | |x| < i < |t| - 1
      ensures t[i] != ':'
    {
      assert t[i] == r[i - |x| - 1];
    }
  }

  /** The colons of a key behind its agent. */
  lemma ColonsOfKey(agent: string, collection: nat, generation: nat, id: string, i: nat)
    requires ':' !in id && i < |Head(agent, collection, generation) + id|
    requires i >= |agent| && (Head(agent, collection, generation) + id)[i] == ':'
    ensures i in {|agent|, |agent| + 1 + |Digits(collection)|, |Head(agent, collection, generation)| - 1}
  {
    DigitsHaveNoColon(collection);
    DigitsHaveNoColon(generation);
    var c, g := Digits(collection), Digits(generation);
    var key := agent + ":" + c + ":" + g + ":" + id;
    var p1 := |agent| + 1;
    var p2 := p1 + |c| + 1;
    var p3 := p2 + |g| + 1;
    assert forall j | p1 <= j < p2 - 1 :: key[j] == c[j - p1];
    assert forall j | p2 <= j < p3 - 1 :: key[j] == g[j - p2];
    assert forall j | p3 <= j < |key| :: key[j] == id[j - p3];
  }

  /** Where a scan's prefix can end inside another key, and what that makes of the other agent. */
  lemma HeadInsideKey(agent: string, collection: nat, generation: nat,
                      agent': string, collection': nat, generation': nat, id: string)
    requires ':' !in id && Head(agent, collection, generation) <= Head(agent', collection', generation') + id
    ensures (agent == agent' && collection == collection' && generation == generation')
         || (agent' == agent + ":" + Digits(collection) && generation == collection')
         || agent' == agent + ":" + Digits(collection) + ":" + Digits(generation)
         || Head(agent, collection, generation) <= agent'
  {
    var head, key := Head(agent, collection, generation), Head(agent', collection', generation') + id;
    var c, g, c', g' := Digits(collection), Digits(generation), Digits(collection'), Digits(generation');
    assert head[|head| - 1] == ':' && key[|head| - 1] == ':';
    assert key == agent' + ":" + c' + ":" + g' + ":" + id;
    DigitsHaveNoColon(collection);
    DigitsHaveNoColon(generation);
    DigitsHaveNoColon(collection');
    DigitsHaveNoColon(generation');
    if |head| <= |agent'| {
      assert key[..|agent'|] == agent';
    } else {
      ColonsOfKey(agent', collection', generation', id, |head| - 1);
      if |head| == |agent'| + 1 {
        assert head == agent' + ":";
        assert head[..|head| - 1] == agent + ":" + c + ":" + g;
        assert head[..|head| - 1] == agent';
      } else if |head| == |agent'| + 2 + |c'| {
        assert head == agent' + ":" + c' + ":";
        LastFieldAgrees(agent + ":" + c, g, agent', c');
        DigitsInjective(generation, collection');
      } else {
        assert head == agent' + ":" + c' + ":" + g' + ":";
        LastFieldAgrees(agent + ":" + c, g, agent' + ":" + c', g');
        assert agent + ":" + c + ":" == agent' + ":" + c' + ":";
        LastFieldAgrees(agent, c, agent', c');
        DigitsInjective(generation, generation');
        DigitsInjective(collection, collection');
      }
    }
  }

  lemma KeyHoldsHead(agent: string, collection: nat, generation: nat,
                     agent': string, collection': nat, generation': nat, id: string)
    ensures agent' == agent + ":" + Digits(collection) && generation == collection'
        ==> Head(agent, collection, generation) <= Head(agent', collection', generation') + id
    ensures agent' == agent + ":" + Digits(collection) + ":" + Digits(generation)
        ==> Head(agent, collection, generation) <= Head(agent', collection', generation') + id
    ensures Head(agent, collection, generation) <= agent'
        ==> Head(agent, collection, generation) <= Head(agent', collection', generation') + id
  {
    hide Digits;
    var key := Head(agent', collection', generation') + id;
    FieldsInFront(agent', Digits(collection'), Digits(generation'), id);
    if Head(agent, collection, generation) <= agent' {
      FrontOfFront(Head(agent, collection, generation), agent', key);
    }
  }

  lemma FieldsInFront(a: string, b: string, c: string, id: string)
    ensures var key := a + ":" + b + ":" + c + ":" + id;
            a <= key && a + ":" <= key && a + ":" + b + ":" <= key
  {
    assert a + ":" + b + ":" + c + ":" + id == (a + ":") + (b + ":" + c + ":" + id);
    assert a + ":" + b + ":" + c + ":" + id == a + (":" + b + ":" + c + ":" + id);
  }

  lemma FrontOfFront(a: string, b: string, c: string)
    requires a <= b <= c
    ensures a <= c
  {
  }

  /**
   When ids may hold colons, a scan meets another key exactly when that key's agent extends the
   scanning one by a collection and, unless the key's collection is the generation scanned, by the generation.
   A scan is such a test for a literal prefix when the scanning id is free of the wildcards of `KEYS`.
   */
  lemma ColonMixesAgentsExactlyWhen(agent: string, collection: nat, generation: nat,
                                    agent': string, collection': nat, generation': nat, id: string)
    requires ':' !in id
    ensures Prefix(agent, collection, generation) <= Prefix(agent', collection', generation') + id
       <==> || (agent == agent' && collection == collection' && generation == generation')
            || (agent' == agent + ":" + Digits(collection) && generation == collection')
            || agent' == agent + ":" + Digits(collection) + ":" + Digits(generation)
            || agent + ":" + Digits(collection) + ":" + Digits(generation) + ":" <= agent'
  {
    hide Prefix;
    HeadFields(agent, collection, generation, "");
    HeadFields(agent', collection', generation', id);
    PrefixesCompare(Head(agent, collection, generation), Head(agent', collection', generation') + id);
    KeyHoldsHead(agent, collection, generation, agent', collection', generation', id);
    if Head(agent, collection, generation) <= Head(agent', collection', generation') + id {
      HeadInsideKey(agent, collection, generation, agent', collection', generation', id);
    }
  }
}
