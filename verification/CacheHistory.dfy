/**
 What the records kept in the states of `SemanticCache` stand for, and what a lookup returns, both
 in terms of the commands alone. Every command ticks the clock, so a time is an index into the commands.
 */
module CacheHistory {
  import opened Wrappers
  import opened CacheKeys
  import opened SemanticCache

  predicate StoreLogged(events: seq<Event>, p: nat, t: Storing) {
    t.readAt < |events| && events[t.readAt] == BeginStore(p, t.scope, t.entry)
  }

  /** Begun and set by one process; and still there unless it has expired since. */
  ghost predicate WriteLogged(events: seq<Event>, redis: map<string, Value>, key: string, w: Written) {
    && (exists p :: StoreLogged(events, p, w.task) && w.at < |events| && events[w.at] == SetEntry(p, w.id))
    && w.task.readAt < w.at
    && (key in redis || exists x :: w.at < x < |events| && events[x] == Expire(key))
  }

  predicate LookupLogged(events: seq<Event>, p: nat, l: Lookup) {
    && l.readAt < |events| && events[l.readAt] == BeginLookup(p, l.scope, l.embedding)
    && (l.phase.Scan? ==> l.readAt < l.phase.listedAt < |events|)
    && (l.phase.Done? ==> l.readAt < l.phase.listedAt < |events|)
  }

  ghost predicate BumpsLogged(events: seq<Event>, bumps: seq<Bump>) {
    && (forall b | b in bumps :: b.at < |events| && events[b.at] == Invalidate(b.collection))
    && (forall i | 0 <= i < |events| && events[i].Invalidate? :: Bump(events[i].collection, i) in bumps)
  }

  /** The records of a state reached by `events`. */
  ghost predicate Logged(events: seq<Event>, s: State) {
    && s.clock == |events|
    && (forall p | p in s.storing :: StoreLogged(events, p, s.storing[p]))
    && (forall k | k in s.written :: WriteLogged(events, s.redis, k, s.written[k]))
    && (forall p | p in s.lookups :: LookupLogged(events, p, s.lookups[p]))
    && BumpsLogged(events, s.bumps)
  }

  lemma StoreStays(events: seq<Event>, e: Event, p: nat, t: Storing)
    requires StoreLogged(events, p, t)
    ensures StoreLogged(events + [e], p, t)
  {
  }

  lemma WriteStays(events: seq<Event>, e: Event, redis: map<string, Value>, redis': map<string, Value>, key: string,
                   w: Written)
    requires WriteLogged(events, redis, key, w)
    requires key in redis ==> key in redis' || e == Expire(key)
    ensures WriteLogged(events + [e], redis', key, w)
  {
    hide StoreLogged;
    var p :| StoreLogged(events, p, w.task) && w.at < |events| && events[w.at] == SetEntry(p, w.id);
    StoreStays(events, e, p, w.task);
    assert (events + [e])[w.at] == events[w.at];
    if key in redis {
      assert (events + [e])[|events|] == e;
    } else {
      var x :| w.at < x < |events| && events[x] == Expire(key);
      assert (events + [e])[x] == Expire(key);
    }
  }

  lemma LookupStays(events: seq<Event>, e: Event, p: nat, l: Lookup)
    requires LookupLogged(events, p, l)
    ensures LookupLogged(events + [e], p, l)
  {
  }

  lemma BumpsStay(events: seq<Event>, e: Event, bumps: seq<Bump>, bumps': seq<Bump>)
    requires BumpsLogged(events, bumps)
    requires bumps' == if e.Invalidate? then bumps + [Bump(e.collection, |events|)] else bumps
    ensures BumpsLogged(events + [e], bumps')
  {
    var later := events + [e];
    forall b | b in bumps'
      ensures b.at < |later| && later[b.at] == Invalidate(b.collection)
    {
      assert b in bumps ==> later[b.at] == events[b.at];
    }
    forall i | 0 <= i < |later| && later[i].Invalidate?
      ensures Bump(later[i].collection, i) in bumps'
    {
      assert i < |events| ==> later[i] == events[i] && Bump(later[i].collection, i) in bumps;
    }
  }

  /** What a command may do to the records. */
  lemma StepRecords(config: Config, s: State, e: Event, t: State)
    requires Step(config, s, e) == Some(t)
    ensures t.clock == s.clock + 1
    ensures t.bumps == if e.Invalidate? then s.bumps + [Bump(e.collection, s.clock)] else s.bumps
    ensures forall p | p in t.storing ::
              (p in s.storing && t.storing[p] == s.storing[p])
              || (e.BeginStore? && e.process == p && t.storing[p].scope == e.scope && t.storing[p].entry == e.entry
                  && t.storing[p].readAt == s.clock)
    ensures forall k | k in s.redis :: k in t.redis || e == Expire(k)
    ensures forall k | k in s.written :: k in t.written && t.written[k] == s.written[k]
  {
    hide Generation, PrefixOf, Lists, Match, Fetch, Verdict, GenerationKey;
  }

  lemma StepWrites(config: Config, s: State, e: Event, t: State)
    requires Step(config, s, e) == Some(t)
    ensures forall k | k in t.written ::
              (k in s.written && t.written[k] == s.written[k])
              || (e.SetEntry? && e.process in s.storing && k in t.redis
                  && t.written[k] == Written(s.storing[e.process], e.id, s.clock))
  {
    hide Generation, PrefixOf, Lists, Match, Fetch, Verdict, GenerationKey;
  }

  lemma StepLookups(config: Config, s: State, e: Event, t: State)
    requires Step(config, s, e) == Some(t)
    ensures forall p | p in s.lookups :: p in t.lookups
    ensures forall p | p in t.lookups ::
              || (p in s.lookups && t.lookups[p] == s.lookups[p])
              || (p !in s.lookups && e.BeginLookup? && e.process == p && t.lookups[p].scope == e.scope
                  && t.lookups[p].embedding == e.embedding && t.lookups[p].readAt == s.clock
                  && t.lookups[p].phase.Keys?)
              || (p in s.lookups && SameLookup(s.lookups[p], t.lookups[p], s.clock))
  {
    hide Generation, PrefixOf, Lists, Match, Verdict, GenerationKey;
  }

  /** The lookup has moved on: to its listing now, or behind the one it had. */
  predicate SameLookup(l: Lookup, m: Lookup, now: nat) {
    && m.scope == l.scope && m.embedding == l.embedding && m.readAt == l.readAt && !m.phase.Keys?
    && (if l.phase.Keys? then m.phase.Scan? && m.phase.listedAt == now
        else m.phase.listedAt == l.phase.listedAt)
  }

  lemma LoggedStep(config: Config, events: seq<Event>, s: State, e: Event, t: State)
    requires Logged(events, s) && Step(config, s, e) == Some(t)
    ensures Logged(events + [e], t)
  {
    hide Step, StoreLogged, WriteLogged, LookupLogged, BumpsLogged;
    StepRecords(config, s, e, t);
    StepWrites(config, s, e, t);
    StepLookups(config, s, e, t);
    BumpsStay(events, e, s.bumps, t.bumps);
    forall p | p in t.storing
      ensures StoreLogged(events + [e], p, t.storing[p])
    {
      NewStore(events, e, p, t.storing[p]);
      if p in s.storing && t.storing[p] == s.storing[p] {
        StoreStays(events, e, p, t.storing[p]);
      }
    }
    forall k | k in t.written
      ensures WriteLogged(events + [e], t.redis, k, t.written[k])
    {
      if k in s.written && t.written[k] == s.written[k] {
        WriteStays(events, e, s.redis, t.redis, k, t.written[k]);
      } else {
        NewWrite(events, e, t.redis, k, s.storing[e.process], t.written[k]);
      }
    }
    forall p | p in t.lookups
      ensures LookupLogged(events + [e], p, t.lookups[p])
    {
      NewLookup(events, e, p, t.lookups[p]);
      if p in s.lookups {
        LookupMoves(events, e, p, s.lookups[p], t.lookups[p]);
      }
    }
  }

  lemma NewStore(events: seq<Event>, e: Event, p: nat, t: Storing)
    ensures e == BeginStore(p, t.scope, t.entry) && t.readAt == |events| ==> StoreLogged(events + [e], p, t)
  {
  }

  lemma NewWrite(events: seq<Event>, e: Event, redis: map<string, Value>, key: string, task: Storing, w: Written)
    requires e.SetEntry? && StoreLogged(events, e.process, task) && key in redis
    requires w == Written(task, e.id, |events|)
    ensures WriteLogged(events + [e], redis, key, w)
  {
    StoreStays(events, e, e.process, task);
    assert (events + [e])[w.at] == SetEntry(e.process, w.id);
  }

  lemma NewLookup(events: seq<Event>, e: Event, p: nat, l: Lookup)
    ensures e == BeginLookup(p, l.scope, l.embedding) && l.readAt == |events| && l.phase.Keys? ==>
              LookupLogged(events + [e], p, l)
  {
  }

  lemma LookupMoves(events: seq<Event>, e: Event, p: nat, l: Lookup, m: Lookup)
    requires LookupLogged(events, p, l)
    ensures m == l || SameLookup(l, m, |events|) ==> LookupLogged(events + [e], p, m)
  {
    LookupStays(events, e, p, l);
  }

  lemma {:induction false} LoggedRun(config: Config, past: seq<Event>, s: State, events: seq<Event>, t: State)
    requires Logged(past, s) && Run(config, s, events) == Some(t)
    ensures Logged(past + events, t)
    decreases |events|
  {
    hide Logged, Step;
    if events == [] {
      assert past + events == past;
    } else {
      var next := Step(config, s, events[0]).value;
      LoggedStep(config, past, s, events[0], next);
      LoggedRun(config, past + [events[0]], next, events[1..], t);
      assert past + [events[0]] + events[1..] == past + events;
    }
  }

  lemma Records(config: Config, events: seq<Event>, s: State)
    requires Run(config, START, events) == Some(s)
    ensures Logged(events, s)
  {
    hide Run;
    LoggedRun(config, [], START, events, s);
    assert [] + events == events;
  }

  // ---- What a lookup returns, from the commands

  /** The commands at `b` and `w` store `entry` for the scope. */
  ghost predicate Stores(events: seq<Event>, b: nat, w: nat, scope: Scope, entry: Entry) {
    b < w < |events| && exists p, id :: events[b] == BeginStore(p, scope, entry) && events[w] == SetEntry(p, id)
  }

  /**
   A hit is the answer of an entry that was stored for the scope of the lookup, begun after every
   invalidation of the collection that came before the lookup, with the score of that entry's embedding
   against the one looked up.
   */
  lemma HitWasStored(config: Config, events: seq<Event>, s: State, process: nat)
    requires Run(config, START, events) == Some(s) && forall e | e in events :: PlainEvent(e)
    requires Finished(s, process) && s.lookups[process].phase.hit.Some?
    ensures var l := s.lookups[process]; var hit := l.phase.hit.value;
            && l.readAt < |events| && events[l.readAt] == BeginLookup(process, l.scope, l.embedding)
            && exists b, w, entry ::
                 && Stores(events, b, w, l.scope, entry)
                 && hit.answer == entry.answer && hit.score == config.similarity(l.embedding, entry.embedding)
                 && (forall x | 0 <= x < l.readAt && events[x] == Invalidate(l.scope.collection) :: x < b)
  {
    hide Run, PlainEvent, Invariant;
    Records(config, events, s);
    HitIsOwnBest(config, events, s, process);
    var l := s.lookups[process];
    var key := l.phase.hit.value.key;
    var w := s.written[key];
    assert LookupLogged(events, process, l) && WriteLogged(events, s.redis, key, w);
    WriteStores(events, s.redis, key, w);
    forall x | 0 <= x < l.readAt && events[x] == Invalidate(l.scope.collection)
      ensures x < w.task.readAt
    {
      var j := BumpOf(events, s.bumps, x);
      NoStaleHit(config, events, s, process, j);
    }
    assert Stores(events, w.task.readAt, w.at, l.scope, w.task.entry);
  }

  lemma WriteStores(events: seq<Event>, redis: map<string, Value>, key: string, w: Written)
    requires WriteLogged(events, redis, key, w)
    ensures Stores(events, w.task.readAt, w.at, w.task.scope, w.task.entry)
  {
  }

  lemma BumpOf(events: seq<Event>, bumps: seq<Bump>, x: nat) returns (j: nat)
    requires BumpsLogged(events, bumps) && x < |events| && events[x].Invalidate?
    ensures j < |bumps| && bumps[j] == Bump(events[x].collection, x)
  {
    assert Bump(events[x].collection, x) in bumps;
    j :| j < |bumps| && bumps[j] == Bump(events[x].collection, x);
  }

  /**
   A finished lookup does at least as well as any entry of its scope that was set before it listed the keys, with
   no invalidation of the collection between the two readings of the generation, and that has not expired since.
   */
  lemma StoredIsFound(config: Config, events: seq<Event>, s: State, process: nat, key: string)
    requires Run(config, START, events) == Some(s) && forall e | e in events :: PlainEvent(e)
    requires Finished(s, process) && key in s.written
    requires var l, w := s.lookups[process], s.written[key];
             && w.task.scope == l.scope && w.at < l.phase.listedAt && w.task.readAt <= l.readAt
             && (forall x | w.task.readAt <= x < l.readAt && x < |events| ::
                   events[x] != Invalidate(l.scope.collection))
             && (forall x | w.at < x < |events| :: events[x] != Expire(key))
    ensures var l := s.lookups[process];
            var score := config.similarity(l.embedding, s.written[key].task.entry.embedding);
            score > -1.0 && score >= config.threshold ==> l.phase.hit.Some? && l.phase.hit.value.score >= score
  {
    hide Run, PlainEvent, Bumps;
    Records(config, events, s);
    ReachableInvariant(config, events, s);
    var l, w := s.lookups[process], s.written[key];
    assert LookupLogged(events, process, l) && WriteLogged(events, s.redis, key, w);
    assert WrittenOk(key, w, s);
    SameCount(events, s.bumps, l.scope.collection, w.task.readAt, l.readAt);
    LiveEntriesConsidered(config, events, s, process, key);
  }

  lemma {:induction false} CountBetween(bumps: seq<Bump>, collection: nat, early: nat, late: nat)
    requires early <= late && forall b | b in bumps :: b.collection == collection ==> b.at < early || late <= b.at
    ensures Bumps(bumps, collection, early) == Bumps(bumps, collection, late)
  {
    if bumps != [] {
      assert bumps[|bumps| - 1] in bumps;
      CountBetween(bumps[..|bumps| - 1], collection, early, late);
    }
  }

  lemma SameCount(events: seq<Event>, bumps: seq<Bump>, collection: nat, early: nat, late: nat)
    requires BumpsLogged(events, bumps) && early <= late <= |events|
    requires forall x | early <= x < late :: events[x] != Invalidate(collection)
    ensures Bumps(bumps, collection, early) == Bumps(bumps, collection, late)
  {
    forall b | b in bumps && b.collection == collection
      ensures b.at < early || late <= b.at
    {
      assert events[b.at] == Invalidate(collection);
    }
    CountBetween(bumps, collection, early, late);
  }

  // ---- Expired keys

  /** What has expired was once written and is there no more: keys are never used again. */
  ghost predicate ExpiredGone(events: seq<Event>, s: State) {
    forall x | 0 <= x < |events| && events[x].Expire? :: events[x].key in s.written && events[x].key !in s.redis
  }

  lemma ExpiredStep(config: Config, events: seq<Event>, s: State, e: Event, t: State)
    requires Invariant(config, s) && ExpiredGone(events, s) && Step(config, s, e) == Some(t)
    ensures ExpiredGone(events + [e], t)
  {
    hide Invariant, Step;
    StepRecords(config, s, e, t);
    StepKeys(config, s, e, t);
    var later := events + [e];
    forall x | 0 <= x < |later| && later[x].Expire?
      ensures later[x].key in t.written && later[x].key !in t.redis
    {
      if x < |events| {
        assert later[x] == events[x];
        if e.Invalidate? {
          InvariantParts(config, s);
          WrittenApart(s, events[x].key, e.collection);
        }
      } else {
        ExpiredWasWritten(config, s, e.key, t);
      }
    }
  }

  /** Which keys a command may bring. */
  lemma StepKeys(config: Config, s: State, e: Event, t: State)
    requires Step(config, s, e) == Some(t)
    ensures forall k | k in t.redis ::
              || k in s.redis
              || (e.SetEntry? && k !in s.written)
              || (e.Invalidate? && k == GenerationKey(e.collection))
    ensures e.Expire? ==> e.key !in t.redis
  {
    hide Generation, PrefixOf, Lists, Match, Fetch, Verdict, GenerationKey;
  }

  lemma ExpiredWasWritten(config: Config, s: State, key: string, t: State)
    requires Invariant(config, s) && Step(config, s, Expire(key)) == Some(t)
    ensures key in t.written
  {
    hide LookupOk, StoringOk, WrittenOk, Clocked;
  }

  lemma {:induction false} ExpiredRun(config: Config, past: seq<Event>, s: State, events: seq<Event>, t: State)
    requires Invariant(config, s) && ExpiredGone(past, s) && Run(config, s, events) == Some(t)
    requires forall e | e in events :: PlainEvent(e)
    ensures ExpiredGone(past + events, t)
    decreases |events|
  {
    hide Invariant, ExpiredGone, Step, PlainEvent;
    if events == [] {
      assert past + events == past;
    } else {
      var next := Step(config, s, events[0]).value;
      ExpiredStep(config, past, s, events[0], next);
      StepKeeps(config, s, events[0], next);
      ExpiredRun(config, past + [events[0]], next, events[1..], t);
      assert past + [events[0]] + events[1..] == past + events;
    }
  }

  /** The keys a lookup still has to read or has seen an entry under. */
  function KeysOf(l: Lookup): set<string> {
    match l.phase
    case Keys => {}
    case Scan(remaining, _, seen, _) => (set k | k in remaining) + SeenKeys(seen)
    case Done(_, seen, _) => SeenKeys(seen)
  }

  /** None of the keys of a lookup had expired when it listed them. */
  ghost predicate ListedAlive(events: seq<Event>, l: Lookup) {
    !l.phase.Keys? ==>
      forall x, k | 0 <= x < |events| && k in KeysOf(l) && events[x] == Expire(k) :: l.phase.listedAt < x
  }

  ghost predicate AllListedAlive(events: seq<Event>, s: State) {
    forall p | p in s.lookups :: ListedAlive(events, s.lookups[p])
  }

  lemma AliveStays(events: seq<Event>, e: Event, l: Lookup)
    requires ListedAlive(events, l) && (!l.phase.Keys? ==> l.phase.listedAt < |events|)
    ensures ListedAlive(events + [e], l)
  {
    hide KeysOf;
    forall x, k | !l.phase.Keys? && 0 <= x < |events + [e]| && k in KeysOf(l) && (events + [e])[x] == Expire(k)
      ensures l.phase.listedAt < x
    {
      assert x < |events| ==> events[x] == Expire(k);
    }
  }

  /** How a lookup moves on: it lists what is there, or drops keys from those it has. */
  lemma StepListed(config: Config, s: State, e: Event, t: State)
    requires Step(config, s, e) == Some(t)
    ensures forall p | p in t.lookups ::
              || (p in s.lookups && t.lookups[p] == s.lookups[p])
              || t.lookups[p].phase.Keys?
              || (!e.Expire? && KeysOf(t.lookups[p]) <= s.redis.Keys && t.lookups[p].phase.listedAt == s.clock)
              || (!e.Expire? && p in s.lookups && !s.lookups[p].phase.Keys?
                  && KeysOf(t.lookups[p]) <= KeysOf(s.lookups[p])
                  && t.lookups[p].phase.listedAt == s.lookups[p].phase.listedAt)
  {
    hide Generation, PrefixOf, Match, Verdict, GenerationKey, Improve;
    match e
    case GetNext(p) => FetchDrops(config, s, s.lookups[p]);
    case _ =>
  }

  lemma FetchDrops(config: Config, s: State, l: Lookup)
    requires l.phase.Scan? && l.phase.remaining != []
    ensures KeysOf(l.(phase := Fetch(config, s.redis, l.embedding, l.phase))) <= KeysOf(l)
  {
    hide Improve;
    var key := l.phase.remaining[0];
    if key in s.redis && s.redis[key].Cached? {
      var found := Match(config, l.embedding, key, s.redis[key].entry);
      SeenKeysAppend(l.phase.seen, found);
    }
  }

  lemma AliveStep(config: Config, events: seq<Event>, s: State, e: Event, t: State)
    requires Logged(events, s) && ExpiredGone(events, s) && AllListedAlive(events, s) && Step(config, s, e) == Some(t)
    ensures AllListedAlive(events + [e], t)
  {
    hide Step, KeysOf, StoreLogged, WriteLogged, BumpsLogged;
    StepListed(config, s, e, t);
    forall p | p in t.lookups
      ensures ListedAlive(events + [e], t.lookups[p])
    {
      if p in s.lookups && t.lookups[p] == s.lookups[p] {
        assert LookupLogged(events, p, s.lookups[p]);
        AliveStays(events, e, t.lookups[p]);
      } else if !t.lookups[p].phase.Keys? {
        assert p in s.lookups ==> ListedAlive(events, s.lookups[p]);
        forall x, k | 0 <= x < |events + [e]| && k in KeysOf(t.lookups[p]) && (events + [e])[x] == Expire(k)
          ensures t.lookups[p].phase.listedAt < x
        {
          assert x < |events| ==> events[x] == Expire(k);
        }
      }
    }
  }

  lemma {:induction false} AliveRun(config: Config, past: seq<Event>, s: State, events: seq<Event>, t: State)
    requires Invariant(config, s) && Logged(past, s) && ExpiredGone(past, s) && AllListedAlive(past, s)
    requires Run(config, s, events) == Some(t) && forall e | e in events :: PlainEvent(e)
    ensures AllListedAlive(past + events, t)
    decreases |events|
  {
    hide Invariant, Logged, ExpiredGone, AllListedAlive, Step, PlainEvent;
    if events == [] {
      assert past + events == past;
    } else {
      var next := Step(config, s, events[0]).value;
      AliveStep(config, past, s, events[0], next);
      LoggedStep(config, past, s, events[0], next);
      ExpiredStep(config, past, s, events[0], next);
      StepKeeps(config, s, events[0], next);
      AliveRun(config, past + [events[0]], next, events[1..], t);
      assert past + [events[0]] + events[1..] == past + events;
    }
  }

  /** No lookup returns an entry that had expired when it listed the keys. */
  lemma HitWasAlive(config: Config, events: seq<Event>, s: State, process: nat, x: nat)
    requires Run(config, START, events) == Some(s) && forall e | e in events :: PlainEvent(e)
    requires Finished(s, process) && s.lookups[process].phase.hit.Some?
    requires x < |events| && events[x] == Expire(s.lookups[process].phase.hit.value.key)
    ensures s.lookups[process].phase.listedAt < x
  {
    hide Run, PlainEvent, Bumps, Match;
    StartInvariant(config);
    AliveRun(config, [], START, events, s);
    assert [] + events == events;
    ReachableInvariant(config, events, s);
    var l := s.lookups[process];
    BestOfIsMaximal(l.phase.seen);
    assert ListedAlive(events, l) && l.phase.hit.value in l.phase.seen;
  }

  lemma StartInvariant(config: Config)
    ensures Invariant(config, START) && Logged([], START) && ExpiredGone([], START) && AllListedAlive([], START)
  {
  }

  // ---- Storing, then looking up

  function Reads(process: nat, n: nat): seq<Event> {
    seq(n, i => GetNext(process))
  }

  /** An entry stored by `p`, then looked up by `q`, which lists the keys it is given and reads each. */
  function StoringThenLooking(p: nat, q: nat, scope: Scope, entry: Entry, id: string, embedding: Embedding,
                              keys: seq<string>): seq<Event>
  {
    [BeginStore(p, scope, entry), SetEntry(p, id), BeginLookup(q, scope, embedding), ListKeys(q, keys)]
    + Reads(q, |keys|) + [Conclude(q)]
  }

  lemma {:induction false} RunAppend(config: Config, s: State, a: seq<Event>, b: seq<Event>)
    ensures Run(config, s, a + b)
            == match Run(config, s, a) case None => None case Some(t) => Run(config, t, b)
    decreases |a|
  {
    hide Step;
    if a == [] {
      assert a + b == b;
    } else {
      assert (a + b)[0] == a[0] && (a + b)[1..] == a[1..] + b;
      if Step(config, s, a[0]).Some? {
        RunAppend(config, Step(config, s, a[0]).value, a[1..], b);
      }
    }
  }

  /** What was written and which lookup a process is at stays through any run. */
  lemma {:induction false} RunRecords(config: Config, s: State, events: seq<Event>, t: State, key: string, q: nat)
    requires Run(config, s, events) == Some(t)
    ensures key in s.written ==> key in t.written && t.written[key] == s.written[key]
    ensures q in s.lookups ==>
              && q in t.lookups && t.lookups[q].scope == s.lookups[q].scope
              && t.lookups[q].embedding == s.lookups[q].embedding && t.lookups[q].readAt == s.lookups[q].readAt
    decreases |events|
  {
    hide Step;
    if events != [] {
      var next := Step(config, s, events[0]).value;
      StepRecords(config, s, events[0], next);
      StepLookups(config, s, events[0], next);
      RunRecords(config, next, events[1..], t, key, q);
    }
  }

  /** The first three commands: the key that is set, and the lookup that begins. */
  lemma ThreeCommands(config: Config, s: State, p: nat, q: nat, scope: Scope, entry: Entry, id: string,
                      embedding: Embedding, t: State)
    requires Run(config, s, [BeginStore(p, scope, entry), SetEntry(p, id), BeginLookup(q, scope, embedding)]) == Some(t)
    ensures var key := PrefixOf(scope, Generation(s.redis, scope.collection)) + id;
            && key in t.written && t.written[key].task.scope == scope && t.written[key].task.entry == entry
            && t.written[key].task.readAt == s.clock && t.written[key].at == s.clock + 1
            && q in t.lookups && t.lookups[q].scope == scope && t.lookups[q].embedding == embedding
            && t.lookups[q].readAt == s.clock + 2
  {
    hide PrefixOf, Generation;
    var a, b, c := BeginStore(p, scope, entry), SetEntry(p, id), BeginLookup(q, scope, embedding);
    assert [a, b, c][1..] == [b, c] && [b, c][1..] == [c] && [c][1..] == [];
    var s1 := Step(config, s, a).value;
    assert Run(config, s, [a, b, c]) == Run(config, s1, [b, c]);
    var s2 := Step(config, s1, b).value;
    assert Run(config, s1, [b, c]) == Run(config, s2, [c]);
    assert Run(config, s2, [c]) == Run(config, Step(config, s2, c).value, []);
  }

  lemma LastConcludes(config: Config, s: State, q: nat, t: State)
    requires Run(config, s, [Conclude(q)]) == Some(t)
    ensures Finished(t, q)
  {
    hide Verdict;
    assert [Conclude(q)][1..] == [];
    assert Run(config, s, [Conclude(q)]) == Run(config, Step(config, s, Conclude(q)).value, []);
  }

  /** Stored and then looked up undisturbed, an answer that reaches the threshold is found, or a better one. */
  lemma StoredThenLookedUp(config: Config, before: seq<Event>, p: nat, q: nat, scope: Scope, entry: Entry, id: string,
                           embedding: Embedding, keys: seq<string>, t: State)
    requires Plain(scope.agent) && forall e | e in before :: PlainEvent(e)
    requires Run(config, START, before + StoringThenLooking(p, q, scope, entry, id, embedding, keys)) == Some(t)
    ensures Finished(t, q)
    ensures var score := config.similarity(embedding, entry.embedding);
            score > -1.0 && score >= config.threshold ==>
              t.lookups[q].phase.hit.Some? && t.lookups[q].phase.hit.value.score >= score
  {
    hide Run, PlainEvent, Step, PrefixOf, Generation, Logged;
    var first := [BeginStore(p, scope, entry), SetEntry(p, id), BeginLookup(q, scope, embedding)];
    var rest := [ListKeys(q, keys)] + Reads(q, |keys|);
    var events := before + StoringThenLooking(p, q, scope, entry, id, embedding, keys);
    assert events == before + (first + (rest + [Conclude(q)]));
    RunAppend(config, START, before, first + (rest + [Conclude(q)]));
    var s := Run(config, START, before).value;
    RunAppend(config, s, first, rest + [Conclude(q)]);
    var mid := Run(config, s, first).value;
    RunAppend(config, mid, rest, [Conclude(q)]);
    ThreeCommands(config, s, p, q, scope, entry, id, embedding, mid);
    LastConcludes(config, Run(config, mid, rest).value, q, t);
    var key := PrefixOf(scope, Generation(s.redis, scope.collection)) + id;
    RunRecords(config, mid, rest + [Conclude(q)], t, key, q);
    Records(config, before, s);
    Records(config, events, t);
    ClockIsLength(before, s);
    Undisturbed(before, p, q, scope, entry, id, embedding, keys, key);
    ListedLater(events, t, q);
    StoredIsFound(config, events, t, q, key);
  }

  lemma ClockIsLength(events: seq<Event>, s: State)
    requires Logged(events, s)
    ensures s.clock == |events|
  {
  }

  lemma ListedLater(events: seq<Event>, s: State, q: nat)
    requires Logged(events, s) && Finished(s, q)
    ensures s.lookups[q].readAt < s.lookups[q].phase.listedAt
  {
    assert LookupLogged(events, q, s.lookups[q]);
  }

  lemma Undisturbed(before: seq<Event>, p: nat, q: nat, scope: Scope, entry: Entry, id: string, embedding: Embedding,
                    keys: seq<string>, key: string)
    requires Plain(scope.agent) && forall e | e in before :: PlainEvent(e)
    ensures var events := before + StoringThenLooking(p, q, scope, entry, id, embedding, keys);
            && (forall e | e in events :: PlainEvent(e))
            && forall x | |before| <= x < |events| :: !events[x].Invalidate? && !events[x].Expire?
  {
  }

  /** Nothing stops these commands: new processes, a new key and a listing of the keys are all they take. */
  lemma StoringThenLookingHappens(config: Config, s: State, p: nat, q: nat, scope: Scope, entry: Entry, id: string,
                                  embedding: Embedding, keys: seq<string>)
    requires p !in s.storing && q !in s.lookups
    requires var prefix := PrefixOf(scope, Generation(s.redis, scope.collection));
             && prefix + id !in s.written && Lists(keys, s.redis[prefix + id := Cached(entry)], prefix)
    requires Plain(scope.agent)
    ensures Run(config, s, StoringThenLooking(p, q, scope, entry, id, embedding, keys)).Some?
  {
    hide PrefixOf, GenerationKey, Lists, Reads;
    var first := [BeginStore(p, scope, entry), SetEntry(p, id), BeginLookup(q, scope, embedding), ListKeys(q, keys)];
    var rest := Reads(q, |keys|) + [Conclude(q)];
    assert StoringThenLooking(p, q, scope, entry, id, embedding, keys) == first + rest;
    RunAppend(config, s, first, rest);
    OwnKeyIsNoCounter(s, scope, id);
    FourCommands(config, s, p, q, scope, entry, id, embedding, keys);
    ReadsHappen(config, Run(config, s, first).value, q, |keys|);
  }

  lemma OwnKeyIsNoCounter(s: State, scope: Scope, id: string)
    requires Plain(scope.agent)
    ensures PrefixOf(scope, Generation(s.redis, scope.collection)) + id != GenerationKey(scope.collection)
  {
    hide Generation, Prefix, GenerationKey;
    CountersApart(scope.agent, scope.collection, Generation(s.redis, scope.collection), id, scope.collection);
  }

  lemma FourCommands(config: Config, s: State, p: nat, q: nat, scope: Scope, entry: Entry, id: string,
                     embedding: Embedding, keys: seq<string>)
    requires p !in s.storing && q !in s.lookups
    requires var prefix := PrefixOf(scope, Generation(s.redis, scope.collection));
             && prefix + id !in s.written && Lists(keys, s.redis[prefix + id := Cached(entry)], prefix)
    requires PrefixOf(scope, Generation(s.redis, scope.collection)) + id != GenerationKey(scope.collection)
    ensures var t := Run(config, s, [BeginStore(p, scope, entry), SetEntry(p, id), BeginLookup(q, scope, embedding),
                                     ListKeys(q, keys)]);
            t.Some? && q in t.value.lookups && t.value.lookups[q].phase.Scan?
            && |t.value.lookups[q].phase.remaining| == |keys|
  {
    hide PrefixOf, GenerationKey, Lists;
    var a, b, c, d := BeginStore(p, scope, entry), SetEntry(p, id), BeginLookup(q, scope, embedding), ListKeys(q, keys);
    assert [a, b, c, d][1..] == [b, c, d] && [b, c, d][1..] == [c, d] && [c, d][1..] == [d] && [d][1..] == [];
    var s1 := Step(config, s, a).value;
    assert Run(config, s, [a, b, c, d]) == Run(config, s1, [b, c, d]);
    var s2 := Step(config, s1, b).value;
    assert Run(config, s1, [b, c, d]) == Run(config, s2, [c, d]);
    var s3 := Step(config, s2, c).value;
    assert Run(config, s2, [c, d]) == Run(config, s3, [d]);
    assert Generation(s2.redis, scope.collection) == Generation(s.redis, scope.collection);
    assert Run(config, s3, [d]) == Run(config, Step(config, s3, d).value, []);
  }

  lemma {:induction false} ReadsHappen(config: Config, s: State, q: nat, n: nat)
    requires q in s.lookups && s.lookups[q].phase.Scan? && |s.lookups[q].phase.remaining| == n
    ensures Run(config, s, Reads(q, n) + [Conclude(q)]).Some?
    decreases n
  {
    hide Match, Improve, Verdict;
    var events := Reads(q, n) + [Conclude(q)];
    if n == 0 {
      assert events == [Conclude(q)] && events[1..] == [];
      assert Run(config, Step(config, s, Conclude(q)).value, []).Some?;
    } else {
      assert events[0] == GetNext(q) && events[1..] == Reads(q, n - 1) + [Conclude(q)];
      ReadsHappen(config, Step(config, s, GetNext(q)).value, q, n - 1);
    }
  }
}
