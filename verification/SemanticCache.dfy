/**
 The semantic cache (`apps/runtime/core/semantic_cache.py`) as processes that interleave
 single Redis commands. The clock, the log of invalidations, the record of who wrote a key and
 what a scan has seen are history: no step decides by them.
 */
module SemanticCache {
  import opened Wrappers
  import opened CacheKeys

  type Embedding = seq<real>

  datatype Entry = Entry(embedding: Embedding, answer: string)

  datatype Value = Counter(n: nat) | Cached(entry: Entry)

  datatype Scope = Scope(agent: string, collection: nat)

  /** A `store` that has read its generation and not yet set its key. */
  datatype Storing = Storing(scope: Scope, entry: Entry, generation: nat, readAt: nat)

  datatype Found = Found(key: string, answer: string, score: real)

  datatype Phase =
    | Keys
    | Scan(remaining: seq<string>, listedAt: nat, seen: seq<Found>, best: Option<Found>)
    | Done(listedAt: nat, seen: seq<Found>, hit: Option<Found>)

  /** A `lookup` that has read its generation. */
  datatype Lookup = Lookup(scope: Scope, embedding: Embedding, generation: nat, readAt: nat, phase: Phase)

  datatype Written = Written(task: Storing, id: string, at: nat)

  datatype Bump = Bump(collection: nat, at: nat)

  datatype State = State(redis: map<string, Value>, storing: map<nat, Storing>, lookups: map<nat, Lookup>,
                         clock: nat, bumps: seq<Bump>, written: map<string, Written>)

  const START: State := State(map[], map[], map[], 0, [], map[])

  /** The cache's settings: its threshold and the similarity of two embeddings. */
  datatype Config = Config(threshold: real, similarity: (Embedding, Embedding) -> real)

  /** One Redis command of one process, or the expiry of one key. */
  datatype Event =
    | BeginStore(process: nat, scope: Scope, entry: Entry)
    | SetEntry(process: nat, id: string)
    | BeginLookup(process: nat, scope: Scope, embedding: Embedding)
    | ListKeys(process: nat, keys: seq<string>)
    | GetNext(process: nat)
    | Conclude(process: nat)
    | Invalidate(collection: nat)
    | Expire(key: string)

  /** `_generation`. */
  function Generation(redis: map<string, Value>, collection: nat): nat {
    var key := GenerationKey(collection);
    if key in redis && redis[key].Counter? then redis[key].n else 0
  }

  function PrefixOf(scope: Scope, generation: nat): string {
    Prefix(scope.agent, scope.collection, generation)
  }

  /** What `KEYS prefix*` returns, in some order. */
  predicate Lists(keys: seq<string>, redis: map<string, Value>, prefix: string) {
    && (forall k | k in keys :: k in redis && prefix <= k)
    && (forall k | k in redis && prefix <= k :: k in keys)
  }

  function Tick(s: State): State {
    s.(clock := s.clock + 1)
  }

  function ScoreOf(best: Option<Found>): real {
    if best.Some? then best.value.score else -1.0
  }

  function Improve(best: Option<Found>, found: Found): Option<Found> {
    if found.score > ScoreOf(best) then Some(found) else best
  }

  function Match(config: Config, embedding: Embedding, key: string, entry: Entry): Found {
    Found(key, entry.answer, config.similarity(embedding, entry.embedding))
  }

  /** The body of the scanning loop for one key; a key that has expired is passed over. */
  function Fetch(config: Config, redis: map<string, Value>, embedding: Embedding, p: Phase): Phase
    requires p.Scan? && p.remaining != []
  {
    var key := p.remaining[0];
    if key !in redis || redis[key].Counter? then p.(remaining := p.remaining[1..])
    else
      var found := Match(config, embedding, key, redis[key].entry);
      Scan(p.remaining[1..], p.listedAt, p.seen + [found], Improve(p.best, found))
  }

  function Verdict(config: Config, best: Option<Found>): Option<Found> {
    if best.Some? && best.value.score >= config.threshold then best else None
  }

  /** One event; None when it cannot happen in this state. */
  function Step(config: Config, s: State, e: Event): Option<State> {
    match e
    case BeginStore(p, scope, entry) =>
      if p in s.storing then None else
      var started := Storing(scope, entry, Generation(s.redis, scope.collection), s.clock);
      Some(Tick(s.(storing := s.storing[p := started])))
    case SetEntry(p, id) =>
      if p !in s.storing then None else
      var task := s.storing[p];
      var key := PrefixOf(task.scope, task.generation) + id;
      if key in s.written then None else
      Some(Tick(s.(redis := s.redis[key := Cached(task.entry)], storing := s.storing - {p},
                   written := s.written[key := Written(task, id, s.clock)])))
    case BeginLookup(p, scope, embedding) =>
      if p in s.lookups then None else
      var started := Lookup(scope, embedding, Generation(s.redis, scope.collection), s.clock, Keys);
      Some(Tick(s.(lookups := s.lookups[p := started])))
    case ListKeys(p, keys) =>
      if p !in s.lookups || !s.lookups[p].phase.Keys? then None else
      var l := s.lookups[p];
      if !Lists(keys, s.redis, PrefixOf(l.scope, l.generation)) then None else
      Some(Tick(s.(lookups := s.lookups[p := l.(phase := Scan(keys, s.clock, [], None))])))
    case GetNext(p) =>
      if p !in s.lookups || !s.lookups[p].phase.Scan? || s.lookups[p].phase.remaining == [] then None else
      var l := s.lookups[p];
      Some(Tick(s.(lookups := s.lookups[p := l.(phase := Fetch(config, s.redis, l.embedding, l.phase))])))
    case Conclude(p) =>
      if p !in s.lookups || !s.lookups[p].phase.Scan? || s.lookups[p].phase.remaining != [] then None else
      var l := s.lookups[p];
      var done := Done(l.phase.listedAt, l.phase.seen, Verdict(config, l.phase.best));
      Some(Tick(s.(lookups := s.lookups[p := l.(phase := done)])))
    case Invalidate(collection) =>
      var key := GenerationKey(collection);
      if key in s.redis && s.redis[key].Cached? then None else
      Some(Tick(s.(redis := s.redis[key := Counter(Generation(s.redis, collection) + 1)],
                   bumps := s.bumps + [Bump(collection, s.clock)])))
    case Expire(key) =>
      if key !in s.redis || s.redis[key].Counter? then None else
      Some(Tick(s.(redis := s.redis - {key})))
  }

  /** A run: None as soon as one event cannot happen. */
  function Run(config: Config, s: State, events: seq<Event>): Option<State>
    decreases |events|
  {
    if events == [] then Some(s)
    else
      var s' :- Step(config, s, events[0]);
      Run(config, s', events[1..])
  }

  predicate PlainEvent(e: Event) {
    match e
    case BeginStore(_, scope, _) => Plain(scope.agent)
    case BeginLookup(_, scope, _) => Plain(scope.agent)
    case _ => true
  }

  // ---- Generations count invalidations

  function Bumps(bumps: seq<Bump>, collection: nat, before: nat): nat {
    if bumps == [] then 0 else
    var last := bumps[|bumps| - 1];
    Bumps(bumps[..|bumps| - 1], collection, before)
    + (if last.collection == collection && last.at < before then 1 else 0)
  }

  lemma BumpsAppend(bumps: seq<Bump>, bump: Bump, collection: nat, before: nat)
    ensures Bumps(bumps + [bump], collection, before)
         == Bumps(bumps, collection, before) + (if bump.collection == collection && bump.at < before then 1 else 0)
  {
    assert (bumps + [bump])[..|bumps|] == bumps;
  }

  /** A later reading counts no less, and strictly more across an invalidation. */
  lemma {:induction false} BumpsGrow(bumps: seq<Bump>, collection: nat, early: nat, late: nat)
    requires early <= late
    ensures Bumps(bumps, collection, early) <= Bumps(bumps, collection, late)
    ensures forall j | 0 <= j < |bumps| && bumps[j].collection == collection && early <= bumps[j].at < late ::
              Bumps(bumps, collection, early) < Bumps(bumps, collection, late)
  {
    if bumps != [] {
      BumpsGrow(bumps[..|bumps| - 1], collection, early, late);
      forall j | 0 <= j < |bumps| && bumps[j].collection == collection && early <= bumps[j].at < late
        ensures Bumps(bumps, collection, early) < Bumps(bumps, collection, late)
      {
        if j < |bumps| - 1 {
          assert bumps[..|bumps| - 1][j] == bumps[j];
        }
      }
    }
  }

  lemma {:induction false} BumpsSettled(bumps: seq<Bump>, collection: nat, early: nat, late: nat)
    requires forall j | 0 <= j < |bumps| :: bumps[j].at < early
    requires early <= late
    ensures Bumps(bumps, collection, early) == Bumps(bumps, collection, late)
  {
    if bumps != [] {
      BumpsSettled(bumps[..|bumps| - 1], collection, early, late);
    }
  }

  // ---- The best of what was seen

  function BestOf(seen: seq<Found>): Option<Found> {
    if seen == [] then None else Improve(BestOf(seen[..|seen| - 1]), seen[|seen| - 1])
  }

  lemma BestOfAppend(seen: seq<Found>, found: Found)
    ensures BestOf(seen + [found]) == Improve(BestOf(seen), found)
  {
    assert (seen + [found])[..|seen|] == seen;
  }

  /** The loop keeps a maximum, or nothing when no similarity exceeds its starting value. */
  lemma {:induction false} BestOfIsMaximal(seen: seq<Found>)
    ensures forall f | f in seen :: f.score <= ScoreOf(BestOf(seen))
    ensures BestOf(seen).Some? ==> BestOf(seen).value in seen && BestOf(seen).value.score > -1.0
  {
    if seen != [] {
      var front := seen[..|seen| - 1];
      BestOfIsMaximal(front);
      assert seen == front + [seen[|seen| - 1]];
    }
  }

  /** The loop of `lookup` over what its reads returned, None for a key that has expired. */
  method PickBest(config: Config, read: seq<Option<Found>>) returns (hit: Option<Found>)
    ensures hit == Verdict(config, BestOf(Present(read)))
  {
    var bestScore := -1.0;
    var best: Option<Found> := None;
    for i := 0 to |read|
      invariant best == BestOf(Present(read[..i])) && bestScore == ScoreOf(best)
    {
      assert read[..i + 1][..i] == read[..i];
      assert Present(read[..i]) + [] == Present(read[..i]);
      if read[i].Some? {
        BestOfAppend(Present(read[..i]), read[i].value);
        if read[i].value.score > bestScore {
          bestScore, best := read[i].value.score, read[i];
        }
      }
    }
    assert read[..|read|] == read;
    if best.Some? && bestScore >= config.threshold {
      return best;
    }
    return None;
  }

  function Present(read: seq<Option<Found>>): seq<Found> {
    if read == [] then [] else
    var last := read[|read| - 1];
    Present(read[..|read| - 1]) + (if last.Some? then [last.value] else [])
  }

  function SeenKeys(seen: seq<Found>): set<string> {
    set f | f in seen :: f.key
  }

  lemma SeenKeysAppend(seen: seq<Found>, found: Found)
    ensures SeenKeys(seen + [found]) == SeenKeys(seen) + {found.key}
  {
    assert forall k | k in SeenKeys(seen) :: k in SeenKeys(seen + [found]) by {
      forall k | k in SeenKeys(seen)
        ensures k in SeenKeys(seen + [found])
      {
        var f :| f in seen && f.key == k;
        assert f in seen + [found];
      }
    }
    assert found in seen + [found];
  }

  // ---- The invariant

  ghost predicate Clocked(s: State) {
    && (forall j | 0 <= j < |s.bumps| :: s.bumps[j].at < s.clock)
    && (forall c :: Generation(s.redis, c) == Bumps(s.bumps, c, s.clock))
  }

  /** The generation read at `readAt` is the number of invalidations before it. */
  predicate ReadInTime(s: State, collection: nat, generation: nat, readAt: nat) {
    readAt < s.clock && generation == Bumps(s.bumps, collection, readAt)
  }

  predicate StoringOk(t: Storing, s: State) {
    Plain(t.scope.agent) && ReadInTime(s, t.scope.collection, t.generation, t.readAt)
  }

  predicate WrittenOk(key: string, w: Written, s: State) {
    && StoringOk(w.task, s) && w.task.readAt < w.at < s.clock
    && key == PrefixOf(w.task.scope, w.task.generation) + w.id
  }

  /** An entry is what its writer stored; everything else is a generation counter. */
  predicate Stored(s: State) {
    && (forall k | k in s.redis && s.redis[k].Cached? :: k in s.written && s.redis[k].entry == s.written[k].task.entry)
    && (forall k | k in s.redis && s.redis[k].Counter? :: k !in s.written)
  }

  predicate Matches(w: Written, l: Lookup) {
    w.task.scope == l.scope && w.task.generation == l.generation
  }

  /** Whatever was seen was written for the lookup's scope and generation. */
  predicate SeenOk(config: Config, l: Lookup, seen: seq<Found>, s: State) {
    forall f | f in seen ::
      && f.key in s.written && Matches(s.written[f.key], l)
      && f == Match(config, l.embedding, f.key, s.written[f.key].task.entry)
  }

  /** A matching entry that was there at the listing and still is has been seen or will be. */
  predicate Complete(l: Lookup, listedAt: nat, remaining: seq<string>, seen: seq<Found>, s: State) {
    forall k | k in s.redis && k in s.written && Matches(s.written[k], l) && s.written[k].at < listedAt ::
      k in remaining || k in SeenKeys(seen)
  }

  predicate PhaseOk(config: Config, l: Lookup, s: State) {
    match l.phase
    case Keys => true
    case Scan(remaining, listedAt, seen, best) =>
      && l.readAt < listedAt < s.clock && best == BestOf(seen)
      && (forall k | k in remaining :: PrefixOf(l.scope, l.generation) <= k)
      && SeenOk(config, l, seen, s) && Complete(l, listedAt, remaining, seen, s)
    case Done(listedAt, seen, hit) =>
      && l.readAt < listedAt < s.clock && hit == Verdict(config, BestOf(seen))
      && SeenOk(config, l, seen, s) && Complete(l, listedAt, [], seen, s)
  }

  predicate LookupOk(config: Config, l: Lookup, s: State) {
    && Plain(l.scope.agent) && ReadInTime(s, l.scope.collection, l.generation, l.readAt)
    && PhaseOk(config, l, s)
  }

  ghost predicate Invariant(config: Config, s: State) {
    && Clocked(s) && Stored(s)
    && (forall p | p in s.storing :: StoringOk(s.storing[p], s))
    && (forall k | k in s.written :: WrittenOk(k, s.written[k], s))
    && (forall p | p in s.lookups :: LookupOk(config, s.lookups[p], s))
  }

  // ---- What every step keeps

  /** How any step changes what the tasks depend on. */
  ghost predicate Grows(s: State, t: State) {
    && t.clock == s.clock + 1
    && (forall c: nat, early: nat | early <= s.clock :: Bumps(t.bumps, c, early) == Bumps(s.bumps, c, early))
    && (forall k | k in s.written :: k in t.written && t.written[k] == s.written[k])
    && (forall k | k in t.redis && k in s.written :: k in s.redis)
    && (forall k | k in t.written && k !in s.written :: t.written[k].at == s.clock)
  }

  lemma LookupKept(config: Config, l: Lookup, s: State, t: State)
    requires LookupOk(config, l, s) && Grows(s, t)
    ensures LookupOk(config, l, t)
  {
    hide Bumps, BestOf, Prefix, Match;
  }

  lemma StoringKept(task: Storing, s: State, t: State)
    requires StoringOk(task, s) && Grows(s, t)
    ensures StoringOk(task, t)
  {
    hide Bumps;
  }

  lemma TasksKept(config: Config, s: State, t: State)
    requires Invariant(config, s) && Grows(s, t)
    ensures forall p | p in s.storing :: StoringOk(s.storing[p], t)
    ensures forall k | k in s.written :: WrittenOk(k, s.written[k], t)
    ensures forall p | p in s.lookups :: LookupOk(config, s.lookups[p], t)
  {
    hide *;
    assert forall p | p in s.storing :: StoringOk(s.storing[p], t) by {
      forall p | p in s.storing
        ensures StoringOk(s.storing[p], t)
      {
        InvariantParts(config, s);
        StoringKept(s.storing[p], s, t);
      }
    }
    assert forall k | k in s.written :: WrittenOk(k, s.written[k], t) by {
      forall k | k in s.written
        ensures WrittenOk(k, s.written[k], t)
      {
        InvariantParts(config, s);
        WrittenKept(k, s.written[k], s, t);
      }
    }
    forall p | p in s.lookups
      ensures LookupOk(config, s.lookups[p], t)
    {
      InvariantParts(config, s);
      LookupKept(config, s.lookups[p], s, t);
    }
  }

  lemma WrittenKept(k: string, w: Written, s: State, t: State)
    requires WrittenOk(k, w, s) && Grows(s, t)
    ensures WrittenOk(k, w, t)
  {
    hide Bumps, Prefix;
  }

  lemma InvariantParts(config: Config, s: State)
    requires Invariant(config, s)
    ensures Clocked(s) && Stored(s)
    ensures forall p | p in s.storing :: StoringOk(s.storing[p], s)
    ensures forall k | k in s.written :: WrittenOk(k, s.written[k], s)
    ensures forall p | p in s.lookups :: LookupOk(config, s.lookups[p], s)
  {
    hide Clocked, Stored, StoringOk, WrittenOk, LookupOk;
  }

  lemma InvariantWhole(config: Config, s: State)
    requires Clocked(s) && Stored(s)
    requires forall p | p in s.storing :: StoringOk(s.storing[p], s)
    requires forall k | k in s.written :: WrittenOk(k, s.written[k], s)
    requires forall p | p in s.lookups :: LookupOk(config, s.lookups[p], s)
    ensures Invariant(config, s)
  {
    hide Clocked, Stored, StoringOk, WrittenOk, LookupOk;
  }

  /** A reading taken now is in time from the next tick on. */
  lemma ReadsNow(s: State, t: State, collection: nat)
    requires Clocked(s) && Grows(s, t)
    ensures ReadInTime(t, collection, Generation(s.redis, collection), s.clock)
  {
    hide Bumps, Generation;
  }

  /** Steps that leave the log and the counters alone keep the clock right. */
  lemma StillClocked(s: State, t: State)
    requires Clocked(s) && t.clock == s.clock + 1 && t.bumps == s.bumps
    requires forall c :: Generation(t.redis, c) == Generation(s.redis, c)
    ensures Clocked(t)
  {
    hide Generation;
    forall c
      ensures Generation(t.redis, c) == Bumps(t.bumps, c, t.clock)
    {
      BumpsSettled(s.bumps, c, s.clock, t.clock);
    }
  }

  // ---- Each event

  lemma AfterBeginStore(config: Config, s: State, e: Event, t: State)
    requires Invariant(config, s) && e.BeginStore? && PlainEvent(e) && Step(config, s, e) == Some(t)
    ensures Invariant(config, t)
  {
    hide Bumps, Generation, WrittenOk, LookupOk, Clocked, Invariant;
    InvariantParts(config, s);
    TasksKept(config, s, t);
    StillClocked(s, t);
    ReadsNow(s, t, e.scope.collection);
    InvariantWhole(config, t);
  }

  lemma AfterBeginLookup(config: Config, s: State, e: Event, t: State)
    requires Invariant(config, s) && e.BeginLookup? && PlainEvent(e) && Step(config, s, e) == Some(t)
    ensures Invariant(config, t)
  {
    hide Bumps, Generation, WrittenOk, StoringOk, Clocked, Invariant;
    InvariantParts(config, s);
    TasksKept(config, s, t);
    StillClocked(s, t);
    ReadsNow(s, t, e.scope.collection);
    InvariantWhole(config, t);
  }

  lemma AfterSetEntry(config: Config, s: State, e: Event, t: State)
    requires Invariant(config, s) && e.SetEntry? && Step(config, s, e) == Some(t)
    ensures Invariant(config, t)
  {
    hide Bumps, LookupOk, StoringOk, WrittenOk, Stored, Generation, Clocked, Invariant, Prefix, PrefixOf, GenerationKey;
    InvariantParts(config, s);
    var task := s.storing[e.process];
    EntryStored(s, e.id, task, t);
    TasksKept(config, s, t);
    StillClocked(s, t);
    InvariantWhole(config, t);
  }

  lemma EntryStored(s: State, id: string, task: Storing, t: State)
    requires StoringOk(task, s) && Stored(s) && PrefixOf(task.scope, task.generation) + id !in s.written
    requires var key := PrefixOf(task.scope, task.generation) + id;
             && t.redis == s.redis[key := Cached(task.entry)]
             && t.written == s.written[key := Written(task, id, s.clock)]
             && t.bumps == s.bumps && t.clock == s.clock + 1
    ensures Stored(t) && forall c: nat :: Generation(t.redis, c) == Generation(s.redis, c)
    ensures var key := PrefixOf(task.scope, task.generation) + id; WrittenOk(key, t.written[key], t)
  {
    hide Bumps, Prefix, GenerationKey;
    forall c
      ensures PrefixOf(task.scope, task.generation) + id != GenerationKey(c)
    {
      CountersApart(task.scope.agent, task.scope.collection, task.generation, id, c);
    }
  }

  lemma AfterListKeys(config: Config, s: State, e: Event, t: State)
    requires Invariant(config, s) && e.ListKeys? && Step(config, s, e) == Some(t)
    ensures Invariant(config, t)
  {
    hide Bumps, Generation, StoringOk, WrittenOk, Clocked, Invariant, Prefix;
    InvariantParts(config, s);
    TasksKept(config, s, t);
    StillClocked(s, t);
    MatchingKeysHavePrefix(s, s.lookups[e.process]);
    InvariantWhole(config, t);
  }

  lemma MatchingKeysHavePrefix(s: State, l: Lookup)
    requires forall k | k in s.written :: WrittenOk(k, s.written[k], s)
    ensures forall k | k in s.written && Matches(s.written[k], l) :: PrefixOf(l.scope, l.generation) <= k
  {
    hide Bumps, Prefix;
  }

  lemma AfterGetNext(config: Config, s: State, e: Event, t: State)
    requires Invariant(config, s) && e.GetNext? && Step(config, s, e) == Some(t)
    ensures Invariant(config, t)
  {
    hide Bumps, Generation, StoringOk, WrittenOk, Clocked, Invariant, Prefix, LookupOk, Fetch;
    InvariantParts(config, s);
    TasksKept(config, s, t);
    StillClocked(s, t);
    FetchOk(config, s, s.lookups[e.process], t);
    InvariantWhole(config, t);
  }

  lemma ScannedKeyMatches(s: State, l: Lookup, k: string)
    requires k in s.written && WrittenOk(k, s.written[k], s) && Plain(l.scope.agent)
    requires PrefixOf(l.scope, l.generation) <= k
    ensures Matches(s.written[k], l)
  {
    hide Bumps, Prefix;
    var w := s.written[k];
    ScanFindsOwnExactly(l.scope.agent, l.scope.collection, l.generation,
                        w.task.scope.agent, w.task.scope.collection, w.task.generation, w.id);
  }

  lemma FetchOk(config: Config, s: State, l: Lookup, t: State)
    requires l.phase.Scan? && l.phase.remaining != []
    requires Stored(s) && (forall k | k in s.written :: WrittenOk(k, s.written[k], s))
    requires LookupOk(config, l, s) && LookupOk(config, l, t)
    requires t.redis == s.redis && t.written == s.written && t.bumps == s.bumps
    ensures LookupOk(config, l.(phase := Fetch(config, s.redis, l.embedding, l.phase)), t)
  {
    hide Bumps, Prefix, Match, BestOf, WrittenOk, SeenKeys, PrefixOf, SeenOk, Complete, Improve;
    var p := l.phase;
    var key := p.remaining[0];
    assert key in p.remaining;
    assert forall k | k in p.remaining[1..] :: k in p.remaining;
    var q := Fetch(config, s.redis, l.embedding, p);
    var l' := l.(phase := q);
    if key in s.redis && s.redis[key].Cached? {
      var found := Match(config, l.embedding, key, s.redis[key].entry);
      ScannedKeyMatches(s, l, key);
      BestOfAppend(p.seen, found);
      MatchKey(config, l.embedding, key, s.redis[key].entry);
      SeenGrows(config, l, l', found, t);
    } else {
      SeenStays(config, l, l', t);
    }
  }

  lemma SeenGrows(config: Config, l: Lookup, l': Lookup, found: Found, t: State)
    requires l.phase.Scan? && l.phase.remaining != []
    requires SeenOk(config, l, l.phase.seen, t) && Complete(l, l.phase.listedAt, l.phase.remaining, l.phase.seen, t)
    requires found.key == l.phase.remaining[0] && found.key in t.written && Matches(t.written[found.key], l)
    requires found == Match(config, l.embedding, found.key, t.written[found.key].task.entry)
    requires l' == l.(phase := l'.phase)
    ensures SeenOk(config, l', l.phase.seen + [found], t)
    ensures Complete(l', l.phase.listedAt, l.phase.remaining[1..], l.phase.seen + [found], t)
  {
    hide Match, SeenKeys;
    SeenKeysAppend(l.phase.seen, found);
    assert forall k | k in l.phase.remaining :: k == found.key || k in l.phase.remaining[1..];
  }

  lemma SeenStays(config: Config, l: Lookup, l': Lookup, t: State)
    requires l.phase.Scan? && l.phase.remaining != []
    requires SeenOk(config, l, l.phase.seen, t) && Complete(l, l.phase.listedAt, l.phase.remaining, l.phase.seen, t)
    requires l.phase.remaining[0] !in t.redis || l.phase.remaining[0] !in t.written
    requires l' == l.(phase := l'.phase)
    ensures SeenOk(config, l', l.phase.seen, t)
    ensures Complete(l', l.phase.listedAt, l.phase.remaining[1..], l.phase.seen, t)
  {
    hide Match, SeenKeys;
    assert forall k | k in l.phase.remaining :: k == l.phase.remaining[0] || k in l.phase.remaining[1..];
  }

  lemma MatchKey(config: Config, embedding: Embedding, key: string, entry: Entry)
    ensures Match(config, embedding, key, entry).key == key
  {
  }

  lemma AfterConclude(config: Config, s: State, e: Event, t: State)
    requires Invariant(config, s) && e.Conclude? && Step(config, s, e) == Some(t)
    ensures Invariant(config, t)
  {
    hide Bumps, Generation, StoringOk, WrittenOk, Clocked, Invariant, Prefix, Match, BestOf, Verdict;
    InvariantParts(config, s);
    TasksKept(config, s, t);
    StillClocked(s, t);
    InvariantWhole(config, t);
  }

  lemma AfterInvalidate(config: Config, s: State, e: Event, t: State)
    requires Invariant(config, s) && e.Invalidate? && Step(config, s, e) == Some(t)
    ensures Invariant(config, t)
  {
    hide Bumps, StoringOk, WrittenOk, LookupOk, Invariant, Prefix, GenerationKey, Clocked, Stored, Grows;
    InvariantParts(config, s);
    forall k | k in s.written
      ensures k != GenerationKey(e.collection)
    {
      WrittenApart(s, k, e.collection);
    }
    BumpedOnce(s, t, e.collection);
    InvalidateGrows(s, t, e.collection);
    InvalidateStored(s, t, e.collection);
    InvalidateClocked(s, t, e.collection);
    TasksKept(config, s, t);
    InvariantWhole(config, t);
  }

  /** The counter of a collection has just been incremented. */
  predicate Invalidated(s: State, t: State, collection: nat) {
    t == Tick(s.(redis := s.redis[GenerationKey(collection) := Counter(Generation(s.redis, collection) + 1)],
                 bumps := s.bumps + [Bump(collection, s.clock)]))
  }

  lemma BumpedOnce(s: State, t: State, collection: nat)
    requires Invalidated(s, t, collection)
    ensures forall c: nat, before: nat ::
              Bumps(t.bumps, c, before) == Bumps(s.bumps, c, before) + (if collection == c && s.clock < before then 1
                                                                        else 0)
  {
    hide Bumps, Generation, GenerationKey;
    forall c: nat, before: nat
      ensures Bumps(t.bumps, c, before)
           == Bumps(s.bumps, c, before) + (if collection == c && s.clock < before then 1 else 0)
    {
      BumpsAppend(s.bumps, Bump(collection, s.clock), c, before);
    }
  }

  lemma InvalidateGrows(s: State, t: State, collection: nat)
    requires Invalidated(s, t, collection) && GenerationKey(collection) !in s.written
    ensures Grows(s, t)
  {
    hide Bumps, Generation, GenerationKey;
    BumpedOnce(s, t, collection);
  }

  lemma InvalidateStored(s: State, t: State, collection: nat)
    requires Stored(s) && Invalidated(s, t, collection) && GenerationKey(collection) !in s.written
    ensures Stored(t)
  {
    hide Generation, GenerationKey;
  }

  lemma InvalidateClocked(s: State, t: State, collection: nat)
    requires Clocked(s) && Invalidated(s, t, collection)
    ensures Clocked(t)
  {
    hide Bumps, GenerationKey;
    BumpedOnce(s, t, collection);
    forall c: nat
      ensures Generation(t.redis, c) == Bumps(t.bumps, c, t.clock)
    {
      BumpsSettled(s.bumps, c, s.clock, t.clock);
      if c != collection && GenerationKey(c) == GenerationKey(collection) {
        SameCounter(c, collection);
      }
    }
  }

  lemma WrittenApart(s: State, k: string, collection: nat)
    requires k in s.written && WrittenOk(k, s.written[k], s)
    ensures k != GenerationKey(collection)
  {
    hide Bumps, Prefix, GenerationKey;
    var w := s.written[k];
    CountersApart(w.task.scope.agent, w.task.scope.collection, w.task.generation, w.id, collection);
  }

  lemma AfterExpire(config: Config, s: State, e: Event, t: State)
    requires Invariant(config, s) && e.Expire? && Step(config, s, e) == Some(t)
    ensures Invariant(config, t)
  {
    hide Bumps, StoringOk, WrittenOk, LookupOk, Clocked, Invariant, Prefix, GenerationKey;
    InvariantParts(config, s);
    TasksKept(config, s, t);
    StillClocked(s, t);
    InvariantWhole(config, t);
  }

  lemma StepKeeps(config: Config, s: State, e: Event, t: State)
    requires Invariant(config, s) && PlainEvent(e) && Step(config, s, e) == Some(t)
    ensures Invariant(config, t)
  {
    hide *;
    match e
    case BeginStore(_, _, _) => AfterBeginStore(config, s, e, t);
    case SetEntry(_, _) => AfterSetEntry(config, s, e, t);
    case BeginLookup(_, _, _) => AfterBeginLookup(config, s, e, t);
    case ListKeys(_, _) => AfterListKeys(config, s, e, t);
    case GetNext(_) => AfterGetNext(config, s, e, t);
    case Conclude(_) => AfterConclude(config, s, e, t);
    case Invalidate(_) => AfterInvalidate(config, s, e, t);
    case Expire(_) => AfterExpire(config, s, e, t);
  }

  lemma {:induction false} RunKeeps(config: Config, s: State, events: seq<Event>, t: State)
    requires Invariant(config, s) && Run(config, s, events) == Some(t)
    requires forall e | e in events :: PlainEvent(e)
    ensures Invariant(config, t)
    decreases |events|
  {
    hide Invariant, Step, PlainEvent;
    if events != [] {
      var s' := Step(config, s, events[0]).value;
      StepKeeps(config, s, events[0], s');
      RunKeeps(config, s', events[1..], t);
    }
  }

  /** After any interleaving from an empty store the invariant holds. */
  lemma ReachableInvariant(config: Config, events: seq<Event>, s: State)
    requires Run(config, START, events) == Some(s) && forall e | e in events :: PlainEvent(e)
    ensures Invariant(config, s)
  {
    hide Run, PlainEvent;
    RunKeeps(config, START, events, s);
  }

  // ---- What a lookup returns

  predicate Finished(s: State, process: nat) {
    process in s.lookups && s.lookups[process].phase.Done?
  }

  /** Every hit was stored for the same agent, collection and generation, and reaches the threshold. */
  lemma HitIsOwnBest(config: Config, events: seq<Event>, s: State, process: nat)
    requires Run(config, START, events) == Some(s) && forall e | e in events :: PlainEvent(e)
    requires Finished(s, process) && s.lookups[process].phase.hit.Some?
    ensures var l := s.lookups[process]; var hit := l.phase.hit.value;
            && hit.key in s.written && Matches(s.written[hit.key], l)
            && hit == Match(config, l.embedding, hit.key, s.written[hit.key].task.entry)
            && hit.score >= config.threshold && (forall f | f in l.phase.seen :: f.score <= hit.score)
  {
    hide Run, PlainEvent, Bumps, Match, BestOf;
    ReachableInvariant(config, events, s);
    BestOfIsMaximal(s.lookups[process].phase.seen);
  }

  /** No entry whose store read its generation before an invalidation is returned by a lookup begun after it. */
  lemma NoStaleHit(config: Config, events: seq<Event>, s: State, process: nat, j: nat)
    requires Run(config, START, events) == Some(s) && forall e | e in events :: PlainEvent(e)
    requires Finished(s, process) && s.lookups[process].phase.hit.Some?
    requires j < |s.bumps| && s.bumps[j].collection == s.lookups[process].scope.collection
    requires s.bumps[j].at < s.lookups[process].readAt
    ensures var key := s.lookups[process].phase.hit.value.key;
            key in s.written && s.written[key].task.readAt > s.bumps[j].at
  {
    hide Run, PlainEvent, Bumps, Match, BestOf;
    ReachableInvariant(config, events, s);
    HitIsOwnBest(config, events, s, process);
    var l := s.lookups[process];
    var w := s.written[l.phase.hit.value.key];
    assert WrittenOk(l.phase.hit.value.key, w, s);
    if w.task.readAt <= s.bumps[j].at {
      BumpsGrow(s.bumps, l.scope.collection, w.task.readAt, l.readAt);
    }
  }

  /** A finished lookup has done at least as well as any entry that was there throughout. */
  lemma LiveEntriesConsidered(config: Config, events: seq<Event>, s: State, process: nat, k: string)
    requires Run(config, START, events) == Some(s) && forall e | e in events :: PlainEvent(e)
    requires Finished(s, process)
    requires k in s.redis && k in s.written && Matches(s.written[k], s.lookups[process])
    requires s.written[k].at < s.lookups[process].phase.listedAt
    ensures var l := s.lookups[process];
            var score := config.similarity(l.embedding, s.written[k].task.entry.embedding);
            score > -1.0 && score >= config.threshold ==> l.phase.hit.Some? && l.phase.hit.value.score >= score
  {
    hide Run, PlainEvent, Bumps, BestOf;
    ReachableInvariant(config, events, s);
    BestOfIsMaximal(s.lookups[process].phase.seen);
  }

  /** An invalidation can always be carried out: no entry sits on a counter's key. */
  lemma InvalidationNeverFails(config: Config, events: seq<Event>, s: State, collection: nat)
    requires Run(config, START, events) == Some(s) && forall e | e in events :: PlainEvent(e)
    ensures Step(config, s, Invalidate(collection)).Some?
  {
    hide Run, PlainEvent, Bumps, LookupOk, GenerationKey;
    ReachableInvariant(config, events, s);
    if GenerationKey(collection) in s.written {
      WrittenApart(s, GenerationKey(collection), collection);
    }
  }
}
