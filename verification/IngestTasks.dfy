/**
 Ingest and delete jobs as tasks that take one step at a time on the stores they share, overlap
 freely, also on one document, and may crash between any two steps and be run again. The clock
 and what is kept by its times is history: no step decides by it.
 */
module IngestTasks {
  import opened Ingestion

  datatype Stage = Begun | Written | Done

  /** An ingest has first fetched its object, and knows what to write once it has read the recorded hashes. */
  datatype Task =
    | Fetched(doc: nat)
    | Ingest(doc: nat, keep: seq<Chunk>, stage: Stage)
    | Delete(doc: nat, stage: Stage, droppedAt: nat)

  /**
   `uploaded` is what the jobs of each document were queued with, `live` the documents whose job may
   still run or that left anything behind. History: when each document last had vectors written and
   vectors deleted, when the task that removed its row had deleted its vectors, and which were ingested.
   */
  datatype State = State(stores: Stores, tasks: map<nat, Task>, next: nat, uploaded: map<nat, Document>, live: set<nat>,
                         clock: nat, upsertAt: map<nat, nat>, dropAt: map<nat, nat>, goneBy: map<nat, nat>,
                         ingested: set<nat>)

  const START: State := State(Stores(map[], map[], map[], {}), map[], 0, map[], {}, 0, map[], map[], map[], {})

  datatype Event =
    | Upload(collection: nat, uri: string)
    | BeginIngest(task: nat, doc: nat)
    | ReadHashes(task: nat)
    | Upsert(task: nat)
    | UpsertPart(task: nat, written: seq<Chunk>)
    | Record(task: nat)
    | Ready(task: nat)
    | BeginDelete(task: nat, doc: nat)
    | DropPoints(task: nat)
    | DropBlob(task: nat, succeeds: bool)
    | DropRows(task: nat)
    | Crash(task: nat)
    | Retire(doc: nat)

  /** No task is at work on the document. */
  predicate Alone(s: State, doc: nat) {
    forall t | t in s.tasks :: s.tasks[t].doc != doc
  }

  /** A new document has an object of its own and shares no chunk hash with a live one. */
  predicate Separate(content: nat -> seq<Chunk>, s: State, uri: string) {
    && (forall d | d in s.stores.documents :: s.stores.documents[d].uri != uri)
    && (forall d | d in s.live :: Wanted(content(d)) !! Wanted(content(s.next)))
  }

  function Stop(s: State, task: nat): State {
    s.(tasks := s.tasks - {task})
  }

  /** The vectors of `chunks` are written; writing none is no call. */
  function Write(s: State, doc: nat, chunks: seq<Chunk>): State
    requires doc in s.uploaded
  {
    s.(stores := s.stores.(points := Upserted(s.stores.points, s.uploaded[doc].collection, doc, chunks)),
       upsertAt := if chunks == [] then s.upsertAt else s.upsertAt[doc := s.clock])
  }

  function IngestStep(s: State, e: Event, t: nat, task: Task): State
    requires t in s.tasks && task == s.tasks[t] && task.Ingest? && task.doc in s.uploaded
  {
    var d := task.doc;
    match e
    case Upsert(_) =>
      if !task.stage.Begun? then s else Write(s, d, task.keep).(tasks := s.tasks[t := Ingest(d, task.keep, Written)])
    case UpsertPart(_, written) =>
      if !task.stage.Begun? || !(Shas(written) <= Shas(task.keep)) then s else
      var partly := Stop(Write(s, d, written), t);
      partly.(stores := SetStatus(partly.stores, d, "error"))
    case Record(_) =>
      if !task.stage.Written? then s
      else if !Recordable(s.stores, d, task.keep) then Stop(s, t)
      else s.(stores := s.stores.(rows := Recorded(s.stores.rows, d, task.keep)),
              tasks := s.tasks[t := Ingest(d, task.keep, Done)], ingested := s.ingested + {d})
    case Ready(_) =>
      if !task.stage.Done? then s else Stop(s, t).(stores := SetStatus(s.stores, d, "ready"))
    case _ => s
  }

  function DeleteStep(s: State, e: Event, t: nat, task: Task): State
    requires t in s.tasks && task == s.tasks[t] && task.Delete? && task.doc in s.uploaded
  {
    var d := task.doc;
    match e
    case DropPoints(_) =>
      if !task.stage.Begun? then s else
      s.(stores := s.stores.(points := WithoutPoints(s.stores.points, s.uploaded[d].collection, d)),
         tasks := s.tasks[t := Delete(d, Written, s.clock)], dropAt := s.dropAt[d := s.clock])
    case DropBlob(_, succeeds) =>
      if !task.stage.Written? then s else
      s.(stores := s.stores.(blobs := if succeeds then s.stores.blobs - {s.uploaded[d].uri} else s.stores.blobs),
         tasks := s.tasks[t := Delete(d, Done, task.droppedAt)])
    case DropRows(_) =>
      if !task.stage.Done? then s else
      Stop(s, t).(stores := s.stores.(rows := WithoutRows(s.stores.rows, d), documents := s.stores.documents - {d}),
                  goneBy := if d in s.stores.documents then s.goneBy[d := task.droppedAt] else s.goneBy)
    case _ => s
  }

  /** The blob, the row and the job of a new document. */
  function Added(s: State, document: Document): State {
    s.(stores := s.stores.(documents := s.stores.documents[s.next := document],
                           blobs := s.stores.blobs + {document.uri}),
       next := s.next + 1, uploaded := s.uploaded[s.next := document], live := s.live + {s.next})
  }

  function Act(content: nat -> seq<Chunk>, s: State, e: Event): State {
    match e
    case Upload(collection, uri) =>
      if !Separate(content, s, uri) then s else Added(s, Document(collection, uri, "queued"))
    case BeginIngest(t, d) =>
      if t in s.tasks || d !in s.live || d !in s.uploaded || s.uploaded[d].uri !in s.stores.blobs then s else
      s.(tasks := s.tasks[t := Fetched(d)])
    case ReadHashes(t) =>
      if t !in s.tasks || !s.tasks[t].Fetched? then s else
      var d := s.tasks[t].doc;
      s.(tasks := s.tasks[t := Ingest(d, Keep(content(d), RowsOf(s.stores, d)), Begun)])
    case BeginDelete(t, d) =>
      if t in s.tasks || d !in s.stores.documents then s else s.(tasks := s.tasks[t := Delete(d, Begun, 0)])
    case Crash(t) => Stop(s, t)
    case Retire(d) =>
      if d in s.stores.documents || !Alone(s, d) || PointsOf(s.stores, d) != {} then s else s.(live := s.live - {d})
    case _ =>
      if e.task !in s.tasks || s.tasks[e.task].doc !in s.uploaded then s
      else if s.tasks[e.task].Ingest? then IngestStep(s, e, e.task, s.tasks[e.task])
      else if s.tasks[e.task].Delete? then DeleteStep(s, e, e.task, s.tasks[e.task])
      else s
  }

  /** One event; an event that cannot happen changes nothing. `content(d)` is what extraction makes of document `d`. */
  function Step(content: nat -> seq<Chunk>, s: State, e: Event): State {
    Act(content, s, e).(clock := s.clock + 1)
  }

  function Run(content: nat -> seq<Chunk>, s: State, events: seq<Event>): State
    decreases |events|
  {
    if events == [] then s else Run(content, Step(content, s, events[0]), events[1..])
  }

  /** A document with an object of its own and no chunk hash of a live one is always taken in. */
  lemma UploadHappens(content: nat -> seq<Chunk>, s: State, collection: nat, uri: string)
    requires forall d | d in s.stores.documents :: s.stores.documents[d].uri != uri
    requires forall d, a, b | d in s.live && a in content(d) && b in content(s.next) && !a.blocked && !b.blocked ::
               a.sha != b.sha
    ensures var t := Step(content, s, Upload(collection, uri));
            && t.next == s.next + 1 && s.next in t.stores.documents && s.next in t.live && uri in t.stores.blobs
            && t.stores.documents[s.next] == Document(collection, uri, "queued")
  {
    forall d | d in s.live
      ensures Wanted(content(d)) !! Wanted(content(s.next))
    {
    }
  }

  // ---- The invariant

  predicate HasPoint(s: State, doc: nat, sha: string) {
    && doc in s.uploaded && PointKey(s.uploaded[doc].collection, sha) in s.stores.points
    && s.stores.points[PointKey(s.uploaded[doc].collection, sha)] == doc
  }

  predicate DocumentsOk(content: nat -> seq<Chunk>, s: State) {
    && s.live <= s.uploaded.Keys
    && (forall d | d in s.stores.documents ::
          && d in s.live && d in s.uploaded
          && s.stores.documents[d].collection == s.uploaded[d].collection
          && s.stores.documents[d].uri == s.uploaded[d].uri)
    && (forall d | d in s.uploaded :: d < s.next)
    && (forall d, e | d in s.live && e in s.live && d != e :: Wanted(content(d)) !! Wanted(content(e)))
  }

  predicate TimesOk(s: State) {
    && (forall d | d in s.upsertAt :: d in s.uploaded && s.upsertAt[d] < s.clock)
    && (forall d | d in s.dropAt :: d in s.uploaded && s.dropAt[d] < s.clock)
    && (forall d | d in s.ingested :: d in s.uploaded)
    && (forall d | d in s.goneBy :: d in s.uploaded && d in s.dropAt && s.goneBy[d] <= s.dropAt[d])
    && (forall d | d in s.uploaded :: d in s.goneBy <==> d !in s.stores.documents)
  }

  predicate PointsOk(content: nat -> seq<Chunk>, s: State) {
    forall p | p in s.stores.points ::
      && s.stores.points[p] in s.live && s.stores.points[p] in s.uploaded
      && p.collection == s.uploaded[s.stores.points[p]].collection
      && p.sha in Wanted(content(s.stores.points[p]))
  }

  predicate RowsOk(content: nat -> seq<Chunk>, s: State) {
    forall sha | sha in s.stores.rows ::
      s.stores.rows[sha] in s.stores.documents && sha in Wanted(content(s.stores.rows[sha]))
  }

  /** Vectors were written after the last time they were deleted. */
  predicate WrittenSince(s: State, doc: nat) {
    doc in s.upsertAt && (doc in s.dropAt ==> s.dropAt[doc] < s.upsertAt[doc])
  }

  /** What is known of one document's rows and vectors. */
  predicate DocumentOk(content: nat -> seq<Chunk>, s: State, doc: nat) {
    && (doc !in s.dropAt ==> forall sha | sha in RowsOf(s.stores, doc) :: HasPoint(s, doc, sha))
    && (doc in s.ingested && doc in s.stores.documents ==> RowsOf(s.stores, doc) == Wanted(content(doc)))
    && (PointsOf(s.stores, doc) != {} <==> WrittenSince(s, doc))
  }

  predicate TaskOk(content: nat -> seq<Chunk>, s: State, t: Task) {
    && t.doc in s.live
    && (t.Ingest? ==> Shas(t.keep) <= Wanted(content(t.doc)))
    && (t.Ingest? && t.doc in s.stores.documents ==> RowsOf(s.stores, t.doc) + Shas(t.keep) == Wanted(content(t.doc)))
    && (t.Ingest? && t.stage != Begun && t.doc !in s.dropAt ==>
          forall sha | sha in Shas(t.keep) :: HasPoint(s, t.doc, sha))
    && (t.Delete? && t.stage != Begun ==> t.doc in s.dropAt && t.droppedAt <= s.dropAt[t.doc])
  }

  predicate StoresOk(content: nat -> seq<Chunk>, s: State) {
    DocumentsOk(content, s) && TimesOk(s) && PointsOk(content, s) && RowsOk(content, s)
  }

  ghost predicate Invariant(content: nat -> seq<Chunk>, s: State) {
    && StoresOk(content, s) && (forall d: nat :: DocumentOk(content, s, d))
    && (forall t | t in s.tasks :: TaskOk(content, s, s.tasks[t]))
  }

  // ---- What a step leaves alone

  /** One document's part of the state is as it was. */
  ghost predicate Same(s: State, t: State, doc: nat) {
    && (doc in s.uploaded <==> doc in t.uploaded) && (doc in s.uploaded ==> t.uploaded[doc] == s.uploaded[doc])
    && (doc in s.stores.documents <==> doc in t.stores.documents) && (doc in s.live <==> doc in t.live)
    && RowsOf(t.stores, doc) == RowsOf(s.stores, doc) && PointsOf(t.stores, doc) == PointsOf(s.stores, doc)
    && (forall sha :: HasPoint(s, doc, sha) ==> HasPoint(t, doc, sha))
    && (doc in t.ingested <==> doc in s.ingested)
    && (doc in s.dropAt <==> doc in t.dropAt) && (doc in s.dropAt ==> t.dropAt[doc] == s.dropAt[doc])
    && (doc in s.upsertAt <==> doc in t.upsertAt) && (doc in s.upsertAt ==> t.upsertAt[doc] == s.upsertAt[doc])
  }

  /** What the tasks of one document depend on has only moved on. */
  ghost predicate Kept(content: nat -> seq<Chunk>, s: State, t: State, doc: nat) {
    && (doc in s.live ==> doc in t.live)
    && (doc in t.stores.documents ==>
          doc in s.stores.documents && RowsOf(s.stores, doc) <= RowsOf(t.stores, doc) <= Wanted(content(doc)))
    && (doc in s.dropAt ==> doc in t.dropAt && s.dropAt[doc] <= t.dropAt[doc])
    && (doc !in t.dropAt ==> forall sha :: HasPoint(s, doc, sha) ==> HasPoint(t, doc, sha))
  }

  lemma TaskKept(content: nat -> seq<Chunk>, s: State, t: State, task: Task)
    requires TaskOk(content, s, task) && Kept(content, s, t, task.doc)
    ensures TaskOk(content, t, task)
  {
    hide RowsOf, Shas, Wanted, HasPoint;
  }

  lemma DocumentKept(content: nat -> seq<Chunk>, s: State, t: State, doc: nat)
    requires DocumentOk(content, s, doc) && Same(s, t, doc)
    ensures DocumentOk(content, t, doc)
  {
    hide RowsOf, PointsOf, Wanted, HasPoint;
  }

  lemma SameIsKept(content: nat -> seq<Chunk>, s: State, t: State, doc: nat)
    requires Same(s, t, doc) && RowsOk(content, s)
    ensures Kept(content, s, t, doc)
  {
    hide PointsOf, Wanted, HasPoint;
  }

  /** Every task is as it was, or right in the new state. */
  predicate TasksMoved(content: nat -> seq<Chunk>, s: State, t: State) {
    forall u | u in t.tasks :: (u in s.tasks && t.tasks[u] == s.tasks[u]) || TaskOk(content, t, t.tasks[u])
  }

  /** A step that touches one document keeps the invariant if it keeps that document's part and its tasks'. */
  lemma OneTouched(content: nat -> seq<Chunk>, s: State, t: State, doc: nat)
    requires Invariant(content, s) && StoresOk(content, t) && DocumentOk(content, t, doc)
    requires (forall d | d != doc :: Same(s, t, d)) && (Kept(content, s, t, doc) || Alone(s, doc))
    requires TasksMoved(content, s, t)
    ensures Invariant(content, t)
  {
    hide DocumentOk, TaskOk, Same, Kept, DocumentsOk, TimesOk, PointsOk, RowsOk;
    forall d: nat
      ensures DocumentOk(content, t, d)
    {
      if d != doc {
        DocumentKept(content, s, t, d);
      }
    }
    forall u | u in t.tasks
      ensures TaskOk(content, t, t.tasks[u])
    {
      if u in s.tasks && t.tasks[u] == s.tasks[u] {
        if t.tasks[u].doc != doc {
          SameIsKept(content, s, t, t.tasks[u].doc);
        }
        TaskKept(content, s, t, t.tasks[u]);
      }
    }
  }

  /** Only tasks and the clock have moved, and a document's status at most. */
  ghost predicate StoresKept(s: State, t: State) {
    && t == s.(stores := t.stores, tasks := t.tasks, clock := t.clock) && s.clock <= t.clock
    && t.stores.rows == s.stores.rows && t.stores.points == s.stores.points && t.stores.blobs <= s.stores.blobs
    && t.stores.documents.Keys == s.stores.documents.Keys
    && (forall d | d in s.stores.documents ::
          && t.stores.documents[d].collection == s.stores.documents[d].collection
          && t.stores.documents[d].uri == s.stores.documents[d].uri)
  }

  lemma SameStoresSame(s: State, t: State, doc: nat)
    requires StoresKept(s, t)
    ensures Same(s, t, doc)
  {
    assert RowsOf(t.stores, doc) == RowsOf(s.stores, doc) && PointsOf(t.stores, doc) == PointsOf(s.stores, doc);
  }

  lemma SameStoresOk(content: nat -> seq<Chunk>, s: State, t: State)
    requires StoresOk(content, s) && StoresKept(s, t)
    ensures StoresOk(content, t)
  {
    hide Wanted;
  }

  lemma OnlyTasks(content: nat -> seq<Chunk>, s: State, t: State)
    requires Invariant(content, s) && StoresKept(s, t) && TasksMoved(content, s, t)
    ensures Invariant(content, t)
  {
    hide *;
    InvariantParts(content, s);
    forall d: nat
      ensures Same(s, t, d)
    {
      SameStoresSame(s, t, d);
    }
    SameStoresOk(content, s, t);
    DocumentKept(content, s, t, 0);
    SameIsKept(content, s, t, 0);
    OneTouched(content, s, t, 0);
  }

  lemma InvariantParts(content: nat -> seq<Chunk>, s: State)
    requires Invariant(content, s)
    ensures StoresOk(content, s) && RowsOk(content, s) && DocumentsOk(content, s) && TimesOk(s) && PointsOk(content, s)
    ensures forall d: nat :: DocumentOk(content, s, d)
    ensures forall t | t in s.tasks :: TaskOk(content, s, s.tasks[t])
  {
    hide RowsOk, DocumentsOk, TimesOk, PointsOk, DocumentOk, TaskOk;
  }

  // ---- Effects on the stores

  lemma UpsertEffect(content: nat -> seq<Chunk>, s: State, t: State, doc: nat, chunks: seq<Chunk>)
    requires DocumentsOk(content, s) && PointsOk(content, s) && doc in s.live && Shas(chunks) <= Wanted(content(doc))
    requires t.stores.points == Upserted(s.stores.points, s.uploaded[doc].collection, doc, chunks)
    requires t.uploaded == s.uploaded && t.live == s.live
    ensures PointsOk(content, t)
    ensures forall d, sha :: HasPoint(s, d, sha) ==> HasPoint(t, d, sha)
    ensures forall sha | sha in Shas(chunks) :: HasPoint(t, doc, sha)
    ensures forall d | d != doc :: PointsOf(t.stores, d) == PointsOf(s.stores, d)
    ensures PointsOf(t.stores, doc) == PointsOf(s.stores, doc) + Shas(chunks)
  {
    hide Upserted, Wanted, Shas, RowsOf;
    var collection := s.uploaded[doc].collection;
    forall p
      ensures p in t.stores.points <==> p in s.stores.points || (p.collection == collection && p.sha in Shas(chunks))
      ensures p.collection == collection && p.sha in Shas(chunks) ==> t.stores.points[p] == doc
      ensures p in s.stores.points && !(p.collection == collection && p.sha in Shas(chunks)) ==>
                t.stores.points[p] == s.stores.points[p]
      ensures p in s.stores.points && p.sha in Shas(chunks) ==> s.stores.points[p] == doc
    {
      UpsertedAt(s.stores.points, collection, doc, chunks, p);
    }
    forall d | d != doc
      ensures PointsOf(t.stores, d) == PointsOf(s.stores, d)
    {
      SamePoints(s.stores, t.stores, d);
    }
    MorePoints(s.stores, t.stores, doc, collection, Shas(chunks));
  }

  lemma RecordEffect(content: nat -> seq<Chunk>, s: State, t: State, doc: nat, chunks: seq<Chunk>)
    requires DocumentsOk(content, s) && RowsOk(content, s) && Shas(chunks) <= Wanted(content(doc))
    requires doc in s.stores.documents && t.stores.documents == s.stores.documents
    requires t.stores.rows == Recorded(s.stores.rows, doc, chunks)
    ensures RowsOk(content, t)
    ensures RowsOf(t.stores, doc) == RowsOf(s.stores, doc) + Shas(chunks)
    ensures forall d | d != doc :: RowsOf(t.stores, d) == RowsOf(s.stores, d)
  {
    hide Recorded, Wanted, Shas;
    forall sha
      ensures sha in t.stores.rows <==> sha in s.stores.rows || sha in Shas(chunks)
      ensures sha in s.stores.rows ==> t.stores.rows[sha] == s.stores.rows[sha]
      ensures sha !in s.stores.rows && sha in Shas(chunks) ==> t.stores.rows[sha] == doc
      ensures sha in s.stores.rows && sha in Shas(chunks) ==> s.stores.rows[sha] == doc
    {
      RecordedAt(s.stores.rows, doc, chunks, sha);
    }
  }

  /** Without its document a task can record only what is recorded already. */
  lemma {:induction false} NothingRecorded(rows: map<string, nat>, doc: nat, chunks: seq<Chunk>)
    requires forall c | c in chunks :: c.sha in rows
    ensures Recorded(rows, doc, chunks) == rows
  {
    if chunks != [] {
      NothingRecorded(rows, doc, chunks[..|chunks| - 1]);
    }
  }

  lemma DropPointsEffect(content: nat -> seq<Chunk>, s: State, t: State, doc: nat)
    requires DocumentsOk(content, s) && PointsOk(content, s) && doc in s.live
    requires t.stores.points == WithoutPoints(s.stores.points, s.uploaded[doc].collection, doc)
    requires t.uploaded == s.uploaded && t.live == s.live
    ensures PointsOk(content, t) && PointsOf(t.stores, doc) == {}
    ensures forall d | d != doc :: PointsOf(t.stores, d) == PointsOf(s.stores, d)
    ensures forall d, sha | d != doc :: HasPoint(s, d, sha) ==> HasPoint(t, d, sha)
  {
    hide Wanted;
    forall d | d != doc
      ensures PointsOf(t.stores, d) == PointsOf(s.stores, d)
    {
      SamePoints(s.stores, t.stores, d);
    }
  }

  lemma DropRowsEffect(content: nat -> seq<Chunk>, s: State, t: State, doc: nat)
    requires RowsOk(content, s)
    requires t.stores.rows == WithoutRows(s.stores.rows, doc) && t.stores.documents == s.stores.documents - {doc}
    ensures RowsOk(content, t) && RowsOf(t.stores, doc) == {}
    ensures forall d | d != doc :: RowsOf(t.stores, d) == RowsOf(s.stores, d)
  {
    hide Wanted;
  }

  lemma RowsSame(s: State, t: State)
    requires t.stores.rows == s.stores.rows
    ensures forall d :: RowsOf(t.stores, d) == RowsOf(s.stores, d)
  {
  }

  lemma PointsSame(s: State, t: State)
    requires t.stores.points == s.stores.points && t.uploaded == s.uploaded
    ensures forall d :: PointsOf(t.stores, d) == PointsOf(s.stores, d)
    ensures forall d, sha :: HasPoint(t, d, sha) <==> HasPoint(s, d, sha)
  {
  }

  /** A step that changes rows, vectors and history of one document only. */
  ghost predicate OthersSame(s: State, t: State, doc: nat) {
    && t.uploaded == s.uploaded && t.live == s.live
    && (forall d | d != doc ::
          && RowsOf(t.stores, d) == RowsOf(s.stores, d) && PointsOf(t.stores, d) == PointsOf(s.stores, d)
          && (d in s.stores.documents <==> d in t.stores.documents) && (d in t.ingested <==> d in s.ingested)
          && (d in s.dropAt <==> d in t.dropAt) && (d in s.dropAt ==> t.dropAt[d] == s.dropAt[d])
          && (d in s.upsertAt <==> d in t.upsertAt) && (d in s.upsertAt ==> t.upsertAt[d] == s.upsertAt[d]))
    && (forall d, sha | d != doc :: HasPoint(s, d, sha) ==> HasPoint(t, d, sha))
  }

  lemma OthersAreSame(s: State, t: State, doc: nat)
    requires OthersSame(s, t, doc)
    ensures forall d | d != doc :: Same(s, t, d)
  {
    hide RowsOf, PointsOf, HasPoint;
  }

  // ---- Each event

  lemma CrashKeeps(content: nat -> seq<Chunk>, s: State, task: nat, clock: nat)
    requires Invariant(content, s) && s.clock <= clock
    ensures Invariant(content, Stop(s, task).(clock := clock))
  {
    hide Invariant, TaskOk;
    OnlyTasks(content, s, Stop(s, task).(clock := clock));
  }

  lemma StatusKeeps(content: nat -> seq<Chunk>, s: State, doc: nat, status: string)
    requires Invariant(content, s)
    ensures Invariant(content, s.(stores := SetStatus(s.stores, doc, status)))
  {
    hide Invariant, TaskOk;
    OnlyTasks(content, s, s.(stores := SetStatus(s.stores, doc, status)));
  }

  lemma UploadKeeps(content: nat -> seq<Chunk>, s: State, e: Event)
    requires Invariant(content, s) && e.Upload? && Separate(content, s, e.uri)
    ensures Invariant(content, Step(content, s, e))
  {
    hide DocumentOk, TaskOk, Same, Kept, Wanted, RowsOf, PointsOf, DocumentsOk, TimesOk, PointsOk, RowsOk, Separate;
    var t := Step(content, s, e);
    InvariantParts(content, s);
    UploadStores(content, s, e);
    forall d | d != s.next
      ensures Same(s, t, d)
    {
      UploadSame(content, s, e, d);
    }
    UploadedOk(content, s, e);
    UploadAlone(content, s);
    OneTouched(content, s, t, s.next);
  }

  lemma UploadStores(content: nat -> seq<Chunk>, s: State, e: Event)
    requires StoresOk(content, s) && e.Upload? && Separate(content, s, e.uri)
    ensures StoresOk(content, Step(content, s, e))
  {
    hide *;
    StoresParts(content, s);
    var t := Added(s, Document(e.collection, e.uri, "queued")).(clock := s.clock + 1);
    UploadStep(content, s, e);
    AddedDocuments(content, s, e.uri, t);
    AddedTimes(content, s, t);
    AddedPoints(content, s, t);
    AddedRows(content, s, t);
    StoresWhole(content, t);
  }

  lemma UploadStep(content: nat -> seq<Chunk>, s: State, e: Event)
    requires e.Upload? && Separate(content, s, e.uri)
    ensures Step(content, s, e) == Added(s, Document(e.collection, e.uri, "queued")).(clock := s.clock + 1)
    ensures var t := Step(content, s, e); Grown(s, t, Document(e.collection, e.uri, "queued"))
  {
    hide Separate;
  }

  /** One more document, and nothing else. */
  predicate Grown(s: State, t: State, document: Document) {
    && t == s.(stores := t.stores, next := s.next + 1, uploaded := s.uploaded[s.next := document],
               live := s.live + {s.next}, clock := s.clock + 1)
    && t.stores == s.stores.(documents := s.stores.documents[s.next := document], blobs := t.stores.blobs)
  }

  lemma StoresParts(content: nat -> seq<Chunk>, s: State)
    requires StoresOk(content, s)
    ensures DocumentsOk(content, s) && TimesOk(s) && PointsOk(content, s) && RowsOk(content, s)
  {
    hide DocumentsOk, TimesOk, PointsOk, RowsOk;
  }

  lemma StoresWhole(content: nat -> seq<Chunk>, s: State)
    requires DocumentsOk(content, s) && TimesOk(s) && PointsOk(content, s) && RowsOk(content, s)
    ensures StoresOk(content, s)
  {
    hide DocumentsOk, TimesOk, PointsOk, RowsOk;
  }

  lemma AddedDocuments(content: nat -> seq<Chunk>, s: State, uri: string, t: State)
    requires DocumentsOk(content, s) && Separate(content, s, uri)
    requires exists document :: Grown(s, t, document)
    ensures DocumentsOk(content, t)
  {
    hide Wanted;
  }

  lemma AddedTimes(content: nat -> seq<Chunk>, s: State, t: State)
    requires DocumentsOk(content, s) && TimesOk(s) && exists document :: Grown(s, t, document)
    ensures TimesOk(t)
  {
    hide Wanted;
  }

  lemma AddedPoints(content: nat -> seq<Chunk>, s: State, t: State)
    requires DocumentsOk(content, s) && PointsOk(content, s) && exists document :: Grown(s, t, document)
    ensures PointsOk(content, t)
  {
    hide Wanted;
  }

  lemma AddedRows(content: nat -> seq<Chunk>, s: State, t: State)
    requires RowsOk(content, s) && exists document :: Grown(s, t, document)
    ensures RowsOk(content, t)
  {
    hide Wanted;
  }

  lemma UploadSame(content: nat -> seq<Chunk>, s: State, e: Event, doc: nat)
    requires e.Upload? && doc != s.next && Separate(content, s, e.uri)
    ensures Same(s, Step(content, s, e), doc)
  {
    hide Wanted;
    var t := Step(content, s, e);
    assert RowsOf(t.stores, doc) == RowsOf(s.stores, doc) && PointsOf(t.stores, doc) == PointsOf(s.stores, doc);
  }

  lemma UploadedOk(content: nat -> seq<Chunk>, s: State, e: Event)
    requires StoresOk(content, s) && e.Upload? && Separate(content, s, e.uri)
    ensures DocumentOk(content, Step(content, s, e), s.next)
  {
    hide Wanted;
    var t := Step(content, s, e);
    assert RowsOf(t.stores, s.next) == {} && PointsOf(t.stores, s.next) == {};
  }

  lemma UploadAlone(content: nat -> seq<Chunk>, s: State)
    requires Invariant(content, s)
    ensures Alone(s, s.next)
  {
    hide Wanted, RowsOf, PointsOf, HasPoint, Shas, DocumentOk, PointsOk, RowsOk;
    forall t | t in s.tasks
      ensures s.tasks[t].doc != s.next
    {
      assert TaskOk(content, s, s.tasks[t]);
    }
  }

  /** Only one task has moved, to a state that was right for it before. */
  lemma OneTaskMoved(content: nat -> seq<Chunk>, s: State, t: State, id: nat, moved: Task)
    requires Invariant(content, s) && StoresKept(s, t) && t.tasks == s.tasks[id := moved] && TaskOk(content, s, moved)
    ensures Invariant(content, t)
  {
    hide *;
    InvariantParts(content, s);
    SameStoresSame(s, t, moved.doc);
    SameIsKept(content, s, t, moved.doc);
    TaskKept(content, s, t, moved);
    MovedTask(content, s, t, id, moved);
    OnlyTasks(content, s, t);
  }

  lemma MovedTask(content: nat -> seq<Chunk>, s: State, t: State, id: nat, moved: Task)
    requires t.tasks == s.tasks[id := moved] && TaskOk(content, t, moved)
    ensures TasksMoved(content, s, t)
  {
    hide TaskOk;
  }

  lemma BeginIngestKeeps(content: nat -> seq<Chunk>, s: State, e: Event)
    requires Invariant(content, s) && e.BeginIngest?
    ensures Invariant(content, Step(content, s, e))
  {
    hide Invariant, StoresOk, DocumentOk, TasksMoved;
    var t := Step(content, s, e);
    if e.task !in s.tasks && e.doc in s.live && e.doc in s.uploaded && s.uploaded[e.doc].uri in s.stores.blobs {
      OneTaskMoved(content, s, t, e.task, Fetched(e.doc));
    } else {
      ClockKeeps(content, s);
    }
  }

  lemma ReadHashesKeeps(content: nat -> seq<Chunk>, s: State, e: Event)
    requires Invariant(content, s) && e.ReadHashes?
    ensures Invariant(content, Step(content, s, e))
  {
    hide Invariant, TaskOk, Wanted, Keep, RowsOf, StoresOk, TasksMoved;
    var t := Step(content, s, e);
    if e.task in s.tasks && s.tasks[e.task].Fetched? {
      var doc := s.tasks[e.task].doc;
      IngestParts(content, s, e.task);
      BegunIngestOk(content, s, doc);
      OneTaskMoved(content, s, t, e.task, Ingest(doc, Keep(content(doc), RowsOf(s.stores, doc)), Begun));
    } else {
      ClockKeeps(content, s);
    }
  }

  lemma BegunIngestOk(content: nat -> seq<Chunk>, s: State, doc: nat)
    requires Invariant(content, s) && doc in s.live
    ensures TaskOk(content, s, Ingest(doc, Keep(content(doc), RowsOf(s.stores, doc)), Begun))
  {
    hide Wanted, Keep, Shas, DocumentsOk, TimesOk, PointsOk, DocumentOk;
    assert RowsOf(s.stores, doc) <= Wanted(content(doc));
    KeepCompletes(content(doc), RowsOf(s.stores, doc));
  }

  lemma BeginDeleteKeeps(content: nat -> seq<Chunk>, s: State, e: Event)
    requires Invariant(content, s) && e.BeginDelete?
    ensures Invariant(content, Step(content, s, e))
  {
    hide Invariant, TaskOk, StoresOk, DocumentOk, TasksMoved;
    var t := Step(content, s, e);
    if e.task !in s.tasks && e.doc in s.stores.documents {
      BegunDeleteOk(content, s, e.doc);
      OneTaskMoved(content, s, t, e.task, Delete(e.doc, Begun, 0));
    } else {
      ClockKeeps(content, s);
    }
  }

  lemma BegunDeleteOk(content: nat -> seq<Chunk>, s: State, doc: nat)
    requires Invariant(content, s) && doc in s.stores.documents
    ensures TaskOk(content, s, Delete(doc, Begun, 0))
  {
    hide Wanted, Shas, RowsOf, HasPoint, TimesOk, PointsOk, RowsOk, DocumentOk;
  }

  /** Writing wanted vectors of a live document, whatever becomes of the task. */
  lemma WriteKeeps(content: nat -> seq<Chunk>, s: State, t: State, doc: nat, chunks: seq<Chunk>)
    requires Invariant(content, s) && doc in s.live && doc in s.uploaded && Shas(chunks) <= Wanted(content(doc))
    requires t == Write(s, doc, chunks).(tasks := t.tasks, clock := s.clock + 1)
    requires (forall sha | sha in Shas(chunks) :: HasPoint(t, doc, sha)) ==> TasksMoved(content, s, t)
    ensures Invariant(content, t)
  {
    hide Wanted, Shas, Upserted, TasksMoved, HasPoint, PointsOf, RowsOf, DocumentsOk, TimesOk, PointsOk, RowsOk,
         DocumentOk, TaskOk, Same, Kept, OthersSame;
    InvariantParts(content, s);
    UpsertEffect(content, s, t, doc, chunks);
    RowsSame(s, t);
    WriteStores(content, s, t, doc, chunks);
    WriteOthers(s, t, doc, chunks);
    OthersAreSame(s, t, doc);
    WriteDocument(content, s, t, doc, chunks);
    OneTouched(content, s, t, doc);
  }

  lemma WriteStores(content: nat -> seq<Chunk>, s: State, t: State, doc: nat, chunks: seq<Chunk>)
    requires StoresOk(content, s) && doc in s.live && doc in s.uploaded && PointsOk(content, t)
    requires t == Write(s, doc, chunks).(tasks := t.tasks, clock := s.clock + 1)
    ensures StoresOk(content, t)
  {
    hide Wanted, PointsOk;
  }

  lemma WriteOthers(s: State, t: State, doc: nat, chunks: seq<Chunk>)
    requires doc in s.uploaded && t == Write(s, doc, chunks).(tasks := t.tasks, clock := s.clock + 1)
    requires forall d | d != doc :: PointsOf(t.stores, d) == PointsOf(s.stores, d)
    requires forall d, sha :: HasPoint(s, d, sha) ==> HasPoint(t, d, sha)
    ensures OthersSame(s, t, doc)
  {
    hide PointsOf, HasPoint, Upserted;
    RowsSame(s, t);
  }

  lemma WriteDocument(content: nat -> seq<Chunk>, s: State, t: State, doc: nat, chunks: seq<Chunk>)
    requires DocumentOk(content, s, doc) && TimesOk(s) && RowsOk(content, s) && doc in s.uploaded
    requires t == Write(s, doc, chunks).(tasks := t.tasks, clock := s.clock + 1)
    requires PointsOf(t.stores, doc) == PointsOf(s.stores, doc) + Shas(chunks)
    requires forall d, sha :: HasPoint(s, d, sha) ==> HasPoint(t, d, sha)
    ensures DocumentOk(content, t, doc) && Kept(content, s, t, doc)
  {
    hide PointsOf, HasPoint, Upserted, Wanted;
    RowsSame(s, t);
    if chunks != [] {
      assert chunks[0] in chunks && chunks[0].sha in Shas(chunks);
    }
  }

  lemma UpsertKeeps(content: nat -> seq<Chunk>, s: State, e: Event)
    requires Invariant(content, s) && e.Upsert?
    ensures Invariant(content, Step(content, s, e))
  {
    hide Invariant, StoresOk, TaskOk, Wanted, Shas, Upserted, HasPoint, RowsOf;
    var t := Step(content, s, e);
    if e.task in s.tasks && s.tasks[e.task].Ingest? && s.tasks[e.task].stage.Begun?
       && s.tasks[e.task].doc in s.uploaded {
      var task := s.tasks[e.task];
      IngestParts(content, s, e.task);
      UpsertedTask(content, s, t, task);
      WriteKeeps(content, s, t, task.doc, task.keep);
    } else {
      ClockKeeps(content, s);
    }
  }

  lemma IngestParts(content: nat -> seq<Chunk>, s: State, id: nat)
    requires Invariant(content, s) && id in s.tasks
    ensures TaskOk(content, s, s.tasks[id]) && s.tasks[id].doc in s.live && s.tasks[id].doc in s.uploaded
    ensures s.tasks[id].Ingest? ==> Shas(s.tasks[id].keep) <= Wanted(content(s.tasks[id].doc))
  {
    hide Wanted, Shas, RowsOf, HasPoint, DocumentOk, PointsOk, RowsOk, TimesOk;
    assert TaskOk(content, s, s.tasks[id]);
  }

  lemma UpsertedTask(content: nat -> seq<Chunk>, s: State, t: State, task: Task)
    requires task.Ingest? && TaskOk(content, s, task)
    requires t.live == s.live && t.stores.documents == s.stores.documents && t.stores.rows == s.stores.rows
    ensures (forall sha | sha in Shas(task.keep) :: HasPoint(t, task.doc, sha)) ==>
              TaskOk(content, t, Ingest(task.doc, task.keep, Written))
  {
    hide Wanted, Shas, HasPoint;
    RowsSame(s, t);
  }

  lemma UpsertPartKeeps(content: nat -> seq<Chunk>, s: State, e: Event)
    requires Invariant(content, s) && e.UpsertPart?
    ensures Invariant(content, Step(content, s, e))
  {
    hide Invariant, StoresOk, TaskOk, Wanted, Shas, Upserted, HasPoint, RowsOf, SetStatus;
    var t := Step(content, s, e);
    if e.task in s.tasks && s.tasks[e.task].Ingest? && s.tasks[e.task].stage.Begun? && s.tasks[e.task].doc in s.uploaded
       && Shas(e.written) <= Shas(s.tasks[e.task].keep) {
      var task := s.tasks[e.task];
      IngestParts(content, s, e.task);
      var partly := Stop(Write(s, task.doc, e.written), e.task).(clock := s.clock + 1);
      WriteKeeps(content, s, partly, task.doc, e.written);
      StatusKeeps(content, partly, task.doc, "error");
    } else {
      ClockKeeps(content, s);
    }
  }

  lemma RecordKeeps(content: nat -> seq<Chunk>, s: State, e: Event)
    requires Invariant(content, s) && e.Record?
    ensures Invariant(content, Step(content, s, e))
  {
    hide Invariant, StoresOk, TaskOk, Recorded, Recordable, DocumentOk, TasksMoved;
    var t := Step(content, s, e);
    if e.task in s.tasks && s.tasks[e.task].Ingest? && s.tasks[e.task].stage.Written?
       && s.tasks[e.task].doc in s.uploaded {
      if !Recordable(s.stores, s.tasks[e.task].doc, s.tasks[e.task].keep) {
        CrashKeeps(content, s, e.task, s.clock + 1);
      } else if s.tasks[e.task].doc in s.stores.documents {
        RecordedKeeps(content, s, t, e.task, s.tasks[e.task]);
      } else {
        RecordedNothingKeeps(content, s, t, e.task, s.tasks[e.task]);
      }
    } else {
      ClockKeeps(content, s);
    }
  }

  /** A state in which a task has recorded its chunks. */
  predicate HasRecorded(s: State, t: State, id: nat, task: Task) {
    && task.Ingest? && task.stage.Written? && id in s.tasks && s.tasks[id] == task
    && t == s.(stores := s.stores.(rows := Recorded(s.stores.rows, task.doc, task.keep)),
               tasks := s.tasks[id := Ingest(task.doc, task.keep, Done)], ingested := s.ingested + {task.doc},
               clock := s.clock + 1)
  }

  lemma RecordedKeeps(content: nat -> seq<Chunk>, s: State, t: State, id: nat, task: Task)
    requires Invariant(content, s) && HasRecorded(s, t, id, task) && task.doc in s.stores.documents
    ensures Invariant(content, t)
  {
    hide Wanted, Shas, Recorded, HasPoint, PointsOf, RowsOf, DocumentsOk, TimesOk, PointsOk, RowsOk, DocumentOk, TaskOk,
         Same, Kept, OthersSame;
    InvariantParts(content, s);
    IngestParts(content, s, id);
    RecordEffect(content, s, t, task.doc, task.keep);
    PointsSame(s, t);
    RecordedStores(content, s, t, id, task);
    RecordedOthers(s, t, id, task);
    OthersAreSame(s, t, task.doc);
    RecordedDocument(content, s, t, id, task);
    OneTouched(content, s, t, task.doc);
  }

  lemma RecordedStores(content: nat -> seq<Chunk>, s: State, t: State, id: nat, task: Task)
    requires StoresOk(content, s) && HasRecorded(s, t, id, task) && task.doc in s.uploaded && RowsOk(content, t)
    ensures StoresOk(content, t)
  {
    hide Wanted, RowsOk, Recorded;
  }

  lemma RecordedOthers(s: State, t: State, id: nat, task: Task)
    requires HasRecorded(s, t, id, task)
    requires forall d | d != task.doc :: RowsOf(t.stores, d) == RowsOf(s.stores, d)
    ensures OthersSame(s, t, task.doc)
  {
    hide Recorded, RowsOf, PointsOf, HasPoint;
    PointsSame(s, t);
  }

  lemma RecordedDocument(content: nat -> seq<Chunk>, s: State, t: State, id: nat, task: Task)
    requires HasRecorded(s, t, id, task) && task.doc in s.stores.documents
    requires DocumentOk(content, s, task.doc) && TaskOk(content, s, task)
    requires RowsOf(t.stores, task.doc) == RowsOf(s.stores, task.doc) + Shas(task.keep)
    ensures DocumentOk(content, t, task.doc) && Kept(content, s, t, task.doc)
    ensures TaskOk(content, t, Ingest(task.doc, task.keep, Done))
  {
    hide Recorded, RowsOf, PointsOf, HasPoint, Wanted, Shas;
    PointsSame(s, t);
    assert RowsOf(t.stores, task.doc) + Shas(task.keep) == RowsOf(t.stores, task.doc);
  }

  lemma RecordedNothingKeeps(content: nat -> seq<Chunk>, s: State, t: State, id: nat, task: Task)
    requires Invariant(content, s) && HasRecorded(s, t, id, task) && task.doc in s.uploaded
    requires task.doc !in s.stores.documents && Recordable(s.stores, task.doc, task.keep)
    ensures Invariant(content, t)
  {
    hide Wanted, Shas, Recorded, HasPoint, PointsOf, RowsOf, DocumentsOk, TimesOk, PointsOk, RowsOk, DocumentOk, TaskOk,
         Same, Kept, OthersSame;
    NothingRecorded(s.stores.rows, task.doc, task.keep);
    InvariantParts(content, s);
    RowsSame(s, t);
    PointsSame(s, t);
    SameRowsOk(content, s, t);
    RecordedStores(content, s, t, id, task);
    RecordedOthers(s, t, id, task);
    OthersAreSame(s, t, task.doc);
    GoneDocument(content, s, t, id, task);
    OneTouched(content, s, t, task.doc);
  }

  lemma SameRowsOk(content: nat -> seq<Chunk>, s: State, t: State)
    requires RowsOk(content, s) && t.stores.rows == s.stores.rows && t.stores.documents == s.stores.documents
    ensures RowsOk(content, t)
  {
    hide Wanted;
  }

  lemma GoneDocument(content: nat -> seq<Chunk>, s: State, t: State, id: nat, task: Task)
    requires HasRecorded(s, t, id, task) && task.doc !in s.stores.documents && t.stores.rows == s.stores.rows
    requires DocumentOk(content, s, task.doc) && TaskOk(content, s, task)
    ensures DocumentOk(content, t, task.doc) && Kept(content, s, t, task.doc)
    ensures TaskOk(content, t, Ingest(task.doc, task.keep, Done))
  {
    hide Recorded, RowsOf, PointsOf, HasPoint, Wanted, Shas;
    PointsSame(s, t);
    RowsSame(s, t);
  }

  lemma ReadyKeeps(content: nat -> seq<Chunk>, s: State, e: Event)
    requires Invariant(content, s) && e.Ready?
    ensures Invariant(content, Step(content, s, e))
  {
    hide Invariant, TaskOk;
    OnlyTasks(content, s, Step(content, s, e));
  }

  lemma DropPointsKeeps(content: nat -> seq<Chunk>, s: State, e: Event)
    requires Invariant(content, s) && e.DropPoints?
    ensures Invariant(content, Step(content, s, e))
  {
    hide Wanted, Shas, WithoutPoints, HasPoint, PointsOf, RowsOf, DocumentsOk, TimesOk, PointsOk, RowsOk, DocumentOk,
         TaskOk, Same, Kept, OthersSame;
    var t := Step(content, s, e);
    if e.task in s.tasks && s.tasks[e.task].Delete? && s.tasks[e.task].stage.Begun?
       && s.tasks[e.task].doc in s.uploaded {
      var doc := s.tasks[e.task].doc;
      InvariantParts(content, s);
      IngestParts(content, s, e.task);
      DropPointsEffect(content, s, t, doc);
      RowsSame(s, t);
      DroppedStores(content, s, t, doc);
      DroppedOthers(s, t, doc);
      OthersAreSame(s, t, doc);
      DroppedDocument(content, s, t, doc);
      OneTouched(content, s, t, doc);
    } else {
      ClockKeeps(content, s);
    }
  }

  /** A state in which the vectors of a document have just been deleted. */
  predicate HasDropped(s: State, t: State, doc: nat) {
    && t == s.(stores := s.stores.(points := t.stores.points), tasks := t.tasks, dropAt := s.dropAt[doc := s.clock],
               clock := s.clock + 1)
    && PointsOf(t.stores, doc) == {} && doc in s.live && doc in s.uploaded
  }

  lemma DroppedStores(content: nat -> seq<Chunk>, s: State, t: State, doc: nat)
    requires StoresOk(content, s) && HasDropped(s, t, doc) && PointsOk(content, t)
    ensures StoresOk(content, t)
  {
    hide Wanted, PointsOk;
  }

  lemma DroppedOthers(s: State, t: State, doc: nat)
    requires HasDropped(s, t, doc)
    requires forall d | d != doc :: PointsOf(t.stores, d) == PointsOf(s.stores, d)
    requires forall d, sha | d != doc :: HasPoint(s, d, sha) ==> HasPoint(t, d, sha)
    ensures OthersSame(s, t, doc)
  {
    hide RowsOf, PointsOf, HasPoint;
    RowsSame(s, t);
  }

  lemma DroppedDocument(content: nat -> seq<Chunk>, s: State, t: State, doc: nat)
    requires DocumentOk(content, s, doc) && TimesOk(s) && RowsOk(content, s) && HasDropped(s, t, doc)
    ensures DocumentOk(content, t, doc) && Kept(content, s, t, doc)
    ensures TaskOk(content, t, Delete(doc, Written, s.clock))
  {
    hide PointsOf, HasPoint, Wanted;
    RowsSame(s, t);
  }

  lemma DropBlobKeeps(content: nat -> seq<Chunk>, s: State, e: Event)
    requires Invariant(content, s) && e.DropBlob?
    ensures Invariant(content, Step(content, s, e))
  {
    hide Invariant, TaskOk, StoresOk, DocumentOk, TasksMoved;
    var t := Step(content, s, e);
    if e.task in s.tasks && s.tasks[e.task].Delete? && s.tasks[e.task].stage.Written?
       && s.tasks[e.task].doc in s.uploaded {
      var task := s.tasks[e.task];
      IngestParts(content, s, e.task);
      BloblessOk(content, s, task);
      OneTaskMoved(content, s, t, e.task, Delete(task.doc, Done, task.droppedAt));
    } else {
      ClockKeeps(content, s);
    }
  }

  lemma BloblessOk(content: nat -> seq<Chunk>, s: State, task: Task)
    requires task.Delete? && task.stage.Written? && TaskOk(content, s, task)
    ensures TaskOk(content, s, Delete(task.doc, Done, task.droppedAt))
  {
    hide Wanted, Shas, RowsOf, HasPoint;
  }

  lemma DropRowsKeeps(content: nat -> seq<Chunk>, s: State, e: Event)
    requires Invariant(content, s) && e.DropRows?
    ensures Invariant(content, Step(content, s, e))
  {
    hide Wanted, Shas, WithoutRows, HasPoint, PointsOf, RowsOf, DocumentsOk, TimesOk, PointsOk, RowsOk, DocumentOk,
         TaskOk, Same, Kept, OthersSame;
    var t := Step(content, s, e);
    if e.task in s.tasks && s.tasks[e.task].Delete? && s.tasks[e.task].stage.Done?
       && s.tasks[e.task].doc in s.uploaded {
      var task := s.tasks[e.task];
      InvariantParts(content, s);
      IngestParts(content, s, e.task);
      DropRowsEffect(content, s, t, task.doc);
      PointsSame(s, t);
      RemovedStores(content, s, t, task);
      RemovedOthers(s, t, task);
      OthersAreSame(s, t, task.doc);
      RemovedDocument(content, s, t, task);
      OneTouched(content, s, t, task.doc);
    } else {
      ClockKeeps(content, s);
    }
  }

  /** A state in which a task has just removed its document's rows. */
  predicate HasRemoved(s: State, t: State, task: Task) {
    && task.Delete? && task.stage.Done? && task.doc in s.uploaded
    && t == s.(stores := s.stores.(rows := t.stores.rows, documents := s.stores.documents - {task.doc}),
               tasks := t.tasks,
               goneBy := if task.doc in s.stores.documents then s.goneBy[task.doc := task.droppedAt] else s.goneBy,
               clock := s.clock + 1)
  }

  lemma RemovedStores(content: nat -> seq<Chunk>, s: State, t: State, task: Task)
    requires StoresOk(content, s) && HasRemoved(s, t, task) && TaskOk(content, s, task) && RowsOk(content, t)
    ensures StoresOk(content, t)
  {
    hide *;
    StoresParts(content, s);
    RemovedDocuments(content, s, t, task);
    RemovedTimes(content, s, t, task);
    SamePointsOk(content, s, t, task);
    StoresWhole(content, t);
  }

  lemma RemovedDocuments(content: nat -> seq<Chunk>, s: State, t: State, task: Task)
    requires DocumentsOk(content, s) && HasRemoved(s, t, task)
    ensures DocumentsOk(content, t)
  {
    hide Wanted;
  }

  lemma RemovedTimes(content: nat -> seq<Chunk>, s: State, t: State, task: Task)
    requires TimesOk(s) && HasRemoved(s, t, task) && TaskOk(content, s, task)
    ensures TimesOk(t)
  {
    hide Wanted, RowsOf, Shas, HasPoint;
  }

  lemma SamePointsOk(content: nat -> seq<Chunk>, s: State, t: State, task: Task)
    requires PointsOk(content, s) && HasRemoved(s, t, task)
    ensures PointsOk(content, t)
  {
    hide Wanted;
  }

  lemma RemovedOthers(s: State, t: State, task: Task)
    requires HasRemoved(s, t, task)
    requires forall d | d != task.doc :: RowsOf(t.stores, d) == RowsOf(s.stores, d)
    ensures OthersSame(s, t, task.doc)
  {
    hide RowsOf, PointsOf, HasPoint;
    PointsSame(s, t);
  }

  lemma RemovedDocument(content: nat -> seq<Chunk>, s: State, t: State, task: Task)
    requires DocumentOk(content, s, task.doc) && HasRemoved(s, t, task) && RowsOf(t.stores, task.doc) == {}
    ensures DocumentOk(content, t, task.doc) && Kept(content, s, t, task.doc)
  {
    hide RowsOf, PointsOf, HasPoint, Wanted;
    PointsSame(s, t);
  }

  lemma RetireKeeps(content: nat -> seq<Chunk>, s: State, e: Event)
    requires Invariant(content, s) && e.Retire?
    ensures Invariant(content, Step(content, s, e))
  {
    hide Invariant, Alone, PointsOf;
    if e.doc !in s.stores.documents && Alone(s, e.doc) && PointsOf(s.stores, e.doc) == {} {
      RetiredKeeps(content, s, e.doc);
    } else {
      ClockKeeps(content, s);
    }
  }

  lemma RetiredKeeps(content: nat -> seq<Chunk>, s: State, doc: nat)
    requires Invariant(content, s)
    requires doc !in s.stores.documents && Alone(s, doc) && PointsOf(s.stores, doc) == {}
    ensures Invariant(content, s.(live := s.live - {doc}, clock := s.clock + 1))
  {
    hide *;
    InvariantParts(content, s);
    var t := s.(live := s.live - {doc}, clock := s.clock + 1);
    RetiredStores(content, s, t, doc);
    forall d
      ensures d != doc ==> Same(s, t, d)
      ensures DocumentOk(content, t, d)
    {
      RetiredSame(content, s, t, doc, d);
    }
    TasksUnmoved(content, s, t);
    OneTouched(content, s, t, doc);
  }

  lemma TasksUnmoved(content: nat -> seq<Chunk>, s: State, t: State)
    requires t.tasks == s.tasks
    ensures TasksMoved(content, s, t)
  {
    hide TaskOk;
  }

  lemma RetiredStores(content: nat -> seq<Chunk>, s: State, t: State, doc: nat)
    requires StoresOk(content, s) && t == s.(live := s.live - {doc}, clock := s.clock + 1)
    requires doc !in s.stores.documents && PointsOf(s.stores, doc) == {}
    ensures StoresOk(content, t)
  {
    hide Wanted;
    forall p | p in s.stores.points
      ensures s.stores.points[p] != doc
    {
      assert s.stores.points[p] == doc ==> p.sha in PointsOf(s.stores, doc);
    }
  }

  lemma RetiredSame(content: nat -> seq<Chunk>, s: State, t: State, doc: nat, d: nat)
    requires t == s.(live := s.live - {doc}, clock := s.clock + 1) && DocumentOk(content, s, d)
    ensures d != doc ==> Same(s, t, d)
    ensures DocumentOk(content, t, d)
  {
    hide Wanted, RowsOf, PointsOf;
  }

  lemma StepKeeps(content: nat -> seq<Chunk>, s: State, e: Event)
    requires Invariant(content, s)
    ensures Invariant(content, Step(content, s, e))
  {
    hide Invariant, IngestStep, DeleteStep, Added, Separate, Stop, PointsOf, Alone, Keep, RowsOf;
    match e
    case Upload(_, uri) =>
      if Separate(content, s, uri) {
        UploadKeeps(content, s, e);
      } else {
        ClockKeeps(content, s);
      }
    case BeginIngest(_, _) => BeginIngestKeeps(content, s, e);
    case ReadHashes(_) => ReadHashesKeeps(content, s, e);
    case Upsert(_) => UpsertKeeps(content, s, e);
    case UpsertPart(_, _) => UpsertPartKeeps(content, s, e);
    case Record(_) => RecordKeeps(content, s, e);
    case Ready(_) => ReadyKeeps(content, s, e);
    case BeginDelete(_, _) => BeginDeleteKeeps(content, s, e);
    case DropPoints(_) => DropPointsKeeps(content, s, e);
    case DropBlob(_, _) => DropBlobKeeps(content, s, e);
    case DropRows(_) => DropRowsKeeps(content, s, e);
    case Crash(t) => CrashKeeps(content, s, t, s.clock + 1);
    case Retire(_) => RetireKeeps(content, s, e);
  }

  lemma ClockKeeps(content: nat -> seq<Chunk>, s: State)
    requires Invariant(content, s)
    ensures Invariant(content, s.(clock := s.clock + 1))
  {
    hide Invariant, TaskOk;
    OnlyTasks(content, s, s.(clock := s.clock + 1));
  }

  /** Every step and every crash, in any interleaving, keeps the invariant. */
  lemma {:induction false} RunKeeps(content: nat -> seq<Chunk>, s: State, events: seq<Event>)
    requires Invariant(content, s)
    ensures Invariant(content, Run(content, s, events))
    decreases |events|
  {
    hide Invariant, Step;
    if events != [] {
      StepKeeps(content, s, events[0]);
      RunKeeps(content, Step(content, s, events[0]), events[1..]);
    }
  }

  lemma StartOk(content: nat -> seq<Chunk>)
    ensures Invariant(content, START)
  {
  }

  lemma Reachable(content: nat -> seq<Chunk>, events: seq<Event>)
    ensures Invariant(content, Run(content, START, events))
  {
    hide Run, Invariant;
    StartOk(content);
    RunKeeps(content, START, events);
  }

  // ---- Rows and vectors

  /** A document once ingested has rows and vectors exactly for its chunks, until a deletion of its vectors. */
  lemma IngestedRowsAreVectors(content: nat -> seq<Chunk>, events: seq<Event>, doc: nat)
    requires var s := Run(content, START, events); doc in s.ingested && doc in s.stores.documents && doc !in s.dropAt
    ensures var s := Run(content, START, events).stores;
            RowsOf(s, doc) == PointsOf(s, doc) == Wanted(content(doc))
  {
    hide Run, Wanted, RowsOf, PointsOf, StoresOk, TaskOk, HasPoint;
    var s := Run(content, START, events);
    Reachable(content, events);
    assert DocumentOk(content, s, doc);
    PointsAreWanted(content, s, doc);
    forall sha | sha in RowsOf(s.stores, doc)
      ensures sha in PointsOf(s.stores, doc)
    {
      PointIsOwn(s, doc, sha);
    }
  }

  lemma PointIsOwn(s: State, doc: nat, sha: string)
    requires HasPoint(s, doc, sha)
    ensures sha in PointsOf(s.stores, doc)
  {
    assert PointKey(s.uploaded[doc].collection, sha).sha == sha;
  }

  lemma PointsAreWanted(content: nat -> seq<Chunk>, s: State, doc: nat)
    requires Invariant(content, s)
    ensures PointsOf(s.stores, doc) <= Wanted(content(doc))
  {
    hide Wanted, DocumentsOk, TimesOk, RowsOk, DocumentOk, TaskOk;
  }

  lemma RowsAreWanted(content: nat -> seq<Chunk>, s: State, doc: nat)
    requires Invariant(content, s)
    ensures RowsOf(s.stores, doc) <= Wanted(content(doc))
  {
    hide Wanted, DocumentsOk, TimesOk, PointsOk, DocumentOk, TaskOk;
  }

  /** A document is marked ready only by a task that has recorded its rows. */
  predicate ReadyOk(s: State) {
    && (forall d | d in s.stores.documents && s.stores.documents[d].status == "ready" :: d in s.ingested)
    && (forall t | t in s.tasks && s.tasks[t].Ingest? && s.tasks[t].stage.Done? :: s.tasks[t].doc in s.ingested)
  }

  lemma StatusesApart()
    ensures "queued" != "ready" && "error" != "ready"
  {
    assert |"queued"| == 6 && "error"[0] == 'e' && "ready"[0] == 'r';
  }

  lemma ReadyIngestStep(s: State, e: Event, t: nat, task: Task)
    requires ReadyOk(s) && t in s.tasks && task == s.tasks[t] && task.Ingest? && task.doc in s.uploaded
    ensures ReadyOk(IngestStep(s, e, t, task))
  {
    hide Upserted, Shas, Recorded, Recordable;
    StatusesApart();
  }

  lemma ReadyDeleteStep(s: State, e: Event, t: nat, task: Task)
    requires ReadyOk(s) && t in s.tasks && task == s.tasks[t] && task.Delete? && task.doc in s.uploaded
    ensures ReadyOk(DeleteStep(s, e, t, task))
  {
    hide WithoutPoints, WithoutRows;
  }

  lemma ReadyFrameStep(content: nat -> seq<Chunk>, s: State, e: Event)
    requires ReadyOk(s) && !OwnEvent(e)
    ensures ReadyOk(Step(content, s, e))
  {
    hide *;
    if e.Upload? {
      ReadyUpload(content, s, e);
    } else {
      FrameLeaves(content, s, e);
      forall u | u in Step(content, s, e).tasks
        ensures var task := Step(content, s, e).tasks[u];
                task.Ingest? && task.stage.Done? ==> u in s.tasks && s.tasks[u] == task
      {
        FrameStages(content, s, e, u);
      }
      ReadyLeft(s, Step(content, s, e));
    }
  }

  lemma ReadyUpload(content: nat -> seq<Chunk>, s: State, e: Event)
    requires ReadyOk(s) && e.Upload?
    ensures ReadyOk(Step(content, s, e))
  {
    hide Separate;
    StatusesApart();
  }

  /** The rest of what a frame event does leaves documents and what was ingested alone. */
  lemma FrameLeaves(content: nat -> seq<Chunk>, s: State, e: Event)
    requires !OwnEvent(e) && !e.Upload?
    ensures var t := Step(content, s, e); t.stores == s.stores && t.ingested == s.ingested
  {
    hide IngestStep, DeleteStep, Keep, Separate, Alone, RowsOf, PointsOf, Added;
  }

  lemma FrameStages(content: nat -> seq<Chunk>, s: State, e: Event, u: nat)
    requires !OwnEvent(e) && !e.Upload? && u in Step(content, s, e).tasks
    ensures var task := Step(content, s, e).tasks[u];
            task.Ingest? && task.stage.Done? ==> u in s.tasks && s.tasks[u] == task
  {
    hide IngestStep, DeleteStep, Keep, Separate, Alone, RowsOf, PointsOf, Added;
  }

  lemma ReadyLeft(s: State, t: State)
    requires ReadyOk(s) && t.stores == s.stores && t.ingested == s.ingested
    requires forall u | u in t.tasks && t.tasks[u].Ingest? && t.tasks[u].stage.Done? ::
               u in s.tasks && s.tasks[u] == t.tasks[u]
    ensures ReadyOk(t)
  {
  }

  lemma ReadyStep(content: nat -> seq<Chunk>, s: State, e: Event)
    requires ReadyOk(s)
    ensures ReadyOk(Step(content, s, e))
  {
    hide ReadyOk, IngestStep, DeleteStep, Keep, Separate, Alone, RowsOf, PointsOf, Added, OwnEvent;
    if !OwnEvent(e) {
      ReadyFrameStep(content, s, e);
    } else {
      OwnEventIsOwn(e);
      if e.task in s.tasks && s.tasks[e.task].doc in s.uploaded {
        if s.tasks[e.task].Ingest? {
          ReadyIngestStep(s, e, e.task, s.tasks[e.task]);
        } else if s.tasks[e.task].Delete? {
          ReadyDeleteStep(s, e, e.task, s.tasks[e.task]);
        }
      }
      ReadyTicks(Act(content, s, e), s.clock + 1);
    }
  }

  lemma OwnEventIsOwn(e: Event)
    requires OwnEvent(e)
    ensures !(e.Upload? || e.BeginIngest? || e.ReadHashes? || e.BeginDelete? || e.Crash? || e.Retire?)
  {
  }

  lemma ReadyTicks(s: State, clock: nat)
    ensures ReadyOk(s) ==> ReadyOk(s.(clock := clock))
  {
  }

  lemma {:induction false} ReadyRun(content: nat -> seq<Chunk>, s: State, events: seq<Event>)
    requires ReadyOk(s)
    ensures ReadyOk(Run(content, s, events))
    decreases |events|
  {
    hide ReadyOk, Step;
    if events != [] {
      ReadyStep(content, s, events[0]);
      ReadyRun(content, Step(content, s, events[0]), events[1..]);
    }
  }

  /** A document marked ready has its rows and its vectors, until a deletion takes the vectors. */
  lemma ReadyDocumentsAreIndexed(content: nat -> seq<Chunk>, events: seq<Event>, doc: nat)
    requires var s := Run(content, START, events);
             doc in s.stores.documents && s.stores.documents[doc].status == "ready" && doc !in s.dropAt
    ensures var s := Run(content, START, events).stores;
            RowsOf(s, doc) == PointsOf(s, doc) == Wanted(content(doc))
  {
    hide Run, Wanted, RowsOf, PointsOf;
    ReadyRun(content, START, events);
    IngestedRowsAreVectors(content, events, doc);
  }

  /** An upsert cut off part-way ends its task and marks the document, whatever it has written. */
  lemma CutUpsertIsMarked(content: nat -> seq<Chunk>, s: State, task: nat, written: seq<Chunk>)
    requires task in s.tasks && s.tasks[task].Ingest? && s.tasks[task].stage.Begun?
    requires Shas(written) <= Shas(s.tasks[task].keep) && s.tasks[task].doc in s.uploaded
    requires s.tasks[task].doc in s.stores.documents
    ensures var t, doc := Step(content, s, UpsertPart(task, written)), s.tasks[task].doc;
            && task !in t.tasks && t.stores.rows == s.stores.rows
            && t.stores.points == Upserted(s.stores.points, s.uploaded[doc].collection, doc, written)
            && doc in t.stores.documents && t.stores.documents[doc].status == "error"
  {
    hide Upserted, Shas;
  }

  /**
   Once the row of a document is gone, vectors of it are left exactly when some were written after its
   vectors were last deleted. That deletion is no earlier than the one of the task that removed the row,
   so without a second deletion it is: exactly when some were written after that task had deleted them.
   */
  lemma VectorsOutliveDocumentExactlyWhen(content: nat -> seq<Chunk>, events: seq<Event>, doc: nat)
    requires var s := Run(content, START, events); doc in s.uploaded && doc !in s.stores.documents
    ensures var s := Run(content, START, events);
            && doc in s.goneBy && doc in s.dropAt && s.goneBy[doc] <= s.dropAt[doc]
            && (PointsOf(s.stores, doc) != {} <==> doc in s.upsertAt && s.dropAt[doc] < s.upsertAt[doc])
            && (s.dropAt[doc] == s.goneBy[doc] ==>
                  (PointsOf(s.stores, doc) != {} <==> doc in s.upsertAt && s.goneBy[doc] < s.upsertAt[doc]))
  {
    hide Run, Wanted, RowsOf, PointsOf, HasPoint, DocumentsOk, PointsOk, RowsOk, TaskOk;
    var s := Run(content, START, events);
    Reachable(content, events);
    assert DocumentOk(content, s, doc);
  }

  // ---- Jobs of a document that keep out of each other's way

  predicate Ingesting(s: State, doc: nat) {
    exists t | t in s.tasks :: !s.tasks[t].Delete? && s.tasks[t].doc == doc
  }

  predicate Deleting(s: State, doc: nat) {
    exists t | t in s.tasks :: s.tasks[t].Delete? && s.tasks[t].doc == doc
  }

  /** The object of the document is there, so that a job of it can begin. */
  predicate HasBlob(s: State, doc: nat) {
    doc in s.uploaded && s.uploaded[doc].uri in s.stores.blobs
  }

  /**
   No ingest of the document begins while it is being deleted, or once it is gone unless its object is too;
   no deletion begins while it is ingested.
   */
  predicate Apart(s: State, e: Event, doc: nat) {
    && (e.BeginIngest? && e.doc == doc ==> (doc in s.stores.documents || !HasBlob(s, doc)) && !Deleting(s, doc))
    && (e.BeginDelete? && e.doc == doc ==> !Ingesting(s, doc))
  }

  predicate RunApart(content: nat -> seq<Chunk>, s: State, events: seq<Event>, doc: nat)
    decreases |events|
  {
    events == [] || (Apart(s, events[0], doc) && RunApart(content, Step(content, s, events[0]), events[1..], doc))
  }

  /** Deleting has taken the vectors before anything else, and no one brings them back. */
  predicate Clean(s: State, doc: nat) {
    && !(Ingesting(s, doc) && Deleting(s, doc))
    && (doc !in s.stores.documents ==> PointsOf(s.stores, doc) == {} && !Ingesting(s, doc))
    && (forall t | t in s.tasks && s.tasks[t].Delete? && s.tasks[t].doc == doc && !s.tasks[t].stage.Begun? ::
          PointsOf(s.stores, doc) == {})
  }

  lemma PointsStay(content: nat -> seq<Chunk>, s: State, e: Event)
    requires !e.Upsert? && !e.UpsertPart? && !e.DropPoints?
    ensures Step(content, s, e).stores.points == s.stores.points
  {
    hide Recorded, WithoutRows, Keep, Separate, Recordable, Alone, RowsOf, PointsOf;
  }

  lemma WritesVectors(content: nat -> seq<Chunk>, s: State, e: Event)
    requires e.Upsert? || e.UpsertPart?
    ensures var t := Step(content, s, e);
            t.stores.points == s.stores.points
            || (e.task in s.tasks && s.tasks[e.task].Ingest? && s.tasks[e.task].doc in s.uploaded
                && var task := s.tasks[e.task];
                   var chunks := if e.Upsert? then task.keep else e.written;
                   t.uploaded == s.uploaded && t.live == s.live && Shas(chunks) <= Shas(task.keep)
                   && t.stores.points == Upserted(s.stores.points, s.uploaded[task.doc].collection, task.doc, chunks))
  {
    hide Upserted, Shas;
  }

  lemma DropsVectors(content: nat -> seq<Chunk>, s: State, e: Event)
    requires e.DropPoints?
    ensures var t := Step(content, s, e);
            t.stores.points == s.stores.points
            || (e.task in s.tasks && s.tasks[e.task].Delete? && s.tasks[e.task].doc in s.uploaded
                && t.uploaded == s.uploaded && t.live == s.live
                && var doc := s.tasks[e.task].doc;
                   t.stores.points == WithoutPoints(s.stores.points, s.uploaded[doc].collection, doc))
  {
    hide WithoutPoints;
  }

  /** A document that is not being ingested gains no vectors; deleting its vectors leaves none. */
  lemma PointsShrink(content: nat -> seq<Chunk>, s: State, e: Event, doc: nat)
    requires Invariant(content, s) && !Ingesting(s, doc)
    ensures PointsOf(s.stores, doc) == {} ==> PointsOf(Step(content, s, e).stores, doc) == {}
  {
    hide Invariant, Wanted, PointsOf, Upserted, WithoutPoints, Shas, Step, DocumentsOk, TimesOk, PointsOk, RowsOk,
         DocumentOk, TaskOk;
    var t := Step(content, s, e);
    if e.Upsert? || e.UpsertPart? {
      WritesVectors(content, s, e);
    } else if e.DropPoints? {
      DropsVectors(content, s, e);
    } else {
      PointsStay(content, s, e);
    }
    if t.stores.points == s.stores.points {
      PointsEqual(s.stores, t.stores, doc);
    } else {
      var task := s.tasks[e.task];
      IngestParts(content, s, e.task);
      InvariantParts(content, s);
      if e.DropPoints? {
        DropPointsEffect(content, s, t, task.doc);
      } else {
        UpsertEffect(content, s, t, task.doc, if e.Upsert? then task.keep else e.written);
      }
    }
  }

  /** Where a task that deletes has got to: past its first step only with no vector left. */
  lemma DroppedFirst(content: nat -> seq<Chunk>, s: State, e: Event, u: nat)
    requires Invariant(content, s)
    requires var t := Step(content, s, e);
             && u in t.tasks && t.tasks[u].Delete? && !t.tasks[u].stage.Begun?
             && (u in s.tasks && s.tasks[u].Delete? ==> s.tasks[u].stage.Begun?)
    ensures var t := Step(content, s, e); PointsOf(t.stores, t.tasks[u].doc) == {}
  {
    hide Invariant, Step, PointsOf, WithoutPoints, DocumentsOk, TimesOk, PointsOk, RowsOk, DocumentOk, TaskOk;
    TakesFirstStep(content, s, e, u);
    var t, doc := Step(content, s, e), s.tasks[u].doc;
    InvariantParts(content, s);
    IngestParts(content, s, u);
    DropPointsStep(content, s, u, doc);
    DropPointsEffect(content, s, t, doc);
  }

  /** A deletion gets past its first step only by taking it. */
  lemma TakesFirstStep(content: nat -> seq<Chunk>, s: State, e: Event, u: nat)
    requires var t := Step(content, s, e);
             && u in t.tasks && t.tasks[u].Delete? && !t.tasks[u].stage.Begun?
             && (u in s.tasks && s.tasks[u].Delete? ==> s.tasks[u].stage.Begun?)
    ensures e == DropPoints(u) && u in s.tasks && s.tasks[u].Delete? && s.tasks[u].stage.Begun?
    ensures Step(content, s, e).tasks[u].doc == s.tasks[u].doc
  {
    hide Step, HasBlob;
    if e.Upload? {
      UploadTasks(content, s, e);
    } else if OwnEvent(e) {
      OwnTasks(content, s, e, u);
    } else {
      FrameTasks(content, s, e, u);
    }
  }

  lemma PointsEqual(s: Stores, t: Stores, doc: nat)
    requires t.points == s.points
    ensures PointsOf(t, doc) == PointsOf(s, doc)
  {
  }

  /** Where the tasks of a step come from. */
  lemma TasksComeFrom(content: nat -> seq<Chunk>, s: State, e: Event, u: nat)
    requires u in Step(content, s, e).tasks
    ensures var task := Step(content, s, e).tasks[u];
            || (u in s.tasks && s.tasks[u].doc == task.doc && (s.tasks[u].Delete? <==> task.Delete?)
                && (task.Delete? ==> s.tasks[u].stage.Begun? || !task.stage.Begun?))
            || (task.Fetched? && e.BeginIngest? && e.doc == task.doc && HasBlob(s, task.doc))
            || (task.Delete? && e.BeginDelete? && e.doc == task.doc && task.stage.Begun?)
  {
    hide Step, HasBlob;
    if e.Upload? {
      UploadTasks(content, s, e);
    } else if OwnEvent(e) {
      OwnTasks(content, s, e, u);
    } else {
      FrameTasks(content, s, e, u);
    }
  }

  /** A step that a task at work takes. */
  predicate OwnEvent(e: Event) {
    !(e.Upload? || e.BeginIngest? || e.ReadHashes? || e.BeginDelete? || e.Crash? || e.Retire?)
  }

  lemma FrameTasks(content: nat -> seq<Chunk>, s: State, e: Event, u: nat)
    requires !OwnEvent(e) && !e.Upload? && u in Step(content, s, e).tasks
    ensures var task := Step(content, s, e).tasks[u];
            || (u in s.tasks && s.tasks[u] == task)
            || (u in s.tasks && s.tasks[u].Fetched? && task.Ingest? && s.tasks[u].doc == task.doc)
            || (task.Fetched? && e.BeginIngest? && e.doc == task.doc && HasBlob(s, task.doc))
            || (task.Delete? && e.BeginDelete? && e.doc == task.doc && task.stage.Begun?)
  {
    hide IngestStep, DeleteStep, Keep, Separate, Alone, RowsOf, PointsOf, Added;
  }

  lemma OwnTasks(content: nat -> seq<Chunk>, s: State, e: Event, u: nat)
    requires OwnEvent(e) && u in Step(content, s, e).tasks
    ensures u in s.tasks
    ensures var task := Step(content, s, e).tasks[u];
            || task == s.tasks[u]
            || (s.tasks[u].Ingest? && task.Ingest? && s.tasks[u].doc == task.doc)
            || (s.tasks[u].Delete? && task.Delete? && s.tasks[u].doc == task.doc
                && (s.tasks[u].stage.Begun? || !task.stage.Begun?)
                && (s.tasks[u].stage.Begun? && !task.stage.Begun? ==> e == DropPoints(u)))
  {
    hide IngestStep, DeleteStep, Keep, Separate, Alone, RowsOf, PointsOf, Added;
    if e.task in s.tasks && s.tasks[e.task].doc in s.uploaded {
      if s.tasks[e.task].Ingest? {
        IngestStepTasks(s, e, e.task, s.tasks[e.task]);
      } else if s.tasks[e.task].Delete? {
        DeleteStepTasks(s, e, e.task, s.tasks[e.task]);
      }
    }
  }

  lemma UploadTasks(content: nat -> seq<Chunk>, s: State, e: Event)
    requires e.Upload?
    ensures Step(content, s, e).tasks == s.tasks
  {
    hide Separate;
  }

  lemma IngestStepTasks(s: State, e: Event, t: nat, task: Task)
    requires t in s.tasks && task == s.tasks[t] && task.Ingest? && task.doc in s.uploaded
    ensures forall u | u in IngestStep(s, e, t, task).tasks ::
              && u in s.tasks && (u != t ==> IngestStep(s, e, t, task).tasks[u] == s.tasks[u])
              && (u == t ==> IngestStep(s, e, t, task).tasks[u].Ingest?
                             && IngestStep(s, e, t, task).tasks[u].doc == task.doc)
  {
    hide Upserted, Shas, Recorded, Recordable, SetStatus;
  }

  lemma DeleteStepTasks(s: State, e: Event, t: nat, task: Task)
    requires t in s.tasks && task == s.tasks[t] && task.Delete? && task.doc in s.uploaded
    ensures forall u | u in DeleteStep(s, e, t, task).tasks ::
              && u in s.tasks && (u != t ==> DeleteStep(s, e, t, task).tasks[u] == s.tasks[u])
              && (u == t ==> var moved := DeleteStep(s, e, t, task).tasks[u];
                             && moved.Delete? && moved.doc == task.doc && (task.stage.Begun? || !moved.stage.Begun?)
                             && (task.stage.Begun? && !moved.stage.Begun? ==> e.DropPoints?))
  {
    hide WithoutPoints, WithoutRows;
  }

  lemma IngestComesFrom(content: nat -> seq<Chunk>, s: State, e: Event, doc: nat)
    requires Ingesting(Step(content, s, e), doc)
    ensures Ingesting(s, doc) || (e.BeginIngest? && e.doc == doc && HasBlob(s, doc))
  {
    hide Step;
    var t := Step(content, s, e);
    var u :| u in t.tasks && !t.tasks[u].Delete? && t.tasks[u].doc == doc;
    TasksComeFrom(content, s, e, u);
  }

  lemma DeleteComesFrom(content: nat -> seq<Chunk>, s: State, e: Event, doc: nat)
    requires Deleting(Step(content, s, e), doc)
    ensures Deleting(s, doc) || (e.BeginDelete? && e.doc == doc)
  {
    hide Step;
    var t := Step(content, s, e);
    var u :| u in t.tasks && t.tasks[u].Delete? && t.tasks[u].doc == doc;
    TasksComeFrom(content, s, e, u);
  }

  /** A document row goes only with a task that had deleted its vectors. */
  lemma RemovedByDelete(content: nat -> seq<Chunk>, s: State, e: Event, doc: nat)
    requires doc in s.stores.documents && doc !in Step(content, s, e).stores.documents
    ensures e.DropRows? && e.task in s.tasks && s.tasks[e.task].Delete? && s.tasks[e.task].doc == doc
    ensures !s.tasks[e.task].stage.Begun? && Deleting(s, doc)
  {
    hide Upserted, WithoutPoints, Shas, Recorded, WithoutRows, Keep, Separate, Recordable, Alone, RowsOf, PointsOf;
  }

  lemma BeginsNothingElse(content: nat -> seq<Chunk>, s: State, e: Event)
    requires e.BeginIngest? || e.BeginDelete?
    ensures var t := Step(content, s, e); t.stores == s.stores
  {
    hide Keep, RowsOf;
  }

  lemma CleanStep(content: nat -> seq<Chunk>, s: State, e: Event, doc: nat)
    requires Invariant(content, s) && Clean(s, doc) && Apart(s, e, doc)
    ensures Clean(Step(content, s, e), doc)
  {
    hide Step, Invariant, Ingesting, Deleting, PointsOf;
    var t := Step(content, s, e);
    CleanParts(s, doc);
    if Ingesting(t, doc) {
      IngestComesFrom(content, s, e, doc);
    }
    if Deleting(t, doc) {
      DeleteComesFrom(content, s, e, doc);
    }
    if e.BeginIngest? || e.BeginDelete? {
      BeginsNothingElse(content, s, e);
    }
    if doc in s.stores.documents && doc !in t.stores.documents {
      RemovedByDelete(content, s, e, doc);
    }
    if !Ingesting(s, doc) {
      PointsShrink(content, s, e, doc);
    }
    forall u | u in t.tasks && t.tasks[u].Delete? && t.tasks[u].doc == doc && !t.tasks[u].stage.Begun?
      ensures PointsOf(t.stores, doc) == {}
    {
      TasksComeFrom(content, s, e, u);
      DeletingNow(s, u);
      if s.tasks[u].stage.Begun? {
        DroppedFirst(content, s, e, u);
      }
    }
  }

  lemma DeletingNow(s: State, u: nat)
    ensures u in s.tasks && s.tasks[u].Delete? ==> Deleting(s, s.tasks[u].doc)
  {
  }

  lemma CleanParts(s: State, doc: nat)
    requires Clean(s, doc)
    ensures Deleting(s, doc) ==> !Ingesting(s, doc)
    ensures doc !in s.stores.documents ==> PointsOf(s.stores, doc) == {} && !Ingesting(s, doc)
  {
    hide Ingesting, Deleting, PointsOf;
  }

  lemma {:induction false} CleanRun(content: nat -> seq<Chunk>, s: State, events: seq<Event>, doc: nat)
    requires Invariant(content, s) && Clean(s, doc) && RunApart(content, s, events, doc)
    ensures Clean(Run(content, s, events), doc)
    decreases |events|
  {
    hide Invariant, Clean, Step, Apart;
    if events != [] {
      CleanStep(content, s, events[0], doc);
      StepKeeps(content, s, events[0]);
      CleanRun(content, Step(content, s, events[0]), events[1..], doc);
    }
  }

  /**
   Whatever happened before and whatever crashes: from a moment when no job is at work on a stored
   document, if none of its ingests overlaps one of its deletions, or begins after one that left the object,
   then no vector of it is ever left without its row.
   */
  lemma NoVectorWithoutDocument(content: nat -> seq<Chunk>, before: seq<Event>, after: seq<Event>, doc: nat)
    requires var s := Run(content, START, before); doc in s.stores.documents && Alone(s, doc)
    requires RunApart(content, Run(content, START, before), after, doc)
    ensures var t := Run(content, Run(content, START, before), after).stores;
            doc !in t.documents ==> PointsOf(t, doc) == {}
  {
    hide Run, Invariant, PointsOf, RunApart;
    Reachable(content, before);
    var s := Run(content, START, before);
    CleanRun(content, s, after, doc);
  }

  // ---- Running a job to its end

  function IngestEvents(task: nat, doc: nat): seq<Event> {
    [BeginIngest(task, doc), ReadHashes(task), Upsert(task), Record(task), Ready(task)]
  }

  function DeleteEvents(task: nat, doc: nat, removed: bool): seq<Event> {
    [BeginDelete(task, doc), DropPoints(task), DropBlob(task, removed), DropRows(task)]
  }

  lemma FourSteps(content: nat -> seq<Chunk>, s: State, a: Event, b: Event, c: Event, d: Event)
    ensures Run(content, s, [a, b, c, d]) == Step(content, Step(content, Step(content, Step(content, s, a), b), c), d)
  {
    hide Step;
    var s1 := Step(content, s, a);
    var s2 := Step(content, s1, b);
    var s3 := Step(content, s2, c);
    assert [a, b, c, d][1..] == [b, c, d] && [b, c, d][1..] == [c, d] && [c, d][1..] == [d] && [d][1..] == [];
    assert Run(content, s3, [d]) == Run(content, Step(content, s3, d), []);
    assert Run(content, s2, [c, d]) == Run(content, s3, [d]);
    assert Run(content, s1, [b, c, d]) == Run(content, s2, [c, d]);
  }

  /** The job of a live document can be started under a free task id. */
  predicate CanIngest(s: State, task: nat, doc: nat) {
    task !in s.tasks && doc in s.live && doc in s.uploaded && s.uploaded[doc].uri in s.stores.blobs
  }

  lemma IngestRuns(content: nat -> seq<Chunk>, s: State, task: nat, doc: nat)
    requires CanIngest(s, task, doc)
    ensures Run(content, s, IngestEvents(task, doc)).stores
         == IngestedStores(s.stores, doc, s.uploaded[doc].collection, content(doc))
  {
    hide Keep, RowsOf, Upserted, Recorded, Recordable, Step, IngestedStores;
    var events := [ReadHashes(task), Upsert(task), Record(task), Ready(task)];
    assert IngestEvents(task, doc)[1..] == events;
    BegunIngestStep(content, s, task, doc);
    FourSteps(content, Step(content, s, BeginIngest(task, doc)), events[0], events[1], events[2], events[3]);
    var begun := Step(content, Step(content, s, BeginIngest(task, doc)), ReadHashes(task));
    WritingRuns(content, begun, task, doc);
    SameIngested(s, begun, doc, content(doc));
  }

  lemma SameIngested(s: State, t: State, doc: nat, chunks: seq<Chunk>)
    requires doc in s.uploaded && t.stores == s.stores && t.uploaded == s.uploaded
    ensures IngestedStores(t.stores, doc, t.uploaded[doc].collection, chunks)
         == IngestedStores(s.stores, doc, s.uploaded[doc].collection, chunks)
  {
    hide IngestedStores;
  }

  /** The three steps left to an ingest that knows what to write. */
  lemma WritingRuns(content: nat -> seq<Chunk>, s: State, task: nat, doc: nat)
    requires doc in s.uploaded && task in s.tasks
    requires s.tasks[task] == Ingest(doc, Keep(content(doc), RowsOf(s.stores, doc)), Begun)
    ensures Step(content, Step(content, Step(content, s, Upsert(task)), Record(task)), Ready(task)).stores
         == IngestedStores(s.stores, doc, s.uploaded[doc].collection, content(doc))
  {
    hide Keep, RowsOf, Upserted, Recorded, Recordable, Step, SetStatus;
    var keep := Keep(content(doc), RowsOf(s.stores, doc));
    var points := Upserted(s.stores.points, s.uploaded[doc].collection, doc, keep);
    UpsertStep(content, s, task, doc, keep);
    var s1 := Step(content, s, Upsert(task));
    SameRecordable(s.stores, points, doc, keep);
    RecordStep(content, s1, task, doc, keep);
    ReadyEventStep(content, Step(content, s1, Record(task)), task, doc);
  }

  lemma RecordStep(content: nat -> seq<Chunk>, s: State, task: nat, doc: nat, keep: seq<Chunk>)
    requires task in s.tasks && s.tasks[task] == Ingest(doc, keep, Written) && doc in s.uploaded
    ensures var t := Step(content, s, Record(task));
            && t.uploaded == s.uploaded
            && if Recordable(s.stores, doc, keep)
               then task in t.tasks && t.tasks[task] == Ingest(doc, keep, Done)
                    && t.stores == s.stores.(rows := Recorded(s.stores.rows, doc, keep))
               else task !in t.tasks && t.stores == s.stores
  {
    hide Recorded, Recordable;
  }

  lemma ReadyEventStep(content: nat -> seq<Chunk>, s: State, task: nat, doc: nat)
    requires task in s.tasks ==>
               s.tasks[task].Ingest? && s.tasks[task].doc == doc && s.tasks[task].stage.Done? && doc in s.uploaded
    ensures Step(content, s, Ready(task)).stores
         == if task in s.tasks then SetStatus(s.stores, doc, "ready") else s.stores
  {
    hide SetStatus;
  }

  lemma SameRecordable(s: Stores, points: map<PointKey, nat>, doc: nat, chunks: seq<Chunk>)
    ensures Recordable(s.(points := points), doc, chunks) == Recordable(s, doc, chunks)
  {
  }

  lemma BeginDeleteStep(content: nat -> seq<Chunk>, s: State, task: nat, doc: nat)
    requires task !in s.tasks && doc in s.stores.documents
    ensures Step(content, s, BeginDelete(task, doc))
         == s.(tasks := s.tasks[task := Delete(doc, Begun, 0)], clock := s.clock + 1)
  {
  }

  /** The task is at this point of deleting a document that was uploaded. */
  predicate DeletesAt(s: State, task: nat, doc: nat, stage: Stage) {
    && task in s.tasks && s.tasks[task].Delete? && s.tasks[task].doc == doc && s.tasks[task].stage == stage
    && doc in s.uploaded
  }

  lemma DropPointsStep(content: nat -> seq<Chunk>, s: State, task: nat, doc: nat)
    requires DeletesAt(s, task, doc, Begun)
    ensures Step(content, s, DropPoints(task))
         == s.(stores := s.stores.(points := WithoutPoints(s.stores.points, s.uploaded[doc].collection, doc)),
               tasks := s.tasks[task := Delete(doc, Written, s.clock)], dropAt := s.dropAt[doc := s.clock],
               clock := s.clock + 1)
  {
    hide WithoutPoints;
  }

  lemma DropBlobStep(content: nat -> seq<Chunk>, s: State, task: nat, doc: nat, succeeds: bool)
    requires DeletesAt(s, task, doc, Written)
    ensures Step(content, s, DropBlob(task, succeeds))
         == s.(stores := s.stores.(blobs := if succeeds then s.stores.blobs - {s.uploaded[doc].uri}
                                            else s.stores.blobs),
               tasks := s.tasks[task := Delete(doc, Done, s.tasks[task].droppedAt)], clock := s.clock + 1)
  {
  }

  lemma DropRowsStep(content: nat -> seq<Chunk>, s: State, task: nat, doc: nat)
    requires DeletesAt(s, task, doc, Done)
    ensures Step(content, s, DropRows(task))
         == s.(stores := s.stores.(rows := WithoutRows(s.stores.rows, doc), documents := s.stores.documents - {doc}),
               tasks := s.tasks - {task}, clock := s.clock + 1,
               goneBy := if doc in s.stores.documents then s.goneBy[doc := s.tasks[task].droppedAt] else s.goneBy)
  {
    hide WithoutRows;
  }

  lemma UpsertStep(content: nat -> seq<Chunk>, s: State, task: nat, doc: nat, keep: seq<Chunk>)
    requires task in s.tasks && s.tasks[task] == Ingest(doc, keep, Begun) && doc in s.uploaded
    ensures Step(content, s, Upsert(task))
         == Write(s, doc, keep).(tasks := s.tasks[task := Ingest(doc, keep, Written)], clock := s.clock + 1)
  {
    hide Write;
  }

  /** What three of the four steps of a deletion come to. */
  function MidDeletion(s: State, task: nat, doc: nat, removed: bool): State
    requires doc in s.uploaded
  {
    s.(stores := s.stores.(points := WithoutPoints(s.stores.points, s.uploaded[doc].collection, doc),
                           blobs := if removed then s.stores.blobs - {s.uploaded[doc].uri} else s.stores.blobs),
       tasks := s.tasks[task := Delete(doc, Done, s.clock + 1)], dropAt := s.dropAt[doc := s.clock + 1],
       clock := s.clock + 3)
  }

  lemma ThreeDeleteSteps(content: nat -> seq<Chunk>, s: State, task: nat, doc: nat, removed: bool)
    requires task !in s.tasks && doc in s.stores.documents && doc in s.uploaded
    ensures Step(content, Step(content, Step(content, s, BeginDelete(task, doc)), DropPoints(task)),
                 DropBlob(task, removed))
         == MidDeletion(s, task, doc, removed)
  {
    hide Step, WithoutPoints, IngestStep, DeleteStep, Write, Keep, RowsOf, PointsOf;
    BeginDeleteStep(content, s, task, doc);
    var s1 := Step(content, s, BeginDelete(task, doc));
    DropPointsStep(content, s1, task, doc);
    var s2 := Step(content, s1, DropPoints(task));
    DropBlobStep(content, s2, task, doc, removed);
    LastUpdate(s.tasks, task, Delete(doc, Begun, 0), Delete(doc, Written, s.clock + 1));
    LastUpdate(s.tasks, task, Delete(doc, Written, s.clock + 1), Delete(doc, Done, s.clock + 1));
  }

  lemma LastUpdate(tasks: map<nat, Task>, task: nat, a: Task, b: Task)
    ensures tasks[task := a][task := b] == tasks[task := b]
  {
  }

  lemma DeleteRuns(content: nat -> seq<Chunk>, s: State, task: nat, doc: nat, removed: bool)
    requires task !in s.tasks && doc in s.stores.documents && doc in s.uploaded
    ensures Run(content, s, DeleteEvents(task, doc, removed)).stores
         == DeletedStores(s.stores, doc, s.uploaded[doc].collection, s.uploaded[doc].uri, removed)
  {
    hide Step, WithoutRows, WithoutPoints, Run;
    FourSteps(content, s, BeginDelete(task, doc), DropPoints(task), DropBlob(task, removed), DropRows(task));
    ThreeDeleteSteps(content, s, task, doc, removed);
    DropRowsStep(content, MidDeletion(s, task, doc, removed), task, doc);
  }

  /**
   An ingest of a stored document run to its end, after whatever crashes, records exactly the wanted rows;
   vectors match them if and only if no row lacked its vector when it began.
   */
  lemma IngestMatchesExactlyWhen(content: nat -> seq<Chunk>, events: seq<Event>, task: nat, doc: nat)
    requires var s := Run(content, START, events); CanIngest(s, task, doc) && doc in s.stores.documents
    ensures var s := Run(content, START, events);
            var t := Run(content, s, IngestEvents(task, doc)).stores;
            && RowsOf(t, doc) == Wanted(content(doc))
            && (RowsOf(t, doc) == PointsOf(t, doc) <==> RowsOf(s.stores, doc) <= PointsOf(s.stores, doc))
  {
    hide Run, Wanted, RowsOf, PointsOf, Shas, Upserted, Recorded, Keep, Invariant, IngestedStores;
    var s := Run(content, START, events);
    Reachable(content, events);
    IngestRuns(content, s, task, doc);
    RowsAreWanted(content, s, doc);
    PointsAreWanted(content, s, doc);
    KeepCompletes(content(doc), RowsOf(s.stores, doc));
    KeepIsFresh(content(doc), RowsOf(s.stores, doc));
    IngestedEffect(content, s, doc);
  }

  lemma IngestedEffect(content: nat -> seq<Chunk>, s: State, doc: nat)
    requires Invariant(content, s) && doc in s.stores.documents && doc in s.uploaded
    ensures var keep := Keep(content(doc), RowsOf(s.stores, doc));
            var t := IngestedStores(s.stores, doc, s.uploaded[doc].collection, content(doc));
            && RowsOf(t, doc) == RowsOf(s.stores, doc) + Shas(keep)
            && PointsOf(t, doc) == PointsOf(s.stores, doc) + Shas(keep)
  {
    hide Wanted, Shas, Upserted, Recorded, Keep, DocumentOk, TaskOk, TimesOk;
    var keep := Keep(content(doc), RowsOf(s.stores, doc));
    var collection := s.uploaded[doc].collection;
    KeepCompletes(content(doc), RowsOf(s.stores, doc)) by {
      RowsAreWanted(content, s, doc);
    }
    var written := s.stores.(points := Upserted(s.stores.points, collection, doc, keep));
    var t := s.(stores := written.(rows := Recorded(s.stores.rows, doc, keep)));
    UpsertEffect(content, s, t, doc, keep);
    RecordEffect(content, s, t, doc, keep);
    var last := IngestedStores(s.stores, doc, collection, content(doc));
    assert last.rows == t.stores.rows && last.points == t.stores.points;
    assert RowsOf(last, doc) == RowsOf(t.stores, doc) && PointsOf(last, doc) == PointsOf(t.stores, doc);
  }

  /** A deletion run to its end, after whatever crashes, leaves nothing of the document and touches no other. */
  lemma DeletionErases(content: nat -> seq<Chunk>, events: seq<Event>, task: nat, doc: nat, removed: bool)
    requires var s := Run(content, START, events); task !in s.tasks && doc in s.stores.documents
    ensures var s := Run(content, START, events).stores;
            var t := Run(content, Run(content, START, events), DeleteEvents(task, doc, removed)).stores;
            && doc !in t.documents && RowsOf(t, doc) == {} && PointsOf(t, doc) == {}
            && (removed ==> s.documents[doc].uri !in t.blobs)
            && (forall d | d != doc :: RowsOf(t, d) == RowsOf(s, d) && PointsOf(t, d) == PointsOf(s, d))
  {
    hide Run, Wanted, RowsOf, PointsOf, TaskOk, DocumentOk, TimesOk, RowsOk;
    var s := Run(content, START, events);
    Reachable(content, events);
    DeleteRuns(content, s, task, doc, removed);
    DeletedEffect(s.stores, doc, s.uploaded[doc].collection, s.uploaded[doc].uri, removed);
  }

  /** A deletion that crashes after its first step leaves every chunk row and no vector for them. */
  lemma CrashedDeletionLeavesRows(content: nat -> seq<Chunk>, events: seq<Event>, task: nat, doc: nat)
    requires var s := Run(content, START, events); task !in s.tasks && doc in s.stores.documents
    ensures var s := Run(content, START, events);
            var t := Run(content, s, [BeginDelete(task, doc), DropPoints(task), Crash(task)]).stores;
            RowsOf(t, doc) == RowsOf(s.stores, doc) && PointsOf(t, doc) == {} && doc in t.documents
  {
    hide Run, Wanted, TaskOk, DocumentOk, TimesOk, RowsOk, RowsOf, PointsOf;
    var s := Run(content, START, events);
    Reachable(content, events);
    CrashedDeletionRuns(content, s, task, doc);
    DeletedEffect(s.stores, doc, s.uploaded[doc].collection, s.uploaded[doc].uri, false);
    var t := Run(content, s, [BeginDelete(task, doc), DropPoints(task), Crash(task)]).stores;
    PointsEqual(t, DeletedStores(s.stores, doc, s.uploaded[doc].collection, s.uploaded[doc].uri, false), doc);
    RowsEqual(s.stores, t, doc);
  }

  lemma CrashStep(content: nat -> seq<Chunk>, s: State, task: nat)
    ensures Step(content, s, Crash(task)).stores == s.stores
  {
  }

  lemma RowsEqual(s: Stores, t: Stores, doc: nat)
    requires t.rows == s.rows
    ensures RowsOf(t, doc) == RowsOf(s, doc)
  {
  }

  lemma CrashedDeletionRuns(content: nat -> seq<Chunk>, s: State, task: nat, doc: nat)
    requires task !in s.tasks && doc in s.stores.documents && doc in s.uploaded
    ensures Run(content, s, [BeginDelete(task, doc), DropPoints(task), Crash(task)]).stores
         == s.stores.(points := WithoutPoints(s.stores.points, s.uploaded[doc].collection, doc))
  {
    hide WithoutPoints, Step;
    var a, b, c := BeginDelete(task, doc), DropPoints(task), Crash(task);
    BeginDeleteStep(content, s, task, doc);
    DropPointsStep(content, Step(content, s, a), task, doc);
    CrashStep(content, Step(content, Step(content, s, a), b), task);
    assert [a, b, c][1..] == [b, c] && [b, c][1..] == [c] && [c][1..] == [];
    var s1 := Step(content, s, a);
    assert Run(content, s1, [b, c]) == Run(content, Step(content, s1, b), [c]);
    assert Run(content, Step(content, s1, b), [c]) == Run(content, Step(content, Step(content, s1, b), c), []);
  }

  /**
   An ingest that found something to write before a deletion, and writes between or after its last steps,
   leaves vectors without a row.
   */
  lemma OverlapLeavesVectors(content: nat -> seq<Chunk>, events: seq<Event>, ingest: nat, delete: nat, doc: nat,
                             late: bool)
    requires var s := Run(content, START, events);
             && CanIngest(s, ingest, doc) && delete !in s.tasks && ingest != delete && doc in s.stores.documents
             && Keep(content(doc), RowsOf(s.stores, doc)) != []
    ensures var s := Run(content, START, events);
            var begun := Step(content, Step(content, s, BeginIngest(ingest, doc)), ReadHashes(ingest));
            var halfway := Step(content, Step(content, Step(content, begun, BeginDelete(delete, doc)),
                                              DropPoints(delete)),
                                DropBlob(delete, true));
            var t := if late then Step(content, Step(content, halfway, DropRows(delete)), Upsert(ingest))
                     else Step(content, Step(content, halfway, Upsert(ingest)), DropRows(delete));
            doc !in t.stores.documents && PointsOf(t.stores, doc) != {}
  {
    hide Run, Step, Invariant, RowsOf, PointsOf, Keep, MidDeletion;
    var s := Run(content, START, events);
    Reachable(content, events);
    var keep := Keep(content(doc), RowsOf(s.stores, doc));
    BegunIngestStep(content, s, ingest, doc);
    var fetched := Step(content, s, BeginIngest(ingest, doc));
    var begun := Step(content, fetched, ReadHashes(ingest));
    ThreeDeleteSteps(content, begun, delete, doc, true);
    StepKeeps(content, s, BeginIngest(ingest, doc));
    StepKeeps(content, fetched, ReadHashes(ingest));
    StepKeeps(content, begun, BeginDelete(delete, doc));
    StepKeeps(content, Step(content, begun, BeginDelete(delete, doc)), DropPoints(delete));
    StepKeeps(content, Step(content, Step(content, begun, BeginDelete(delete, doc)), DropPoints(delete)),
              DropBlob(delete, true));
    MidTasks(begun, ingest, delete, doc, keep);
    OverlapEnds(content, MidDeletion(begun, delete, doc, true), ingest, delete, doc, keep, late);
  }

  lemma BegunIngestStep(content: nat -> seq<Chunk>, s: State, task: nat, doc: nat)
    requires CanIngest(s, task, doc)
    ensures Step(content, Step(content, s, BeginIngest(task, doc)), ReadHashes(task))
         == s.(tasks := s.tasks[task := Ingest(doc, Keep(content(doc), RowsOf(s.stores, doc)), Begun)],
               clock := s.clock + 2)
  {
    hide Keep, RowsOf;
    var keep := Keep(content(doc), RowsOf(s.stores, doc));
    LastUpdate(s.tasks, task, Fetched(doc), Ingest(doc, keep, Begun));
  }

  lemma MidTasks(s: State, ingest: nat, delete: nat, doc: nat, keep: seq<Chunk>)
    requires doc in s.uploaded && ingest != delete && ingest in s.tasks && s.tasks[ingest] == Ingest(doc, keep, Begun)
    ensures var t := MidDeletion(s, delete, doc, true);
            DeletesAt(t, delete, doc, Done) && ingest in t.tasks && t.tasks[ingest] == Ingest(doc, keep, Begun)
  {
    hide WithoutPoints;
  }

  lemma OverlapEnds(content: nat -> seq<Chunk>, s: State, ingest: nat, delete: nat, doc: nat, keep: seq<Chunk>,
                    late: bool)
    requires Invariant(content, s) && ingest != delete && keep != []
    requires ingest in s.tasks && s.tasks[ingest] == Ingest(doc, keep, Begun) && DeletesAt(s, delete, doc, Done)
    ensures var t := if late then Step(content, Step(content, s, DropRows(delete)), Upsert(ingest))
                     else Step(content, Step(content, s, Upsert(ingest)), DropRows(delete));
            doc !in t.stores.documents && PointsOf(t.stores, doc) != {}
  {
    hide Step, Invariant, PointsOf, StoresOk, DocumentOk, Upserted, WithoutRows;
    var first := if late then DropRows(delete) else Upsert(ingest);
    var second := if late then Upsert(ingest) else DropRows(delete);
    StepKeeps(content, s, first);
    var mid := Step(content, s, first);
    StepKeeps(content, mid, second);
    var t := Step(content, mid, second);
    if late {
      DropRowsStep(content, s, delete, doc);
      UpsertStep(content, mid, ingest, doc, keep);
    } else {
      UpsertStep(content, s, ingest, doc, keep);
      DropRowsStep(content, mid, delete, doc);
    }
    InvariantParts(content, s);
    InvariantParts(content, t);
    WrittenLast(content, s, t, doc);
  }

  lemma WrittenLast(content: nat -> seq<Chunk>, s: State, t: State, doc: nat)
    requires TimesOk(s) && DocumentOk(content, t, doc) && t.dropAt == s.dropAt
    requires doc in t.upsertAt && t.upsertAt[doc] >= s.clock
    ensures PointsOf(t.stores, doc) != {}
  {
    hide PointsOf, RowsOf, Wanted, HasPoint;
  }
}
