/**
 Ingesting and deleting documents (`apps/rag/fleet_rag/ingest/worker.py`, `pipeline.py` and
 `retention.py`): what each step does to the stores. A point id is the chunk's hash, as
 `point_id_for` derives it.
 */
module Ingestion {
  import opened Wrappers

  /** A chunk of a document as the pipeline sees it: its hash, and whether the PII policy drops it. */
  datatype Chunk = Chunk(sha: string, blocked: bool)

  datatype Document = Document(collection: nat, uri: string, status: string)

  datatype PointKey = PointKey(collection: nat, sha: string)

  /**
   Postgres rows (chunk rows by point id, which is unique), Qdrant points and MinIO objects; values name the document.
   */
  datatype Stores = Stores(documents: map<nat, Document>, rows: map<string, nat>, points: map<PointKey, nat>,
                           blobs: set<string>)

  function RowsOf(s: Stores, doc: nat): set<string> {
    set sha | sha in s.rows && s.rows[sha] == doc
  }

  function PointsOf(s: Stores, doc: nat): set<string> {
    set p | p in s.points && s.points[p] == doc :: p.sha
  }

  // ---- The pipeline's selection

  /** `dedup_chunks`, then the policy: the chunks to embed. */
  function Keep(chunks: seq<Chunk>, existing: set<string>): seq<Chunk> {
    if chunks == [] then []
    else
      var last := chunks[|chunks| - 1];
      Keep(chunks[..|chunks| - 1], existing) + (if last.sha in existing || last.blocked then [] else [last])
  }

  function Shas(chunks: seq<Chunk>): set<string> {
    set c | c in chunks :: c.sha
  }

  /** The hashes a document should end up with: those of its chunks that are not blocked. */
  function Wanted(chunks: seq<Chunk>): set<string> {
    set c | c in chunks && !c.blocked :: c.sha
  }

  lemma {:induction false} KeepExactly(chunks: seq<Chunk>, existing: set<string>)
    ensures forall c :: c in Keep(chunks, existing) <==> c in chunks && c.sha !in existing && !c.blocked
  {
    if chunks != [] {
      var front, last := chunks[..|chunks| - 1], chunks[|chunks| - 1];
      KeepExactly(front, existing);
      assert chunks == front + [last];
    }
  }

  /** What was there and what is added make up what is wanted. */
  lemma KeepCompletes(chunks: seq<Chunk>, existing: set<string>)
    requires existing <= Wanted(chunks)
    ensures existing + Shas(Keep(chunks, existing)) == Wanted(chunks)
  {
    hide Keep;
    KeepExactly(chunks, existing);
    forall sha | sha in Wanted(chunks)
      ensures sha in existing + Shas(Keep(chunks, existing))
    {
      var c :| c in chunks && !c.blocked && c.sha == sha;
      assert sha !in existing ==> c in Keep(chunks, existing);
    }
  }

  // ---- Effects of single steps

  function Upserted(points: map<PointKey, nat>, collection: nat, doc: nat, chunks: seq<Chunk>): map<PointKey, nat> {
    if chunks == [] then points
    else
      var before := Upserted(points, collection, doc, chunks[..|chunks| - 1]);
      before[PointKey(collection, chunks[|chunks| - 1].sha) := doc]
  }

  /** `INSERT ... ON CONFLICT DO NOTHING`, chunk by chunk. */
  function Recorded(rows: map<string, nat>, doc: nat, chunks: seq<Chunk>): map<string, nat> {
    if chunks == [] then rows
    else
      var before := Recorded(rows, doc, chunks[..|chunks| - 1]);
      var sha := chunks[|chunks| - 1].sha;
      if sha in before then before else before[sha := doc]
  }

  function WithoutPoints(points: map<PointKey, nat>, collection: nat, doc: nat): map<PointKey, nat> {
    map p | p in points && !(p.collection == collection && points[p] == doc) :: points[p]
  }

  function WithoutRows(rows: map<string, nat>, doc: nat): map<string, nat> {
    map sha | sha in rows && rows[sha] != doc :: rows[sha]
  }

  lemma {:induction false} UpsertedAt(points: map<PointKey, nat>, collection: nat, doc: nat, chunks: seq<Chunk>,
                                      p: PointKey)
    ensures p in Upserted(points, collection, doc, chunks)
       <==> p in points || (p.collection == collection && p.sha in Shas(chunks))
    ensures p.collection == collection && p.sha in Shas(chunks) ==> Upserted(points, collection, doc, chunks)[p] == doc
    ensures p in points && !(p.collection == collection && p.sha in Shas(chunks)) ==>
              Upserted(points, collection, doc, chunks)[p] == points[p]
  {
    if chunks != [] {
      var front, last := chunks[..|chunks| - 1], chunks[|chunks| - 1];
      UpsertedAt(points, collection, doc, front, p);
      ShasAppend(front, last);
      assert chunks == front + [last];
    }
  }

  lemma ShasAppend(chunks: seq<Chunk>, c: Chunk)
    ensures Shas(chunks + [c]) == Shas(chunks) + {c.sha}
  {
    assert forall d | d in chunks :: d in chunks + [c];
    assert c in chunks + [c];
  }

  lemma {:induction false} RecordedAt(rows: map<string, nat>, doc: nat, chunks: seq<Chunk>, sha: string)
    ensures sha in Recorded(rows, doc, chunks) <==> sha in rows || sha in Shas(chunks)
    ensures sha in rows ==> Recorded(rows, doc, chunks)[sha] == rows[sha]
    ensures sha !in rows && sha in Shas(chunks) ==> Recorded(rows, doc, chunks)[sha] == doc
  {
    if chunks != [] {
      var front, last := chunks[..|chunks| - 1], chunks[|chunks| - 1];
      RecordedAt(rows, doc, front, sha);
      ShasAppend(front, last);
      assert chunks == front + [last];
    }
  }

  function SetStatus(stores: Stores, doc: nat, status: string): Stores {
    if doc in stores.documents
    then stores.(documents := stores.documents[doc := stores.documents[doc].(status := status)]) else stores
  }

  // ---- Sets of rows and vectors

  lemma MorePoints(s: Stores, t: Stores, doc: nat, collection: nat, added: set<string>)
    requires forall p :: p in t.points && t.points[p] == doc
                   <==> (p in s.points && s.points[p] == doc) || (p.collection == collection && p.sha in added)
    ensures PointsOf(t, doc) == PointsOf(s, doc) + added
  {
    forall sha
      ensures sha in PointsOf(t, doc) <==> sha in PointsOf(s, doc) + added
    {
      var p := PointKey(collection, sha);
      assert sha in added ==> p in t.points && t.points[p] == doc;
      assert forall q | q in s.points && s.points[q] == doc && q.sha == sha :: q in t.points && t.points[q] == doc;
    }
  }

  lemma SamePoints(s: Stores, t: Stores, doc: nat)
    requires forall p :: p in s.points && s.points[p] == doc <==> p in t.points && t.points[p] == doc
    ensures PointsOf(t, doc) == PointsOf(s, doc)
  {
    forall sha
      ensures sha in PointsOf(t, doc) <==> sha in PointsOf(s, doc)
    {
      assert forall p | p in s.points && s.points[p] == doc && p.sha == sha :: p in t.points && t.points[p] == doc;
      assert forall p | p in t.points && t.points[p] == doc && p.sha == sha :: p in s.points && s.points[p] == doc;
    }
  }

  lemma KeepIsFresh(chunks: seq<Chunk>, existing: set<string>)
    ensures Shas(Keep(chunks, existing)) !! existing
  {
    hide Keep;
    KeepExactly(chunks, existing);
  }

  // ---- Uninterrupted

  /** The inserts violate no foreign key: the document is there, or every one yields to an existing row. */
  predicate Recordable(s: Stores, doc: nat, chunks: seq<Chunk>) {
    doc in s.documents || forall c | c in chunks :: c.sha in s.rows
  }

  function IngestedStores(s: Stores, doc: nat, collection: nat, chunks: seq<Chunk>): Stores {
    var keep := Keep(chunks, RowsOf(s, doc));
    var written := s.(points := Upserted(s.points, collection, doc, keep));
    if Recordable(s, doc, keep) then SetStatus(written.(rows := Recorded(s.rows, doc, keep)), doc, "ready") else written
  }

  function DeletedStores(s: Stores, doc: nat, collection: nat, uri: string, removed: bool): Stores {
    Stores(s.documents - {doc}, WithoutRows(s.rows, doc), WithoutPoints(s.points, collection, doc),
           if removed then s.blobs - {uri} else s.blobs)
  }

  /** A deletion leaves no row and no vector of the document, and those of every other. */
  lemma DeletedEffect(s: Stores, doc: nat, collection: nat, uri: string, removed: bool)
    requires forall p | p in s.points && s.points[p] == doc :: p.collection == collection
    ensures var t := DeletedStores(s, doc, collection, uri, removed);
            && doc !in t.documents && RowsOf(t, doc) == {} && PointsOf(t, doc) == {}
            && (forall d | d != doc :: RowsOf(t, d) == RowsOf(s, d) && PointsOf(t, d) == PointsOf(s, d))
  {
    var t := DeletedStores(s, doc, collection, uri, removed);
    forall d | d != doc
      ensures PointsOf(t, d) == PointsOf(s, d)
    {
      SamePoints(s, t, d);
    }
  }

  // ---- The code

  /** A document row joined with its collection, as the purge selects it; times in seconds. */
  datatype Candidate = Candidate(doc: nat, collection: nat, uri: string, retentionDays: Option<nat>, createdAt: int)

  const DAY: int := 86400

  /** `is_expired`. */
  predicate IsExpired(c: Candidate, now: int) {
    c.retentionDays.Some? && now - c.createdAt >= c.retentionDays.value * DAY
  }

  function Expired(candidates: seq<Candidate>, now: int): seq<Candidate> {
    if candidates == [] then []
    else
      var last := candidates[|candidates| - 1];
      Expired(candidates[..|candidates| - 1], now) + (if IsExpired(last, now) then [last] else [])
  }

  /** A candidate is purged when its collection keeps documents for a number of days and as much time has passed. */
  lemma {:induction false} ExpiredExactly(candidates: seq<Candidate>, now: int)
    ensures forall c :: c in Expired(candidates, now)
                        <==> && c in candidates && c.retentionDays.Some?
                             && now >= c.createdAt + c.retentionDays.value * 24 * 60 * 60
  {
    if candidates != [] {
      var front, last := candidates[..|candidates| - 1], candidates[|candidates| - 1];
      assert candidates == front + [last];
      ExpiredExactly(front, now);
    }
  }

  /** Deleting one candidate after the other; every object removal succeeds or is ignored. */
  function Purged(s: Stores, candidates: seq<Candidate>, removed: nat -> bool): Stores {
    if candidates == [] then s
    else
      var last := candidates[|candidates| - 1];
      DeletedStores(Purged(s, candidates[..|candidates| - 1], removed), last.doc, last.collection, last.uri,
                    removed(last.doc))
  }

  /** A purge erases exactly the expired documents: nothing of them is left and no other document is touched. */
  lemma {:induction false} PurgeErasesExactly(s: Stores, candidates: seq<Candidate>, removed: nat -> bool, doc: nat)
    requires forall c, p | c in candidates && p in s.points && s.points[p] == c.doc :: p.collection == c.collection
    ensures var t := Purged(s, candidates, removed);
            if exists c :: c in candidates && c.doc == doc
            then doc !in t.documents && RowsOf(t, doc) == {} && PointsOf(t, doc) == {}
            else RowsOf(t, doc) == RowsOf(s, doc) && PointsOf(t, doc) == PointsOf(s, doc)
                 && (doc in t.documents <==> doc in s.documents)
    ensures var t := Purged(s, candidates, removed);
            forall p | p in t.points :: p in s.points && t.points[p] == s.points[p]
  {
    hide RowsOf, PointsOf;
    if candidates != [] {
      var front, last := candidates[..|candidates| - 1], candidates[|candidates| - 1];
      assert candidates == front + [last];
      PurgeErasesExactly(s, front, removed, doc);
      DeletedEffect(Purged(s, front, removed), last.doc, last.collection, last.uri, removed(last.doc));
    }
  }

  /** The same from the candidates themselves. */
  lemma PurgeErasesExpired(s: Stores, candidates: seq<Candidate>, now: int, removed: nat -> bool, doc: nat)
    requires forall c, p | c in candidates && p in s.points && s.points[p] == c.doc :: p.collection == c.collection
    ensures var t := Purged(s, Expired(candidates, now), removed);
            if exists c :: c in candidates && c.doc == doc && c.retentionDays.Some?
                           && now >= c.createdAt + c.retentionDays.value * 24 * 60 * 60
            then doc !in t.documents && RowsOf(t, doc) == {} && PointsOf(t, doc) == {}
            else RowsOf(t, doc) == RowsOf(s, doc) && PointsOf(t, doc) == PointsOf(s, doc)
                 && (doc in t.documents <==> doc in s.documents)
  {
    hide Expired, Purged, RowsOf, PointsOf;
    ExpiredExactly(candidates, now);
    PurgeErasesExactly(s, Expired(candidates, now), removed, doc);
  }

  class Worker {
    var stores: Stores

    constructor (stores: Stores)
      ensures this.stores == stores
    {
      this.stores := stores;
    }

    /** `run_ingestion` after extraction: the points to upsert, and what the caller records. */
    method RunIngestion(doc: nat, collection: nat, chunks: seq<Chunk>, existing: set<string>)
      returns (persisted: seq<Chunk>)
      modifies this
      ensures persisted == Keep(chunks, existing)
      ensures stores == old(stores).(points := Upserted(old(stores).points, collection, doc, persisted))
    {
      persisted := [];
      for i := 0 to |chunks|
        invariant persisted == Keep(chunks[..i], existing) && stores == old(stores)
      {
        assert chunks[..i + 1][..i] == chunks[..i];
        if chunks[i].sha !in existing && !chunks[i].blocked {
          persisted := persisted + [chunks[i]];
        }
      }
      assert chunks[..|chunks|] == chunks;
      if persisted == [] {
        return;
      }
      var points := stores.points;
      for i := 0 to |persisted|
        invariant points == Upserted(stores.points, collection, doc, persisted[..i]) && stores == old(stores)
      {
        assert persisted[..i + 1][..i] == persisted[..i];
        points := points[PointKey(collection, persisted[i].sha) := doc];
      }
      assert persisted[..|persisted|] == persisted;
      stores := stores.(points := points);
    }

    /** `_record_chunks`: one transaction of inserts that yield to what is there, or nothing at all. */
    method RecordChunks(doc: nat, chunks: seq<Chunk>) returns (ok: bool)
      modifies this
      ensures ok == Recordable(old(stores), doc, chunks)
      ensures stores == if ok then old(stores).(rows := Recorded(old(stores).rows, doc, chunks)) else old(stores)
    {
      var rows := stores.rows;
      for i := 0 to |chunks|
        invariant rows == Recorded(stores.rows, doc, chunks[..i]) && stores == old(stores)
        invariant doc !in stores.documents ==>
                    rows == stores.rows && forall j | 0 <= j < i :: chunks[j].sha in stores.rows
      {
        assert chunks[..i + 1][..i] == chunks[..i];
        if chunks[i].sha !in rows {
          if doc !in stores.documents {
            return false;
          }
          rows := rows[chunks[i].sha := doc];
        }
      }
      assert chunks[..|chunks|] == chunks;
      stores := stores.(rows := rows);
      return true;
    }

    /** `ingest_document` without a crash; it raises when the rows cannot be recorded. */
    method IngestDocument(doc: nat, collection: nat, chunks: seq<Chunk>) returns (ok: bool)
      modifies this
      ensures ok == Recordable(old(stores), doc, Keep(chunks, RowsOf(old(stores), doc)))
      ensures stores == IngestedStores(old(stores), doc, collection, chunks)
      ensures stores.documents == if ok && doc in old(stores).documents
                                  then old(stores).documents[doc := old(stores).documents[doc].(status := "ready")]
                                  else old(stores).documents
    {
      hide Keep, Upserted, Recorded, RowsOf;
      var existing := RowsOf(stores, doc);
      var persisted := RunIngestion(doc, collection, chunks, existing);
      ok := RecordChunks(doc, persisted);
      if ok {
        stores := SetStatus(stores, doc, "ready");
      }
    }

    /** `delete_document_fully` without a crash; a failing object removal is ignored. */
    method DeleteDocumentFully(doc: nat, collection: nat, uri: string, removed: bool)
      modifies this
      ensures stores == DeletedStores(old(stores), doc, collection, uri, removed)
      ensures forall p :: p in stores.points <==>
                p in old(stores).points && (p.collection != collection || old(stores).points[p] != doc)
      ensures forall sha :: sha in stores.rows <==> sha in old(stores).rows && old(stores).rows[sha] != doc
    {
      stores := stores.(points := WithoutPoints(stores.points, collection, doc));
      if removed {
        stores := stores.(blobs := stores.blobs - {uri});
      }
      stores := stores.(rows := WithoutRows(stores.rows, doc), documents := stores.documents - {doc});
    }

    /** `purge_expired` over the rows it selected. */
    method PurgeExpired(candidates: seq<Candidate>, now: int, removed: nat -> bool) returns (purged: seq<nat>)
      modifies this
      ensures stores == Purged(old(stores), Expired(candidates, now), removed)
      ensures forall doc :: doc in purged <==>
                exists c :: c in candidates && c.doc == doc && c.retentionDays.Some?
                            && now >= c.createdAt + c.retentionDays.value * 24 * 60 * 60
      ensures |purged| == |Expired(candidates, now)|
      ensures forall i | 0 <= i < |purged| :: purged[i] == Expired(candidates, now)[i].doc
    {
      hide DeletedStores;
      purged := [];
      for i := 0 to |candidates|
        invariant stores == Purged(old(stores), Expired(candidates[..i], now), removed)
        invariant |purged| == |Expired(candidates[..i], now)|
        invariant forall j | 0 <= j < |purged| :: purged[j] == Expired(candidates[..i], now)[j].doc
      {
        assert candidates[..i + 1][..i] == candidates[..i];
        var c := candidates[i];
        var before := Expired(candidates[..i], now);
        if IsExpired(c, now) {
          DeleteDocumentFully(c.doc, c.collection, c.uri, removed(c.doc));
          purged := purged + [c.doc];
          assert (before + [c])[..|before|] == before;
        } else {
          assert before + [] == before;
        }
      }
      assert candidates[..|candidates|] == candidates;
      PurgedAreExpired(candidates, now, purged);
    }
  }

  lemma PurgedAreExpired(candidates: seq<Candidate>, now: int, purged: seq<nat>)
    requires |purged| == |Expired(candidates, now)|
    requires forall i | 0 <= i < |purged| :: purged[i] == Expired(candidates, now)[i].doc
    ensures forall doc :: doc in purged <==>
              exists c :: c in candidates && c.doc == doc && c.retentionDays.Some?
                          && now >= c.createdAt + c.retentionDays.value * 24 * 60 * 60
  {
    hide Expired;
    ExpiredExactly(candidates, now);
    var expired := Expired(candidates, now);
    forall c | c in expired
      ensures c.doc in purged
    {
      var i :| 0 <= i < |expired| && expired[i] == c;
      assert purged[i] == c.doc;
    }
    forall doc | doc in purged
      ensures exists c :: c in expired && c.doc == doc
    {
      var i :| 0 <= i < |purged| && purged[i] == doc;
      assert expired[i] in expired;
    }
  }
}
