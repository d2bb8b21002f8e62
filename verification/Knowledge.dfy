// Sources, chunks and snapshots: `add_source`, `snapshot` and `retrieve_for_conversation`.
module Knowledge {
  import opened Json
  import opened Text
  import opened Chunking
  import opened Signing
  import opened Retrieval
  import opened Arithmetic

  // ---- Tables ---------------------------------------------------------------------------------------------------

  // A row's id is its position in the table.
  datatype Source = Source(tenant: string, project: string, name: string, checksum: string)

  // `number` is the number in the locator.
  datatype Chunk = Chunk(tenant: string, source: nat, text: string, number: nat, checksum: string)

  datatype Snapshot = Snapshot(tenant: string, project: string, version: nat, sourceIds: seq<nat>)

  datatype Tables = Tables(sources: seq<Source>, chunks: seq<Chunk>, snapshots: seq<Snapshot>)

  const EMPTY := Tables([], [], [])

  datatype Upload = Upload(project: string, name: string, content: string)

  datatype Request =
    | Ingest(tenant: string, upload: Upload)
    | Publish(tenant: string, project: string, sourceIds: seq<nat>)

  const TARGET: nat := 1200
  const OVERLAP: nat := 150

  function Pieces(content: string): seq<string> {
    ChunksOf(content, TARGET, OVERLAP)
  }

  // ---- What the requests do ---------------------------------------------------------------------------------------

  predicate SourceMatches(row: Source, tenant: string, checksum: string) {
    row.tenant == tenant && row.checksum == checksum
  }

  // The first matching source, or the length of the table.
  function FindSource(sources: seq<Source>, tenant: string, checksum: string): (i: nat)
    ensures i <= |sources| && (i < |sources| ==> SourceMatches(sources[i], tenant, checksum))
    ensures forall j | 0 <= j < i :: !SourceMatches(sources[j], tenant, checksum)
  {
    if sources == [] then 0
    else if SourceMatches(sources[0], tenant, checksum) then 0
    else
      var i := FindSource(sources[1..], tenant, checksum);
      assert forall j | 0 < j < 1 + i :: sources[j] == sources[1..][j - 1];
      1 + i
  }

  function ChunkRow(c: Crypto, tenant: string, source: nat, pieces: seq<string>, i: nat): Chunk
    requires i < |pieces|
  {
    Chunk(tenant, source, pieces[i], i + 1, c.sha(pieces[i]))
  }

  function ChunkRows(c: Crypto, tenant: string, source: nat, pieces: seq<string>): (rows: seq<Chunk>)
    ensures |rows| == |pieces| && forall i | 0 <= i < |rows| :: rows[i] == ChunkRow(c, tenant, source, pieces, i)
  {
    seq(|pieces|, i requires 0 <= i < |pieces| => ChunkRow(c, tenant, source, pieces, i))
  }

  predicate Owns(sources: seq<Source>, tenant: string, id: nat) {
    id < |sources| && sources[id].tenant == tenant
  }

  predicate OwnsAll(sources: seq<Source>, tenant: string, ids: seq<nat>) {
    forall id | id in ids :: Owns(sources, tenant, id)
  }

  predicate SameSeries(row: Snapshot, tenant: string, project: string) {
    row.tenant == tenant && row.project == project
  }

  // The highest version of a project's snapshots, or 0.
  function LastVersion(snapshots: seq<Snapshot>, tenant: string, project: string): nat {
    if snapshots == [] then 0
    else
      var last := snapshots[|snapshots| - 1];
      var before := LastVersion(snapshots[..|snapshots| - 1], tenant, project);
      if SameSeries(last, tenant, project) && last.version > before then last.version else before
  }

  function Handle(c: Crypto, db: Tables, r: Request): Tables {
    match r
    case Ingest(tenant, upload) =>
      var checksum := c.sha(upload.content);
      if FindSource(db.sources, tenant, checksum) < |db.sources| then db
      else
        db.(sources := db.sources + [Source(tenant, upload.project, upload.name, checksum)],
            chunks := db.chunks + ChunkRows(c, tenant, |db.sources|, Pieces(upload.content)))
    case Publish(tenant, project, ids) =>
      if OwnsAll(db.sources, tenant, ids)
      then
        var version := LastVersion(db.snapshots, tenant, project) + 1;
        db.(snapshots := db.snapshots + [Snapshot(tenant, project, version, ids)])
      else db
  }

  // Any number of requests, one after the other.
  function Run(c: Crypto, db: Tables, rs: seq<Request>): Tables {
    if rs == [] then db else Handle(c, Run(c, db, rs[..|rs| - 1]), rs[|rs| - 1])
  }

  class KnowledgeBase {
    var sources: seq<Source>
    var chunks: seq<Chunk>
    var snapshots: seq<Snapshot>

    function Contents(): Tables
      reads this
    {
      Tables(sources, chunks, snapshots)
    }

    constructor ()
      ensures Contents() == EMPTY
    {
      sources, chunks, snapshots := [], [], [];
    }

    // A tenant's second upload of the same content is answered with the first source.
    method AddSource(c: Crypto, tenant: string, upload: Upload) returns (id: nat)
      modifies this`sources, this`chunks
      ensures Contents() == Handle(c, old(Contents()), Ingest(tenant, upload))
      ensures id == FindSource(old(sources), tenant, c.sha(upload.content))
      ensures Owns(sources, tenant, id) && sources[id].checksum == c.sha(upload.content)
      ensures id == |old(sources)| ==> sources[id].project == upload.project && sources[id].name == upload.name
    {
      var checksum := c.sha(upload.content);
      id := FindSource(sources, tenant, checksum);
      if id < |sources| { return; }
      sources := sources + [Source(tenant, upload.project, upload.name, checksum)];
      var pieces := ChunkText(upload.content, TARGET, OVERLAP);
      hide Pieces, ChunksOf;
      AddChunks(c, tenant, id, pieces);
    }

    method AddChunks(c: Crypto, tenant: string, id: nat, pieces: seq<string>)
      modifies this`chunks
      ensures chunks == old(chunks) + ChunkRows(c, tenant, id, pieces)
    {
      ghost var rows := ChunkRows(c, tenant, id, pieces);
      for i := 0 to |pieces|
        invariant chunks == old(chunks) + rows[..i]
      {
        chunks := chunks + [ChunkRow(c, tenant, id, pieces, i)];
      }
      assert rows[..|rows|] == rows;
    }

    // Refused unless every source is there and belongs to the tenant.
    method PublishSnapshot(c: Crypto, tenant: string, project: string, sourceIds: seq<nat>) returns (id: Option<nat>)
      modifies this`snapshots
      ensures Contents() == Handle(c, old(Contents()), Publish(tenant, project, sourceIds))
      ensures id.Some? ==> id.value < |snapshots| && SameSeries(snapshots[id.value], tenant, project)
      ensures id.Some? <==> OwnsAll(old(sources), tenant, sourceIds)
      ensures id.Some? ==>
        id.value == |old(snapshots)| && id.value < |snapshots| && snapshots[id.value].sourceIds == sourceIds
    {
      if !OwnsAll(sources, tenant, sourceIds) { return None; }
      var version := LastVersion(snapshots, tenant, project);
      snapshots := snapshots + [Snapshot(tenant, project, version + 1, sourceIds)];
      id := Some(|snapshots| - 1);
    }
  }

  // ---- What every run keeps -----------------------------------------------------------------------------------------

  // The texts of one source, in table order.
  function TextsOf(chunks: seq<Chunk>, source: nat): seq<string> {
    if chunks == [] then []
    else
      var last := chunks[|chunks| - 1];
      TextsOf(chunks[..|chunks| - 1], source) + (if last.source == source then [last.text] else [])
  }

  lemma {:induction false} TextsOfConcat(a: seq<Chunk>, b: seq<Chunk>, source: nat)
    ensures TextsOf(a + b, source) == TextsOf(a, source) + TextsOf(b, source)
  {
    if b == [] {
      assert a + b == a;
    } else {
      assert (a + b)[..|a + b| - 1] == a + b[..|b| - 1];
      TextsOfConcat(a, b[..|b| - 1], source);
    }
  }

  lemma {:induction false} TextsOfRows(c: Crypto, tenant: string, id: nat, pieces: seq<string>, source: nat)
    ensures TextsOf(ChunkRows(c, tenant, id, pieces), source) == if source == id then pieces else []
  {
    var rows := ChunkRows(c, tenant, id, pieces);
    if rows != [] {
      TextsOfRows(c, tenant, id, pieces[..|rows| - 1], source);
      assert rows[..|rows| - 1] == ChunkRows(c, tenant, id, pieces[..|rows| - 1]);
      assert pieces == pieces[..|rows| - 1] + [pieces[|rows| - 1]];
    }
  }

  lemma {:induction false} NoTexts(chunks: seq<Chunk>, source: nat)
    requires forall k | k in chunks :: k.source != source
    ensures TextsOf(chunks, source) == []
  {
    if chunks != [] {
      assert chunks[|chunks| - 1] in chunks;
      NoTexts(chunks[..|chunks| - 1], source);
    }
  }

  // Source `i` was made from `content`: its chunks are the pieces of it, all of them, in order.
  ghost predicate MadeFrom(c: Crypto, db: Tables, i: nat, content: string)
    requires i < |db.sources|
  {
    db.sources[i].checksum == c.sha(content) && TextsOf(db.chunks, i) == Pieces(content)
  }

  ghost predicate SourceIsWhole(c: Crypto, db: Tables, i: nat)
    requires i < |db.sources|
  {
    exists content :: MadeFrom(c, db, i, content)
  }

  ghost predicate SnapshotIsOwned(db: Tables, s: Snapshot) {
    OwnsAll(db.sources, s.tenant, s.sourceIds)
  }

  ghost predicate Sound(c: Crypto, db: Tables) {
    && (forall k | k in db.chunks :: Owns(db.sources, k.tenant, k.source))
    && (forall i: int | 0 <= i < |db.sources| :: SourceIsWhole(c, db, i))
    && (forall i, j | 0 <= i < j < |db.sources| ::
          !SourceMatches(db.sources[i], db.sources[j].tenant, db.sources[j].checksum))
    && (forall s | s in db.snapshots :: SnapshotIsOwned(db, s))
  }

  lemma EmptyIsSound(c: Crypto)
    ensures Sound(c, EMPTY)
  {
  }

  lemma IngestIsSound(c: Crypto, db: Tables, tenant: string, upload: Upload)
    requires Sound(c, db)
    ensures Sound(c, Handle(c, db, Ingest(tenant, upload)))
  {
    var after := Handle(c, db, Ingest(tenant, upload));
    hide Pieces;
    if after != db {
      var rows := ChunkRows(c, tenant, |db.sources|, Pieces(upload.content));
      forall i: int | 0 <= i < |after.sources| ensures SourceIsWhole(c, after, i) {
        TextsOfConcat(db.chunks, rows, i);
        TextsOfRows(c, tenant, |db.sources|, Pieces(upload.content), i);
        if i < |db.sources| {
          assert SourceIsWhole(c, db, i);
          var content :| MadeFrom(c, db, i, content);
          assert MadeFrom(c, after, i, content);
        } else {
          NoTexts(db.chunks, i);
          assert MadeFrom(c, after, i, upload.content);
        }
      }
    }
  }

  // Main result: every run keeps the tables sound.
  lemma {:induction false} RunIsSound(c: Crypto, db: Tables, rs: seq<Request>)
    requires Sound(c, db)
    ensures Sound(c, Run(c, db, rs))
  {
    if rs != [] {
      RunIsSound(c, db, rs[..|rs| - 1]);
      var before, r := Run(c, db, rs[..|rs| - 1]), rs[|rs| - 1];
      hide Run;
      if r.Ingest? {
        IngestIsSound(c, before, r.tenant, r.upload);
      } else {
        PublishIsSound(c, before, r);
      }
    }
  }

  lemma PublishIsSound(c: Crypto, db: Tables, r: Request)
    requires Sound(c, db) && r.Publish?
    ensures Sound(c, Handle(c, db, r))
  {
    var after := Handle(c, db, r);
    hide Pieces;
    forall i: int | 0 <= i < |after.sources| ensures SourceIsWhole(c, after, i) {
      assert SourceIsWhole(c, db, i);
      var content :| MadeFrom(c, db, i, content);
      assert MadeFrom(c, after, i, content);
    }
  }

  // A chunk carries the hash of its text, and its number is its place among the pieces of its source.
  ghost predicate IsPlaced(c: Crypto, db: Tables, k: Chunk) {
    && k.checksum == c.sha(k.text)
    && 1 <= k.number <= |TextsOf(db.chunks, k.source)| && TextsOf(db.chunks, k.source)[k.number - 1] == k.text
  }

  ghost predicate AllPlaced(c: Crypto, db: Tables) {
    forall k | k in db.chunks :: IsPlaced(c, db, k)
  }

  lemma IngestPlaces(c: Crypto, db: Tables, tenant: string, upload: Upload)
    requires Sound(c, db) && AllPlaced(c, db)
    ensures AllPlaced(c, Handle(c, db, Ingest(tenant, upload)))
  {
    var after := Handle(c, db, Ingest(tenant, upload));
    hide Pieces;
    if after != db {
      var n, pieces := |db.sources|, Pieces(upload.content);
      var rows := ChunkRows(c, tenant, n, pieces);
      forall k | k in after.chunks ensures IsPlaced(c, after, k) {
        if k in db.chunks {
          OldChunkStays(c, db, after, tenant, n, pieces, k);
        } else {
          NewChunkIsPlaced(c, db, after, tenant, n, pieces, k);
        }
      }
    }
  }

  lemma OldChunkStays(c: Crypto, db: Tables, after: Tables, tenant: string, n: nat, pieces: seq<string>, k: Chunk)
    requires k in db.chunks && IsPlaced(c, db, k) && k.source < n
    requires after.chunks == db.chunks + ChunkRows(c, tenant, n, pieces)
    ensures IsPlaced(c, after, k)
  {
    TextsOfConcat(db.chunks, ChunkRows(c, tenant, n, pieces), k.source);
    TextsOfRows(c, tenant, n, pieces, k.source);
  }

  lemma NewChunkIsPlaced(c: Crypto, db: Tables, after: Tables, tenant: string, n: nat, pieces: seq<string>, k: Chunk)
    requires k in ChunkRows(c, tenant, n, pieces) && forall earlier | earlier in db.chunks :: earlier.source < n
    requires after.chunks == db.chunks + ChunkRows(c, tenant, n, pieces)
    ensures IsPlaced(c, after, k)
  {
    NoTexts(db.chunks, n);
    TextsOfConcat(db.chunks, ChunkRows(c, tenant, n, pieces), n);
    TextsOfRows(c, tenant, n, pieces, n);
    assert [] + pieces == pieces;
    hide TextsOf;
  }

  // Main result: in every run the chunks are numbered 1, 2, 3, ... in the order of the text and carry
  // the hashes of their texts.
  lemma {:induction false} RunPlacesChunks(c: Crypto, rs: seq<Request>)
    ensures AllPlaced(c, Run(c, EMPTY, rs))
  {
    if rs != [] {
      var before, r := Run(c, EMPTY, rs[..|rs| - 1]), rs[|rs| - 1];
      RunPlacesChunks(c, rs[..|rs| - 1]);
      ReachableIsSound(c, rs[..|rs| - 1]);
      LastRequest(c, EMPTY, rs);
      hide Run, Sound;
      if r.Ingest? {
        IngestPlaces(c, before, r.tenant, r.upload);
      } else {
        var after := Handle(c, before, r);
        forall k | k in after.chunks ensures IsPlaced(c, after, k) { assert IsPlaced(c, before, k); }
      }
    }
  }

  lemma LastRequest(c: Crypto, db: Tables, rs: seq<Request>)
    requires rs != []
    ensures Run(c, db, rs) == Handle(c, Run(c, db, rs[..|rs| - 1]), rs[|rs| - 1])
  {
  }

  // Uploading makes a source that is whole for the uploaded content, new or found.
  lemma UploadIsWhole(c: Crypto, db: Tables, tenant: string, upload: Upload)
    requires CollisionFree(c) && Sound(c, db)
    ensures var id := FindSource(db.sources, tenant, c.sha(upload.content));
      var after := Handle(c, db, Ingest(tenant, upload));
      Owns(after.sources, tenant, id) && MadeFrom(c, after, id, upload.content)
  {
    var id := FindSource(db.sources, tenant, c.sha(upload.content));
    var after := Handle(c, db, Ingest(tenant, upload));
    IngestIsSound(c, db, tenant, upload);
    hide Pieces;
    assert SourceIsWhole(c, after, id);
  }

  // ---- Retrieval from a snapshot ------------------------------------------------------------------------------------

  predicate InScope(k: Chunk, tenant: string, ids: seq<nat>) {
    k.tenant == tenant && (ids == [] || k.source in ids)
  }

  // The rows that a retrieval may fetch: the tenant's chunks, of the given sources if there are any.
  function Scope(chunks: seq<Chunk>, tenant: string, ids: seq<nat>): (rows: seq<Chunk>)
    ensures forall k :: k in rows <==> k in chunks && InScope(k, tenant, ids)
  {
    if chunks == [] then []
    else
      var last := chunks[|chunks| - 1];
      assert forall k :: k in chunks <==> k in chunks[..|chunks| - 1] || k == last;
      Scope(chunks[..|chunks| - 1], tenant, ids) + if InScope(last, tenant, ids) then [last] else []
  }

  lemma {:induction false} ScopeConcat(a: seq<Chunk>, b: seq<Chunk>, tenant: string, ids: seq<nat>)
    ensures Scope(a + b, tenant, ids) == Scope(a, tenant, ids) + Scope(b, tenant, ids)
  {
    if b == [] {
      assert a + b == a;
    } else {
      assert (a + b)[..|a + b| - 1] == a + b[..|b| - 1];
      ScopeConcat(a, b[..|b| - 1], tenant, ids);
    }
  }

  function SnapshotScope(db: Tables, id: nat): seq<Chunk>
    requires id < |db.snapshots|
  {
    Scope(db.chunks, db.snapshots[id].tenant, db.snapshots[id].sourceIds)
  }

  // What a request adds to the scope of a snapshot; empty unless the snapshot lists no sources.
  function Added(c: Crypto, db: Tables, r: Request, id: nat): seq<Chunk>
    requires id < |db.snapshots|
  {
    if r.Ingest? && db.snapshots[id].sourceIds == [] && r.tenant == db.snapshots[id].tenant
       && FindSource(db.sources, r.tenant, c.sha(r.upload.content)) == |db.sources|
    then ChunkRows(c, r.tenant, |db.sources|, Pieces(r.upload.content)) else []
  }

  lemma ScopeAfter(c: Crypto, db: Tables, r: Request, id: nat)
    requires Sound(c, db) && id < |db.snapshots|
    ensures id < |Handle(c, db, r).snapshots| && Handle(c, db, r).snapshots[id] == db.snapshots[id]
    ensures SnapshotScope(Handle(c, db, r), id) == SnapshotScope(db, id) + Added(c, db, r, id)
  {
    var s := db.snapshots[id];
    hide Pieces, FindSource;
    assert SnapshotIsOwned(db, s);
    if r.Ingest? && Handle(c, db, r) != db {
      var rows := ChunkRows(c, r.tenant, |db.sources|, Pieces(r.upload.content));
      ScopeConcat(db.chunks, rows, s.tenant, s.sourceIds);
      if s.sourceIds == [] && s.tenant == r.tenant {
        AllInScope(rows, s.tenant, s.sourceIds);
      } else {
        NoneInScope(rows, s.tenant, s.sourceIds);
      }
    }
  }

  lemma {:induction false} AllInScope(rows: seq<Chunk>, tenant: string, ids: seq<nat>)
    requires forall k | k in rows :: InScope(k, tenant, ids)
    ensures Scope(rows, tenant, ids) == rows
  {
    if rows != [] {
      var init, last := rows[..|rows| - 1], rows[|rows| - 1];
      assert rows == init + [last] && last in rows;
      hide Scope;
      AllInScope(init, tenant, ids);
      ScopeConcat(init, [last], tenant, ids);
      SingleScope(last, tenant, ids);
    }
  }

  lemma NoneInScope(rows: seq<Chunk>, tenant: string, ids: seq<nat>)
    requires forall k | k in rows :: !InScope(k, tenant, ids)
    ensures Scope(rows, tenant, ids) == []
  {
  }

  // Main result: a snapshot with sources never changes, nor does what can be retrieved from it.
  lemma {:induction false} SnapshotIsImmutable(c: Crypto, db: Tables, rs: seq<Request>, id: nat)
    requires Sound(c, db) && id < |db.snapshots| && db.snapshots[id].sourceIds != []
    ensures id < |Run(c, db, rs).snapshots| && Run(c, db, rs).snapshots[id] == db.snapshots[id]
    ensures SnapshotScope(Run(c, db, rs), id) == SnapshotScope(db, id)
  {
    if rs != [] {
      var before := Run(c, db, rs[..|rs| - 1]);
      SnapshotIsImmutable(c, db, rs[..|rs| - 1], id);
      RunIsSound(c, db, rs[..|rs| - 1]);
      hide Sound, Pieces;
      ScopeAfter(c, before, rs[|rs| - 1], id);
    }
  }

  // A snapshot without sources is not immutable: it changes exactly with an upload of the tenant
  // that is new and not blank.
  lemma EmptySnapshotChanges(c: Crypto, db: Tables, r: Request, id: nat)
    requires Sound(c, db) && id < |db.snapshots|
    ensures id < |Handle(c, db, r).snapshots|
    ensures SnapshotScope(Handle(c, db, r), id) != SnapshotScope(db, id) <==>
      && db.snapshots[id].sourceIds == [] && r.Ingest? && r.tenant == db.snapshots[id].tenant
      && FindSource(db.sources, r.tenant, c.sha(r.upload.content)) == |db.sources|
      && Normalize(r.upload.content) != ""
  {
    ScopeAfter(c, db, r, id);
    if r.Ingest? { NoPieces(r.upload.content); }
    hide Pieces, SnapshotScope, Sound, Handle;
  }

  lemma NoPieces(content: string)
    ensures Pieces(content) == [] <==> Normalize(content) == ""
  {
  }

  // Main result: the scope of a snapshot holds exactly the pieces of its sources, all of its tenant.
  lemma ScopeIsWhole(c: Crypto, db: Tables, id: nat)
    requires Sound(c, db) && id < |db.snapshots| && db.snapshots[id].sourceIds != []
    ensures var s := db.snapshots[id];
      && (forall k | k in SnapshotScope(db, id) :: k.tenant == s.tenant && k.source in s.sourceIds)
      && (forall i | i in s.sourceIds :: i < |db.sources| && TextsOf(SnapshotScope(db, id), i) == TextsOf(db.chunks, i))
      && (forall i | i in s.sourceIds :: exists content :: MadeFrom(c, db, i, content))
  {
    var s := db.snapshots[id];
    assert SnapshotIsOwned(db, s);
    forall i | i in s.sourceIds ensures i < |db.sources| && TextsOf(SnapshotScope(db, id), i) == TextsOf(db.chunks, i) {
      ScopeKeepsTexts(db.chunks, s.tenant, s.sourceIds, i);
    }
    forall i | i in s.sourceIds ensures exists content :: MadeFrom(c, db, i, content) {
      assert SourceIsWhole(c, db, i);
    }
  }

  lemma {:induction false} ScopeKeepsTexts(chunks: seq<Chunk>, tenant: string, ids: seq<nat>, i: nat)
    requires i in ids && forall k | k in chunks && k.source == i :: k.tenant == tenant
    ensures TextsOf(Scope(chunks, tenant, ids), i) == TextsOf(chunks, i)
  {
    if chunks != [] {
      var init, last := chunks[..|chunks| - 1], chunks[|chunks| - 1];
      assert chunks == init + [last] && last in chunks;
      ScopeKeepsTexts(init, tenant, ids, i);
      ScopeConcat(init, [last], tenant, ids);
      TextsOfConcat(init, [last], i);
      TextsOfConcat(Scope(init, tenant, ids), Scope([last], tenant, ids), i);
      SingleScope(last, tenant, ids);
      if !InScope(last, tenant, ids) { NoTexts([last], i); }
      hide Scope;
    }
  }

  lemma SingleScope(k: Chunk, tenant: string, ids: seq<nat>)
    ensures Scope([k], tenant, ids) == if InScope(k, tenant, ids) then [k] else []
  {
  }

  const FETCH_LIMIT := 1000

  function FetchSize(scope: seq<Chunk>): nat {
    if |scope| < FETCH_LIMIT then |scope| else FETCH_LIMIT
  }

  // What the unordered query with its limit may return: any rows in scope, as many as there are up
  // to the limit, in any order.
  ghost predicate IsFetch(scope: seq<Chunk>, fetched: seq<Chunk>) {
    multiset(fetched) <= multiset(scope) && |fetched| == FetchSize(scope)
  }

  datatype Citation = Citation(chunk: Chunk, quote: string, score: real)

  datatype Retrieved = Retrieved(found: bool, citations: seq<Citation>, confidence: real)

  function ScoresOf(lang: Language, query: string, fetched: seq<Chunk>): (scores: seq<real>)
    ensures |scores| == |fetched|
    ensures forall i | 0 <= i < |fetched| :: scores[i] == LexicalScore(lang, query, fetched[i].text)
  {
    seq(|fetched|, i requires 0 <= i < |fetched| => LexicalScore(lang, query, fetched[i].text))
  }

  function CitationsOf(fetched: seq<Chunk>, hits: seq<Hit>): (citations: seq<Citation>)
    requires forall h | h in hits :: h.row < |fetched|
    ensures |citations| == |hits|
    ensures forall i | 0 <= i < |hits| ::
      citations[i].chunk == fetched[hits[i].row] && citations[i].score == hits[i].score
      && citations[i].quote == Take(fetched[hits[i].row].text, 240)
  {
    seq(|hits|, i requires 0 <= i < |hits| =>
      assert hits[i] in hits;
      Citation(fetched[hits[i].row], Take(fetched[hits[i].row].text, 240), hits[i].score))
  }

  // A snapshot that the tenant does not have gives an empty answer.
  function Retrieve(lang: Language, db: Tables, tenant: string, id: nat, query: string, k: nat,
      fetched: seq<Chunk>): Retrieved {
    if id >= |db.snapshots| || db.snapshots[id].tenant != tenant then Retrieved(false, [], 0.0)
    else
      var scores := ScoresOf(lang, query, fetched);
      CitedRows(scores, k);
      Retrieved(true, CitationsOf(fetched, Cited(scores, k)), ConfidenceOf(Cited(scores, k)))
  }

  // What is cited was fetched from the scope: only chunks of the tenant, and of the listed sources.
  lemma CitationsAreInScope(lang: Language, db: Tables, tenant: string, id: nat, query: string, k: nat,
      fetched: seq<Chunk>)
    requires id < |db.snapshots| && IsFetch(SnapshotScope(db, id), fetched)
    ensures forall citation | citation in Retrieve(lang, db, tenant, id, query, k, fetched).citations ::
      citation.chunk in SnapshotScope(db, id) && citation.chunk.tenant == tenant
      && citation.score == LexicalScore(lang, query, citation.chunk.text) > 0.0
  {
    var scores := ScoresOf(lang, query, fetched);
    var scope := SnapshotScope(db, id);
    CitedRows(scores, k);
    CitedArePositive(scores, k);
    hide Cited, LexicalScore, ConfidenceOf, ScoresOf;
    forall i | 0 <= i < |Cited(scores, k)|
      ensures fetched[Cited(scores, k)[i].row] in scope && Cited(scores, k)[i].score > 0.0
    {
      assert Cited(scores, k)[i] in Cited(scores, k);
      FetchedIsInScope(scope, fetched, Cited(scores, k)[i].row);
    }
  }

  // The chunks that are cited.
  function CitedChunks(r: Retrieved): set<Chunk> {
    set citation | citation in r.citations :: citation.chunk
  }

  // A citation quotes the first 240 characters of its chunk.
  lemma QuotesAreBeginnings(lang: Language, db: Tables, tenant: string, id: nat, query: string, k: nat,
      fetched: seq<Chunk>)
    ensures forall citation | citation in Retrieve(lang, db, tenant, id, query, k, fetched).citations ::
      var text := citation.chunk.text;
      citation.quote == if |text| <= 240 then text else text[..240]
  {
    var scores := ScoresOf(lang, query, fetched);
    CitedRows(scores, k);
    hide Cited, ScoresOf, ConfidenceOf;
  }

  // Main result: nothing that was fetched and not cited meets more terms of the query than what was
  // cited, and what meets some is left out only for as many citations as the limit allows.
  lemma BestAreCited(lang: Language, db: Tables, id: nat, query: string, k: nat, fetched: seq<Chunk>, row: Chunk)
    requires id < |db.snapshots| && row in fetched
    ensures var answer := Retrieve(lang, db, db.snapshots[id].tenant, id, query, k, fetched);
      row !in CitedChunks(answer) ==>
        && (forall chunk | chunk in CitedChunks(answer) ::
              TermsMet(lang, query, row.text) <= TermsMet(lang, query, chunk.text))
        && (TermsMet(lang, query, row.text) > 0 ==> |answer.citations| == k)
  {
    var scores := ScoresOf(lang, query, fetched);
    var answer := Retrieve(lang, db, db.snapshots[id].tenant, id, query, k, fetched);
    var hits := Cited(scores, k);
    CitedRows(scores, k);
    assert answer.citations == CitationsOf(fetched, hits);
    var i: nat :| i < |fetched| && fetched[i] == row;
    if row !in CitedChunks(answer) {
      hide Retrieve, Cited, LexicalScore, TermsMet, CitedChunks;
      NotCited(fetched, hits, answer, i, scores[i]);
      CitedExactly(scores, k, i);
      PositiveIfMet(lang, query, row.text);
      forall chunk | chunk in CitedChunks(answer)
        ensures TermsMet(lang, query, row.text) <= TermsMet(lang, query, chunk.text)
      {
        var n := CitedFrom(fetched, hits, answer, chunk);
        CitedBeats(lang, query, fetched, k, i, hits[n]);
      }
    }
  }

  lemma CitedBeats(lang: Language, query: string, fetched: seq<Chunk>, k: nat, i: nat, hit: Hit)
    requires i < |fetched| && hit in Cited(ScoresOf(lang, query, fetched), k)
    requires Hit(LexicalScore(lang, query, fetched[i].text), i) !in Cited(ScoresOf(lang, query, fetched), k)
    ensures hit.row < |fetched|
    ensures TermsMet(lang, query, fetched[i].text) <= TermsMet(lang, query, fetched[hit.row].text)
  {
    var scores := ScoresOf(lang, query, fetched);
    hide Cited, LexicalScore, TermsMet;
    CitedRows(scores, k);
    CitedArePositive(scores, k);
    CitedExactly(scores, k, i);
    OutranksByTerms(lang, query, scores[i], i, hit, fetched[i].text, fetched[hit.row].text);
  }

  lemma CitedFrom(fetched: seq<Chunk>, hits: seq<Hit>, answer: Retrieved, chunk: Chunk) returns (n: nat)
    requires forall h | h in hits :: h.row < |fetched|
    requires answer.citations == CitationsOf(fetched, hits) && chunk in CitedChunks(answer)
    ensures n < |hits| && hits[n] in hits && fetched[hits[n].row] == chunk
  {
    n :| 0 <= n < |answer.citations| && answer.citations[n].chunk == chunk;
  }

  lemma OutranksByTerms(lang: Language, query: string, score: real, row: nat, hit: Hit, text: string, cited: string)
    requires score == LexicalScore(lang, query, text) && hit.score == LexicalScore(lang, query, cited)
    requires score > 0.0 ==> Before(hit, Hit(score, row))
    requires hit.score > 0.0
    ensures TermsMet(lang, query, text) <= TermsMet(lang, query, cited)
  {
    hide LexicalScore, TermsMet;
    ScoresByTermsMet(lang, query, cited, text);
  }

  lemma PositiveIfMet(lang: Language, query: string, text: string)
    ensures TermsMet(lang, query, text) > 0 <==> LexicalScore(lang, query, text) > 0.0
  {
  }

  lemma NotCited(fetched: seq<Chunk>, hits: seq<Hit>, answer: Retrieved, i: nat, score: real)
    requires (forall h | h in hits :: h.row < |fetched|) && i < |fetched|
    requires answer.citations == CitationsOf(fetched, hits) && fetched[i] !in CitedChunks(answer)
    ensures Hit(score, i) !in hits
  {
    if Hit(score, i) in hits { HitIsCited(fetched, hits, answer, i, score); }
  }

  lemma HitIsCited(fetched: seq<Chunk>, hits: seq<Hit>, answer: Retrieved, i: nat, score: real)
    requires (forall h | h in hits :: h.row < |fetched|) && i < |fetched|
    requires answer.citations == CitationsOf(fetched, hits) && Hit(score, i) in hits
    ensures fetched[i] in CitedChunks(answer)
  {
    var n :| 0 <= n < |hits| && hits[n] == Hit(score, i);
    assert answer.citations[n].chunk == fetched[i] && answer.citations[n] in answer.citations;
  }

  lemma FetchedIsInScope(scope: seq<Chunk>, fetched: seq<Chunk>, row: nat)
    requires IsFetch(scope, fetched) && row < |fetched|
    ensures fetched[row] in scope
  {
    assert fetched[row] in multiset(fetched);
    assert fetched[row] in multiset(scope);
  }

  // ---- A term of a source is found ----------------------------------------------------------------------------------

  ghost predicate SpacesSeparate(lang: Language) {
    forall ch | IsSpace(ch) :: !lang.isWord(ch)
  }

  // A token of at most `OVERLAP + 1` characters, or one within a blank-delimited word of at most
  // `WordLimit`.
  ghost predicate FitsChunks(content: string, i: int, j: int) {
    j - i <= OVERLAP + 1 || exists wi, wj :: WithinWord(content, wi, wj, i, j)
  }

  ghost predicate WithinWord(content: string, wi: int, wj: int, i: int, j: int) {
    IsWord(content, wi, wj) && wj - wi <= WordLimit(TARGET) && wi <= i <= j <= wj
  }

  lemma RepeatedToken(lang: Language, s: string, i: int, j: int, wi: int, wj: int, t: string, at: int)
    requires SpacesSeparate(lang) && IsToken(lang, s, i, j) && Repeats(s, wi, wj, t, at) && wi <= i && j <= wj
    ensures IsToken(lang, t, at + (i - wi), at + (j - wi)) && t[at + (i - wi)..at + (j - wi)] == s[i..j]
  {
    RepeatsAt(s, wi, wj, t, at);
    hide IsSpace;
    assert forall m | i <= m < j :: lang.isWord(s[m]);
    SamePart(s, i, j, t, at + (i - wi));
  }

  lemma RepeatsAt(s: string, i: int, j: int, t: string, at: int)
    requires Repeats(s, i, j, t, at)
    ensures forall m | at <= m < at + (j - i) :: t[m] == s[i + (m - at)]
  {
    forall m | at <= m < at + (j - i) ensures t[m] == s[i + (m - at)] {
      assert t[m] == t[at..at + (j - i)][m - at] && s[i + (m - at)] == s[i..j][m - at];
    }
  }

  lemma SamePart(s: string, i: int, j: int, t: string, at: int)
    requires 0 <= i <= j <= |s| && 0 <= at && at + (j - i) <= |t|
    requires forall m | at <= m < at + (j - i) :: t[m] == s[i + (m - at)]
    ensures t[at..at + (j - i)] == s[i..j]
  {
  }

  lemma CoveredToken(lang: Language, t: string, i: int, j: int, chunk: string, lo: int)
    requires IsToken(lang, t, i, j) && Covers(chunk, t, lo, i, j)
    ensures IsToken(lang, chunk, i - lo, j - lo) && chunk[i - lo..j - lo] == t[i..j]
  {
    CoveredAppears(chunk, t, lo, i, j);
    assert forall m | 0 <= m < |chunk| :: chunk[m] == t[lo + m];
  }

  lemma ShortTokenIsKept(lang: Language, content: string, i: int, j: int) returns (k: int)
    requires SpacesSeparate(lang) && IsToken(lang, content, i, j) && j - i <= OVERLAP + 1
    ensures 0 <= k < |Pieces(content)| && content[i..j] in Tokens(lang, Pieces(content)[k])
  {
    TokenIsNonSpace(lang, content, i, j);
    assert 0 <= i < j <= |content|;
    hide *;
    var at := NormalizeRepeats(content, i, j);
    RepeatedToken(lang, content, i, j, i, j, Normalize(content), at);
    TokenIsNonSpace(lang, Normalize(content), at, at + (j - i));
    TokenBounds(lang, Normalize(content), at, at + (j - i));
    var lo: int;
    k, lo := PhraseIsKept(content, TARGET, OVERLAP, at, at + (j - i));
    PieceHasToken(lang, content, at, at + (j - i), k, lo);
  }

  lemma TokenBounds(lang: Language, s: string, i: int, j: int)
    requires IsToken(lang, s, i, j)
    ensures 0 <= i < j <= |s|
  {
  }

  lemma PieceHasToken(lang: Language, content: string, at: int, end: int, k: int, lo: int)
    requires 0 <= k < |ChunksOf(content, TARGET, OVERLAP)| && IsToken(lang, Normalize(content), at, end)
    requires Covers(ChunksOf(content, TARGET, OVERLAP)[k], Normalize(content), lo, at, end)
    ensures 0 <= k < |Pieces(content)| && Normalize(content)[at..end] in Tokens(lang, Pieces(content)[k])
  {
    hide Normalize, ChunksOf;
    CoveredToken(lang, Normalize(content), at, end, Pieces(content)[k], lo);
  }

  lemma WordTokenIsKept(lang: Language, content: string, i: int, j: int, wi: int, wj: int) returns (k: int)
    requires SpacesSeparate(lang) && IsToken(lang, content, i, j) && WithinWord(content, wi, wj, i, j)
    ensures 0 <= k < |Pieces(content)| && content[i..j] in Tokens(lang, Pieces(content)[k])
  {
    var t := Normalize(content);
    hide Normalize, ChunksOf, Pieces;
    var begin := NormalizeRepeats(content, wi, wj);
    RepeatedToken(lang, content, i, j, wi, wj, t, begin);
    RepeatedWord(content, wi, wj, t, begin);
    hide IsToken, Repeats, NonSpace, IsWord;
    var at, lo := begin + (i - wi), 0;
    k, lo := WordIsKept(content, TARGET, OVERLAP, begin, begin + (wj - wi));
    PieceHasToken(lang, content, at, at + (j - i), k, lo);
  }

  // Every word of a text that fits is a word of one of its pieces.
  lemma TokenIsKept(lang: Language, content: string, i: int, j: int) returns (k: int)
    requires SpacesSeparate(lang) && IsToken(lang, content, i, j) && FitsChunks(content, i, j)
    ensures 0 <= k < |Pieces(content)| && content[i..j] in Tokens(lang, Pieces(content)[k])
  {
    if j - i <= OVERLAP + 1 {
      k := ShortTokenIsKept(lang, content, i, j);
    } else {
      var wi, wj :| WithinWord(content, wi, wj, i, j);
      k := WordTokenIsKept(lang, content, i, j, wi, wj);
    }
  }

  lemma TokenIsNonSpace(lang: Language, t: string, i: int, j: int)
    requires SpacesSeparate(lang) && IsToken(lang, t, i, j)
    ensures NonSpace(t, i, j) && !IsSpace(t[i]) && !IsSpace(t[j - 1])
  {
  }

  // `term` is a query term of more than two characters that reads like the word `content[i..j]`.
  ghost predicate AsksFor(lang: Language, query: string, term: string, content: string, i: int, j: int) {
    && term in Tokens(lang, query) && |term| > 2
    && IsToken(lang, content, i, j) && lang.lower(term) == lang.lower(content[i..j])
  }

  // Main result: whoever asks for a word of a source of the snapshot finds a chunk that scores.
  lemma TermIsFound(c: Crypto, lang: Language, db: Tables, id: nat, source: nat, content: string, query: string,
      term: string, i: int, j: int)
    returns (k: Chunk)
    requires CollisionFree(c) && SpacesSeparate(lang) && Sound(c, db)
    requires id < |db.snapshots| && source in db.snapshots[id].sourceIds
    requires source < |db.sources| && db.sources[source].checksum == c.sha(content)
    requires AsksFor(lang, query, term, content, i, j) && FitsChunks(content, i, j)
    ensures k in SnapshotScope(db, id) && LexicalScore(lang, query, k.text) > 0.0
  {
    var n := TokenIsKept(lang, content, i, j);
    SourceTexts(c, db, id, source, content);
    hide Pieces, SnapshotScope, Sound, IsToken;
    var text := Pieces(content)[n];
    assert text in TextsOf(SnapshotScope(db, id), source);
    k := RowOfText(SnapshotScope(db, id), source, text);
    CommonTerm(lang, query, term, content[i..j], text);
  }

  lemma SourceTexts(c: Crypto, db: Tables, id: nat, source: nat, content: string)
    requires CollisionFree(c) && Sound(c, db) && id < |db.snapshots| && source in db.snapshots[id].sourceIds
    requires source < |db.sources| && db.sources[source].checksum == c.sha(content)
    ensures TextsOf(SnapshotScope(db, id), source) == Pieces(content)
    ensures forall k | k in SnapshotScope(db, id) :: k.source in db.snapshots[id].sourceIds
  {
    ScopeIsWhole(c, db, id);
    hide Sound, SnapshotScope, Pieces;
    var made :| MadeFrom(c, db, source, made);
  }

  lemma CommonTerm(lang: Language, query: string, term: string, word: string, text: string)
    requires term in Tokens(lang, query) && |term| > 2 && word in Tokens(lang, text)
    requires lang.lower(term) == lang.lower(word)
    ensures LexicalScore(lang, query, text) > 0.0
  {
    assert lang.lower(term) in QueryTerms(lang, query) * TextTerms(lang, text);
  }

  lemma {:induction false} RowOfText(chunks: seq<Chunk>, source: nat, text: string) returns (k: Chunk)
    requires text in TextsOf(chunks, source)
    ensures k in chunks && k.source == source && k.text == text
  {
    var last := chunks[|chunks| - 1];
    if last.source == source && last.text == text {
      k := last;
    } else {
      k := RowOfText(chunks[..|chunks| - 1], source, text);
    }
  }

  // Letters are word characters; hyphens and blanks separate words.
  ghost predicate PlainLetters(lang: Language) {
    lang.isWord('a') && lang.isWord('b') && !lang.isWord('-') && SpacesSeparate(lang)
  }

  ghost predicate LowerKeepsLetters(lang: Language) {
    forall s: string | OnlyLetters(s) :: lang.lower(s) == s
  }

  predicate OnlyLetters(s: string) {
    forall m | 0 <= m < |s| :: s[m] == 'a' || s[m] == 'b'
  }

  // Where the text begins that loses a token of `n` characters in a word of `w`: 448 is the last
  // start before the second window, less the start of the word.
  function HyphensBefore(n: nat, w: nat): int { Min(w - n, 448) }

  function LosingText(n: nat, w: nat): string
    requires n <= w
  {
    LateToken(601, HyphensBefore(n, w), n, w - n - HyphensBefore(n, w))
  }

  lemma LosingTextLoses(n: nat, w: nat)
    requires n <= w && n > OVERLAP + 1 && w > WordLimit(TARGET)
    ensures var text, begin := LosingText(n, w), 601 + HyphensBefore(n, w);
      && Normalize(text) == text && IsWord(text, 601, 601 + w) && 601 <= begin && begin + n <= 601 + w
      && text[begin..begin + n] == Repeat('b', n) && !SomeChunkContains(text, TARGET, OVERLAP, Repeat('b', n))
      && forall ch | ch in text :: ch == 'a' || ch == 'b' || ch == '-' || ch == ' '
  {
    var x := HyphensBefore(n, w);
    LateTokenIsNormal(601, x, n, w - n - x);
    LateTokenIsLost(601, x, n, w - n - x, TARGET, OVERLAP);
    hide Normalize, SomeChunkContains, IsWord;
  }

  lemma LosingToken(lang: Language, n: nat, w: nat)
    requires PlainLetters(lang) && n <= w && n > OVERLAP + 1
    ensures var begin := 601 + HyphensBefore(n, w); IsToken(lang, LosingText(n, w), begin, begin + n)
  {
    BlankIsSpace();
  }

  // Every token of `n` characters in a blank-delimited word of `w`, in any text, is a token of some
  // piece of the text.
  ghost predicate TokensAreKept(lang: Language, n: nat, w: nat) {
    forall content, wi, wj, i, j | IsPart(content, wi, wj, i, j, n, w) && IsToken(lang, content, i, j) ::
      exists k :: IsTokenOfPiece(lang, content[i..j], content, k)
  }

  ghost predicate IsTokenOfPiece(lang: Language, token: string, content: string, k: int) {
    0 <= k < |Pieces(content)| && token in Tokens(lang, Pieces(content)[k])
  }

  // Main result: exactly which tokens are sure to be found.
  lemma TokensAreKeptExactly(lang: Language, n: nat, w: nat)
    requires PlainLetters(lang) && 0 < n <= w
    ensures TokensAreKept(lang, n, w) <==> n <= 151 || w <= 599
  {
    if n <= OVERLAP + 1 || w <= WordLimit(TARGET) {
      forall content, wi, wj, i, j | IsPart(content, wi, wj, i, j, n, w) && IsToken(lang, content, i, j)
        ensures exists k :: IsTokenOfPiece(lang, content[i..j], content, k)
      {
        assert n > OVERLAP + 1 ==> WithinWord(content, wi, wj, i, j);
        var k := TokenIsKept(lang, content, i, j);
        assert IsTokenOfPiece(lang, content[i..j], content, k);
      }
    } else {
      LosingTextLoses(n, w);
      LosingToken(lang, n, w);
      var text, begin := LosingText(n, w), 601 + HyphensBefore(n, w);
      hide PlainLetters, LosingText, Normalize, SomeChunkContains, IsWord, IsToken, Pieces;
      assert IsPart(text, 601, 601 + w, begin, begin + n, n, w);
      assert text[begin..begin + n] == Repeat('b', n);
      forall k ensures !IsTokenOfPiece(lang, Repeat('b', n), text, k) {
        if 0 <= k < |Pieces(text)| { PieceMissesToken(lang, n, text, k); }
      }
    }
  }

  lemma PieceMissesToken(lang: Language, n: nat, text: string, k: int)
    requires !SomeChunkContains(text, TARGET, OVERLAP, Repeat('b', n)) && 0 <= k < |Pieces(text)|
    ensures Repeat('b', n) !in Tokens(lang, Pieces(text)[k])
  {
    assert !Contains(ChunksOf(text, TARGET, OVERLAP)[k], Repeat('b', n));
    hide Repeat, ChunksOf, SomeChunkContains;
    if Repeat('b', n) in Tokens(lang, Pieces(text)[k]) { TokenOccurs(lang, Pieces(text)[k], Repeat('b', n)); }
  }

  // Main result: what is lost is not found. A snapshot of one source may hold a token of more than
  // 151 characters in a word of more than 599 for which no chunk scores.
  lemma LongTermIsLost(c: Crypto, lang: Language, db: Tables, id: nat, source: nat, n: nat, w: nat)
    requires CollisionFree(c) && PlainLetters(lang) && LowerKeepsLetters(lang) && Sound(c, db)
    requires n <= w && n > OVERLAP + 1 && w > WordLimit(TARGET)
    requires id < |db.snapshots| && db.snapshots[id].sourceIds == [source]
    requires source < |db.sources| && db.sources[source].checksum == c.sha(LosingText(n, w))
    ensures var query, begin := Repeat('b', n), 601 + HyphensBefore(n, w);
      && AsksFor(lang, query, query, LosingText(n, w), begin, begin + n)
      && forall k | k in SnapshotScope(db, id) :: LexicalScore(lang, query, k.text) == 0.0
  {
    var content := LosingText(n, w);
    LongTermIsAsked(lang, n, w);
    LosingTextLoses(n, w);
    SourceTexts(c, db, id, source, content);
    hide *;
    forall k | k in SnapshotScope(db, id) ensures LexicalScore(lang, Repeat('b', n), k.text) == 0.0 {
      TextIsListed(SnapshotScope(db, id), k);
      var i :| 0 <= i < |Pieces(content)| && Pieces(content)[i] == k.text;
      PieceMisses(lang, n, content, i);
    }
  }

  lemma LongTermIsAsked(lang: Language, n: nat, w: nat)
    requires PlainLetters(lang) && n <= w && n > OVERLAP + 1 && w > WordLimit(TARGET)
    ensures var query, begin := Repeat('b', n), 601 + HyphensBefore(n, w);
      AsksFor(lang, query, query, LosingText(n, w), begin, begin + n)
  {
    var query := Repeat('b', n);
    LosingTextLoses(n, w);
    LosingToken(lang, n, w);
    hide LosingText, Repeat, Normalize, SomeChunkContains, IsWord;
    assert IsToken(lang, query, 0, n) && query[0..n] == query;
  }

  lemma PieceMisses(lang: Language, n: nat, content: string, i: nat)
    requires PlainLetters(lang) && LowerKeepsLetters(lang) && n > 0 && Normalize(content) == content
    requires i < |Pieces(content)|
    requires forall ch | ch in content :: ch == 'a' || ch == 'b' || ch == '-' || ch == ' '
    requires !SomeChunkContains(content, TARGET, OVERLAP, Repeat('b', n))
    ensures LexicalScore(lang, Repeat('b', n), Pieces(content)[i]) == 0.0
  {
    var query, piece := Repeat('b', n), Pieces(content)[i];
    PieceMissesToken(lang, n, content, i);
    BlankIsSpace();
    hide Normalize;
    var w := WindowOf(content, TARGET, OVERLAP, i);
    PartOfText(content, w);
    hide Pieces, SomeChunkContains, Repeat;
    if x :| x in QueryTerms(lang, query) * TextTerms(lang, piece) {
      var asked :| asked in Tokens(lang, query) && lang.lower(asked) == x;
      var met :| met in Tokens(lang, piece) && lang.lower(met) == x;
      OnlyToken(lang, query, asked);
      TokenOfLetters(lang, piece, met);
    }
  }

  lemma PartOfText(text: string, w: Window)
    requires w.start <= w.end <= |text|
    ensures forall ch | ch in Strip(text[w.start..w.end]) :: ch in text
  {
    var a, b := StripPart(text[w.start..w.end]);
  }

  // A text of word characters alone is its only word.
  lemma OnlyToken(lang: Language, s: string, token: string)
    requires OnlyLetters(s) && lang.isWord('a') && lang.isWord('b') && token in Tokens(lang, s)
    ensures token == s
  {
    var i, j :| 0 <= i < j <= |s| && IsToken(lang, s, i, j) && token == s[i..j];
    assert i == 0 && j == |s|;
  }

  lemma TokenOfLetters(lang: Language, s: string, token: string)
    requires forall ch | ch in s :: ch == 'a' || ch == 'b' || !lang.isWord(ch)
    requires token in Tokens(lang, s)
    ensures OnlyLetters(token)
  {
    var i, j :| 0 <= i < j <= |s| && IsToken(lang, s, i, j) && token == s[i..j];
    forall m | 0 <= m < |token|
      ensures token[m] == 'a' || token[m] == 'b'
    {
      assert token[m] == s[i + m] && s[i + m] in s;
    }
  }

  lemma TokenOccurs(lang: Language, s: string, token: string)
    requires token in Tokens(lang, s)
    ensures Contains(s, token)
  {
    var i, j :| 0 <= i < j <= |s| && IsToken(lang, s, i, j) && token == s[i..j];
    assert OccursAt(s, token, i);
  }

  lemma {:induction false} TextIsListed(chunks: seq<Chunk>, k: Chunk)
    requires k in chunks
    ensures k.text in TextsOf(chunks, k.source)
  {
    var last := chunks[|chunks| - 1];
    if k != last { TextIsListed(chunks[..|chunks| - 1], k); }
  }

  // ---- When a query is answered --------------------------------------------------------------------------------

  // The rows that score nothing.
  function Silent(lang: Language, query: string, rows: seq<Chunk>): (r: seq<Chunk>)
    ensures forall k | k in r :: LexicalScore(lang, query, k.text) == 0.0
  {
    if rows == [] then []
    else
      var last := rows[|rows| - 1];
      Silent(lang, query, rows[..|rows| - 1]) + (if LexicalScore(lang, query, last.text) == 0.0 then [last] else [])
  }

  lemma {:induction false} SilentCount(lang: Language, query: string, rows: seq<Chunk>, k: Chunk)
    ensures multiset(Silent(lang, query, rows))[k]
      == if LexicalScore(lang, query, k.text) == 0.0 then multiset(rows)[k] else 0
  {
    hide LexicalScore;
    if rows != [] {
      SilentCount(lang, query, rows[..|rows| - 1], k);
      assert rows == rows[..|rows| - 1] + [rows[|rows| - 1]];
    }
  }

  lemma {:induction false} AllSilent(lang: Language, query: string, rows: seq<Chunk>)
    requires forall k | k in rows :: LexicalScore(lang, query, k.text) == 0.0
    ensures Silent(lang, query, rows) == rows
  {
    hide LexicalScore;
    if rows != [] {
      assert rows[|rows| - 1] in rows;
      AllSilent(lang, query, rows[..|rows| - 1]);
    }
  }

  lemma FewerSilent(lang: Language, query: string, a: seq<Chunk>, b: seq<Chunk>)
    requires multiset(a) <= multiset(b)
    ensures |Silent(lang, query, a)| <= |Silent(lang, query, b)|
  {
    var few, many := multiset(Silent(lang, query, a)), multiset(Silent(lang, query, b));
    forall k ensures few[k] <= many[k] {
      SilentCount(lang, query, a, k);
      SilentCount(lang, query, b, k);
    }
    hide Silent;
    assert many == few + (many - few);
  }

  ghost predicate SomeScores(lang: Language, query: string, rows: seq<Chunk>) {
    exists row :: row in rows && LexicalScore(lang, query, row.text) > 0.0
  }

  // A fetch is answered with citations exactly when some row of it scores.
  lemma FetchIsAnswered(lang: Language, db: Tables, id: nat, query: string, k: nat, fetched: seq<Chunk>)
    requires id < |db.snapshots| && k > 0
    ensures var answer := Retrieve(lang, db, db.snapshots[id].tenant, id, query, k, fetched);
      && (answer.citations != [] <==> SomeScores(lang, query, fetched))
      && (answer.confidence > 0.0 <==> answer.citations != [])
  {
    var scores := ScoresOf(lang, query, fetched);
    ConfidenceIsFraction(scores, k);
    CitedRows(scores, k);
    CitedArePositive(scores, k);
    hide Cited, LexicalScore, ConfidenceOf, ScoresOf;
    if row :| row in fetched && LexicalScore(lang, query, row.text) > 0.0 {
      var i: nat :| i < |fetched| && fetched[i] == row;
      CitedExactly(scores, k, i);
    }
    if Cited(scores, k) != [] {
      var hit := Cited(scores, k)[0];
      assert hit in Cited(scores, k) && fetched[hit.row] in fetched && scores[hit.row] > 0.0;
    }
  }

  predicate IsAnswer(r: Retrieved) { r.citations != [] && r.confidence > 0.0 }

  // Whatever rows the query returns, the answer has a citation and some confidence.
  ghost predicate AlwaysAnswered(lang: Language, db: Tables, id: nat, query: string, k: nat)
    requires id < |db.snapshots|
  {
    forall fetched | IsFetch(SnapshotScope(db, id), fetched) ::
      IsAnswer(Retrieve(lang, db, db.snapshots[id].tenant, id, query, k, fetched))
  }

  // Main result: a query is sure of an answer if and only if fewer rows in scope score nothing than
  // the query fetches. Up to 1000 rows that is when some row scores; beyond, the rows that score
  // may all be left out.
  lemma AnsweredExactly(lang: Language, db: Tables, id: nat, query: string, k: nat)
    requires id < |db.snapshots| && k > 0
    ensures AlwaysAnswered(lang, db, id, query, k) <==>
      |Silent(lang, query, SnapshotScope(db, id))| < Min(|SnapshotScope(db, id)|, 1000)
  {
    var scope := SnapshotScope(db, id);
    hide SnapshotScope, Retrieve, Silent, SomeScores, IsFetch, FetchSize;
    if |Silent(lang, query, scope)| < FetchSize(scope) {
      forall fetched | IsFetch(scope, fetched)
        ensures IsAnswer(Retrieve(lang, db, db.snapshots[id].tenant, id, query, k, fetched))
      {
        SomeRowScores(lang, query, scope, fetched);
        FetchIsAnswered(lang, db, id, query, k, fetched);
      }
    } else {
      var fetched := SilentFetch(lang, query, scope);
      FetchIsAnswered(lang, db, id, query, k, fetched);
    }
  }

  lemma SomeRowScores(lang: Language, query: string, scope: seq<Chunk>, fetched: seq<Chunk>)
    requires IsFetch(scope, fetched) && |Silent(lang, query, scope)| < FetchSize(scope)
    ensures SomeScores(lang, query, fetched)
  {
    FewerSilent(lang, query, fetched, scope);
    if !SomeScores(lang, query, fetched) {
      forall row | row in fetched ensures LexicalScore(lang, query, row.text) == 0.0 {}
      hide SomeScores, LexicalScore;
      AllSilent(lang, query, fetched);
    }
  }

  lemma SilentFetch(lang: Language, query: string, scope: seq<Chunk>) returns (fetched: seq<Chunk>)
    requires |Silent(lang, query, scope)| >= FetchSize(scope)
    ensures IsFetch(scope, fetched) && !SomeScores(lang, query, fetched)
  {
    var silent := Silent(lang, query, scope);
    fetched := silent[..FetchSize(scope)];
    forall k ensures multiset(silent)[k] <= multiset(scope)[k] { SilentCount(lang, query, scope, k); }
    hide Silent, LexicalScore, FetchSize, IsFetch;
    PrefixOf(silent, FetchSize(scope));
    FetchOfPrefix(scope, silent);
  }

  lemma PrefixOf(rows: seq<Chunk>, n: nat)
    requires n <= |rows|
    ensures multiset(rows[..n]) <= multiset(rows) && forall k | k in rows[..n] :: k in rows
  {
    assert rows == rows[..n] + rows[n..];
  }

  lemma FetchOfPrefix(scope: seq<Chunk>, rows: seq<Chunk>)
    requires multiset(rows) <= multiset(scope) && |rows| >= FetchSize(scope)
    ensures IsFetch(scope, rows[..FetchSize(scope)])
  {
    PrefixOf(rows, FetchSize(scope));
  }

  lemma {:induction false} NotAllSilent(lang: Language, query: string, rows: seq<Chunk>, found: Chunk)
    requires found in rows && LexicalScore(lang, query, found.text) > 0.0
    ensures |Silent(lang, query, rows)| < |rows|
  {
    hide LexicalScore;
    var init := rows[..|rows| - 1];
    assert rows == init + [rows[|rows| - 1]];
    if found in init { NotAllSilent(lang, query, init, found); } else { SilentIsPart(lang, query, init); }
  }

  lemma {:induction false} SilentIsPart(lang: Language, query: string, rows: seq<Chunk>)
    ensures |Silent(lang, query, rows)| <= |rows|
  {
    hide LexicalScore;
    if rows != [] { SilentIsPart(lang, query, rows[..|rows| - 1]); }
  }

  // So a term that is found is answered, unless the snapshot offers more than 1000 rows.
  lemma TermIsAnswered(lang: Language, db: Tables, id: nat, query: string, found: Chunk, k: nat)
    requires id < |db.snapshots| && k > 0
    requires found in SnapshotScope(db, id) && LexicalScore(lang, query, found.text) > 0.0
    ensures |SnapshotScope(db, id)| <= 1000 ==> AlwaysAnswered(lang, db, id, query, k)
  {
    AnsweredExactly(lang, db, id, query, k);
    NotAllSilent(lang, query, SnapshotScope(db, id), found);
  }

  // ---- Versions -----------------------------------------------------------------------------------------------------

  function CountSeries(snapshots: seq<Snapshot>, tenant: string, project: string): nat {
    if snapshots == [] then 0
    else
      CountSeries(snapshots[..|snapshots| - 1], tenant, project)
      + (if SameSeries(snapshots[|snapshots| - 1], tenant, project) then 1 else 0)
  }

  // Each snapshot is numbered by its place among the snapshots of its tenant and project.
  ghost predicate Numbered(snapshots: seq<Snapshot>) {
    forall i | 0 <= i < |snapshots| ::
      snapshots[i].version == CountSeries(snapshots[..i + 1], snapshots[i].tenant, snapshots[i].project)
  }

  lemma {:induction false} LastVersionIsCount(snapshots: seq<Snapshot>, tenant: string, project: string)
    requires Numbered(snapshots)
    ensures LastVersion(snapshots, tenant, project) == CountSeries(snapshots, tenant, project)
  {
    if snapshots != [] {
      var n := |snapshots| - 1;
      NumberedPrefix(snapshots);
      LastVersionIsCount(snapshots[..n], tenant, project);
      assert snapshots[..n + 1] == snapshots;
    }
  }

  lemma NumberedPrefix(snapshots: seq<Snapshot>)
    requires Numbered(snapshots) && snapshots != []
    ensures Numbered(snapshots[..|snapshots| - 1])
  {
    var n := |snapshots| - 1;
    forall i | 0 <= i < n
      ensures snapshots[i].version == CountSeries(snapshots[..n][..i + 1], snapshots[i].tenant, snapshots[i].project)
    {
      assert snapshots[..n][..i + 1] == snapshots[..i + 1];
    }
  }

  // Main result: in every run the versions of each project count 1, 2, 3, ...
  lemma {:induction false} RunNumbersSnapshots(c: Crypto, db: Tables, rs: seq<Request>)
    requires Numbered(db.snapshots)
    ensures Numbered(Run(c, db, rs).snapshots)
  {
    if rs != [] {
      RunNumbersSnapshots(c, db, rs[..|rs| - 1]);
      var before, after := Run(c, db, rs[..|rs| - 1]), Run(c, db, rs);
      if |after.snapshots| > |before.snapshots| {
        AppendNumbered(before.snapshots, after.snapshots[|before.snapshots|]);
      }
    }
  }

  lemma AppendNumbered(snapshots: seq<Snapshot>, s: Snapshot)
    requires Numbered(snapshots) && s.version == LastVersion(snapshots, s.tenant, s.project) + 1
    ensures Numbered(snapshots + [s])
  {
    LastVersionIsCount(snapshots, s.tenant, s.project);
    var all := snapshots + [s];
    forall i | 0 <= i < |all| ensures all[i].version == CountSeries(all[..i + 1], all[i].tenant, all[i].project) {
      if i < |snapshots| {
        assert all[..i + 1] == snapshots[..i + 1];
      } else {
        assert all[..i + 1] == all && all[..|all| - 1] == snapshots;
      }
    }
  }

  // Main result: in every state that requests can reach, sources are whole, ownership holds and
  // versions count up.
  lemma ReachableIsSound(c: Crypto, rs: seq<Request>)
    ensures Sound(c, Run(c, EMPTY, rs)) && Numbered(Run(c, EMPTY, rs).snapshots)
  {
    EmptyIsSound(c);
    RunIsSound(c, EMPTY, rs);
    RunNumbersSnapshots(c, EMPTY, rs);
  }
}
