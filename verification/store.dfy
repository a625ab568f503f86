/** `ChromaVectorDatabase` as two maps: the `repositories` collection
    (records serialized to JSON and keyed by `owner/name`) and the `chunks`
    collection (flattened metadata, document text and embedding keyed by
    chunk id). The similarity query and ChromaDB's index are not modelled. */
module Store {
  import opened Base
  import opened Text
  import opened Models
  import opened Batching
  import opened Embeddings

  /** A JSON scalar as `json.dumps`/`json.loads` carry the record fields. */
  datatype Json = JNull | JBool(b: bool) | JInt(i: int) | JStr(s: string)

  /** Python's truthiness of a decoded JSON value. */
  predicate JsonTruthy(j: Json)
  {
    match j
    case JNull => false
    case JBool(b) => b
    case JInt(i) => i != 0
    case JStr(s) => s != ""
  }

  /** `datetime.isoformat()`: any injective text form will do for the model,
      so the timestamp's microsecond count is written in decimal. */
  function IsoFormat(t: Timestamp): (s: string)
    ensures IsDigits(s)
  {
    NatToString(t.micros)
  }

  /** `datetime.fromisoformat`: text not produced by `IsoFormat` raises. */
  function FromIsoFormat(s: string): (r: Option<Timestamp>)
    ensures r.Some? <==> IsDigits(s)
  {
    if IsDigits(s) then Some(Timestamp(ParseDigits(s))) else None
  }

  lemma IsoFormatRoundTrip(t: Timestamp)
    ensures FromIsoFormat(IsoFormat(t)) == Some(t)
  {
    ParseNatToString(t.micros);
  }

  /** The `repositories` collection entry: the metadata written next to the
      JSON document, and the decoded document itself. */
  datatype StoredRepo = StoredRepo(owner: string, name: string, fullName: string, document: map<string, Json>)

  /** The `chunks` collection entry. */
  datatype StoredChunk = StoredChunk(document: string, metadata: map<string, MetaValue>, embedding: Option<Embedding>)

  datatype Db = Db(repos: map<string, StoredRepo>, chunks: map<string, StoredChunk>)

  /** `repository_data` in `add_repository`. */
  function Encode(info: RepoInfo): (doc: map<string, Json>)
    ensures doc.Keys == {"url", "num_files", "num_chunks", "last_indexed", "commit_hash",
                         "download_successful", "chunking_successful", "embedding_successful"}
  {
    map[
      "url" := JStr(info.url),
      "num_files" := JInt(info.numFiles),
      "num_chunks" := JInt(info.numChunks),
      "last_indexed" := (match info.lastIndexed case Some(t) => JStr(IsoFormat(t)) case None => JNull),
      "commit_hash" := (match info.commitHash case Some(h) => JStr(h) case None => JNull),
      "download_successful" := JBool(info.downloadOk),
      "chunking_successful" := JBool(info.chunkingOk),
      "embedding_successful" := JBool(info.embeddingOk)]
  }

  /** `repo_data.get(key, 0)` validated as an `int` field; `None` when
      validation fails. */
  function IntField(doc: map<string, Json>, key: string): (r: Option<int>)
    ensures key !in doc ==> r == Some(0)
    ensures key in doc ==> (r.Some? <==> doc[key].JInt?)
  {
    if key !in doc then Some(0)
    else match doc[key]
      case JInt(i) => Some(i)
      case _ => None
  }

  /** `repo_data.get(key, False)` validated as a `bool` field. */
  function BoolField(doc: map<string, Json>, key: string): (r: Option<bool>)
    ensures key !in doc ==> r == Some(false)
    ensures key in doc ==> (r.Some? <==> doc[key].JBool?)
  {
    if key !in doc then Some(false)
    else match doc[key]
      case JBool(b) => Some(b)
      case _ => None
  }

  /** `repo_data.get("commit_hash")` validated as `Optional[str]`. */
  function CommitField(doc: map<string, Json>): (r: Option<Option<string>>)
    ensures "commit_hash" !in doc ==> r == Some(None)
  {
    if "commit_hash" !in doc then Some(None)
    else match doc["commit_hash"]
      case JNull => Some(None)
      case JStr(h) => Some(Some(h))
      case _ => None
  }

  /** The `last_indexed` handling: an absent or falsy value gives `None`,
      otherwise `fromisoformat`, which raises on anything it cannot read. */
  function TimeField(doc: map<string, Json>): (r: Option<Option<Timestamp>>)
    ensures "last_indexed" !in doc ==> r == Some(None)
    ensures "last_indexed" in doc && !JsonTruthy(doc["last_indexed"]) ==> r == Some(None)
  {
    if "last_indexed" !in doc || !JsonTruthy(doc["last_indexed"]) then Some(None)
    else match doc["last_indexed"]
      case JStr(s) => (match FromIsoFormat(s) case Some(t) => Some(Some(t)) case None => None)
      case _ => None
  }

  /** The body of `get_repository`'s `try`: `None` stands for any exception
      it catches (a missing `url`, a failed validation, a bad timestamp). */
  function Decode(owner: string, name: string, doc: map<string, Json>): (r: Option<RepoInfo>)
    ensures r.Some? ==> r.value.owner == owner && r.value.name == name
    ensures ("url" !in doc || !doc["url"].JStr?) ==> r.None?
  {
    if "url" !in doc || !doc["url"].JStr? then None
    else
      var lastIndexed := TimeField(doc);
      var numFiles := IntField(doc, "num_files");
      var numChunks := IntField(doc, "num_chunks");
      var commit := CommitField(doc);
      var downloaded := BoolField(doc, "download_successful");
      var chunked := BoolField(doc, "chunking_successful");
      var embedded := BoolField(doc, "embedding_successful");
      if lastIndexed.None? || numFiles.None? || numChunks.None? || commit.None?
         || downloaded.None? || chunked.None? || embedded.None? then None
      else
        Some(RepoInfo(owner, name, doc["url"].s, lastIndexed.value, numFiles.value, numChunks.value,
                      commit.value, downloaded.value, chunked.value, embedded.value))
  }

  /** Serializing a record and reading it back gives the same record. */
  lemma DecodeEncode(info: RepoInfo)
    ensures Decode(info.owner, info.name, Encode(info)) == Some(info)
  {
    var doc := Encode(info);
    if info.lastIndexed.Some? {
      IsoFormatRoundTrip(info.lastIndexed.value);
      assert doc["last_indexed"] == JStr(IsoFormat(info.lastIndexed.value));
    }
    assert TimeField(doc) == Some(info.lastIndexed);
    assert CommitField(doc) == Some(info.commitHash);
    assert IntField(doc, "num_files") == Some(info.numFiles);
    assert IntField(doc, "num_chunks") == Some(info.numChunks);
    assert BoolField(doc, "download_successful") == Some(info.downloadOk);
    assert BoolField(doc, "chunking_successful") == Some(info.chunkingOk);
    assert BoolField(doc, "embedding_successful") == Some(info.embeddingOk);
  }

  /** A document holding only `url` reads back with every other field at its
      declared default. */
  lemma DecodeDefaults(owner: string, name: string, url: string)
    ensures Decode(owner, name, map["url" := JStr(url)]) == Some(NewRepoInfo(owner, name, url))
  {
  }

  /** `get_repository`: `None` for an unknown name or a document that fails
      to parse. */
  function GetRepository(db: Db, repoName: string): (r: Option<RepoInfo>)
    ensures repoName !in db.repos ==> r.None?
    ensures r.Some? ==> r.value.owner == db.repos[repoName].owner && r.value.name == db.repos[repoName].name
  {
    if repoName !in db.repos then None
    else
      var entry := db.repos[repoName];
      Decode(entry.owner, entry.name, entry.document)
  }

  /** `add_repository`: insert or overwrite the entry keyed by the record's
      full name. The update and add branches write the same entry. */
  function AddRepository(db: Db, info: RepoInfo): (r: Db)
    ensures GetRepository(r, FullName(info)) == Some(info)
    ensures r.repos.Keys == db.repos.Keys + {FullName(info)}
    ensures forall k :: k in db.repos && k != FullName(info) ==> r.repos[k] == db.repos[k]
    ensures r.chunks == db.chunks
  {
    DecodeEncode(info);
    db.(repos := db.repos[FullName(info) := StoredRepo(info.owner, info.name, FullName(info), Encode(info))])
  }

  /** Adding a record and then asking for any name: the added record under its
      own name, everything else as before. */
  lemma GetAfterAdd(db: Db, info: RepoInfo, repoName: string)
    ensures GetRepository(AddRepository(db, info), repoName)
         == if repoName == FullName(info) then Some(info) else GetRepository(db, repoName)
  {
  }

  /** Every entry sits under its own `owner/name`, as `add_repository`
      arranges. */
  ghost predicate KeyConsistent(db: Db)
  {
    forall k :: k in db.repos ==> db.repos[k].owner + "/" + db.repos[k].name == k
  }

  lemma AddKeepsKeyConsistent(db: Db, info: RepoInfo)
    requires KeyConsistent(db)
    ensures KeyConsistent(AddRepository(db, info))
  {
  }

  /** The `where={"repository": name}` filter of the chunk deletion. */
  predicate StoredUnder(c: StoredChunk, repoName: string)
  {
    "repository" in c.metadata && c.metadata["repository"] == MStr(repoName)
  }

  /** `delete_repository`: nothing happens and `false` is returned unless
      `get_repository` finds the record; otherwise the record and every chunk
      stored under the name go, and `true` is returned. */
  function DeleteRepository(db: Db, repoName: string): (r: (Db, bool))
    ensures !r.1 <==> GetRepository(db, repoName).None?
    ensures !r.1 ==> r.0 == db
    ensures r.1 ==> r.0.repos.Keys == db.repos.Keys - {repoName}
    ensures r.1 ==> forall k :: k in r.0.repos ==> r.0.repos[k] == db.repos[k]
    ensures r.1 ==> forall id :: id in r.0.chunks <==> id in db.chunks && !StoredUnder(db.chunks[id], repoName)
    ensures r.1 ==> forall id :: id in r.0.chunks ==> r.0.chunks[id] == db.chunks[id]
  {
    if GetRepository(db, repoName).None? then (db, false)
    else
      var kept := map id | id in db.chunks && !StoredUnder(db.chunks[id], repoName) :: db.chunks[id];
      (Db(db.repos - {repoName}, kept), true)
  }

  /** A stored record whose document no longer parses can never be deleted:
      the existence check goes through the parser. */
  lemma UnparsableRecordNotDeleted(db: Db, repoName: string)
    requires repoName in db.repos
    requires "url" !in db.repos[repoName].document
    ensures DeleteRepository(db, repoName) == (db, false)
    ensures repoName in DeleteRepository(db, repoName).0.repos
  {
  }

  /** The four metadata keys `store_chunks` writes itself. */
  const ReservedKeys: set<string> := {"file_path", "chunk_type", "start_line", "end_line"}

  /** The metadata dictionary `store_chunks` builds for one chunk: the
      repository, `file_path` and `chunk_type` as found (with their
      defaults), the two line numbers passed through `str()` (an absent one
      becomes `""`, an explicit `None` becomes `"None"`), then every other
      entry stringified with `None` as `""`. The extra entries are spread
      last, so an extra `repository` entry wins. */
  function FlattenMetadata(c: DocumentChunk): (md: map<string, MetaValue>)
    ensures md.Keys == c.metadata.Keys + {"repository", "file_path", "chunk_type", "start_line", "end_line"}
    ensures "repository" !in c.metadata ==> md["repository"] == MStr(c.repository)
    ensures md["file_path"] == MetaGet(c.metadata, "file_path", MStr(""))
    ensures md["chunk_type"] == ChunkType(c)
    ensures md["start_line"].MStr? && md["end_line"].MStr?
    ensures forall k :: k in md && k != "file_path" && k != "chunk_type" ==> md[k].MStr?
  {
    var md := c.metadata;
    var base := map[
      "repository" := MStr(c.repository),
      "file_path" := MetaGet(md, "file_path", MStr("")),
      "chunk_type" := MetaGet(md, "chunk_type", MStr("text")),
      "start_line" := MStr(PyStr(MetaGet(md, "start_line", MStr("")))),
      "end_line" := MStr(PyStr(MetaGet(md, "end_line", MStr(""))))];
    var extras := map k | k in md && k !in ReservedKeys :: MStr(if md[k] == MNone then "" else PyStr(md[k]));
    base + extras
  }

  /** What `get_chunk` makes of one stored line number: digits are parsed,
      anything else is `None`. */
  function ReadLine(v: string): (r: MetaValue)
    ensures r == MNone || (r.MInt? && r.i >= 0)
    ensures r.MInt? <==> IsDigits(v)
  {
    if IsDigits(v) then MInt(ParseDigits(v)) else MNone
  }

  /** The metadata loop of `get_chunk`. A non-string line number has no
      `isdigit` and raises `AttributeError`. */
  function ReadMetadata(md: map<string, MetaValue>): (r: Result<map<string, MetaValue>>)
    ensures r.Err? <==> exists k :: k in md && (k == "start_line" || k == "end_line") && !md[k].MStr?
    ensures r.Ok? ==> r.value.Keys == md.Keys
    ensures r.Ok? ==> forall k :: k in md && k != "start_line" && k != "end_line" ==> r.value[k] == md[k]
  {
    if ("start_line" in md && !md["start_line"].MStr?) || ("end_line" in md && !md["end_line"].MStr?) then
      Err(AttributeError)
    else
      Ok(map k | k in md :: if k == "start_line" || k == "end_line" then ReadLine(md[k].s) else md[k])
  }

  /** `get_chunk`: `None` for an unknown id; otherwise a chunk built from the
      stored document and parsed metadata. The embedding is not read back. */
  function GetChunk(db: Db, id: string): (r: Result<Option<DocumentChunk>>)
    ensures id !in db.chunks ==> r == Ok(None)
    ensures r.Ok? && r.value.Some? ==>
      && id in db.chunks && "repository" in db.chunks[id].metadata
      && r.value.value.id == id
      && r.value.value.content == db.chunks[id].document
      && r.value.value.embedding.None?
      && MStr(r.value.value.repository) == db.chunks[id].metadata["repository"]
  {
    if id !in db.chunks then Ok(None)
    else
      var stored := db.chunks[id];
      match ReadMetadata(stored.metadata)
      case Err(e) => Err(e)
      case Ok(md) =>
        if "repository" !in stored.metadata then Err(KeyError)
        else if !stored.metadata["repository"].MStr? then Err(ValueError)
        else Ok(Some(DocumentChunk(id, stored.metadata["repository"].s, stored.document, md, None)))
  }

  /** A line number survives storing and reading back when it is a
      non-negative integer, and reads back as `None` when it was absent or
      `None`. */
  lemma LineRoundTrip(c: DocumentChunk, key: string)
    requires key == "start_line" || key == "end_line"
    ensures ReadMetadata(FlattenMetadata(c)).Ok?
    ensures key in c.metadata && c.metadata[key].MInt? && c.metadata[key].i >= 0 ==>
      LineOf(ReadMetadata(FlattenMetadata(c)).value, key) == Ok(Some(c.metadata[key].i))
    ensures (key !in c.metadata || c.metadata[key] == MNone) ==>
      LineOf(ReadMetadata(FlattenMetadata(c)).value, key) == Ok(None)
  {
    var md := FlattenMetadata(c);
    var read := ReadMetadata(md).value;
    if key in c.metadata && c.metadata[key].MInt? && c.metadata[key].i >= 0 {
      var n := c.metadata[key].i;
      assert md[key] == MStr(NatToString(n));
      ParseNatToString(n);
      assert read[key] == MInt(n);
    } else if key !in c.metadata {
      assert md[key] == MStr("");
      assert read[key] == MNone;
    } else if c.metadata[key] == MNone {
      assert md[key] == MStr("None");
      assert !IsDigit('N');
      assert read[key] == MNone;
    }
  }

  /** A negative line number is stored as `"-n"`, which is not all digits,
      so it reads back as `None`. */
  lemma NegativeLineLost(c: DocumentChunk, key: string)
    requires key == "start_line" || key == "end_line"
    requires key in c.metadata && c.metadata[key].MInt? && c.metadata[key].i < 0
    ensures ReadMetadata(FlattenMetadata(c)).Ok?
    ensures LineOf(ReadMetadata(FlattenMetadata(c)).value, key) == Ok(None)
  {
    var md := FlattenMetadata(c);
    var i := c.metadata[key].i;
    assert key in ReservedKeys;
    assert md[key] == MStr(PyStr(MInt(i)));
    var text := "-" + NatToString(-i);
    assert PyStr(MInt(i)) == text;
    assert !IsDigit(text[0]);
    assert ReadLine(text) == MNone;
    var read := ReadMetadata(md).value;
    assert read[key] == MNone;
  }

  function IdOf(c: DocumentChunk): string
  {
    c.id
  }

  function RepositoryOf(c: DocumentChunk): string
  {
    c.repository
  }

  /** The `seen_ids` loop of `store_chunks`: keep a chunk only if its id has
      not been seen before. */
  method DedupById(chunks: seq<DocumentChunk>) returns (unique: seq<DocumentChunk>)
    ensures unique == Dedup(chunks, IdOf)
    ensures forall i, j :: 0 <= i < j < |unique| ==> unique[i].id != unique[j].id
  {
    var seen: set<string> := {};
    unique := [];
    var i := 0;
    while i < |chunks|
      invariant 0 <= i <= |chunks|
      invariant seen == set j | 0 <= j < i :: chunks[j].id
      invariant unique == KeepFirst(chunks, IdOf, i)
    {
      if chunks[i].id !in seen {
        assert FirstOccurrence(chunks, IdOf, i);
        seen := seen + {chunks[i].id};
        unique := unique + [chunks[i]];
      } else {
        var j :| 0 <= j < i && chunks[j].id == chunks[i].id;
        assert !FirstOccurrence(chunks, IdOf, i);
      }
      i := i + 1;
    }
    KeepFirstDistinct(chunks, IdOf, |chunks|);
  }

  /** The entry `store_chunks` writes for one chunk. */
  function Prepare(c: DocumentChunk): StoredChunk
  {
    StoredChunk(c.content, FlattenMetadata(c), c.embedding)
  }

  /** One `chunks_collection.add` call. ChromaDB leaves an id it already
      holds as it is and adds the others. */
  function AddBatch(m: map<string, StoredChunk>, batch: seq<DocumentChunk>): map<string, StoredChunk>
    decreases |batch|
  {
    if |batch| == 0 then m
    else AddBatch(if batch[0].id in m then m else m[batch[0].id := Prepare(batch[0])], batch[1..])
  }

  /** The batch loop of `store_chunks`. */
  function AddBatches(m: map<string, StoredChunk>, batches: seq<seq<DocumentChunk>>): map<string, StoredChunk>
    decreases |batches|
  {
    if |batches| == 0 then m else AddBatches(AddBatch(m, batches[0]), batches[1..])
  }

  lemma {:induction false} AddBatchAppend(m: map<string, StoredChunk>, a: seq<DocumentChunk>, b: seq<DocumentChunk>)
    ensures AddBatch(m, a + b) == AddBatch(AddBatch(m, a), b)
    decreases |a|
  {
    if |a| == 0 {
      assert a + b == b;
    } else {
      var m' := if a[0].id in m then m else m[a[0].id := Prepare(a[0])];
      assert (a + b)[0] == a[0];
      assert (a + b)[1..] == a[1..] + b;
      AddBatchAppend(m', a[1..], b);
    }
  }

  /** Adding batch by batch is adding the whole list at once. */
  lemma {:induction false} AddBatchesFlatten(m: map<string, StoredChunk>, batches: seq<seq<DocumentChunk>>)
    ensures AddBatches(m, batches) == AddBatch(m, Flatten(batches))
    decreases |batches|
  {
    if |batches| > 0 {
      AddBatchesFlatten(AddBatch(m, batches[0]), batches[1..]);
      AddBatchAppend(m, batches[0], Flatten(batches[1..]));
    }
  }

  /** The ids of a list of chunks. */
  function Ids(xs: seq<DocumentChunk>): (ids: set<string>)
    ensures forall i :: 0 <= i < |xs| ==> xs[i].id in ids
    ensures forall id :: id in ids ==> exists i :: 0 <= i < |xs| && xs[i].id == id
    decreases |xs|
  {
    if |xs| == 0 then {}
    else
      var rest := Ids(xs[1..]);
      assert forall i :: 1 <= i < |xs| ==> xs[i] == xs[1..][i - 1];
      {xs[0].id} + rest
  }

  /** Adding a list: the ids of the list join the collection and entries
      already there are untouched. */
  lemma {:induction false} AddBatchKeeps(m: map<string, StoredChunk>, xs: seq<DocumentChunk>)
    ensures AddBatch(m, xs).Keys == m.Keys + Ids(xs)
    ensures forall id :: id in m ==> AddBatch(m, xs)[id] == m[id]
    decreases |xs|
  {
    if |xs| > 0 {
      var m' := if xs[0].id in m then m else m[xs[0].id := Prepare(xs[0])];
      AddBatchKeeps(m', xs[1..]);
      assert Ids(xs) == {xs[0].id} + Ids(xs[1..]);
    }
  }

  /** A new id gets the entry of the first chunk carrying it. */
  lemma {:induction false} AddBatchFirst(m: map<string, StoredChunk>, xs: seq<DocumentChunk>, i: nat)
    requires i < |xs| && xs[i].id !in m && FirstOccurrence(xs, IdOf, i)
    ensures xs[i].id in AddBatch(m, xs) && AddBatch(m, xs)[xs[i].id] == Prepare(xs[i])
    decreases i
  {
    var m' := if xs[0].id in m then m else m[xs[0].id := Prepare(xs[0])];
    var tail := xs[1..];
    assert AddBatch(m, xs) == AddBatch(m', tail);
    if i == 0 {
      AddBatchKeeps(m', tail);
    } else {
      assert IdOf(xs[0]) != IdOf(xs[i]);
      assert tail[i - 1] == xs[i];
      assert FirstOccurrence(tail, IdOf, i - 1) by {
        forall j | 0 <= j < i - 1 ensures IdOf(tail[j]) != IdOf(tail[i - 1]) {
          assert tail[j] == xs[j + 1];
        }
      }
      AddBatchFirst(m', tail, i - 1);
    }
  }

  /** How many of `xs` belong to `repoName`. */
  function CountFor(xs: seq<DocumentChunk>, repoName: string): (n: nat)
    ensures n <= |xs|
    decreases |xs|
  {
    if |xs| == 0 then 0
    else (if xs[0].repository == repoName then 1 else 0) + CountFor(xs[1..], repoName)
  }

  predicate HasRepo(xs: seq<DocumentChunk>, repoName: string)
  {
    exists j :: 0 <= j < |xs| && xs[j].repository == repoName
  }

  lemma {:induction false} CountForPositive(xs: seq<DocumentChunk>, repoName: string)
    ensures CountFor(xs, repoName) > 0 <==> HasRepo(xs, repoName)
    decreases |xs|
  {
    if |xs| > 0 {
      CountForPositive(xs[1..], repoName);
      if HasRepo(xs, repoName) && xs[0].repository != repoName {
        var j :| 0 <= j < |xs| && xs[j].repository == repoName;
        assert xs[1..][j - 1].repository == repoName;
      }
      if HasRepo(xs[1..], repoName) {
        var j :| 0 <= j < |xs[1..]| && xs[1..][j].repository == repoName;
        assert xs[j + 1].repository == repoName;
      }
    }
  }

  /** The record after one count update. */
  function Bumped(info: RepoInfo, count: nat, now: Timestamp): RepoInfo
  {
    info.(numChunks := info.numChunks + count, lastIndexed := Some(now))
  }

  /** One iteration of the count-update loop: only a record that
      `get_repository` can read is updated. */
  function BumpOne(db: Db, repoName: string, count: nat, now: Timestamp): Db
  {
    match GetRepository(db, repoName)
    case None => db
    case Some(info) => AddRepository(db, Bumped(info, count, now))
  }

  /** The `datetime.now()` reading taken when the named repository's record
      is updated; the loop reads the clock once per repository. */
  type Clock = string -> Timestamp

  /** The count-update loop, visiting each repository once, in order of first
      appearance among the stored chunks. */
  function BumpCounts(db: Db, unique: seq<DocumentChunk>, k: nat, now: Clock): Db
    requires k <= |unique|
    decreases |unique| - k
  {
    if k == |unique| then db
    else
      var repoName := unique[k].repository;
      var next := if FirstOccurrence(unique, RepositoryOf, k) then BumpOne(db, repoName, CountFor(unique, repoName), now(repoName)) else db;
      BumpCounts(next, unique, k + 1, now)
  }

  /** The count update touches only the repositories collection. */
  lemma {:induction false} BumpCountsKeepsChunks(db: Db, unique: seq<DocumentChunk>, k: nat, now: Clock)
    requires k <= |unique|
    ensures BumpCounts(db, unique, k, now).chunks == db.chunks
    decreases |unique| - k
  {
    if k < |unique| {
      var r := unique[k].repository;
      var next := if FirstOccurrence(unique, RepositoryOf, k) then BumpOne(db, r, CountFor(unique, r), now(r)) else db;
      assert next.chunks == db.chunks;
      BumpCountsKeepsChunks(next, unique, k + 1, now);
    }
  }

  lemma BumpOneEffect(db: Db, repoName: string, count: nat, now: Timestamp)
    requires KeyConsistent(db)
    ensures KeyConsistent(BumpOne(db, repoName, count, now))
    ensures BumpOne(db, repoName, count, now).chunks == db.chunks
    ensures forall name :: (GetRepository(BumpOne(db, repoName, count, now), name)
      == if name == repoName && GetRepository(db, name).Some? then Some(Bumped(GetRepository(db, name).value, count, now))
         else GetRepository(db, name))
  {
    var info := GetRepository(db, repoName);
    if info.Some? {
      assert FullName(Bumped(info.value, count, now)) == repoName;
      AddKeepsKeyConsistent(db, Bumped(info.value, count, now));
    }
  }

  /** The repository of some first-appearing chunk at or after `k` is `name`. */
  predicate Pending(unique: seq<DocumentChunk>, k: nat, name: string)
  {
    exists j :: k <= j < |unique| && FirstOccurrence(unique, RepositoryOf, j) && unique[j].repository == name
  }

  lemma {:induction false} BumpCountsEffect(db: Db, unique: seq<DocumentChunk>, k: nat, now: Clock)
    requires k <= |unique|
    requires KeyConsistent(db)
    ensures KeyConsistent(BumpCounts(db, unique, k, now))
    ensures BumpCounts(db, unique, k, now).chunks == db.chunks
    ensures forall name :: (GetRepository(BumpCounts(db, unique, k, now), name)
      == if Pending(unique, k, name) && GetRepository(db, name).Some?
         then Some(Bumped(GetRepository(db, name).value, CountFor(unique, name), now(name)))
         else GetRepository(db, name))
    decreases |unique| - k
  {
    if k < |unique| {
      var r := unique[k].repository;
      var first := FirstOccurrence(unique, RepositoryOf, k);
      var next := if first then BumpOne(db, r, CountFor(unique, r), now(r)) else db;
      BumpOneEffect(db, r, CountFor(unique, r), now(r));
      BumpCountsEffect(next, unique, k + 1, now);
      forall name
        ensures GetRepository(BumpCounts(db, unique, k, now), name)
          == if Pending(unique, k, name) && GetRepository(db, name).Some?
             then Some(Bumped(GetRepository(db, name).value, CountFor(unique, name), now(name)))
             else GetRepository(db, name)
      {
        if name == r && first {
          assert Pending(unique, k, name);
          assert !Pending(unique, k + 1, name) by {
            forall j | k + 1 <= j < |unique| && unique[j].repository == name
              ensures !FirstOccurrence(unique, RepositoryOf, j)
            {
              assert RepositoryOf(unique[k]) == RepositoryOf(unique[j]);
            }
          }
        } else {
          assert Pending(unique, k, name) <==> Pending(unique, k + 1, name) by {
            if Pending(unique, k, name) {
              var j :| k <= j < |unique| && FirstOccurrence(unique, RepositoryOf, j) && unique[j].repository == name;
              assert j != k;
            }
          }
        }
      }
    } else {
      assert forall name :: !Pending(unique, k, name);
    }
  }

  /** Some chunk lacks an embedding. */
  predicate MissingEmbedding(chunks: seq<DocumentChunk>)
  {
    exists k :: 0 <= k < |chunks| && chunks[k].embedding.None?
  }

  /** The embedding step of `store_chunks`: chunks that all carry an
      embedding are kept as they are; otherwise every chunk is re-embedded,
      which needs an embedder. */
  function EnsureEmbedded(chunks: seq<DocumentChunk>, embedder: Option<Embedder>): (r: Result<seq<DocumentChunk>>)
    ensures !MissingEmbedding(chunks) ==> r == Ok(chunks)
    ensures MissingEmbedding(chunks) && embedder.None? ==> r == Err(ValueError)
    ensures MissingEmbedding(chunks) && embedder.Some? ==> r == EmbedChunks(embedder.value, chunks)
    ensures r.Ok? ==> forall k :: 0 <= k < |r.value| ==> r.value[k].embedding.Some?
  {
    if !MissingEmbedding(chunks) then Ok(chunks)
    else match embedder
      case None => Err(ValueError)
      case Some(e) => EmbedChunks(e, chunks)
  }

  /** `batch_size` of `store_chunks`. */
  const ChunkBatchSize: nat := 100

  /** `store_chunks`, with the clock readings as a parameter. */
  function StoreChunks(db: Db, chunks: seq<DocumentChunk>, embedder: Option<Embedder>, now: Clock): (r: Result<Db>)
    ensures |chunks| == 0 ==> r == Ok(db)
    ensures |chunks| > 0 ==> (r.Err? <==> EnsureEmbedded(chunks, embedder).Err?)
    ensures MissingEmbedding(chunks) && embedder.None? ==> r == Err(ValueError)
  {
    if |chunks| == 0 then Ok(db)
    else
      match EnsureEmbedded(chunks, embedder)
      case Err(e) => Err(e)
      case Ok(embedded) =>
        var unique := Dedup(embedded, IdOf);
        if |unique| == 0 then Ok(db)
        else
          var stored := AddBatches(db.chunks, Batches(unique, ChunkBatchSize));
          Ok(BumpCounts(db.(chunks := stored), unique, 0, now))
  }

  /** Batched insertion of the deduplicated chunks is one insertion of them
      all. */
  lemma StoreChunksMap(db: Db, chunks: seq<DocumentChunk>, embedder: Option<Embedder>, now: Clock)
    requires |chunks| > 0 && EnsureEmbedded(chunks, embedder).Ok?
    ensures var r := StoreChunks(db, chunks, embedder, now);
      r.Ok? && r.value.chunks == AddBatch(db.chunks, Dedup(EnsureEmbedded(chunks, embedder).value, IdOf))
  {
    var unique := Dedup(EnsureEmbedded(chunks, embedder).value, IdOf);
    if |unique| > 0 {
      var stored := AddBatches(db.chunks, Batches(unique, ChunkBatchSize));
      AddBatchesFlatten(db.chunks, Batches(unique, ChunkBatchSize));
      FlattenBatches(unique, ChunkBatchSize);
      BumpCountsKeepsChunks(db.(chunks := stored), unique, 0, now);
    }
  }

  /** Deduplication keeps the set of ids. */
  lemma DedupIds(cs: seq<DocumentChunk>)
    ensures Ids(Dedup(cs, IdOf)) == Ids(cs)
  {
    var unique := Dedup(cs, IdOf);
    var idx := DedupSpec(cs, IdOf);
    forall id | id in Ids(cs) ensures id in Ids(unique) {
      var p :| 0 <= p < |cs| && cs[p].id == id;
      var i :| 0 <= i < |unique| && IdOf(unique[i]) == IdOf(cs[p]);
    }
  }

  /** The first chunk with a given id survives deduplication, and is the
      first with that id there too. */
  lemma DedupKeepsFirst(cs: seq<DocumentChunk>, i: nat) returns (q: nat)
    requires i < |cs| && FirstOccurrence(cs, IdOf, i)
    ensures q < |Dedup(cs, IdOf)| && Dedup(cs, IdOf)[q] == cs[i]
    ensures FirstOccurrence(Dedup(cs, IdOf), IdOf, q)
  {
    var unique := Dedup(cs, IdOf);
    var ks := KeepFirstPositions(cs, IdOf, |cs|);
    KeepFirstDistinct(cs, IdOf, |cs|);
    q :| 0 <= q < |ks| && ks[q] == i;
  }

  /** What `store_chunks` leaves in the chunk collection: every id of the
      (embedded) chunks is present, entries that were there are untouched,
      and a new id holds the entry of the first chunk carrying it. */
  lemma StoreChunksStores(db: Db, chunks: seq<DocumentChunk>, embedder: Option<Embedder>, now: Clock)
    requires |chunks| > 0 && EnsureEmbedded(chunks, embedder).Ok?
    ensures var cs := EnsureEmbedded(chunks, embedder).value;
            var r := StoreChunks(db, chunks, embedder, now);
      && r.Ok?
      && r.value.chunks.Keys == db.chunks.Keys + Ids(cs)
      && (forall id :: id in db.chunks ==> r.value.chunks[id] == db.chunks[id])
      && (forall i :: 0 <= i < |cs| && cs[i].id !in db.chunks && FirstOccurrence(cs, IdOf, i) ==>
            r.value.chunks[cs[i].id] == Prepare(cs[i]))
  {
    var cs := EnsureEmbedded(chunks, embedder).value;
    var unique := Dedup(cs, IdOf);
    StoreChunksMap(db, chunks, embedder, now);
    DedupIds(cs);
    AddBatchKeeps(db.chunks, unique);
    var after := AddBatch(db.chunks, unique);
    forall i | 0 <= i < |cs| && cs[i].id !in db.chunks && FirstOccurrence(cs, IdOf, i)
      ensures after[cs[i].id] == Prepare(cs[i])
    {
      var q := DedupKeepsFirst(cs, i);
      AddBatchFirst(db.chunks, unique, q);
    }
  }

  /** Some chunk of a repository is the first of that repository. */
  lemma {:induction false} FirstOfRepository(xs: seq<DocumentChunk>, j: nat) returns (f: nat)
    requires j < |xs|
    ensures f <= j && xs[f].repository == xs[j].repository && FirstOccurrence(xs, RepositoryOf, f)
    decreases j
  {
    if FirstOccurrence(xs, RepositoryOf, j) {
      f := j;
    } else {
      var e :| 0 <= e < j && RepositoryOf(xs[e]) == RepositoryOf(xs[j]);
      f := FirstOfRepository(xs, e);
    }
  }

  lemma PendingFromStart(xs: seq<DocumentChunk>, name: string)
    ensures Pending(xs, 0, name) <==> HasRepo(xs, name)
  {
    if HasRepo(xs, name) {
      var j :| 0 <= j < |xs| && xs[j].repository == name;
      var f := FirstOfRepository(xs, j);
      assert xs[f].repository == name;
    }
  }

  /** The count update of `store_chunks`: each repository among the stored
      (deduplicated) chunks whose record can be read gains the number of
      those chunks belonging to it and its own clock reading; every other record
      stays as it was. */
  lemma StoreChunksCounts(db: Db, chunks: seq<DocumentChunk>, embedder: Option<Embedder>, now: Clock)
    requires KeyConsistent(db)
    requires |chunks| > 0 && EnsureEmbedded(chunks, embedder).Ok?
    ensures var unique := Dedup(EnsureEmbedded(chunks, embedder).value, IdOf);
            var r := StoreChunks(db, chunks, embedder, now);
      && r.Ok?
      && KeyConsistent(r.value)
      && forall name :: (GetRepository(r.value, name)
           == if HasRepo(unique, name) && GetRepository(db, name).Some?
              then Some(Bumped(GetRepository(db, name).value, CountFor(unique, name), now(name)))
              else GetRepository(db, name))
  {
    var unique := Dedup(EnsureEmbedded(chunks, embedder).value, IdOf);
    forall name ensures Pending(unique, 0, name) <==> HasRepo(unique, name) {
      PendingFromStart(unique, name);
    }
    if |unique| > 0 {
      var stored := AddBatches(db.chunks, Batches(unique, ChunkBatchSize));
      var db' := db.(chunks := stored);
      assert forall name :: GetRepository(db', name) == GetRepository(db, name);
      BumpCountsEffect(db', unique, 0, now);
    }
  }

  /** Storing chunks whose ids are all present already leaves the chunk
      collection as it is, yet every readable record of their repositories
      still gains their count: repeated stores count the same chunks again. */
  lemma StoreAgainCountsAgain(db: Db, chunks: seq<DocumentChunk>, embedder: Option<Embedder>, now: Clock)
    requires KeyConsistent(db)
    requires |chunks| > 0 && EnsureEmbedded(chunks, embedder).Ok?
    requires Ids(EnsureEmbedded(chunks, embedder).value) <= db.chunks.Keys
    ensures var unique := Dedup(EnsureEmbedded(chunks, embedder).value, IdOf);
            var r := StoreChunks(db, chunks, embedder, now);
      && r.Ok?
      && r.value.chunks == db.chunks
      && forall name :: HasRepo(unique, name) && GetRepository(db, name).Some? ==>
           GetRepository(r.value, name).Some?
           && GetRepository(r.value, name).value.numChunks > GetRepository(db, name).value.numChunks
  {
    var unique := Dedup(EnsureEmbedded(chunks, embedder).value, IdOf);
    StoreChunksStores(db, chunks, embedder, now);
    StoreChunksCounts(db, chunks, embedder, now);
    forall name | HasRepo(unique, name) ensures CountFor(unique, name) > 0 {
      CountForPositive(unique, name);
    }
  }
}
