/** The data records shared by every component: the per-repository status
    record, document chunks with their free-form metadata, and search
    results. Python values the code inspects dynamically (metadata entries,
    truthiness, `str()` of a value) are modelled explicitly. */
module Models {
  import opened Base
  import opened Text

  /** A `datetime`; only stored, compared and serialized, never computed on. */
  datatype Timestamp = Timestamp(micros: nat)

  /** `RepositoryInfo`: identity, the indexed revision, counts and the three
      per-stage success flags. */
  datatype RepoInfo = RepoInfo(
    owner: string,
    name: string,
    url: string,
    lastIndexed: Option<Timestamp>,
    numFiles: int,
    numChunks: int,
    commitHash: Option<string>,
    downloadOk: bool,
    chunkingOk: bool,
    embeddingOk: bool)

  /** `RepositoryInfo(owner=..., name=..., url=...)` with every other field
      left at its declared default. */
  function NewRepoInfo(owner: string, name: string, url: string): RepoInfo
  {
    RepoInfo(owner, name, url, None, 0, 0, None, false, false, false)
  }

  /** Every optional field of the record is at its declared default. */
  predicate HasDefaults(r: RepoInfo)
  {
    && r.lastIndexed.None?
    && r.numFiles == 0
    && r.numChunks == 0
    && r.commitHash.None?
    && !r.downloadOk
    && !r.chunkingOk
    && !r.embeddingOk
  }

  /** The key a record is stored under. */
  function FullName(r: RepoInfo): string
  {
    r.owner + "/" + r.name
  }

  /** An embedding vector; its numbers are never inspected. */
  type Embedding = seq<real>

  /** A chunk metadata value: `Union[str, int, bool, None]`. */
  datatype MetaValue = MStr(s: string) | MInt(i: int) | MBool(b: bool) | MNone

  /** Python's `str(v)`. */
  function PyStr(v: MetaValue): string
  {
    match v
    case MStr(s) => s
    case MInt(i) => IntToString(i)
    case MBool(b) => if b then "True" else "False"
    case MNone => "None"
  }

  /** Python's `bool(v)`. */
  predicate Truthy(v: MetaValue)
  {
    match v
    case MStr(s) => s != ""
    case MInt(i) => i != 0
    case MBool(b) => b
    case MNone => false
  }

  /** `DocumentChunk`. */
  datatype DocumentChunk = DocumentChunk(
    id: string,
    repository: string,
    content: string,
    metadata: map<string, MetaValue>,
    embedding: Option<Embedding>)

  /** Python's `d.get(key, default)`. */
  function MetaGet(md: map<string, MetaValue>, key: string, default: MetaValue): MetaValue
  {
    if key in md then md[key] else default
  }

  /** `DocumentChunk.file_path`: the raw metadata value, `None` when absent. */
  function FilePath(c: DocumentChunk): MetaValue
  {
    MetaGet(c.metadata, "file_path", MNone)
  }

  /** `DocumentChunk.chunk_type`. */
  function ChunkType(c: DocumentChunk): (r: MetaValue)
    ensures "chunk_type" !in c.metadata ==> r == MStr("text")
    ensures "chunk_type" in c.metadata ==> r == c.metadata["chunk_type"]
  {
    MetaGet(c.metadata, "chunk_type", MStr("text"))
  }

  /** Python's `int(v)` on a metadata value other than `None`. */
  function IntOf(v: MetaValue): (r: Result<int>)
    requires v != MNone
    ensures v.MInt? ==> r == Ok(v.i)
  {
    match v
    case MInt(i) => Ok(i)
    case MBool(b) => Ok(if b then 1 else 0)
    case MStr(s) => (match ParseInt(s) case Some(i) => Ok(i) case None => Err(ValueError))
  }

  /** The `start_line`/`end_line` accessors: `None` for an absent or `None`
      value, otherwise `int(value)`, which may raise. */
  function LineOf(md: map<string, MetaValue>, key: string): (r: Result<Option<int>>)
    ensures r == Ok(None) <==> key !in md || md[key] == MNone
    ensures key in md && md[key].MInt? ==> r == Ok(Some(md[key].i))
    ensures key in md && md[key].MStr? && IsDigits(md[key].s) ==> r == Ok(Some(ParseDigits(md[key].s)))
  {
    var v := MetaGet(md, key, MNone);
    if v == MNone then Ok(None)
    else match IntOf(v)
      case Ok(i) => Ok(Some(i))
      case Err(e) => Err(e)
  }

  function StartLine(c: DocumentChunk): Result<Option<int>>
  {
    LineOf(c.metadata, "start_line")
  }

  function EndLine(c: DocumentChunk): Result<Option<int>>
  {
    LineOf(c.metadata, "end_line")
  }

  /** `SearchResult`: a chunk and its similarity score. */
  datatype SearchResult = SearchResult(chunk: DocumentChunk, score: real)

  /** `SearchResult.source`: `"repo - path:start-end"` when the chunk has a
      truthy file path and both line numbers, `"repo - path"` when a line
      number is missing, and just the repository otherwise. Reading a line
      number may raise, which propagates. */
  function Source(r: SearchResult): (s: Result<string>)
    ensures !Truthy(FilePath(r.chunk)) ==> s == Ok(r.chunk.repository)
    ensures (&& Truthy(FilePath(r.chunk))
             && StartLine(r.chunk).Ok? && EndLine(r.chunk).Ok?
             && StartLine(r.chunk).value.Some? && EndLine(r.chunk).value.Some?) ==>
      s == Ok(r.chunk.repository + " - " + PyStr(FilePath(r.chunk)) + ":"
              + IntToString(StartLine(r.chunk).value.value) + "-" + IntToString(EndLine(r.chunk).value.value))
    ensures (&& Truthy(FilePath(r.chunk))
             && StartLine(r.chunk).Ok? && EndLine(r.chunk).Ok?
             && (StartLine(r.chunk).value.None? || EndLine(r.chunk).value.None?)) ==>
      s == Ok(r.chunk.repository + " - " + PyStr(FilePath(r.chunk)))
    ensures Truthy(FilePath(r.chunk)) && (StartLine(r.chunk).Err? || EndLine(r.chunk).Err?) ==> s.Err?
  {
    var c := r.chunk;
    if Truthy(FilePath(c)) then
      var head := c.repository + " - " + PyStr(FilePath(c));
      match StartLine(c)
      case Err(e) => Err(e)
      case Ok(start) =>
        match EndLine(c)
        case Err(e) => Err(e)
        case Ok(end) =>
          if start.Some? && end.Some? then
            Ok(head + ":" + IntToString(start.value) + "-" + IntToString(end.value))
          else Ok(head)
    else Ok(c.repository)
  }
}
