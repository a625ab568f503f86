/** `TextChunker` and `RepositoryChunker`: how one file becomes a list of
    chunks (splitter choice, line numbering, oversize truncation, stable ids)
    and how a repository's files are chunked one after another with per-file
    failures skipped. The LangChain splitters, the uuid5 hash and file
    reading are oracles. */
module Chunker {
  import opened Base
  import opened Text
  import opened Paths
  import opened Models
  import opened Repository
  import opened Batching

  /** `TextChunker.max_tokens`: `RepositoryChunker` never overrides the default. */
  const MaxTokens: nat := 5000

  /** `_estimate_tokens`: roughly four characters per token. */
  function EstimateTokens(text: string): (n: nat)
    ensures 4 * n <= |text| < 4 * n + 4
  {
    |text| / 4
  }

  /** How many leading lines survive truncation:
      `int(len(lines) * max_tokens / token_estimate)`. */
  function KeptLines(lineCount: nat, maxTokens: nat, estimate: nat): (k: nat)
    requires maxTokens < estimate
    ensures k <= lineCount
    ensures k * estimate <= lineCount * maxTokens < (k + 1) * estimate
  {
    FloorBound(lineCount, maxTokens, estimate);
    lineCount * maxTokens / estimate
  }

  lemma FloorBound(n: nat, m: nat, e: nat)
    requires m < e
    ensures 0 <= n * m && 0 <= n * m / e <= n
    ensures (n * m / e) * e <= n * m < (n * m / e + 1) * e
  {
    MulLeft(0, n, m);
    var q, r := n * m / e, n * m % e;
    assert n * m == q * e + r && 0 <= r < e;
    MulLeft(m, e, n);
    if q > n {
      MulLeft(n + 1, q, e);
      assert false;
    }
  }

  lemma {:induction false} MulLeft(a: nat, b: nat, c: nat)
    requires a <= b
    ensures a * c <= b * c
    decreases c
  {
    if c > 0 {
      MulLeft(a, b, c - 1);
      assert a * c == a * (c - 1) + a;
      assert b * c == b * (c - 1) + b;
    }
  }

  /** The safety check in `_create_chunk`: content whose estimate exceeds
      `maxTokens` is cut to its first `KeptLines` lines. */
  function TruncateContent(content: string, maxTokens: nat): (r: string)
    ensures EstimateTokens(content) <= maxTokens ==> r == content
    ensures IsPrefix(r, content)
    ensures CountChar(r, '\n') <= CountChar(content, '\n')
  {
    var estimate := EstimateTokens(content);
    if estimate <= maxTokens then content
    else
      var lines := Split(content, '\n');
      var keep := KeptLines(|lines|, maxTokens, estimate);
      JoinSplitPrefix(content, '\n', keep);
      var r := Join(lines[..keep], '\n');
      PrefixCount(r, content, '\n');
      r
  }

  /** Splitting the join of separator-free pieces gives the pieces back. */
  lemma {:induction false} SplitJoin(parts: seq<string>, sep: char)
    requires |parts| >= 1
    requires forall k :: 0 <= k < |parts| ==> sep !in parts[k]
    ensures Split(Join(parts, sep), sep) == parts
    decreases |parts|
  {
    if |parts| > 1 {
      var s := Join(parts, sep);
      var p0 := parts[0];
      assert s == p0 + [sep] + Join(parts[1..], sep);
      assert s[|p0|] == sep;
      forall j | 0 <= j < |p0| ensures s[j] != sep {
        assert s[j] == p0[j];
      }
      assert IndexOf(s, sep) == Some(|p0|);
      assert s[..|p0|] == p0;
      assert s[|p0| + 1..] == Join(parts[1..], sep);
      SplitJoin(parts[1..], sep);
      assert parts == [p0] + parts[1..];
    }
  }

  /** An oversize chunk keeps exactly its first `KeptLines` lines (at least
      one line, the empty one, remains when none are kept). */
  lemma TruncatedLines(content: string, maxTokens: nat)
    requires EstimateTokens(content) > maxTokens
    ensures var lines := Split(content, '\n');
            var keep := KeptLines(|lines|, maxTokens, EstimateTokens(content));
            keep >= 1 ==> Split(TruncateContent(content, maxTokens), '\n') == lines[..keep]
    ensures |Split(TruncateContent(content, maxTokens), '\n')| <= |Split(content, '\n')|
  {
    var lines := Split(content, '\n');
    var keep := KeptLines(|lines|, maxTokens, EstimateTokens(content));
    if keep >= 1 {
      SplitJoin(lines[..keep], '\n');
    }
    var r := TruncateContent(content, maxTokens);
    SplitCount(r, '\n');
    SplitCount(content, '\n');
  }

  /** The truncation counts lines, not characters, so a chunk whose lines
      are uneven can still exceed the budget afterwards: with `8m - 4`
      letters and a newline, one of the two lines is kept and the estimate
      stays at `2m - 1` tokens. */
  lemma TruncationMayStayOversize(m: nat)
    requires m >= 2
    ensures var content := seq(8 * m - 4, _ => 'a') + "\n";
            EstimateTokens(content) > m && EstimateTokens(TruncateContent(content, m)) > m
  {
    var body: string := seq(8 * m - 4, _ => 'a');
    var content := body + "\n";
    assert |content| == 8 * m - 3;
    assert EstimateTokens(content) == 2 * m - 1;
    assert '\n' !in body;
    assert IndexOf(content, '\n') == Some(|body|);
    assert content[..|body|] == body;
    assert content[|body| + 1..] == "";
    assert Split("", '\n') == [""];
    var lines := Split(content, '\n');
    assert lines == [body] + Split("", '\n');
    assert lines == [body, ""];
    var keep := KeptLines(2, m, 2 * m - 1);
    assert keep == 1 by {
      assert 1 * (2 * m - 1) <= 2 * m < 2 * (2 * m - 1);
    }
    assert lines[..1] == [body];
    assert TruncateContent(content, m) == body;
  }

  /** `"{start}-{end}"`, the line range written into names and sources. */
  function LineRange(start: nat, end: nat): string
  {
    NatToString(start) + "-" + NatToString(end)
  }

  /** A line range can be read back from its text. */
  lemma LineRangeInjective(s1: nat, e1: nat, s2: nat, e2: nat)
    requires LineRange(s1, e1) == LineRange(s2, e2)
    ensures s1 == s2 && e1 == e2
  {
    var a1, b1 := NatToString(s1), NatToString(e1);
    var a2, b2 := NatToString(s2), NatToString(e2);
    var t := LineRange(s1, e1);
    DashAfterDigits(a1, b1);
    DashAfterDigits(a2, b2);
    assert |a1| == |a2|;
    assert a1 == t[..|a1|] == a2;
    NatToStringInjective(s1, s2);
    assert b1 == t[|a1| + 1..] == b2;
    NatToStringInjective(e1, e2);
  }

  /** The name hashed into a chunk id: `"{repository}/{file_path}:{start}-{end}"`. */
  function ChunkKey(repository: string, filePath: string, start: nat, end: nat): string
  {
    repository + "/" + filePath + ":" + LineRange(start, end)
  }

  /** For one repository and file path, distinct line ranges give distinct
      hashed names. */
  lemma ChunkKeyDistinguishesRanges(repository: string, filePath: string, s1: nat, e1: nat, s2: nat, e2: nat)
    requires ChunkKey(repository, filePath, s1, e1) == ChunkKey(repository, filePath, s2, e2)
    ensures s1 == s2 && e1 == e2
  {
    var head := repository + "/" + filePath + ":";
    var k1 := ChunkKey(repository, filePath, s1, e1);
    assert LineRange(s1, e1) == k1[|head|..];
    assert LineRange(s2, e2) == k1[|head|..];
    LineRangeInjective(s1, e1, s2, e2);
  }

  /** In digits followed by `-`, the first `-` is the one after the digits. */
  lemma DashAfterDigits(a: string, b: string)
    requires AllDigits(a)
    ensures IndexOf(a + "-" + b, '-') == Some(|a|)
  {
    var s := a + "-" + b;
    assert s[|a|] == '-';
    assert forall j :: 0 <= j < |a| ==> s[j] == a[j] && IsDigit(a[j]);
  }

  /** `_create_chunk`: truncate oversize content, hash the key with the
      uuid5 oracle, and record the four metadata entries. */
  function CreateChunk(content: string, repository: string, filePath: string, start: nat, end: nat,
                       chunkType: string, uuid: string -> string): (c: DocumentChunk)
    ensures c.id == uuid(ChunkKey(repository, filePath, start, end))
    ensures c.repository == repository && c.embedding.None?
    ensures IsPrefix(c.content, content)
    ensures EstimateTokens(content) <= MaxTokens ==> c.content == content
    ensures FilePath(c) == MStr(filePath) && ChunkType(c) == MStr(chunkType)
  {
    DocumentChunk(
      uuid(ChunkKey(repository, filePath, start, end)),
      repository,
      TruncateContent(content, MaxTokens),
      map["file_path" := MStr(filePath), "chunk_type" := MStr(chunkType),
          "start_line" := MInt(start), "end_line" := MInt(end)],
      None)
  }

  /** Both line numbers of a chunk made here read back as written. */
  lemma CreateChunkLines(content: string, repository: string, filePath: string, start: nat, end: nat,
                         chunkType: string, uuid: string -> string)
    ensures var c := CreateChunk(content, repository, filePath, start, end, chunkType, uuid);
      StartLine(c) == Ok(Some(start)) && EndLine(c) == Ok(Some(end))
  {
  }

  /** A chunk made here carries exactly the four metadata keys. */
  lemma CreateChunkKeys(content: string, repository: string, filePath: string, start: nat, end: nat,
                        chunkType: string, uuid: string -> string)
    ensures CreateChunk(content, repository, filePath, start, end, chunkType, uuid).metadata.Keys
         == {"file_path", "chunk_type", "start_line", "end_line"}
  {
  }

  /** A search hit on a chunk made here prints as `"repo - file:start-end"`. */
  lemma SourceOfCreatedChunk(content: string, repository: string, filePath: string, start: nat, end: nat,
                             chunkType: string, uuid: string -> string, score: real)
    requires filePath != ""
    ensures Source(SearchResult(CreateChunk(content, repository, filePath, start, end, chunkType, uuid), score))
         == Ok(repository + " - " + filePath + ":" + LineRange(start, end))
  {
    var c := CreateChunk(content, repository, filePath, start, end, chunkType, uuid);
    CreateChunkLines(content, repository, filePath, start, end, chunkType, uuid);
    var head := repository + " - " + filePath;
    assert Truthy(FilePath(c)) && PyStr(FilePath(c)) == filePath;
    assert StartLine(c) == Ok(Some(start)) && EndLine(c) == Ok(Some(end));
    var a, b := IntToString(start), IntToString(end);
    assert a == NatToString(start) && b == NatToString(end);
    assert Source(SearchResult(c, score)) == Ok(head + ":" + a + "-" + b);
    assert head + ":" + a + "-" + b == head + ":" + (a + "-" + b);
    assert repository + " - " + filePath + ":" + LineRange(start, end) == head + ":" + (a + "-" + b);
  }

  const CodeExtensions: set<string> := {
    ".py", ".java", ".c", ".cpp", ".h", ".hpp", ".cs", ".js", ".jsx",
    ".ts", ".tsx", ".php", ".rb", ".go", ".rs", ".swift", ".kt",
    ".scala", ".sh", ".bash", ".zsh", ".sql"
  }

  /** The four LangChain splitters the code picks from. */
  datatype Splitter = GeneralSplitter | PythonSplitter | CodeSplitter | MarkdownSplitter

  /** The splitter oracle: the chunk texts a splitter produces for a file. */
  type SplitOracle = (Splitter, string) -> seq<string>

  /** Splitter and chunk type for a lower-cased extension. */
  function SelectSplitter(ext: string): (r: (Splitter, string))
    ensures r.1 == "code" <==> ext in CodeExtensions
    ensures r.1 == "markdown" <==> ext == ".md"
    ensures r.1 == "text" <==> ext !in CodeExtensions && ext != ".md"
    ensures r.0 == PythonSplitter <==> ext == ".py"
    ensures r.0 == CodeSplitter <==> ext in CodeExtensions && ext != ".py"
    ensures r.0 == MarkdownSplitter <==> ext == ".md"
  {
    if ext in CodeExtensions then
      (if ext == ".py" then PythonSplitter else CodeSplitter, "code")
    else if ext == ".md" then (MarkdownSplitter, "markdown")
    else (GeneralSplitter, "text")
  }

  /** The start line given to chunk `index`: 0 for the first chunk, else the
      newlines before the chunk text's first occurrence in the file (all of
      the file's newlines if it does not occur). An empty chunk text after
      the first makes `str.split` raise `ValueError`. */
  function StartLineAt(fileContent: string, piece: string, index: nat): (r: Result<nat>)
    ensures index == 0 ==> r == Ok(0)
    ensures r.Err? <==> index > 0 && piece == ""
    ensures r.Ok? ==> r.value <= CountChar(fileContent, '\n')
    ensures index > 0 && piece != "" ==> r == Ok(CountChar(TextBefore(fileContent, piece), '\n'))
  {
    if index == 0 then Ok(0)
    else if piece == "" then Err(ValueError)
    else
      var before := TextBefore(fileContent, piece);
      PrefixCount(before, fileContent, '\n');
      Ok(CountChar(before, '\n'))
  }

  /** The line bookkeeping every chunk of a file satisfies. */
  predicate WellNumbered(c: DocumentChunk, fileContent: string, piece: string, index: nat)
  {
    && StartLine(c).Ok? && StartLine(c).value.Some?
    && EndLine(c).Ok? && EndLine(c).value.Some?
    && 0 <= StartLine(c).value.value <= CountChar(fileContent, '\n')
    && EndLine(c).value.value == StartLine(c).value.value + CountChar(piece, '\n')
    && (index == 0 ==> StartLine(c).value.value == 0)
  }

  /** What chunk `index` of a file records about its piece. */
  predicate PieceChunk(c: DocumentChunk, fileContent: string, piece: string, index: nat,
                       repository: string, fileName: string, chunkType: string)
  {
    && WellNumbered(c, fileContent, piece, index)
    && c.repository == repository
    && FilePath(c) == MStr(fileName)
    && ChunkType(c) == MStr(chunkType)
    && IsPrefix(c.content, piece)
  }

  /** Some piece at or after `from`, other than the first, is empty. */
  predicate EmptyPieceFrom(pieces: seq<string>, from: nat)
  {
    exists k :: from <= k < |pieces| && k > 0 && |pieces[k]| == 0
  }

  /** The start lines the loop of `chunk_file` assigns from chunk `from`
      on; it stops at the first empty piece after the first. */
  function StartLines(fileContent: string, pieces: seq<string>, from: nat): (r: Result<seq<nat>>)
    requires from <= |pieces|
    ensures r.Ok? ==> |r.value| == |pieces| - from
    decreases |pieces| - from
  {
    if from == |pieces| then Ok([])
    else
      match StartLineAt(fileContent, pieces[from], from)
      case Err(e) => Err(e)
      case Ok(start) =>
        match StartLines(fileContent, pieces, from + 1)
        case Err(e) => Err(e)
        case Ok(rest) => Ok([start] + rest)
  }

  /** Numbering fails exactly when some piece after the first is empty. */
  lemma {:induction false} StartLinesFail(fileContent: string, pieces: seq<string>, from: nat)
    requires from <= |pieces|
    ensures StartLines(fileContent, pieces, from).Err? <==> EmptyPieceFrom(pieces, from)
    decreases |pieces| - from
  {
    if from < |pieces| {
      StartLinesFail(fileContent, pieces, from + 1);
      var sl := StartLineAt(fileContent, pieces[from], from);
      if from > 0 && pieces[from] == "" {
        assert sl.Err?;
        assert EmptyPieceFrom(pieces, from);
      } else {
        assert sl.Ok?;
        assert EmptyPieceFrom(pieces, from) <==> EmptyPieceFrom(pieces, from + 1);
      }
    } else {
      assert !EmptyPieceFrom(pieces, from);
    }
  }

  /** When numbering succeeds, entry `k` is the start line of piece `from + k`. */
  lemma {:induction false} StartLinesAt(fileContent: string, pieces: seq<string>, from: nat, k: nat)
    requires from <= |pieces|
    requires StartLines(fileContent, pieces, from).Ok?
    requires k < |pieces| - from
    ensures StartLineAt(fileContent, pieces[from + k], from + k).Ok?
    ensures StartLines(fileContent, pieces, from).value[k] == StartLineAt(fileContent, pieces[from + k], from + k).value
    decreases k
  {
    var sl := StartLineAt(fileContent, pieces[from], from);
    var next := StartLines(fileContent, pieces, from + 1);
    assert sl.Ok? && next.Ok?;
    assert StartLines(fileContent, pieces, from).value == [sl.value] + next.value;
    if k > 0 {
      StartLinesAt(fileContent, pieces, from + 1, k - 1);
      assert from + 1 + (k - 1) == from + k;
    }
  }

  /** The loop of `chunk_file`: number the pieces, then make one chunk per
      piece spanning its start line plus its own newlines. */
  function ChunkPieces(fileContent: string, pieces: seq<string>, repository: string,
                       fileName: string, chunkType: string, uuid: string -> string): (r: Result<seq<DocumentChunk>>)
    ensures r.Ok? ==> |r.value| == |pieces|
  {
    match StartLines(fileContent, pieces, 0)
    case Err(e) => Err(e)
    case Ok(starts) =>
      Ok(seq(|pieces|, k requires 0 <= k < |pieces| =>
        CreateChunk(pieces[k], repository, fileName, starts[k], starts[k] + CountChar(pieces[k], '\n'), chunkType, uuid)))
  }

  /** `chunk_file` on content already read: pick the splitter from the
      lower-cased extension, split, and number the pieces. Only the base
      name of the path is recorded. */
  function ChunkFile(path: string, repository: string, content: string,
                     split: SplitOracle, uuid: string -> string): (r: Result<seq<DocumentChunk>>)
    ensures var pieces := split(SelectSplitter(Extension(path)).0, content);
            r.Ok? ==> |r.value| == |pieces|
  {
    var (splitter, chunkType) := SelectSplitter(Extension(path));
    ChunkPieces(content, split(splitter, content), repository, Basename(path), chunkType, uuid)
  }

  /** Chunk `k` of a successful numbering records piece `k`. */
  lemma ChunkPiecesAt(content: string, pieces: seq<string>, repository: string,
                      fileName: string, chunkType: string, uuid: string -> string, k: nat)
    requires ChunkPieces(content, pieces, repository, fileName, chunkType, uuid).Ok?
    requires k < |pieces|
    ensures PieceChunk(ChunkPieces(content, pieces, repository, fileName, chunkType, uuid).value[k],
                       content, pieces[k], k, repository, fileName, chunkType)
  {
    var starts := StartLines(content, pieces, 0).value;
    StartLinesAt(content, pieces, 0, k);
    var c := CreateChunk(pieces[k], repository, fileName, starts[k], starts[k] + CountChar(pieces[k], '\n'), chunkType, uuid);
    assert ChunkPieces(content, pieces, repository, fileName, chunkType, uuid).value[k] == c;
    CreatedPieceChunk(c, content, pieces[k], k, starts[k], repository, fileName, chunkType, uuid);
  }

  /** A chunk made for a piece at a start line the numbering allows records
      that piece. */
  lemma CreatedPieceChunk(c: DocumentChunk, content: string, piece: string, k: nat, start: nat, repository: string,
                          fileName: string, chunkType: string, uuid: string -> string)
    requires start <= CountChar(content, '\n') && (k == 0 ==> start == 0)
    requires c == CreateChunk(piece, repository, fileName, start, start + CountChar(piece, '\n'), chunkType, uuid)
    ensures PieceChunk(c, content, piece, k, repository, fileName, chunkType)
  {
    CreateChunkLines(piece, repository, fileName, start, start + CountChar(piece, '\n'), chunkType, uuid);
  }

  /** What the loop produces: it fails exactly when a later piece is
      empty; otherwise one chunk per piece, the first at line 0, each
      spanning its piece's newlines and carrying the file's labels. */
  lemma ChunkPiecesSpec(content: string, pieces: seq<string>, repository: string,
                        fileName: string, chunkType: string, uuid: string -> string)
    ensures var r := ChunkPieces(content, pieces, repository, fileName, chunkType, uuid);
            && (r.Err? <==> exists k :: 0 < k < |pieces| && pieces[k] == "")
            && (r.Ok? ==> forall k :: 0 <= k < |r.value| ==>
                  PieceChunk(r.value[k], content, pieces[k], k, repository, fileName, chunkType))
  {
    StartLinesFail(content, pieces, 0);
    assert EmptyPieceFrom(pieces, 0) <==> exists k :: 0 < k < |pieces| && pieces[k] == "";
    var r := ChunkPieces(content, pieces, repository, fileName, chunkType, uuid);
    if r.Ok? {
      forall k | 0 <= k < |r.value|
        ensures PieceChunk(r.value[k], content, pieces[k], k, repository, fileName, chunkType)
      {
        ChunkPiecesAt(content, pieces, repository, fileName, chunkType, uuid, k);
      }
    }
  }

  /** The same for a whole file: the splitter's pieces are numbered, typed
      by extension and labelled with the base name. */
  lemma ChunkFileSpec(path: string, repository: string, content: string, split: SplitOracle, uuid: string -> string)
    ensures var sel := SelectSplitter(Extension(path));
            var pieces := split(sel.0, content);
            var r := ChunkFile(path, repository, content, split, uuid);
            && (r.Err? <==> exists k :: 0 < k < |pieces| && pieces[k] == "")
            && (r.Ok? ==> forall k :: 0 <= k < |r.value| ==>
                  PieceChunk(r.value[k], content, pieces[k], k, repository, Basename(path), sel.1))
  {
    var sel := SelectSplitter(Extension(path));
    ChunkPiecesSpec(content, split(sel.0, content), repository, Basename(path), sel.1, uuid);
  }

  /** Same-named files in different directories with the same content
      produce identical chunks, ids included. */
  lemma SameBasenameSameChunks(p1: string, p2: string, repository: string, content: string,
                               split: SplitOracle, uuid: string -> string)
    requires Basename(p1) == Basename(p2)
    ensures ChunkFile(p1, repository, content, split, uuid) == ChunkFile(p2, repository, content, split, uuid)
  {
  }

  /** One file found by the directory walk: its path, what the encoding
      probe of `is_text_file` would answer, and what reading it returns. */
  datatype SourceFile = SourceFile(path: string, decodes: bool, read: Result<string>)

  /** The chunks one file contributes to `chunk_repository`: nothing for a
      non-text file, an unreadable file (`chunk_file` returns `[]`) or a file
      whose chunking raises (the error is caught and the file skipped). */
  function FileChunks(f: SourceFile, repository: string, split: SplitOracle, uuid: string -> string): seq<DocumentChunk>
  {
    if !IsTextFile(f.path, f.decodes) then []
    else match f.read
      case Err(_) => []
      case Ok(content) =>
        match ChunkFile(f.path, repository, content, split, uuid)
        case Err(_) => []
        case Ok(cs) => cs
  }

  /** `FileChunks` as a function of the file alone. */
  function FileChunker(repository: string, split: SplitOracle, uuid: string -> string): SourceFile -> seq<DocumentChunk>
  {
    f => FileChunks(f, repository, split, uuid)
  }

  /** `chunk_repository`: every file's chunks, in walk order. */
  function ChunkRepository(files: seq<SourceFile>, repository: string, split: SplitOracle, uuid: string -> string): seq<DocumentChunk>
  {
    FlatMap(files, FileChunker(repository, split, uuid))
  }

  /** Chunking a walk is chunking its parts one after the other. */
  lemma ChunkRepositoryAppend(a: seq<SourceFile>, b: seq<SourceFile>, repository: string,
                              split: SplitOracle, uuid: string -> string)
    ensures ChunkRepository(a + b, repository, split, uuid)
         == ChunkRepository(a, repository, split, uuid) + ChunkRepository(b, repository, split, uuid)
  {
    FlatMapAppend(a, b, FileChunker(repository, split, uuid));
  }

  lemma ChunkRepositorySingle(f: SourceFile, repository: string, split: SplitOracle, uuid: string -> string)
    ensures ChunkRepository([f], repository, split, uuid) == FileChunks(f, repository, split, uuid)
  {
    FlatMapSingle(f, FileChunker(repository, split, uuid));
  }

  /** A file whose reading or chunking fails is skipped and the walk goes
      on with the next file. */
  lemma FailingFileSkipped(a: seq<SourceFile>, f: SourceFile, b: seq<SourceFile>, repository: string,
                           split: SplitOracle, uuid: string -> string)
    requires f.read.Err? || ChunkFile(f.path, repository, f.read.value, split, uuid).Err?
    ensures ChunkRepository(a + [f] + b, repository, split, uuid) == ChunkRepository(a + b, repository, split, uuid)
  {
    var cr := (xs: seq<SourceFile>) => ChunkRepository(xs, repository, split, uuid);
    assert FileChunks(f, repository, split, uuid) == [];
    ChunkRepositorySingle(f, repository, split, uuid);
    ChunkRepositoryAppend(a + [f], b, repository, split, uuid);
    ChunkRepositoryAppend(a, [f], repository, split, uuid);
    ChunkRepositoryAppend(a, b, repository, split, uuid);
    assert cr(a + [f]) == cr(a) + [];
    assert cr(a + [f]) == cr(a);
  }

  /** Every chunk of a repository is attributed to that repository. */
  lemma {:induction false} ChunkRepositoryAttribution(files: seq<SourceFile>, repository: string,
                                                     split: SplitOracle, uuid: string -> string)
    ensures forall c :: c in ChunkRepository(files, repository, split, uuid) ==> c.repository == repository
    decreases |files|
  {
    if |files| > 0 {
      ChunkRepositoryAttribution(files[1..], repository, split, uuid);
      var f := files[0];
      assert files == [f] + files[1..];
      ChunkRepositoryAppend([f], files[1..], repository, split, uuid);
      ChunkRepositorySingle(f, repository, split, uuid);
      if IsTextFile(f.path, f.decodes) && f.read.Ok? {
        ChunkFileSpec(f.path, repository, f.read.value, split, uuid);
      }
    }
  }
}
