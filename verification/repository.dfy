/** `GitHubRepositoryFetcher`: parsing `owner/name`, building the fresh
    status record from the GitHub answer, counting downloaded files, and the
    extension/path classifier that decides which files are chunked. The
    GitHub API, file writes and the encoding probe are oracles. */
module Repository {
  import opened Base
  import opened Text
  import opened Paths
  import opened Models

  /** `repo_name.split("/", 1)` unpacked into two names; a name without `/`
      cannot be unpacked and raises `ValueError`. */
  function SplitName(repoName: string): (r: Result<(string, string)>)
    ensures r.Err? <==> '/' !in repoName
    ensures r.Err? ==> r.error == ValueError
    ensures r.Ok? ==> r.value.0 + "/" + r.value.1 == repoName
    ensures r.Ok? ==> '/' !in r.value.0
  {
    match IndexOf(repoName, '/')
    case None => Err(ValueError)
    case Some(i) =>
      assert repoName == repoName[..i] + "/" + repoName[i + 1..];
      Ok((repoName[..i], repoName[i + 1..]))
  }

  /** Splitting a record's full name gives back its owner and name whenever
      the owner holds no `/`. */
  lemma SplitFullName(info: RepoInfo)
    requires '/' !in info.owner
    ensures SplitName(FullName(info)) == Ok((info.owner, info.name))
  {
    var s := FullName(info);
    assert s[|info.owner|] == '/';
    var i := IndexOf(s, '/').value;
    forall j | 0 <= j < |info.owner| ensures s[j] == info.owner[j] {
    }
    assert i == |info.owner|;
    assert s[..i] == info.owner;
    assert s[i + 1..] == info.name;
  }

  /** What GitHub reports about a repository: its page URL and the hash of
      the newest commit. */
  datatype Remote = Remote(url: string, latestCommit: string)

  /** `get_repository_info`: parse the name, then ask GitHub; any failure of
      the lookup is re-raised as `ValueError`. */
  function GetRepositoryInfo(repoName: string, remote: Result<Remote>): (r: Result<RepoInfo>)
    ensures '/' !in repoName ==> r == Err(ValueError)
    ensures remote.Err? ==> r == Err(ValueError)
    ensures r.Ok? <==> '/' in repoName && remote.Ok?
    ensures r.Ok? ==> FullName(r.value) == repoName && r.value.url == remote.value.url
    ensures r.Ok? ==> r.value.commitHash == Some(remote.value.latestCommit)
    ensures r.Ok? ==> r.value.lastIndexed.None? && r.value.numFiles == 0 && r.value.numChunks == 0
    ensures r.Ok? ==> !r.value.downloadOk && !r.value.chunkingOk && !r.value.embeddingOk
  {
    match SplitName(repoName)
    case Err(e) => Err(e)
    case Ok((owner, name)) =>
      match remote
      case Err(_) => Err(ValueError)
      case Ok(rem) => Ok(NewRepoInfo(owner, name, rem.url).(commitHash := Some(rem.latestCommit)))
  }

  /** One entry of the recursive content listing. `written` says whether
      decoding and writing its bytes completed without raising. */
  datatype ContentItem = ContentItem(isDir: bool, encoding: string, written: bool)

  predicate Downloaded(item: ContentItem)
  {
    !item.isDir && item.encoding == "base64" && item.written
  }

  /** `successfully_downloaded` after `_download_repository`'s loop:
      directories and non-base64 entries are skipped, per-file errors are
      swallowed, and only completed writes are counted. */
  function CountDownloaded(items: seq<ContentItem>): (n: nat)
    ensures n <= |items|
    ensures n == |items| <==> forall k :: 0 <= k < |items| ==> Downloaded(items[k])
    ensures n == 0 <==> forall k :: 0 <= k < |items| ==> !Downloaded(items[k])
    decreases |items|
  {
    if |items| == 0 then 0
    else (if Downloaded(items[0]) then 1 else 0) + CountDownloaded(items[1..])
  }

  const BinaryExtensions: set<string> := {
    ".pyc", ".pyo", ".so", ".o", ".a", ".lib", ".dll", ".exe", ".bin",
    ".png", ".jpg", ".jpeg", ".gif", ".bmp", ".ico", ".webp",
    ".mp3", ".mp4", ".avi", ".mov", ".mkv", ".wav", ".flac",
    ".zip", ".tar", ".gz", ".bz2", ".xz", ".7z", ".jar", ".war",
    ".pdf", ".doc", ".docx", ".xls", ".xlsx", ".ppt", ".pptx",
    ".ipynb_checkpoints"
  }

  const TextExtensions: set<string> := {
    ".txt", ".md", ".rst", ".html", ".htm", ".css", ".scss", ".sass",
    ".js", ".jsx", ".ts", ".tsx", ".vue", ".json", ".xml", ".yaml", ".yml",
    ".toml", ".ini", ".cfg", ".conf", ".properties",
    ".py", ".java", ".c", ".cpp", ".h", ".hpp", ".cs", ".rb", ".php", ".go",
    ".rs", ".swift", ".kt", ".scala", ".sh", ".bash", ".zsh", ".fish",
    ".sql", ".graphql", ".proto", ".cmake", ".mk", ".mak", ".Makefile"
  }

  /** Path fragments that mark a file as not worth reading. */
  const SkippedPathParts: seq<string> := ["node_modules", "__pycache__", ".git", ".idea", ".vscode"]

  predicate InSkippedDirectory(path: string)
  {
    exists k :: 0 <= k < |SkippedPathParts| && Contains(path, SkippedPathParts[k])
  }

  /** `is_text_file`: binary extensions first, then text extensions, then
      the path fragments; everything else is decided by trying to decode the
      start of the file, whose answer is `decodes`. */
  function IsTextFile(path: string, decodes: bool): (r: bool)
    ensures Extension(path) in BinaryExtensions ==> !r
    ensures Extension(path) !in BinaryExtensions && Extension(path) in TextExtensions ==> r
    ensures Extension(path) !in BinaryExtensions && Extension(path) !in TextExtensions ==>
      (r <==> !InSkippedDirectory(path) && decodes)
  {
    var ext := Extension(path);
    if ext in BinaryExtensions then false
    else if ext in TextExtensions then true
    else if InSkippedDirectory(path) then false
    else decodes
  }

  /** The extension key is lower-cased, so the upper-case `.Makefile`
      entry of the text table can never be matched. */
  lemma MakefileEntryUnreachable(path: string)
    ensures Extension(path) != ".Makefile"
  {
    NoUpperCaseIsNotMakefile(Extension(path));
  }

  lemma NoUpperCaseIsNotMakefile(r: string)
    requires forall i :: 0 <= i < |r| ==> !('A' <= r[i] <= 'Z')
    ensures r != ".Makefile"
  {
    if |r| > 1 {
      assert r[1] != 'M';
    }
  }

  /** Paths whose extensions differ only in letter case are classified
      alike whenever either extension table decides. */
  lemma ExtensionCaseIgnored(p: string, q: string, decodesP: bool, decodesQ: bool)
    requires |Suffix(Basename(p))| == |Suffix(Basename(q))|
    requires forall i :: 0 <= i < |Suffix(Basename(p))| ==>
      LowerChar(Suffix(Basename(p))[i]) == LowerChar(Suffix(Basename(q))[i])
    requires Extension(p) in BinaryExtensions || Extension(p) in TextExtensions
    ensures IsTextFile(p, decodesP) == IsTextFile(q, decodesQ)
  {
    LowerEqualIff(Suffix(Basename(p)), Suffix(Basename(q)));
  }

  /** An upper-case `.PY` is read as `.py`: such a file is text without
      looking at its content. */
  lemma UpperCaseSuffixIsText(dir: string, stem: string, decodes: bool)
    requires stem != "" && '/' !in stem && '.' !in stem
    ensures IsTextFile(dir + "/" + stem + ".PY", decodes)
  {
    UpperPyExtension(dir, stem);
    PyIsText();
  }

  lemma UpperPyExtension(dir: string, stem: string)
    requires stem != "" && '/' !in stem && '.' !in stem
    ensures Extension(dir + "/" + stem + ".PY") == ".py"
  {
    var name := stem + ".PY";
    assert dir + "/" + stem + ".PY" == dir + "/" + name;
    BasenameOfJoin(dir, name);
    SuffixOfDotted(stem, "PY");
    assert Lower(".PY") == ".py";
  }

  lemma PyIsText()
    ensures ".py" !in BinaryExtensions && ".py" in TextExtensions
  {
  }
}
