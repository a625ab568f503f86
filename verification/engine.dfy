/** `SearchEngine.index_repository` as a pure step function: it compares the
    stored status record with the freshly fetched one, decides which of the
    download, chunk and embed+store stages to run, runs them in order while
    persisting the record after each, and removes the temporary directory on
    the normal return path only. GitHub, the directory walk, the embeddings
    API, the clock and the file system are collaborator oracles. */
module Engine {
  import opened Base
  import opened Models
  import opened Repository
  import opened Chunker
  import opened Embeddings
  import opened Store

  /** The four `force_*` arguments. */
  datatype Force = Force(refresh: bool, redownload: bool, rechunk: bool, reembed: bool)

  const NoForce: Force := Force(false, false, false, false)

  /** `force_refresh` switches on the three stage flags. */
  function Normalize(f: Force): (g: Force)
    ensures g.refresh == f.refresh
    ensures f.refresh ==> g.redownload && g.rechunk && g.reembed
    ensures !f.refresh ==> g == f
  {
    if f.refresh then Force(true, true, true, true) else f
  }

  /** Python truthiness of an optional commit hash. */
  predicate CommitTruthy(h: Option<string>)
  {
    h.Some? && h.value != ""
  }

  /** The condition of the "unchanged" branch: the stored record carries a
      truthy commit hash equal to the current one, and no refresh is forced. */
  predicate Unchanged(existing: RepoInfo, current: RepoInfo, f: Force)
  {
    CommitTruthy(existing.commitHash) && existing.commitHash == current.commitHash && !f.refresh
  }

  /** Which stages run, and whether the counts are carried over from the
      stored record. */
  datatype Plan = Plan(download: bool, chunk: bool, embed: bool, copyCounts: bool)

  /** The staleness decision. */
  function Decide(existing: Option<RepoInfo>, current: RepoInfo, force: Force): (p: Plan)
    ensures !p.chunk ==> !p.download
    ensures !p.embed ==> !p.chunk
    ensures p.copyCounts <==> existing.Some? && !Unchanged(existing.value, current, force)
    ensures existing.None? || !Unchanged(existing.value, current, force) ==> p.download && p.chunk && p.embed
    ensures existing.Some? && Unchanged(existing.value, current, force) ==>
      && (p.download <==> force.redownload || !existing.value.downloadOk)
      && (p.chunk <==> p.download || force.rechunk || !existing.value.chunkingOk)
      && (p.embed <==> p.chunk || force.reembed || !existing.value.embeddingOk)
  {
    var g := Normalize(force);
    match existing
    case None => Plan(true, true, true, false)
    case Some(prev) =>
      if !Unchanged(prev, current, g) then Plan(true, true, true, true)
      else
        var download := g.redownload || !prev.downloadOk;
        var chunk := download || g.rechunk || !prev.chunkingOk;
        var embed := chunk || g.reembed || !prev.embeddingOk;
        Plan(download, chunk, embed, false)
  }

  /** Everything outside the engine: GitHub's answer about the repository,
      the content listing of the download (or the exception it raises), the
      files the directory walk yields before it ends (and the exception it
      ends with, if any), the splitter and id oracles of the chunker, the
      embedder, the two clock readings, and whether removing the temporary
      directory fails. */
  datatype Collaborators = Collaborators(
    remote: Result<Remote>,
    listing: Result<seq<ContentItem>>,
    files: seq<SourceFile>,
    walkError: Option<Error>,
    split: SplitOracle,
    uuid: string -> string,
    embedder: Embedder,
    storeTime: Clock,
    indexTime: Timestamp,
    rmtreeFails: bool)

  datatype Stage = Downloading | Chunking | Storing

  /** The state carried from stage to stage: the working record, the store,
      the records persisted so far, the stages run, whether a repository
      directory exists and a temporary directory was made, and the chunks
      collected. */
  datatype Run = Run(info: RepoInfo, db: Db, persisted: seq<RepoInfo>, ran: seq<Stage>,
                     haveDir: bool, tempMade: bool, chunks: seq<DocumentChunk>)

  /** A stage either lets the run continue or raises. */
  datatype Step = Continue(run: Run) | Raised(error: Error, run: Run)

  /** `self.db.add_repository(info)` with `info` as the new working record. */
  function Persist(run: Run, info: RepoInfo): (r: Run)
    ensures r.info == info && r.persisted == run.persisted + [info]
    ensures GetRepository(r.db, FullName(info)) == Some(info)
    ensures r.db.chunks == run.db.chunks
    ensures r.ran == run.ran && r.haveDir == run.haveDir && r.tempMade == run.tempMade && r.chunks == run.chunks
  {
    run.(info := info, db := AddRepository(run.db, info), persisted := run.persisted + [info])
  }

  /** Step 1: fetch the contents into a new temporary directory; either way
      the record is persisted with the download flag, and a failure is
      re-raised. */
  function DownloadStage(run: Run, plan: Plan, c: Collaborators): (s: Step)
    ensures !plan.download ==> s == Continue(run)
    ensures plan.download ==> s.run.tempMade && s.run.ran == run.ran + [Downloading]
    ensures plan.download ==> s.run.persisted == run.persisted + [s.run.info]
    ensures plan.download && c.listing.Err? ==>
      s.Raised? && s.error == c.listing.error && s.run.info == run.info.(downloadOk := false)
    ensures plan.download && c.listing.Ok? ==>
      && s.Continue? && s.run.haveDir
      && s.run.info == run.info.(numFiles := CountDownloaded(c.listing.value), downloadOk := true)
  {
    if !plan.download then Continue(run)
    else
      var started := run.(ran := run.ran + [Downloading], tempMade := true);
      match c.listing
      case Err(e) => Raised(e, Persist(started, run.info.(downloadOk := false)))
      case Ok(items) =>
        var info := run.info.(numFiles := CountDownloaded(items), downloadOk := true);
        Continue(Persist(started.(haveDir := true), info))
  }

  /** Step 2: chunk only when chunking is needed and this call downloaded.
      The chunks yielded before a walk error are kept; a
      `UnicodeDecodeError` is swallowed, any other error re-raised, both
      after persisting `chunking_successful = false`. */
  function ChunkStage(run: Run, repoName: string, plan: Plan, c: Collaborators): (s: Step)
    ensures !(plan.chunk && run.haveDir) ==> s == Continue(run)
    ensures plan.chunk && run.haveDir ==>
      && s.run.ran == run.ran + [Chunking]
      && s.run.chunks == ChunkRepository(c.files, repoName, c.split, c.uuid)
      && s.run.persisted == run.persisted + [s.run.info]
      && s.run.info == run.info.(chunkingOk := c.walkError.None?)
      && (s.Raised? <==> c.walkError.Some? && c.walkError.value != UnicodeDecodeError)
      && (s.Raised? ==> s.error == c.walkError.value)
  {
    if !(plan.chunk && run.haveDir) then Continue(run)
    else
      var started := run.(ran := run.ran + [Chunking], chunks := ChunkRepository(c.files, repoName, c.split, c.uuid));
      match c.walkError
      case None => Continue(Persist(started, run.info.(chunkingOk := true)))
      case Some(e) =>
        var after := Persist(started, run.info.(chunkingOk := false));
        if e == UnicodeDecodeError then Continue(after) else Raised(e, after)
  }

  /** Whether step 3 runs: embedding is needed and there are chunks, or
      chunking was not needed at all. */
  predicate EmbedRuns(run: Run, plan: Plan)
  {
    plan.embed && (|run.chunks| > 0 || !plan.chunk)
  }

  /** Step 3: store the chunks (if any), then record success, the chunk
      count (only when there were chunks) and the indexing time; a failure
      is persisted with `embedding_successful = false` and re-raised. */
  function EmbedStage(run: Run, plan: Plan, c: Collaborators): (s: Step)
    ensures !EmbedRuns(run, plan) ==> s == Continue(run)
    ensures EmbedRuns(run, plan) ==>
      && s.run.persisted == run.persisted + [s.run.info]
      && s.run.ran == run.ran + (if |run.chunks| > 0 then [Storing] else [])
      && (s.Raised? <==> |run.chunks| > 0 && StoreChunks(run.db, run.chunks, Some(c.embedder), c.storeTime).Err?)
    ensures EmbedRuns(run, plan) && s.Raised? ==>
      && s.error == StoreChunks(run.db, run.chunks, Some(c.embedder), c.storeTime).error
      && s.run.info == run.info.(embeddingOk := false)
      && s.run.db.chunks == run.db.chunks
    ensures EmbedRuns(run, plan) && s.Continue? ==>
      s.run.info == run.info.(numChunks := if |run.chunks| > 0 then |run.chunks| else run.info.numChunks,
                              embeddingOk := true, lastIndexed := Some(c.indexTime))
  {
    if !EmbedRuns(run, plan) then Continue(run)
    else
      var stored := if |run.chunks| > 0 then StoreChunks(run.db, run.chunks, Some(c.embedder), c.storeTime) else Ok(run.db);
      var started := run.(ran := run.ran + (if |run.chunks| > 0 then [Storing] else []));
      match stored
      case Err(e) => Raised(e, Persist(started, run.info.(embeddingOk := false)))
      case Ok(db') =>
        var info := run.info.(numChunks := if |run.chunks| > 0 then |run.chunks| else run.info.numChunks,
                              embeddingOk := true, lastIndexed := Some(c.indexTime));
        Continue(Persist(started.(db := db'), info))
  }

  /** What is left of the temporary directory. */
  datatype TempDir = NoTemp | Removed | Left

  /** The visible effect of one call: the returned record or the raised
      error, the store afterwards, the records persisted in order, the
      stages run, and the temporary directory. */
  datatype Outcome = Outcome(result: Result<RepoInfo>, db: Db, persisted: seq<RepoInfo>,
                             ran: seq<Stage>, temp: TempDir)

  /** The end of the call: a raise skips the cleanup; a normal return
      removes the temporary directory and swallows a removal error. */
  function Finish(s: Step, c: Collaborators): (o: Outcome)
    ensures o.db == s.run.db && o.persisted == s.run.persisted && o.ran == s.run.ran
    ensures s.Raised? ==> o.result == Err(s.error) && o.temp == (if s.run.tempMade then Left else NoTemp)
    ensures s.Continue? ==> o.result == Ok(s.run.info)
    ensures s.Continue? ==> o.temp == (if !s.run.tempMade then NoTemp else if c.rmtreeFails then Left else Removed)
  {
    match s
    case Raised(e, run) => Outcome(Err(e), run.db, run.persisted, run.ran, if run.tempMade then Left else NoTemp)
    case Continue(run) =>
      var temp := if !run.tempMade then NoTemp else if c.rmtreeFails then Left else Removed;
      Outcome(Ok(run.info), run.db, run.persisted, run.ran, temp)
  }

  /** The working record before the stages: the fetched one, with the
      stored counts copied over on the "changed" branch. */
  function StartRecord(current: RepoInfo, existing: Option<RepoInfo>, plan: Plan): (info: RepoInfo)
    requires plan.copyCounts ==> existing.Some?
    ensures info.owner == current.owner && info.name == current.name
    ensures plan.copyCounts ==> info == current.(numChunks := existing.value.numChunks, numFiles := existing.value.numFiles)
    ensures !plan.copyCounts ==> info == current
  {
    if plan.copyCounts then current.(numChunks := existing.value.numChunks, numFiles := existing.value.numFiles)
    else current
  }

  /** The three stages in order; a raise ends the sequence. */
  function RunStages(run: Run, repoName: string, plan: Plan, c: Collaborators): Step
  {
    match DownloadStage(run, plan, c)
    case Raised(e, r1) => Raised(e, r1)
    case Continue(r1) =>
      match ChunkStage(r1, repoName, plan, c)
      case Raised(e, r2) => Raised(e, r2)
      case Continue(r2) => EmbedStage(r2, plan, c)
  }

  /** `index_repository`. */
  function Index(db: Db, repoName: string, force: Force, c: Collaborators): (o: Outcome)
    ensures GetRepositoryInfo(repoName, c.remote).Err? ==> o == Outcome(Err(ValueError), db, [], [], NoTemp)
  {
    match GetRepositoryInfo(repoName, c.remote)
    case Err(e) => Outcome(Err(e), db, [], [], NoTemp)
    case Ok(current) =>
      var existing := GetRepository(db, repoName);
      var plan := Decide(existing, current, force);
      if !plan.embed then Outcome(Ok(existing.value), db, [], [], NoTemp)
      else
        var run := Run(StartRecord(current, existing, plan), db, [], [], false, false, []);
        Finish(RunStages(run, repoName, plan, c), c)
  }

  // ---------------------------------------------------------------------
  // The staleness decision

  /** `force_refresh` always takes the "changed" branch: every stage runs,
      and the counts are copied exactly when a record is stored. */
  lemma ForceRefreshRunsEverything(existing: Option<RepoInfo>, current: RepoInfo, force: Force)
    requires force.refresh
    ensures var p := Decide(existing, current, force);
      p.download && p.chunk && p.embed && (p.copyCounts <==> existing.Some?)
  {
  }

  /** The fast path is taken exactly when a stored record has a truthy
      commit hash equal to the current one, nothing is forced, and all three
      stored flags are set. */
  lemma SkipAllIff(existing: Option<RepoInfo>, current: RepoInfo, force: Force)
    ensures !Decide(existing, current, force).embed <==>
      && existing.Some?
      && CommitTruthy(existing.value.commitHash)
      && existing.value.commitHash == current.commitHash
      && !force.refresh && !force.redownload && !force.rechunk && !force.reembed
      && existing.value.downloadOk && existing.value.chunkingOk && existing.value.embeddingOk
  {
  }

  // ---------------------------------------------------------------------
  // Unfolding a call

  /** The plan of a call whose repository lookup succeeded. */
  function PlanOf(db: Db, repoName: string, force: Force, c: Collaborators): Plan
    requires GetRepositoryInfo(repoName, c.remote).Ok?
  {
    Decide(GetRepository(db, repoName), GetRepositoryInfo(repoName, c.remote).value, force)
  }

  /** The run state the stages start from. */
  function StartRun(db: Db, repoName: string, force: Force, c: Collaborators): Run
    requires GetRepositoryInfo(repoName, c.remote).Ok?
  {
    var current := GetRepositoryInfo(repoName, c.remote).value;
    Run(StartRecord(current, GetRepository(db, repoName), PlanOf(db, repoName, force, c)), db, [], [], false, false, [])
  }

  /** A call past the fast path is the stages followed by the cleanup. */
  lemma IndexUnfold(db: Db, repoName: string, force: Force, c: Collaborators)
    requires GetRepositoryInfo(repoName, c.remote).Ok?
    requires PlanOf(db, repoName, force, c).embed
    ensures Index(db, repoName, force, c)
         == Finish(RunStages(StartRun(db, repoName, force, c), repoName, PlanOf(db, repoName, force, c), c), c)
    ensures FullName(StartRun(db, repoName, force, c).info) == repoName
  {
  }

  /** The working record keeps its key, and once something is persisted the
      last record persisted is the working record and is what the store
      holds under the key. */
  predicate Tracked(run: Run, repoName: string)
  {
    && FullName(run.info) == repoName
    && (|run.persisted| > 0 ==>
          run.persisted[|run.persisted| - 1] == run.info && GetRepository(run.db, repoName) == Some(run.info))
  }

  lemma DownloadKeepsTracked(run: Run, repoName: string, plan: Plan, c: Collaborators)
    requires Tracked(run, repoName)
    ensures Tracked(DownloadStage(run, plan, c).run, repoName)
  {
  }

  lemma ChunkKeepsTracked(run: Run, repoName: string, plan: Plan, c: Collaborators)
    requires Tracked(run, repoName)
    ensures Tracked(ChunkStage(run, repoName, plan, c).run, repoName)
  {
  }

  lemma EmbedKeepsTracked(run: Run, repoName: string, plan: Plan, c: Collaborators)
    requires Tracked(run, repoName)
    ensures Tracked(EmbedStage(run, plan, c).run, repoName)
  {
  }

  lemma StagesKeepTracked(run: Run, repoName: string, plan: Plan, c: Collaborators)
    requires Tracked(run, repoName)
    ensures Tracked(RunStages(run, repoName, plan, c).run, repoName)
  {
    DownloadKeepsTracked(run, repoName, plan, c);
    var s1 := DownloadStage(run, plan, c);
    if s1.Continue? {
      ChunkKeepsTracked(s1.run, repoName, plan, c);
      var s2 := ChunkStage(s1.run, repoName, plan, c);
      if s2.Continue? {
        EmbedKeepsTracked(s2.run, repoName, plan, c);
      }
    }
  }

  /** The stages run form a prefix of download, chunk, store, and a
      temporary directory exists exactly when something ran. */
  predicate Ordered(ran: seq<Stage>, tempMade: bool)
  {
    && (ran == [] || ran == [Downloading] || ran == [Downloading, Chunking]
        || ran == [Downloading, Chunking, Storing])
    && (tempMade <==> ran != [])
  }

  lemma DownloadOrdered(run: Run, plan: Plan, c: Collaborators)
    requires run.ran == [] && !run.tempMade && !run.haveDir && run.chunks == []
    ensures var s := DownloadStage(run, plan, c);
      && s.run.chunks == [] && Ordered(s.run.ran, s.run.tempMade)
      && (s.run.haveDir ==> s.run.ran == [Downloading])
  {
    assert run.ran + [Downloading] == [Downloading];
  }

  lemma ChunkOrdered(run: Run, repoName: string, plan: Plan, c: Collaborators)
    requires run.chunks == [] && Ordered(run.ran, run.tempMade)
    requires run.haveDir ==> run.ran == [Downloading]
    ensures var s := ChunkStage(run, repoName, plan, c);
      && Ordered(s.run.ran, s.run.tempMade)
      && (|s.run.chunks| > 0 ==> s.run.ran == [Downloading, Chunking])
  {
    if plan.chunk && run.haveDir {
      assert run.ran + [Chunking] == [Downloading, Chunking];
    }
  }

  lemma EmbedOrdered(run: Run, plan: Plan, c: Collaborators)
    requires Ordered(run.ran, run.tempMade)
    requires |run.chunks| > 0 ==> run.ran == [Downloading, Chunking]
    ensures var s := EmbedStage(run, plan, c);
      Ordered(s.run.ran, s.run.tempMade)
  {
    if EmbedRuns(run, plan) && |run.chunks| > 0 {
      assert run.ran + [Storing] == [Downloading, Chunking, Storing];
    }
  }

  lemma StagesOrdered(run: Run, repoName: string, plan: Plan, c: Collaborators)
    requires run.ran == [] && !run.tempMade && !run.haveDir && run.chunks == []
    ensures var s := RunStages(run, repoName, plan, c);
      Ordered(s.run.ran, s.run.tempMade)
  {
    DownloadOrdered(run, plan, c);
    var s1 := DownloadStage(run, plan, c);
    if s1.Continue? {
      ChunkOrdered(s1.run, repoName, plan, c);
      var s2 := ChunkStage(s1.run, repoName, plan, c);
      if s2.Continue? {
        EmbedOrdered(s2.run, plan, c);
      }
    }
  }

  /** The shape of every call: the stages run are a prefix of download,
      chunk, store; without a download there is no temporary directory;
      with one, it is removed only on a normal return whose removal works. */
  lemma IndexShape(db: Db, repoName: string, force: Force, c: Collaborators)
    ensures var o := Index(db, repoName, force, c);
      && (o.ran == [] || o.ran == [Downloading] || o.ran == [Downloading, Chunking]
          || o.ran == [Downloading, Chunking, Storing])
      && (o.ran == [] ==> o.temp == NoTemp)
      && (o.ran != [] ==> o.temp == (if o.result.Err? || c.rmtreeFails then Left else Removed))
  {
    if GetRepositoryInfo(repoName, c.remote).Ok? && PlanOf(db, repoName, force, c).embed {
      IndexUnfold(db, repoName, force, c);
      StagesOrdered(StartRun(db, repoName, force, c), repoName, PlanOf(db, repoName, force, c), c);
    }
  }

  /** Every stage either leaves the run alone or persists once. */
  lemma StagesQuiet(run: Run, repoName: string, plan: Plan, c: Collaborators)
    ensures var s := RunStages(run, repoName, plan, c);
      |s.run.persisted| == |run.persisted| ==> s == Continue(run)
  {
    var s1 := DownloadStage(run, plan, c);
    assert s1 == Continue(run) || |s1.run.persisted| == |run.persisted| + 1;
    if s1.Continue? {
      var s2 := ChunkStage(s1.run, repoName, plan, c);
      assert s2 == Continue(s1.run) || |s2.run.persisted| == |s1.run.persisted| + 1;
      if s2.Continue? {
        var s3 := EmbedStage(s2.run, plan, c);
        assert s3 == Continue(s2.run) || |s3.run.persisted| == |s2.run.persisted| + 1;
      }
    }
  }

  /** A call that persists nothing and returns a record with the download
      flag set took the fast path: it returned the stored record. */
  lemma QuietCallIsFastPath(db: Db, repoName: string, force: Force, c: Collaborators)
    ensures var o := Index(db, repoName, force, c);
      o.persisted == [] && o.result.Ok? && o.result.value.downloadOk ==>
        && GetRepositoryInfo(repoName, c.remote).Ok? && !PlanOf(db, repoName, force, c).embed
        && o == Outcome(Ok(GetRepository(db, repoName).value), db, [], [], NoTemp)
  {
    if GetRepositoryInfo(repoName, c.remote).Ok? && PlanOf(db, repoName, force, c).embed {
      IndexUnfold(db, repoName, force, c);
      StagesQuiet(StartRun(db, repoName, force, c), repoName, PlanOf(db, repoName, force, c), c);
    }
  }

  /** No stage changes the commit hash of the working record. */
  lemma StagesKeepCommit(run: Run, repoName: string, plan: Plan, c: Collaborators)
    ensures RunStages(run, repoName, plan, c).run.info.commitHash == run.info.commitHash
  {
    var s1 := DownloadStage(run, plan, c);
    assert s1.run.info.commitHash == run.info.commitHash;
    if s1.Continue? {
      var s2 := ChunkStage(s1.run, repoName, plan, c);
      assert s2.run.info.commitHash == run.info.commitHash;
      if s2.Continue? {
        var s3 := EmbedStage(s2.run, plan, c);
        assert s3.run.info.commitHash == run.info.commitHash;
      }
    }
  }

  /** Every record a call returns carries the commit GitHub reported. */
  lemma ReturnedCommit(db: Db, repoName: string, force: Force, c: Collaborators)
    ensures var o := Index(db, repoName, force, c);
      o.result.Ok? ==> c.remote.Ok? && o.result.value.commitHash == Some(c.remote.value.latestCommit)
  {
    if GetRepositoryInfo(repoName, c.remote).Ok? {
      var current := GetRepositoryInfo(repoName, c.remote).value;
      if PlanOf(db, repoName, force, c).embed {
        IndexUnfold(db, repoName, force, c);
        StagesKeepCommit(StartRun(db, repoName, force, c), repoName, PlanOf(db, repoName, force, c), c);
      } else {
        SkipAllIff(GetRepository(db, repoName), current, force);
      }
    }
  }

  /** The stages never look at the removal oracle. */
  lemma StagesIgnoreRmtree(run: Run, repoName: string, plan: Plan, c: Collaborators, b: bool)
    ensures RunStages(run, repoName, plan, c.(rmtreeFails := b)) == RunStages(run, repoName, plan, c)
  {
    var c' := c.(rmtreeFails := b);
    assert DownloadStage(run, plan, c') == DownloadStage(run, plan, c);
    var s1 := DownloadStage(run, plan, c);
    if s1.Continue? {
      assert ChunkStage(s1.run, repoName, plan, c') == ChunkStage(s1.run, repoName, plan, c);
      var s2 := ChunkStage(s1.run, repoName, plan, c);
      if s2.Continue? {
        assert EmbedStage(s2.run, plan, c') == EmbedStage(s2.run, plan, c);
      }
    }
  }

  // ---------------------------------------------------------------------
  // Whole calls

  /** On the fast path the stored record is returned and nothing happens:
      no stage, no persist, no temporary directory. */
  lemma FastPath(db: Db, repoName: string, c: Collaborators)
    requires c.remote.Ok? && '/' in repoName
    requires GetRepository(db, repoName).Some?
    requires var prev := GetRepository(db, repoName).value;
      && prev.commitHash == Some(c.remote.value.latestCommit) && c.remote.value.latestCommit != ""
      && prev.downloadOk && prev.chunkingOk && prev.embeddingOk
    ensures Index(db, repoName, NoForce, c) == Outcome(Ok(GetRepository(db, repoName).value), db, [], [], NoTemp)
  {
    var current := GetRepositoryInfo(repoName, c.remote).value;
    SkipAllIff(GetRepository(db, repoName), current, NoForce);
  }

  /** A failed download persists the record with `download_successful =
      false`, re-raises the error, runs neither chunking nor storing, leaves
      the temporary directory behind and touches no chunk. */
  lemma DownloadFailure(db: Db, repoName: string, force: Force, c: Collaborators)
    requires GetRepositoryInfo(repoName, c.remote).Ok?
    requires PlanOf(db, repoName, force, c).download
    requires c.listing.Err?
    ensures var o := Index(db, repoName, force, c);
      && o.result == Err(c.listing.error)
      && o.ran == [Downloading]
      && |o.persisted| == 1 && !o.persisted[0].downloadOk
      && GetRepository(o.db, repoName) == Some(o.persisted[0])
      && o.db.chunks == db.chunks
      && o.temp == Left
  {
  }

  /** Chunking only ever runs after a download in the same call. */
  lemma ChunkingNeedsDownload(db: Db, repoName: string, force: Force, c: Collaborators)
    ensures var o := Index(db, repoName, force, c);
      Chunking in o.ran ==> o.ran[0] == Downloading
  {
    IndexShape(db, repoName, force, c);
  }

  /** Same commit, stored download fine but stored chunking failed: the
      download is skipped, so chunking cannot run, and embedding is skipped
      for want of chunks. Nothing is persisted and the freshly fetched
      record comes back with every flag false and zero counts, although the
      store still says the download succeeded. */
  lemma ChunkRetryNeverRuns(db: Db, repoName: string, c: Collaborators)
    requires c.remote.Ok? && '/' in repoName
    requires GetRepository(db, repoName).Some?
    requires var prev := GetRepository(db, repoName).value;
      && prev.commitHash == Some(c.remote.value.latestCommit) && c.remote.value.latestCommit != ""
      && prev.downloadOk && !prev.chunkingOk
    ensures var o := Index(db, repoName, NoForce, c);
      && o.result == GetRepositoryInfo(repoName, c.remote)
      && o.db == db && o.persisted == [] && o.ran == [] && o.temp == NoTemp
      && !o.result.value.downloadOk && !o.result.value.chunkingOk && !o.result.value.embeddingOk
      && o.result.value.numChunks == 0 && o.result.value.numFiles == 0
      && o.result.value != GetRepository(db, repoName).value
  {
  }

  /** Forcing only the re-embedding of an unchanged, fully indexed
      repository stores nothing yet persists the freshly fetched record:
      download and chunking flags false and the chunk count zero, although
      the chunks are still in the store. */
  lemma ReembedOnlyResetsRecord(db: Db, repoName: string, c: Collaborators)
    requires c.remote.Ok? && '/' in repoName
    requires GetRepository(db, repoName).Some?
    requires var prev := GetRepository(db, repoName).value;
      && prev.commitHash == Some(c.remote.value.latestCommit) && c.remote.value.latestCommit != ""
      && prev.downloadOk && prev.chunkingOk && prev.embeddingOk
    ensures var o := Index(db, repoName, Force(false, false, false, true), c);
      && o.result.Ok?
      && o.result.value.embeddingOk && !o.result.value.downloadOk && !o.result.value.chunkingOk
      && o.result.value.numChunks == 0
      && o.persisted == [o.result.value] && o.ran == []
      && o.db.chunks == db.chunks
      && GetRepository(o.db, repoName) == Some(o.result.value)
  {
  }

  /** A chunking error other than `UnicodeDecodeError` is re-raised after
      persisting `chunking_successful = false`; nothing is stored and the
      temporary directory stays. */
  lemma ChunkErrorRaised(db: Db, repoName: string, force: Force, c: Collaborators)
    requires GetRepositoryInfo(repoName, c.remote).Ok?
    requires PlanOf(db, repoName, force, c).download
    requires c.listing.Ok? && c.walkError.Some? && c.walkError.value != UnicodeDecodeError
    ensures var o := Index(db, repoName, force, c);
      && o.result == Err(c.walkError.value)
      && o.ran == [Downloading, Chunking]
      && |o.persisted| == 2 && o.persisted[0].downloadOk && !o.persisted[1].chunkingOk
      && o.db.chunks == db.chunks
      && o.temp == Left
  {
    IndexUnfold(db, repoName, force, c);
    StagesChunkError(StartRun(db, repoName, force, c), repoName, PlanOf(db, repoName, force, c), c);
  }

  /** The stages of a call whose walk ends in an error that is re-raised. */
  lemma StagesChunkError(run: Run, repoName: string, plan: Plan, c: Collaborators)
    requires plan.download && plan.chunk && run.persisted == [] && run.ran == []
    requires c.listing.Ok? && c.walkError.Some? && c.walkError.value != UnicodeDecodeError
    ensures var s := RunStages(run, repoName, plan, c);
      && s == Raised(c.walkError.value, s.run)
      && s.run.ran == [Downloading, Chunking] && s.run.tempMade
      && |s.run.persisted| == 2 && s.run.persisted[0].downloadOk && !s.run.persisted[1].chunkingOk
      && s.run.db.chunks == run.db.chunks
  {
    DownloadSucceeds(run, plan, c);
    var s1 := DownloadStage(run, plan, c);
    ChunkingRaises(s1.run, repoName, plan, c);
    assert RunStages(run, repoName, plan, c) == ChunkStage(s1.run, repoName, plan, c);
  }

  /** A `UnicodeDecodeError` ending the walk is swallowed: with no chunks
      collected before it, the call returns normally with the download
      recorded, chunking recorded as failed, and embedding skipped. The
      fetched record starts with every flag false, so the record persisted
      after chunking repeats the one persisted after the download. */
  lemma UnicodeErrorSwallowed(db: Db, repoName: string, force: Force, c: Collaborators)
    requires GetRepositoryInfo(repoName, c.remote).Ok?
    requires PlanOf(db, repoName, force, c).download
    requires c.listing.Ok? && c.walkError == Some(UnicodeDecodeError)
    requires ChunkRepository(c.files, repoName, c.split, c.uuid) == []
    ensures var o := Index(db, repoName, force, c);
      && o.result.Ok?
      && o.result.value.downloadOk && !o.result.value.chunkingOk && !o.result.value.embeddingOk
      && o.ran == [Downloading, Chunking]
      && o.persisted == [o.result.value, o.result.value]
      && o.db.chunks == db.chunks
  {
    IndexUnfold(db, repoName, force, c);
    var run := StartRun(db, repoName, force, c);
    StagesNoChunks(run, repoName, PlanOf(db, repoName, force, c), c);
    assert !run.info.chunkingOk && !run.info.embeddingOk && run.info.lastIndexed.None?;
  }

  /** The chunks collected before a swallowed `UnicodeDecodeError` are
      stored anyway: the record then says embedding succeeded while
      chunking failed. */
  lemma PartialChunksStored(db: Db, repoName: string, force: Force, c: Collaborators)
    requires GetRepositoryInfo(repoName, c.remote).Ok?
    requires PlanOf(db, repoName, force, c).download
    requires c.listing.Ok? && c.walkError == Some(UnicodeDecodeError)
    requires var cs := ChunkRepository(c.files, repoName, c.split, c.uuid);
      |cs| > 0 && EnsureEmbedded(cs, Some(c.embedder)).Ok?
    ensures var o := Index(db, repoName, force, c);
      && o.result.Ok?
      && !o.result.value.chunkingOk && o.result.value.embeddingOk
      && o.result.value.numChunks == |ChunkRepository(c.files, repoName, c.split, c.uuid)|
      && o.ran == [Downloading, Chunking, Storing]
  {
    IndexUnfold(db, repoName, force, c);
    StagesWithChunks(StartRun(db, repoName, force, c), repoName, PlanOf(db, repoName, force, c), c);
  }

  /** A walk that yields no chunks makes the embed stage skip: nothing is
      stored and the call returns with chunking recorded as successful and
      embedding as not. */
  lemma EmptyWalkSkipsStore(db: Db, repoName: string, force: Force, c: Collaborators)
    requires GetRepositoryInfo(repoName, c.remote).Ok?
    requires PlanOf(db, repoName, force, c).download
    requires c.listing.Ok? && c.walkError.None?
    requires ChunkRepository(c.files, repoName, c.split, c.uuid) == []
    ensures var o := Index(db, repoName, force, c);
      && o.result.Ok? && o.result.value.downloadOk && o.result.value.chunkingOk && !o.result.value.embeddingOk
      && o.result.value.lastIndexed.None?
      && o.ran == [Downloading, Chunking] && |o.persisted| == 2
      && o.db.chunks == db.chunks
  {
    IndexUnfold(db, repoName, force, c);
    var run := StartRun(db, repoName, force, c);
    StagesNoChunks(run, repoName, PlanOf(db, repoName, force, c), c);
    assert !run.info.chunkingOk && !run.info.embeddingOk && run.info.lastIndexed.None?;
  }

  /** A download whose listing succeeds, as the first stage. */
  lemma DownloadSucceeds(run: Run, plan: Plan, c: Collaborators)
    requires plan.download && c.listing.Ok? && run.persisted == [] && run.ran == []
    ensures var s := DownloadStage(run, plan, c);
      && s.Continue? && s.run.haveDir && s.run.tempMade && s.run.info.downloadOk
      && s.run.ran == [Downloading] && s.run.persisted == [s.run.info] && s.run.chunks == run.chunks
      && s.run.db.chunks == run.db.chunks
      && s.run.info == run.info.(numFiles := CountDownloaded(c.listing.value), downloadOk := true)
  {
    assert run.ran + [Downloading] == [Downloading];
  }

  /** Chunking after that download, with no error or a swallowed one. */
  lemma ChunkingContinues(run: Run, repoName: string, plan: Plan, c: Collaborators)
    requires plan.chunk && run.haveDir && run.ran == [Downloading] && |run.persisted| == 1
    requires c.walkError.None? || c.walkError == Some(UnicodeDecodeError)
    ensures var s := ChunkStage(run, repoName, plan, c);
      && s.Continue? && s.run.tempMade == run.tempMade
      && s.run.ran == [Downloading, Chunking] && s.run.persisted == run.persisted + [s.run.info]
      && s.run.info == run.info.(chunkingOk := c.walkError.None?)
      && s.run.chunks == ChunkRepository(c.files, repoName, c.split, c.uuid)
      && s.run.db.chunks == run.db.chunks
  {
    assert run.ran + [Chunking] == [Downloading, Chunking];
  }

  /** The stages of a call that downloads and chunks (with no error or a
      swallowed one) but collects no chunk: storing is skipped. */
  lemma StagesNoChunks(run: Run, repoName: string, plan: Plan, c: Collaborators)
    requires plan.download && plan.chunk && run.persisted == [] && run.ran == []
    requires c.listing.Ok? && (c.walkError.None? || c.walkError == Some(UnicodeDecodeError))
    requires ChunkRepository(c.files, repoName, c.split, c.uuid) == []
    ensures var s := RunStages(run, repoName, plan, c);
            var downloaded := run.info.(numFiles := CountDownloaded(c.listing.value), downloadOk := true);
      && s == Continue(s.run)
      && s.run.info == downloaded.(chunkingOk := c.walkError.None?)
      && s.run.ran == [Downloading, Chunking]
      && s.run.persisted == [downloaded, s.run.info]
      && s.run.db.chunks == run.db.chunks
  {
    DownloadSucceeds(run, plan, c);
    var s1 := DownloadStage(run, plan, c);
    ChunkingContinues(s1.run, repoName, plan, c);
    var s2 := ChunkStage(s1.run, repoName, plan, c);
    assert !EmbedRuns(s2.run, plan);
    assert RunStages(run, repoName, plan, c) == EmbedStage(s2.run, plan, c) == s2;
  }

  /** Chunking after that download, ended by an error that is re-raised. */
  lemma ChunkingRaises(run: Run, repoName: string, plan: Plan, c: Collaborators)
    requires plan.chunk && run.haveDir && run.ran == [Downloading] && |run.persisted| == 1
    requires c.walkError.Some? && c.walkError.value != UnicodeDecodeError
    ensures var s := ChunkStage(run, repoName, plan, c);
      && s.Raised? && s.error == c.walkError.value && s.run.tempMade == run.tempMade
      && s.run.ran == [Downloading, Chunking] && s.run.persisted == run.persisted + [s.run.info]
      && !s.run.info.chunkingOk && s.run.db.chunks == run.db.chunks
  {
    assert run.ran + [Chunking] == [Downloading, Chunking];
  }

  /** Storing after that chunking, when chunks were collected. */
  lemma StoringRuns(run: Run, plan: Plan, c: Collaborators)
    requires plan.embed && |run.chunks| > 0 && run.ran == [Downloading, Chunking] && |run.persisted| == 2
    ensures var s := EmbedStage(run, plan, c);
      && s.run.ran == [Downloading, Chunking, Storing] && s.run.tempMade == run.tempMade
      && s.run.persisted == run.persisted + [s.run.info]
      && (EnsureEmbedded(run.chunks, Some(c.embedder)).Ok? ==> s.Continue?)
      && (s.Continue? ==>
            s.run.info == run.info.(numChunks := |run.chunks|, embeddingOk := true, lastIndexed := Some(c.indexTime)))
      && (s.Raised? ==> s.run.info == run.info.(embeddingOk := false))
  {
    assert EmbedRuns(run, plan);
    assert run.ran + [Storing] == [Downloading, Chunking, Storing];
  }

  /** The three stages of a call that downloads, chunks (with no error or
      a swallowed one) and collects some chunks, as the composition of the
      three steps above. */
  lemma StagesThrough(run: Run, repoName: string, plan: Plan, c: Collaborators)
    requires plan.download && plan.chunk && plan.embed && run.persisted == [] && run.ran == []
    requires c.listing.Ok? && (c.walkError.None? || c.walkError == Some(UnicodeDecodeError))
    requires |ChunkRepository(c.files, repoName, c.split, c.uuid)| > 0
    ensures var s1 := DownloadStage(run, plan, c);
            var s2 := ChunkStage(s1.run, repoName, plan, c);
      && s1.Continue? && s2.Continue?
      && RunStages(run, repoName, plan, c) == EmbedStage(s2.run, plan, c)
      && s2.run.ran == [Downloading, Chunking] && |s2.run.persisted| == 2 && s2.run.tempMade
      && s2.run.persisted[1] == s2.run.info && s2.run.info.downloadOk
      && s2.run.info.chunkingOk == c.walkError.None?
      && s2.run.chunks == ChunkRepository(c.files, repoName, c.split, c.uuid)
  {
    DownloadSucceeds(run, plan, c);
    var s1 := DownloadStage(run, plan, c);
    ChunkingContinues(s1.run, repoName, plan, c);
  }

  /** The same call after storing: the stages run, what is persisted, and
      the returned record. */
  lemma StagesWithChunks(run: Run, repoName: string, plan: Plan, c: Collaborators)
    requires plan.download && plan.chunk && plan.embed && run.persisted == [] && run.ran == []
    requires c.listing.Ok? && (c.walkError.None? || c.walkError == Some(UnicodeDecodeError))
    requires |ChunkRepository(c.files, repoName, c.split, c.uuid)| > 0
    ensures var s := RunStages(run, repoName, plan, c);
            var cs := ChunkRepository(c.files, repoName, c.split, c.uuid);
      && s.run.ran == [Downloading, Chunking, Storing] && |s.run.persisted| == 3
      && s.run.persisted[1].chunkingOk == c.walkError.None? && s.run.tempMade
      && (EnsureEmbedded(cs, Some(c.embedder)).Ok? ==> s.Continue?)
      && (s.Continue? ==>
            && s.run.info.embeddingOk && s.run.info.downloadOk
            && s.run.info.chunkingOk == c.walkError.None?
            && s.run.info.numChunks == |cs|
            && s.run.info.lastIndexed == Some(c.indexTime))
      && (s.Raised? ==> !s.run.persisted[2].embeddingOk)
  {
    StagesThrough(run, repoName, plan, c);
    var s2 := ChunkStage(DownloadStage(run, plan, c).run, repoName, plan, c);
    StoringRuns(s2.run, plan, c);
  }

  /** The embed stage after chunks were collected: on success the flag, the
      indexing time and the chunk count (all chunks, before deduplication)
      are set; on failure the flag is persisted false, the store's error is
      re-raised and the directory is left. */
  lemma EmbedOutcome(db: Db, repoName: string, force: Force, c: Collaborators)
    requires GetRepositoryInfo(repoName, c.remote).Ok?
    requires PlanOf(db, repoName, force, c).download
    requires c.listing.Ok? && c.walkError.None?
    requires |ChunkRepository(c.files, repoName, c.split, c.uuid)| > 0
    ensures var o := Index(db, repoName, force, c);
            var cs := ChunkRepository(c.files, repoName, c.split, c.uuid);
      && o.ran == [Downloading, Chunking, Storing] && |o.persisted| == 3
      && (o.result.Ok? ==>
            && o.result.value.embeddingOk && o.result.value.chunkingOk && o.result.value.downloadOk
            && o.result.value.numChunks == |cs| && o.result.value.lastIndexed == Some(c.indexTime))
      && (o.result.Err? ==> !o.persisted[2].embeddingOk && o.persisted[1].chunkingOk && o.temp == Left)
  {
    IndexUnfold(db, repoName, force, c);
    StagesWithChunks(StartRun(db, repoName, force, c), repoName, PlanOf(db, repoName, force, c), c);
  }

  /** A raised error never reaches the cleanup: a temporary directory made
      by the call is left behind. */
  lemma RaiseLeavesTemp(db: Db, repoName: string, force: Force, c: Collaborators)
    ensures var o := Index(db, repoName, force, c);
      o.result.Err? ==> o.temp != Removed && (Downloading in o.ran ==> o.temp == Left)
  {
    IndexShape(db, repoName, force, c);
  }

  /** On a normal return after a download the directory is removed unless
      the removal fails, and a removal failure changes nothing else. */
  lemma CleanupOnReturn(db: Db, repoName: string, force: Force, c: Collaborators)
    ensures var o := Index(db, repoName, force, c);
            var o' := Index(db, repoName, force, c.(rmtreeFails := !c.rmtreeFails));
      && o.result == o'.result && o.db == o'.db && o.persisted == o'.persisted && o.ran == o'.ran
      && (o.result.Ok? && Downloading in o.ran ==> o.temp == (if c.rmtreeFails then Left else Removed))
  {
    var c' := c.(rmtreeFails := !c.rmtreeFails);
    IndexShape(db, repoName, force, c);
    if GetRepositoryInfo(repoName, c.remote).Ok? && PlanOf(db, repoName, force, c).embed {
      IndexUnfold(db, repoName, force, c);
      IndexUnfold(db, repoName, force, c');
      StagesIgnoreRmtree(StartRun(db, repoName, force, c), repoName, PlanOf(db, repoName, force, c), c, !c.rmtreeFails);
    }
  }

  /** Whenever the call returns normally after persisting, the last record
      persisted is the one returned and `get_repository` gives it back. */
  lemma ReturnedIsStored(db: Db, repoName: string, force: Force, c: Collaborators)
    ensures var o := Index(db, repoName, force, c);
      o.result.Ok? && |o.persisted| > 0 ==>
        o.persisted[|o.persisted| - 1] == o.result.value && GetRepository(o.db, repoName) == Some(o.result.value)
  {
    if GetRepositoryInfo(repoName, c.remote).Ok? && PlanOf(db, repoName, force, c).embed {
      IndexUnfold(db, repoName, force, c);
      StagesKeepTracked(StartRun(db, repoName, force, c), repoName, PlanOf(db, repoName, force, c), c);
    }
  }

  /** A successful full index followed by a second call with the same
      commit and no forcing takes the fast path and changes nothing. */
  lemma SecondCallFastPath(db: Db, repoName: string, c: Collaborators)
    requires c.remote.Ok? && c.remote.value.latestCommit != ""
    requires var o := Index(db, repoName, NoForce, c);
      o.result.Ok? && o.result.value.downloadOk && o.result.value.chunkingOk && o.result.value.embeddingOk
    ensures var o := Index(db, repoName, NoForce, c);
      Index(o.db, repoName, NoForce, c) == Outcome(o.result, o.db, [], [], NoTemp)
  {
    var o := Index(db, repoName, NoForce, c);
    ReturnedIsStored(db, repoName, NoForce, c);
    ReturnedCommit(db, repoName, NoForce, c);
    if |o.persisted| > 0 {
      FastPath(o.db, repoName, c);
    } else {
      QuietCallIsFastPath(db, repoName, NoForce, c);
      SkipAllIff(GetRepository(db, repoName), GetRepositoryInfo(repoName, c.remote).value, NoForce);
      FastPath(db, repoName, c);
    }
  }

  // ---------------------------------------------------------------------
  // Search defaults

  /** `limit or config.max_results` and `score_threshold or
      config.score_threshold`: a given non-zero argument is used as it is,
      and an absent or zero one falls back to the configured value. */
  function SearchDefaults(limit: Option<int>, threshold: Option<real>, maxResults: int, scoreThreshold: real): (r: (int, real))
    ensures limit.Some? && limit.value != 0 ==> r.0 == limit.value
    ensures limit.None? || limit.value == 0 ==> r.0 == maxResults
    ensures threshold.Some? && threshold.value != 0.0 ==> r.1 == threshold.value
    ensures threshold.None? || threshold.value == 0.0 ==> r.1 == scoreThreshold
  {
    (if limit.Some? && limit.value != 0 then limit.value else maxResults,
     if threshold.Some? && threshold.value != 0.0 then threshold.value else scoreThreshold)
  }

  /** Passing zero is the same as passing nothing. */
  lemma ZeroSearchArgumentsAreAbsent(maxResults: int, scoreThreshold: real)
    ensures SearchDefaults(Some(0), Some(0.0), maxResults, scoreThreshold)
         == SearchDefaults(None, None, maxResults, scoreThreshold)
         == (maxResults, scoreThreshold)
  {
  }

  /** Applying the defaults to already defaulted arguments changes nothing. */
  lemma SearchDefaultsIdempotent(limit: Option<int>, threshold: Option<real>, maxResults: int, scoreThreshold: real)
    ensures var r := SearchDefaults(limit, threshold, maxResults, scoreThreshold);
      SearchDefaults(Some(r.0), Some(r.1), maxResults, scoreThreshold) == r
  {
  }
}
