/**
 * One synchronisation run as a function of the world it starts from and of everything the
 * environment answers: the two web responses, the parsed version check, the archive, the
 * order in which the file system lists the folder and whether saving config.json works.
 */
module Synchronizer {
  import opened Types
  import opened FileNames
  import opened Remote
  import opened Folders

  /** The two web requests a run can issue. */
  datatype Request = LatestCommitQuery | ArchiveDownload

  /** What saving config.json does: it writes the given contents, or it throws. */
  datatype SaveOutcome = Saved(config: Bytes) | SaveFailed

  /**
   * Everything a run can change: the Localization folder, how often the completion
   * callback has run, the hashes saved into config.json and the requests sent.
   */
  datatype World = World(folder: Folder, callbacks: nat, savedHashes: seq<Option<string>>, requests: seq<Request>)

  datatype Run = Run(world: World, outcome: Outcome)

  datatype Environment = Environment(
    versionCheck: Response,
    json: ParsedJson,
    download: Response,
    archive: seq<Entry>,
    fileOrder: seq<string>,
    dirOrder: seq<string>,
    save: SaveOutcome)

  /** The completion handler's error test: an error that is neither null nor empty. */
  predicate ReportsError(r: Response) {
    r.error.Some? && r.error.value != ""
  }

  /** The completion handler gets past both of its guards. */
  predicate Proceeds(download: Response) {
    download.isDone && !ReportsError(download)
  }

  /** The folder once it has been cleared and the archive unpacked into it. */
  function Installed(f: Folder, archive: seq<Entry>, fileOrder: seq<string>, dirOrder: seq<string>): Folder {
    Extract(Clear(f, fileOrder, dirOrder).folder, archive)
  }

  /**
   * The completion handler of the archive download: the guards, the clear step, unpacking,
   * moving the files up out of `staging` and the callback. `staging` stands for the first
   * directory the file system lists after unpacking, and the handler in class
   * `LocalizationFolder` always passes one of the unpacked directories. For a name that is
   * no such directory this function still returns and counts the callback without moving
   * any file, which the source never does.
   */
  function Complete(w: World, download: Response, archive: seq<Entry>, fileOrder: seq<string>,
                    dirOrder: seq<string>, staging: string): (r: Run)
    ensures !Proceeds(download) ==> r == Run(w, Returned)
    ensures r.world.savedHashes == w.savedHashes && r.world.requests == w.requests
    ensures r.world.callbacks == w.callbacks + (if Proceeds(download) && r.outcome == Returned then 1 else 0)
    ensures Proceeds(download) && Clear(w.folder, fileOrder, dirOrder).outcome.Threw? ==>
      r.outcome == Clear(w.folder, fileOrder, dirOrder).outcome
    ensures Proceeds(download) && r.outcome == Returned ==>
      var g := Installed(w.folder, archive, fileOrder, dirOrder);
      && Clear(w.folder, fileOrder, dirOrder).outcome == Returned
      && g.dirs != map[]
      && staging !in r.world.folder.dirs
      && (staging in g.dirs ==> forall n :: n in g.dirs[staging] ==>
            n in r.world.folder.files && r.world.folder.files[n] == g.dirs[staging][n])
  {
    if !Proceeds(download) then Run(w, Returned)
    else
      var c := Clear(w.folder, fileOrder, dirOrder);
      if c.outcome.Threw? then Run(w.(folder := c.folder), c.outcome)
      else
        var m := MoveUp(Extract(c.folder, archive), staging);
        if m.outcome.Threw? then Run(w.(folder := m.folder), m.outcome)
        else Run(w.(folder := m.folder, callbacks := w.callbacks + 1), Returned)
  }

  /**
   * The download coroutine: it sends the archive request and, unless the request reports
   * an error, hands the response to the completion handler.
   */
  function Download(w: World, env: Environment, staging: string): (r: Run)
    ensures r.world.requests == w.requests + [ArchiveDownload]
    ensures env.download.error.Some? ==> r == Run(w.(requests := w.requests + [ArchiveDownload]), Returned)
  {
    var sent := w.(requests := w.requests + [ArchiveDownload]);
    if env.download.error.Some? then Run(sent, Returned)
    else Complete(sent, env.download, env.archive, env.fileOrder, env.dirOrder, staging)
  }

  /**
   * Recording the latest hash in config.json. The save is attempted only for a non-empty
   * hash different from the stored one; a failed save deletes config.json and rethrows.
   */
  function UpdateConfig(w: World, stored: string, latest: Option<string>, save: SaveOutcome): (r: Run)
    ensures r.world.callbacks == w.callbacks && r.world.requests == w.requests
    ensures r.world.folder.dirs == w.folder.dirs
    ensures forall n :: n != ConfigFile ==>
      (n in r.world.folder.files <==> n in w.folder.files) &&
      (n in w.folder.files ==> r.world.folder.files[n] == w.folder.files[n])
    ensures latest == Some("") || latest == Some(stored) ==> r == Run(w, Returned)
    ensures latest != Some("") && latest != Some(stored) && save.Saved? ==>
      && r.outcome == Returned
      && r.world.savedHashes == w.savedHashes + [latest]
      && ConfigFile in r.world.folder.files && r.world.folder.files[ConfigFile] == save.config
    ensures latest != Some("") && latest != Some(stored) && save.SaveFailed? ==>
      && r.outcome == Threw(ConfigWriteFailed)
      && r.world.savedHashes == w.savedHashes
      && ConfigFile !in r.world.folder.files
  {
    if !ShouldSaveConfig(stored, latest) then Run(w, Returned)
    else match save
      case Saved(config) =>
        Run(w.(folder := w.folder.(files := w.folder.files[ConfigFile := config]),
               savedHashes := w.savedHashes + [latest]), Returned)
      case SaveFailed =>
        Run(w.(folder := w.folder.(files := w.folder.files - {ConfigFile})), Threw(ConfigWriteFailed))
  }

  /** The hash the version check settles on. */
  function Latest(env: Environment): Option<string> {
    LatestCommitHash(env.versionCheck.text, env.json)
  }

  /** The version check succeeds and reports a hash other than the stored one. */
  predicate DownloadAttempted(stored: string, env: Environment) {
    env.versionCheck.error.None? && NeedsDownload(Latest(env), stored)
  }

  /**
   * A whole run: the version check, the comparison with the stored hash, the download and
   * its completion, then the config write once the download coroutine has ended without
   * an exception.
   */
  function Sync(w: World, stored: string, env: Environment, staging: string): (r: Run)
    ensures r.world.requests ==
      w.requests + [LatestCommitQuery] + (if DownloadAttempted(stored, env) then [ArchiveDownload] else [])
    ensures !DownloadAttempted(stored, env) ==>
      r == Run(w.(requests := w.requests + [LatestCommitQuery]), Returned)
    ensures env.versionCheck.error.None? && Latest(env) == Some("") ==>
      (DownloadAttempted(stored, env) <==> stored != "")
    ensures r.world.callbacks <= w.callbacks + 1
    ensures r.world.savedHashes == w.savedHashes || r.world.savedHashes == w.savedHashes + [Latest(env)]
    ensures r.world.savedHashes != w.savedHashes <==>
      && DownloadAttempted(stored, env)
      && Download(w.(requests := w.requests + [LatestCommitQuery]), env, staging).outcome == Returned
      && Latest(env) != Some("")
      && env.save.Saved?
  {
    var asked := w.(requests := w.requests + [LatestCommitQuery]);
    if env.versionCheck.error.Some? then Run(asked, Returned)
    else
      var latest := Latest(env);
      if !NeedsDownload(latest, stored) then Run(asked, Returned)
      else
        var d := Download(asked, env, staging);
        if d.outcome.Threw? then d
        else UpdateConfig(d.world, stored, latest, env.save)
  }

  /** The completion handler keeps the preserved files, whether it returns or throws. */
  lemma CompleteKeepsPreserved(w: World, download: Response, archive: seq<Entry>, fileOrder: seq<string>,
                               dirOrder: seq<string>, staging: string, n: string)
    requires IsListing(dirOrder, w.folder.dirs.Keys) && IsPreserved(n)
    ensures Lookup(Complete(w, download, archive, fileOrder, dirOrder, staging).world.folder, "", n) == Lookup(w.folder, "", n)
  {
    if Proceeds(download) {
      var c := Clear(w.folder, fileOrder, dirOrder);
      ClearKeepsPreserved(w.folder, fileOrder, dirOrder);
      if c.outcome == Returned {
        InstallKeepsPreserved(c.folder, archive, staging, n);
      }
    }
  }

  /**
   * No run deletes or changes a preserved file: the clear step keeps them, unpacking skips
   * their names and the directory whose files move up was filled by unpacking only.
   */
  lemma SyncKeepsPreservedFiles(w: World, stored: string, env: Environment, staging: string)
    requires IsListing(env.dirOrder, w.folder.dirs.Keys)
    ensures var r := Sync(w, stored, env, staging);
      forall n :: IsPreserved(n) ==> Lookup(r.world.folder, "", n) == Lookup(w.folder, "", n)
  {
    forall n | IsPreserved(n)
      ensures Lookup(Sync(w, stored, env, staging).world.folder, "", n) == Lookup(w.folder, "", n)
    {
      var asked := w.(requests := w.requests + [LatestCommitQuery]);
      if DownloadAttempted(stored, env) && env.download.error.None? {
        CompleteKeepsPreserved(asked, env.download, env.archive, env.fileOrder, env.dirOrder, staging, n);
      }
    }
  }

  /**
   * What a top-level name holds once the archive has replaced the folder's contents:
   * the archive's file in `staging`, else the archive's top-level file, else the
   * preserved file that was there before; any other earlier file is gone.
   */
  function InstalledContent(f: Folder, archive: seq<Entry>, staging: string, n: string): Option<Bytes> {
    match LastWriter(archive, staging, n)
    case Some(i) => Some(archive[i].data)
    case None =>
      match LastWriter(archive, "", n)
      case Some(j) => Some(archive[j].data)
      case None => if IsPreserved(n) then Lookup(f, "", n) else None
  }

  /**
   * A completion that returns replaces the folder's contents with the downloaded ones:
   * every top-level file is an archive file or a preserved file kept from before, staged
   * files win over top-level ones, and the directories left are the archive's other
   * directories.
   */
  lemma CompleteReplacesContents(w: World, download: Response, archive: seq<Entry>, fileOrder: seq<string>,
                                 dirOrder: seq<string>, staging: string)
    requires IsListing(fileOrder, w.folder.files.Keys) && IsListing(dirOrder, w.folder.dirs.Keys)
    requires Proceeds(download)
    requires staging in Installed(w.folder, archive, fileOrder, dirOrder).dirs
    requires Complete(w, download, archive, fileOrder, dirOrder, staging).outcome == Returned
    ensures var after := Complete(w, download, archive, fileOrder, dirOrder, staging).world.folder;
      && (forall n :: Lookup(after, "", n) == InstalledContent(w.folder, archive, staging, n))
      && after.dirs.Keys == ArchiveDirs(archive) - {staging}
  {
    var c := Clear(w.folder, fileOrder, dirOrder);
    ClearSucceedsIff(w.folder, fileOrder, dirOrder);
    assert c.folder == Folder(Preserved(w.folder.files), map[]);
    var g := Extract(c.folder, archive);
    ExtractDirs(c.folder, archive);
    MoveUpMovesStagedFiles(g, staging);
    forall n
      ensures Lookup(MoveUp(g, staging).folder, "", n) == InstalledContent(w.folder, archive, staging, n)
    {
      InstallContent(c.folder, archive, staging, n);
    }
  }

  /**
   * When every entry of the archive lies under the one directory that is moved up, a
   * completed download leaves no subdirectory behind.
   */
  lemma SingleFolderArchiveLeavesNoDirectory(w: World, stored: string, env: Environment, staging: string)
    requires IsListing(env.dirOrder, w.folder.dirs.Keys)
    requires ArchiveDirs(env.archive) <= {staging}
    requires DownloadAttempted(stored, env) && env.download.error.None? && env.download.isDone
    requires Sync(w, stored, env, staging).outcome == Returned
    ensures Sync(w, stored, env, staging).world.folder.dirs == map[]
  {
    var asked := w.(requests := w.requests + [LatestCommitQuery]);
    var d := Download(asked, env, staging);
    var c := Clear(w.folder, env.fileOrder, env.dirOrder);
    assert c.outcome == Returned;
    assert c.folder.dirs == map[];
    var g := Extract(c.folder, env.archive);
    ExtractDirs(c.folder, env.archive);
    assert d.world.folder == MoveUp(g, staging).folder;
  }

  /**
   * A subdirectory that is not empty, such as a second top-level directory of an earlier
   * archive, makes every later update throw in the clear step: the callback never runs
   * and no hash is saved.
   */
  lemma LeftoverDirectoryBlocksUpdates(w: World, stored: string, env: Environment, staging: string, d: string)
    requires IsListing(env.fileOrder, w.folder.files.Keys) && IsListing(env.dirOrder, w.folder.dirs.Keys)
    requires d in w.folder.dirs && w.folder.dirs[d] != map[]
    requires DownloadAttempted(stored, env) && env.download.error.None? && Proceeds(env.download)
    ensures var r := Sync(w, stored, env, staging);
      r.outcome.Threw? && r.world.callbacks == w.callbacks && r.world.savedHashes == w.savedHashes
  {
    ClearSucceedsIff(w.folder, env.fileOrder, env.dirOrder);
  }

  /**
   * The download coroutine ends normally when the archive request fails, so the run still
   * saves the new hash although nothing was installed and the callback did not run.
   */
  lemma FailedDownloadStillSavesHash(w: World, stored: string, env: Environment, staging: string)
    requires DownloadAttempted(stored, env) && Latest(env) != Some("")
    requires env.download.error.Some? && env.save.Saved?
    ensures var r := Sync(w, stored, env, staging);
      && r.outcome == Returned
      && r.world.savedHashes == w.savedHashes + [Latest(env)]
      && r.world.callbacks == w.callbacks
      && r.world.folder.dirs == w.folder.dirs
      && forall n :: n != ConfigFile ==> Lookup(r.world.folder, "", n) == Lookup(w.folder, "", n)
  {
    var asked := w.(requests := w.requests + [LatestCommitQuery]);
    var d := Download(asked, env, staging);
    assert d.world.folder == w.folder;
  }

  /**
   * Once a run has saved the latest hash, a second run whose stored hash is that saved
   * hash and whose version check reports the same hash downloads nothing and changes
   * nothing but the request log.
   */
  lemma SecondRunIsNoOp(w: World, stored: string, env: Environment, staging: string, env2: Environment, staging2: string)
    requires Sync(w, stored, env, staging).world.savedHashes != w.savedHashes
    requires Latest(env).Some?
    requires env2.versionCheck == env.versionCheck && env2.json == env.json
    ensures var r := Sync(w, stored, env, staging);
      && r.world.savedHashes == w.savedHashes + [Latest(env)]
      && Sync(r.world, Latest(env).value, env2, staging2) ==
           Run(r.world.(requests := r.world.requests + [LatestCommitQuery]), Returned)
  {
    var r := Sync(w, stored, env, staging);
    assert r.world.savedHashes == w.savedHashes + [Latest(env)];
  }
}
