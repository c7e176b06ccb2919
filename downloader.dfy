/**
 * The downloader as the source runs it: a sequence of steps that change the Localization
 * folder in place. Each method is proved to leave exactly the state the matching function
 * of module Synchronizer or Folders describes.
 */
module Downloader {
  import opened Types
  import opened FileNames
  import opened Remote
  import opened Folders
  import opened Synchronizer

  class LocalizationFolder {
    /** The files directly under the Localization folder. */
    var files: Files
    /** Each subdirectory of the folder and the files directly in it. */
    var dirs: map<string, Files>
    /** How often the completion callback has been invoked. */
    var callbacks: nat
    /** The hashes successfully saved into config.json, oldest first. */
    var savedHashes: seq<Option<string>>
    /** The web requests sent, oldest first. */
    var requests: seq<Request>

    function State(): World
      reads this
    {
      World(Folder(files, dirs), callbacks, savedHashes, requests)
    }

    constructor (files: Files, dirs: map<string, Files>)
      ensures State() == World(Folder(files, dirs), 0, [], [])
    {
      this.files := files;
      this.dirs := dirs;
      callbacks := 0;
      savedHashes := [];
      requests := [];
    }

    /**
     * The file loop of the clear step: deletes every non-preserved file in `fileOrder`,
     * throwing at the first file of an unexpected kind.
     */
    method DeleteFiles(fileOrder: seq<string>) returns (stop: Option<nat>)
      modifies this`files
      ensures stop.Some? ==>
        && stop.value < |fileOrder| && IsUnexpected(fileOrder[stop.value])
        && (forall j :: 0 <= j < stop.value ==> IsExpectedFile(fileOrder[j]))
        && files == DeleteVisited(old(files), fileOrder[..stop.value])
      ensures stop.None? ==>
        && (forall j :: 0 <= j < |fileOrder| ==> IsExpectedFile(fileOrder[j]))
        && files == DeleteVisited(old(files), fileOrder)
    {
      var i := 0;
      while i < |fileOrder|
        invariant 0 <= i <= |fileOrder|
        invariant forall j :: 0 <= j < i ==> IsExpectedFile(fileOrder[j])
        invariant files == DeleteVisited(old(files), fileOrder[..i])
      {
        var name := fileOrder[i];
        if !IsExpectedFile(name) {
          return Some(i);
        }
        if !IsPreserved(name) {
          files := files - {name};
        }
        assert fileOrder[..i + 1] == fileOrder[..i] + [name];
        DeleteVisitedStep(old(files), fileOrder[..i], name);
        i := i + 1;
      }
      assert fileOrder[..i] == fileOrder;
      stop := None;
    }

    /**
     * The directory loop of the clear step: deletes every directory in `dirOrder`,
     * non-recursively, throwing at the first one that is not empty.
     */
    method DeleteDirectories(dirOrder: seq<string>) returns (stop: Option<nat>)
      modifies this`dirs
      ensures stop.Some? ==>
        && stop.value < |dirOrder| && IsNonEmptyIn(old(dirs), dirOrder[stop.value])
        && (forall j :: 0 <= j < stop.value ==> !IsNonEmptyIn(old(dirs), dirOrder[j]))
        && dirs == old(dirs) - ListedBefore(dirOrder, stop.value)
      ensures stop.None? ==>
        && (forall j :: 0 <= j < |dirOrder| ==> !IsNonEmptyIn(old(dirs), dirOrder[j]))
        && dirs == old(dirs) - ListedBefore(dirOrder, |dirOrder|)
    {
      var k := 0;
      while k < |dirOrder|
        invariant 0 <= k <= |dirOrder|
        invariant forall j :: 0 <= j < k ==> !IsNonEmptyIn(old(dirs), dirOrder[j])
        invariant dirs == old(dirs) - ListedBefore(dirOrder, k)
      {
        var d := dirOrder[k];
        if d in dirs && dirs[d] != map[] {
          return Some(k);
        }
        ListedBeforeStep(dirOrder, k);
        dirs := dirs - {d};
        k := k + 1;
      }
      stop := None;
    }

    /**
     * Deletes every file but the preserved ones, throwing at the first file of an
     * unexpected kind, then deletes every subdirectory, throwing at the first non-empty one.
     */
    method ClearLocalizationDirectory(fileOrder: seq<string>, dirOrder: seq<string>) returns (outcome: Outcome)
      modifies this
      ensures State() == old(State()).(folder := Clear(old(State()).folder, fileOrder, dirOrder).folder)
      ensures outcome == Clear(old(State()).folder, fileOrder, dirOrder).outcome
    {
      ghost var f := old(State()).folder;
      var stop := DeleteFiles(fileOrder);
      if stop.Some? {
        ClearStopsAtFile(f, fileOrder, dirOrder, stop.value);
        return Threw(UnexpectedFile(fileOrder[stop.value]));
      }
      stop := DeleteDirectories(dirOrder);
      if stop.Some? {
        ClearStopsAtDir(f, fileOrder, dirOrder, stop.value);
        return Threw(DirectoryNotEmpty(dirOrder[stop.value]));
      }
      ClearCompletes(f, fileOrder, dirOrder);
      outcome := Returned;
    }

    /** Unpacks one archive entry: creates its directory and writes its file unless the name is skipped. */
    method UnpackEntry(e: Entry)
      modifies this`files, this`dirs
      ensures Folder(files, dirs) == ExtractEntry(old(Folder(files, dirs)), e)
    {
      var p := SplitEntryPath(e.path);
      if p.dir != "" && p.dir !in dirs {
        dirs := dirs[p.dir := map[]];
      }
      if p.file != "" && !SkippedOnExtract(p.file) {
        if p.dir == "" {
          files := files[p.file := e.data];
        } else {
          dirs := dirs[p.dir := dirs[p.dir][p.file := e.data]];
        }
      }
    }

    /** Unpacks the archive entries into the folder one after another. */
    method UnpackArchive(entries: seq<Entry>)
      modifies this`files, this`dirs
      ensures State() == old(State()).(folder := Extract(old(State()).folder, entries))
    {
      var i := 0;
      while i < |entries|
        invariant 0 <= i <= |entries|
        invariant Folder(files, dirs) == Extract(old(Folder(files, dirs)), entries[..i])
      {
        UnpackEntry(entries[i]);
        assert entries[..i + 1][..i] == entries[..i];
        i := i + 1;
      }
      assert entries[..i] == entries;
    }

    /** Moves the files of `staging` up into the folder one at a time, overwriting, leaving `staging` empty. */
    method MoveStagedFiles(staging: string)
      requires staging in dirs
      modifies this`files, this`dirs
      ensures files == old(files) + old(dirs)[staging]
      ensures dirs == old(dirs)[staging := map[]]
    {
      var staged := dirs[staging];
      var pending := staged.Keys;
      assert PendingFiles(staged, pending) == staged;
      assert MovedFiles(staged, pending) == map[];
      while pending != {}
        invariant pending <= staged.Keys
        invariant files == old(files) + MovedFiles(staged, pending)
        invariant dirs == old(dirs)[staging := PendingFiles(staged, pending)]
        decreases pending
      {
        var n :| n in pending;
        MoveOneFile(old(files), staged, pending, n);
        files := files[n := dirs[staging][n]];
        dirs := dirs[staging := dirs[staging] - {n}];
        pending := pending - {n};
      }
      assert MovedFiles(staged, pending) == staged;
      assert PendingFiles(staged, pending) == map[];
    }

    /**
     * Moves every file of the first directory the file system lists up into the folder,
     * overwriting, deletes the emptied directory and reports which directory it was.
     */
    method MoveFilesUp() returns (outcome: Outcome, staging: string)
      modifies this`files, this`dirs
      ensures old(dirs) != map[] ==> staging in old(dirs)
      ensures State() == old(State()).(folder := MoveUp(old(State()).folder, staging).folder)
      ensures outcome == MoveUp(old(State()).folder, staging).outcome
    {
      if dirs == map[] {
        return Threw(NoStagingDirectory), "";
      }
      staging :| staging in dirs;
      MoveStagedFiles(staging);
      dirs := dirs - {staging};
      assert dirs == old(dirs) - {staging};
      outcome := Returned;
    }

    /**
     * Replaces the folder's contents with the downloaded archive's, keeping the preserved
     * files, and invokes the callback once everything has been moved.
     */
    method OnDownloadLocalizationComplete(download: Response, archive: seq<Entry>,
                                          fileOrder: seq<string>, dirOrder: seq<string>)
      returns (outcome: Outcome, staging: string)
      modifies this
      ensures State() == Complete(old(State()), download, archive, fileOrder, dirOrder, staging).world
      ensures outcome == Complete(old(State()), download, archive, fileOrder, dirOrder, staging).outcome
      ensures Proceeds(download) && outcome == Returned ==>
        staging in Installed(old(State()).folder, archive, fileOrder, dirOrder).dirs
    {
      staging := "";
      if !download.isDone {
        return Returned, staging;
      }
      if ReportsError(download) {
        return Returned, staging;
      }
      outcome := ClearLocalizationDirectory(fileOrder, dirOrder);
      if outcome.Threw? {
        return;
      }
      UnpackArchive(archive);
      outcome, staging := MoveFilesUp();
      if outcome.Threw? {
        return;
      }
      callbacks := callbacks + 1;
    }

    /** Sends the archive request and hands a response without error to the completion handler. */
    method DownloadLocalizationFromWeb(env: Environment) returns (outcome: Outcome, staging: string)
      modifies this
      ensures State() == Download(old(State()), env, staging).world
      ensures outcome == Download(old(State()), env, staging).outcome
      ensures env.download.error.None? && Proceeds(env.download) && outcome == Returned ==>
        staging in Installed(old(State()).folder, env.archive, env.fileOrder, env.dirOrder).dirs
    {
      requests := requests + [ArchiveDownload];
      if env.download.error.Some? {
        return Returned, "";
      }
      outcome, staging := OnDownloadLocalizationComplete(env.download, env.archive, env.fileOrder, env.dirOrder);
    }

    /** Saves the latest hash into config.json; when saving throws, deletes config.json and rethrows. */
    method UpdateConfigFile(stored: string, latest: Option<string>, save: SaveOutcome) returns (outcome: Outcome)
      modifies this
      ensures State() == UpdateConfig(old(State()), stored, latest, save).world
      ensures outcome == UpdateConfig(old(State()), stored, latest, save).outcome
    {
      if (Some(stored) != latest || stored == "") && latest != Some("") {
        match save
        case Saved(config) =>
          files := files[ConfigFile := config];
          savedHashes := savedHashes + [latest];
        case SaveFailed =>
          if ConfigFile in files {
            files := files - {ConfigFile};
          }
          return Threw(ConfigWriteFailed);
      }
      outcome := Returned;
    }

    /**
     * One run: asks for the latest commit, downloads and installs the archive when its hash
     * differs from the stored one, then records the hash. `stored` is the hash read from
     * config.json when the run starts.
     */
    method CheckIfCurrentLocalizationIsUpToDate(stored: string, env: Environment)
      returns (outcome: Outcome, staging: string)
      modifies this
      ensures State() == Sync(old(State()), stored, env, staging).world
      ensures outcome == Sync(old(State()), stored, env, staging).outcome
      ensures (DownloadAttempted(stored, env) && env.download.error.None? && Proceeds(env.download) &&
               Download(old(State()).(requests := old(State()).requests + [LatestCommitQuery]), env, staging).outcome == Returned) ==>
        staging in Installed(old(State()).folder, env.archive, env.fileOrder, env.dirOrder).dirs
    {
      requests := requests + [LatestCommitQuery];
      staging := "";
      if env.versionCheck.error.Some? {
        return Returned, staging;
      }
      var latest := Some("");
      var lookup := GetHashOfLastCommitFromAPIResponse(env.versionCheck.text, env.json);
      if lookup.Found? {
        latest := lookup.sha;
      }
      if latest != Some(stored) {
        outcome, staging := DownloadLocalizationFromWeb(env);
        if outcome.Threw? {
          return;
        }
        outcome := UpdateConfigFile(stored, latest, env.save);
      } else {
        outcome := Returned;
      }
    }
  }
}
