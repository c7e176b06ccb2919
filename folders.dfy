/**
 * The Localization folder as a value, and the three rebuild steps as functions of it:
 * clearing the folder, unpacking the archive into it, and moving the unpacked files up
 * out of the archive's top-level directory.
 */
module Folders {
  import opened Types
  import opened FileNames

  type Files = map<string, Bytes>

  /** The files directly under the folder, and each subdirectory with the files directly in it. */
  datatype Folder = Folder(files: Files, dirs: map<string, Files>)

  /** The folder after a step, and how the step ended. */
  datatype Step = Step(folder: Folder, outcome: Outcome)

  /** One entry of the downloaded archive: its path inside the archive and its contents. */
  datatype Entry = Entry(path: string, data: Bytes)

  /** `order` is how the file system enumerates the names in `names`. */
  predicate IsListing(order: seq<string>, names: set<string>) {
    (forall i :: 0 <= i < |order| ==> order[i] in names) && (forall n :: n in names ==> n in order)
  }

  /** Only the preserved files of `files`. */
  function Preserved(files: Files): Files {
    map n | n in files && IsPreserved(n) :: files[n]
  }

  /** `files` once every non-preserved name listed in `visited` has been deleted. */
  function DeleteVisited(files: Files, visited: seq<string>): Files {
    map n | n in files && (IsPreserved(n) || n !in visited) :: files[n]
  }

  lemma DeleteVisitedStep(files: Files, visited: seq<string>, name: string)
    ensures DeleteVisited(files, visited + [name]) ==
      if IsPreserved(name) then DeleteVisited(files, visited) else DeleteVisited(files, visited) - {name}
  {
  }

  /** The directories listed in the first `k` positions of `order`. */
  function ListedBefore(order: seq<string>, k: nat): set<string>
    requires k <= |order|
  {
    set j | 0 <= j < k :: order[j]
  }

  lemma ListedBeforeStep(order: seq<string>, k: nat)
    requires k < |order|
    ensures ListedBefore(order, k + 1) == ListedBefore(order, k) + {order[k]}
  {
  }

  predicate IsUnexpected(name: string) {
    !IsExpectedFile(name)
  }

  predicate IsNonEmptyIn(dirs: map<string, Files>, d: string) {
    d in dirs && dirs[d] != map[]
  }

  /** Position of the first non-empty directory in `order`. */
  function FirstNonEmpty(dirs: map<string, Files>, order: seq<string>): Option<nat> {
    FirstWhere(order, d => IsNonEmptyIn(dirs, d))
  }

  /**
   * The clear step. Files are visited in `fileOrder`: an unexpected file throws, leaving
   * the files visited before it deleted; every other non-preserved file is deleted. Then
   * subdirectories are deleted in `dirOrder`, non-recursively, so a non-empty one throws.
   */
  function Clear(f: Folder, fileOrder: seq<string>, dirOrder: seq<string>): (s: Step)
    ensures s.outcome == Returned || s.outcome.failure.UnexpectedFile? || s.outcome.failure.DirectoryNotEmpty?
  {
    match FirstWhere(fileOrder, IsUnexpected)
    case Some(k) =>
      Step(Folder(DeleteVisited(f.files, fileOrder[..k]), f.dirs), Threw(UnexpectedFile(fileOrder[k])))
    case None =>
      var files := DeleteVisited(f.files, fileOrder);
      match FirstNonEmpty(f.dirs, dirOrder)
      case Some(k) =>
        Step(Folder(files, f.dirs - ListedBefore(dirOrder, k)), Threw(DirectoryNotEmpty(dirOrder[k])))
      case None =>
        Step(Folder(files, f.dirs - ListedBefore(dirOrder, |dirOrder|)), Returned)
  }

  /** The clear step throws at the first file of an unexpected kind. */
  lemma ClearStopsAtFile(f: Folder, fileOrder: seq<string>, dirOrder: seq<string>, i: nat)
    requires i < |fileOrder| && IsUnexpected(fileOrder[i])
    requires forall j :: 0 <= j < i ==> IsExpectedFile(fileOrder[j])
    ensures Clear(f, fileOrder, dirOrder) ==
      Step(Folder(DeleteVisited(f.files, fileOrder[..i]), f.dirs), Threw(UnexpectedFile(fileOrder[i])))
  {
    assert FirstWhere(fileOrder, IsUnexpected) == Some(i);
  }

  /** With every file expected, the clear step throws at the first non-empty directory. */
  lemma ClearStopsAtDir(f: Folder, fileOrder: seq<string>, dirOrder: seq<string>, k: nat)
    requires forall j :: 0 <= j < |fileOrder| ==> IsExpectedFile(fileOrder[j])
    requires k < |dirOrder| && IsNonEmptyIn(f.dirs, dirOrder[k])
    requires forall j :: 0 <= j < k ==> !IsNonEmptyIn(f.dirs, dirOrder[j])
    ensures Clear(f, fileOrder, dirOrder) ==
      Step(Folder(DeleteVisited(f.files, fileOrder), f.dirs - ListedBefore(dirOrder, k)),
           Threw(DirectoryNotEmpty(dirOrder[k])))
  {
    assert FirstWhere(fileOrder, IsUnexpected) == None;
    assert FirstNonEmpty(f.dirs, dirOrder) == Some(k);
  }

  /** With every file expected and every listed directory empty, the clear step returns. */
  lemma ClearCompletes(f: Folder, fileOrder: seq<string>, dirOrder: seq<string>)
    requires forall j :: 0 <= j < |fileOrder| ==> IsExpectedFile(fileOrder[j])
    requires forall j :: 0 <= j < |dirOrder| ==> !IsNonEmptyIn(f.dirs, dirOrder[j])
    ensures Clear(f, fileOrder, dirOrder) ==
      Step(Folder(DeleteVisited(f.files, fileOrder), f.dirs - ListedBefore(dirOrder, |dirOrder|)), Returned)
  {
    assert FirstWhere(fileOrder, IsUnexpected) == None;
    assert FirstNonEmpty(f.dirs, dirOrder) == None;
  }

  /** Whatever happens, clearing keeps the preserved files and creates or changes nothing. */
  lemma ClearKeepsPreserved(f: Folder, fileOrder: seq<string>, dirOrder: seq<string>)
    ensures var s := Clear(f, fileOrder, dirOrder);
      && (forall n :: IsPreserved(n) ==> (n in s.folder.files <==> n in f.files))
      && (forall n :: n in s.folder.files ==> n in f.files && s.folder.files[n] == f.files[n])
      && (forall d :: d in s.folder.dirs ==> d in f.dirs && s.folder.dirs[d] == f.dirs[d])
  {
  }

  /**
   * An unexpected file throws before any directory is touched; the files visited before
   * it are gone, it and the files after it are still there.
   */
  lemma ClearThrowsOnUnexpected(f: Folder, fileOrder: seq<string>, dirOrder: seq<string>)
    requires Clear(f, fileOrder, dirOrder).outcome.Threw?
    requires Clear(f, fileOrder, dirOrder).outcome.failure.UnexpectedFile?
    ensures var s := Clear(f, fileOrder, dirOrder);
      exists k :: 0 <= k < |fileOrder| && fileOrder[k] == s.outcome.failure.name
        && IsUnexpected(fileOrder[k])
        && (forall i :: 0 <= i < k ==> IsExpectedFile(fileOrder[i]))
        && s.folder == Folder(DeleteVisited(f.files, fileOrder[..k]), f.dirs)
  {
  }

  /**
   * With complete listings, clearing succeeds exactly when every file is of an expected
   * kind and every subdirectory is empty, and then leaves the preserved files only.
   */
  lemma ClearSucceedsIff(f: Folder, fileOrder: seq<string>, dirOrder: seq<string>)
    requires IsListing(fileOrder, f.files.Keys) && IsListing(dirOrder, f.dirs.Keys)
    ensures var s := Clear(f, fileOrder, dirOrder);
      && (s.outcome == Returned <==>
            (forall n :: n in f.files ==> IsExpectedFile(n)) && (forall d :: d in f.dirs ==> f.dirs[d] == map[]))
      && (s.outcome == Returned ==> s.folder == Folder(Preserved(f.files), map[]))
  {
  }

  /** What is stored at `name` inside directory `dir` (the folder itself when `dir` is empty). */
  function Lookup(f: Folder, dir: string, name: string): Option<Bytes> {
    if dir == "" then (if name in f.files then Some(f.files[name]) else None)
    else if dir in f.dirs && name in f.dirs[dir] then Some(f.dirs[dir][name])
    else None
  }

  /** Unpacking `e` writes a file at `name` in `dir`. */
  predicate Writes(e: Entry, dir: string, name: string) {
    var p := SplitEntryPath(e.path);
    p.dir == dir && p.file == name && name != "" && !SkippedOnExtract(name)
  }

  /** Unpacking one archive entry. */
  function ExtractEntry(f: Folder, e: Entry): Folder {
    var p := SplitEntryPath(e.path);
    var g := if p.dir != "" && p.dir !in f.dirs then f.(dirs := f.dirs[p.dir := map[]]) else f;
    if p.file == "" || SkippedOnExtract(p.file) then g
    else if p.dir == "" then g.(files := g.files[p.file := e.data])
    else g.(dirs := g.dirs[p.dir := g.dirs[p.dir][p.file := e.data]])
  }

  /** Unpacking the archive entries one after another. */
  function Extract(f: Folder, entries: seq<Entry>): Folder {
    if entries == [] then f
    else ExtractEntry(Extract(f, entries[..|entries| - 1]), entries[|entries| - 1])
  }

  /** The directory an entry's path names, as a set: empty for a path without one. */
  function EntryDir(e: Entry): set<string> {
    var d := SplitEntryPath(e.path).dir;
    if d != "" then {d} else {}
  }

  /** The directories named by the archive's entries, gathered in the order they are unpacked. */
  function ArchiveDirs(entries: seq<Entry>): (dirs: set<string>)
    ensures "" !in dirs
  {
    if entries == [] then {}
    else ArchiveDirs(entries[..|entries| - 1]) + EntryDir(entries[|entries| - 1])
  }

  /** The last archive entry written at `name` in `dir`, if any. */
  function LastWriter(entries: seq<Entry>, dir: string, name: string): Option<nat> {
    LastWhere(entries, e => Writes(e, dir, name))
  }

  /** Unpacking one entry changes at most the location it writes. */
  lemma ExtractEntryLookup(f: Folder, e: Entry, dir: string, name: string)
    ensures Lookup(ExtractEntry(f, e), dir, name) ==
      if Writes(e, dir, name) then Some(e.data) else Lookup(f, dir, name)
  {
    var p := SplitEntryPath(e.path);
    if p.file == "" || SkippedOnExtract(p.file) {
    } else if p.dir == "" {
    } else {
    }
  }

  /**
   * After unpacking, a location holds the contents of the last entry written there, and
   * what it held before when no entry is written there.
   */
  lemma {:induction false} ExtractLookup(f: Folder, entries: seq<Entry>, dir: string, name: string)
    ensures Lookup(Extract(f, entries), dir, name) ==
      match LastWriter(entries, dir, name)
      case Some(i) => Some(entries[i].data)
      case None => Lookup(f, dir, name)
  {
    if entries != [] {
      var init := entries[..|entries| - 1];
      var last := entries[|entries| - 1];
      ExtractLookup(f, init, dir, name);
      ExtractEntryLookup(Extract(f, init), last, dir, name);
      if !Writes(last, dir, name) {
        assert LastWriter(entries, dir, name) == LastWriter(init, dir, name);
      }
    }
  }

  lemma ExtractEntryDirs(f: Folder, e: Entry)
    ensures ExtractEntry(f, e).dirs.Keys == f.dirs.Keys + EntryDir(e)
  {
    var p := SplitEntryPath(e.path);
    if p.file == "" || SkippedOnExtract(p.file) {
    } else if p.dir == "" {
    } else {
    }
  }

  /** Unpacking creates exactly the directories named by the archive's entries. */
  lemma {:induction false} ExtractDirs(f: Folder, entries: seq<Entry>)
    ensures Extract(f, entries).dirs.Keys == f.dirs.Keys + ArchiveDirs(entries)
  {
    if entries != [] {
      var init := entries[..|entries| - 1];
      ExtractDirs(f, init);
      ExtractEntryDirs(Extract(f, init), entries[|entries| - 1]);
    }
  }

  /** Unpacking never writes a file whose name starts with the preserved file's name. */
  lemma ExtractSkipsPreserved(f: Folder, entries: seq<Entry>, dir: string, name: string)
    requires SkippedOnExtract(name)
    ensures Lookup(Extract(f, entries), dir, name) == Lookup(f, dir, name)
  {
    ExtractLookup(f, entries, dir, name);
  }

  /**
   * Unpacking into a folder without subdirectories fills every subdirectory only with
   * archive files, none of them named like a preserved file.
   */
  lemma StagedFilesComeFromArchive(f: Folder, entries: seq<Entry>, dir: string, name: string)
    requires f.dirs == map[] && dir != ""
    requires dir in Extract(f, entries).dirs && name in Extract(f, entries).dirs[dir]
    ensures !SkippedOnExtract(name)
    ensures exists i :: 0 <= i < |entries| && Writes(entries[i], dir, name)
  {
    ExtractLookup(f, entries, dir, name);
  }

  /**
   * The move-up step: with no subdirectory it throws; otherwise the files of `staging`
   * (the first directory listed) are copied directly under the folder and `staging` is
   * deleted.
   */
  function MoveUp(f: Folder, staging: string): Step {
    if f.dirs == map[] then Step(f, Threw(NoStagingDirectory))
    else
      var staged := if staging in f.dirs then f.dirs[staging] else map[];
      Step(Folder(f.files + staged, f.dirs - {staging}), Returned)
  }

  /**
   * Moving up throws only when there is no subdirectory. Otherwise every file of the
   * staging directory ends up directly under the folder with the same contents,
   * overwriting a file of the same name, every other file stays, the staging directory is
   * gone and the other directories stay as they were.
   */
  lemma MoveUpMovesStagedFiles(f: Folder, staging: string)
    ensures var s := MoveUp(f, staging);
      && (f.dirs == map[] ==> s == Step(f, Threw(NoStagingDirectory)))
      && (f.dirs != map[] ==> s.outcome == Returned)
      && (f.dirs != map[] ==>
            && s.folder.dirs.Keys == f.dirs.Keys - {staging}
            && (forall d :: d in s.folder.dirs ==> s.folder.dirs[d] == f.dirs[d]))
      && (f.dirs != map[] && staging in f.dirs ==>
            && s.folder.files.Keys == f.files.Keys + f.dirs[staging].Keys
            && (forall n :: n in f.dirs[staging] ==> s.folder.files[n] == f.dirs[staging][n])
            && (forall n :: n in f.files && n !in f.dirs[staging] ==> s.folder.files[n] == f.files[n]))
  {
  }

  /**
   * Unpacking into a cleared folder and moving the staging directory up leaves the
   * preserved files as they were: unpacking skips their names and the staging directory
   * holds archive files only.
   */
  lemma InstallKeepsPreserved(f: Folder, entries: seq<Entry>, staging: string, n: string)
    requires f.dirs == map[] && IsPreserved(n)
    ensures Lookup(MoveUp(Extract(f, entries), staging).folder, "", n) == Lookup(f, "", n)
  {
    var g := Extract(f, entries);
    ExtractSkipsPreserved(f, entries, "", n);
    MoveUpMovesStagedFiles(g, staging);
    if g.dirs != map[] && staging in g.dirs && n in g.dirs[staging] {
      ExtractDirs(f, entries);
      StagedFilesComeFromArchive(f, entries, staging, n);
    }
  }

  /**
   * Unpacking into a folder without subdirectories and moving `staging` up: a top-level
   * name holds what the archive last wrote into `staging` under it, else what the archive
   * last wrote at the top level under it, else what the folder held before.
   */
  lemma InstallContent(f: Folder, entries: seq<Entry>, staging: string, n: string)
    requires f.dirs == map[] && staging in Extract(f, entries).dirs
    ensures Lookup(MoveUp(Extract(f, entries), staging).folder, "", n) ==
      match LastWriter(entries, staging, n)
      case Some(i) => Some(entries[i].data)
      case None =>
        match LastWriter(entries, "", n)
        case Some(j) => Some(entries[j].data)
        case None => Lookup(f, "", n)
  {
    var g := Extract(f, entries);
    ExtractDirs(f, entries);
    assert staging != "";
    ExtractLookup(f, entries, "", n);
    ExtractLookup(f, entries, staging, n);
    MoveUpMovesStagedFiles(g, staging);
  }

  /** The staged files whose move has already happened. */
  function MovedFiles(staged: Files, pending: set<string>): Files {
    map n | n in staged && n !in pending :: staged[n]
  }

  /** The staged files still waiting in the staging directory. */
  function PendingFiles(staged: Files, pending: set<string>): Files {
    map n | n in staged && n in pending :: staged[n]
  }

  /** Moving one more pending file up: it leaves the staging directory and joins the folder. */
  lemma MoveOneFile(files: Files, staged: Files, pending: set<string>, n: string)
    requires n in pending && pending <= staged.Keys
    ensures (files + MovedFiles(staged, pending))[n := staged[n]] == files + MovedFiles(staged, pending - {n})
    ensures PendingFiles(staged, pending) - {n} == PendingFiles(staged, pending - {n})
  {
    assert MovedFiles(staged, pending)[n := staged[n]] == MovedFiles(staged, pending - {n});
  }
}
