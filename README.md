# Localization downloader, modelled in Dafny

This project models the localization synchroniser of Project Porcupine,
`LocalizationDownloader`. The synchroniser keeps the game's `Localization`
folder up to date with a GitHub repository:

1. It reads the stored commit hash and asks the GitHub API for the hash of the
   latest commit on the game's branch.
2. When the two hashes differ, it downloads the branch as a zip archive.
3. It clears the folder, keeping `en_US.lang` and `en_US.lang.meta`.
4. It unpacks the archive into the folder, skipping every file whose name
   starts with `en_US.lang`.
5. It moves the files out of the archive's top-level directory, deletes that
   directory and invokes the caller's callback.
6. It writes the new hash into `config.json`.

The model has two layers:

- a value layer (modules `Types`, `FileNames`, `Remote`, `Folders`,
  `Synchronizer`). Each step is a function of the folder and of the answers
  the environment gives, and lemmas state what the steps guarantee;
- an imperative layer (module `Downloader`). Class `LocalizationFolder` holds
  the folder, the callback count, the saved hashes and the requests sent as
  fields. Its methods change those fields step by step, as the source does.
  Each method is proved to leave exactly the state the matching function
  describes.

The folder is a map from file name to contents plus a map from subdirectory
name to the files directly in it. An exception that the source lets escape is
an `Outcome` value, `Threw(failure)`. The answers of the environment are plain
inputs:

- the two web responses;
- what the JSON library makes of the version-check body;
- the archive as a sequence of (path, bytes) entries;
- the order in which the file system lists the folder;
- whether saving `config.json` works.

The directory that the file system lists first after unpacking is picked
arbitrarily by `MoveFilesUp`, which returns it as `staging`.

Behaviour of the code worth knowing:

- When the archive request fails, the download coroutine ends with
  `yield break`. The caller then resumes and still saves the new hash, although
  nothing was installed (`FailedDownloadStillSavesHash`). The class comment at
  lines 44-45 describes the hash file as written only after the unpacked folder
  is deleted.
- A failed save of `config.json` deletes it, so that the next run forces an
  update, as the comment at lines 116-117 says; the exception is then rethrown.
- A version-check body that cannot be parsed does not leave the state alone.
  The latest hash stays the empty string. So whenever a hash is stored, the
  folder is cleared and the archive downloaded again, and no hash is saved.
- A file of an unexpected kind makes the clear step throw, not just log. The
  files listed before it are already deleted by then.
- Subdirectories are deleted non-recursively. A leftover subdirectory that is
  not empty is never cleaned up: every later update throws in the clear step
  (`LeftoverDirectoryBlocksUpdates`). Such a directory is left, for example, by
  a second top-level directory in an earlier archive.
- The callback runs before the hash is saved, not after.
- A missing `sha` member reads as null. Null differs from every stored hash, so
  the archive is downloaded and null is handed to the save.
- The guard of the save says "stored differs or stored is empty". The second
  half adds nothing (`ShouldSaveConfig`).

## Model

| member | source | states |
|---|---|---|
| `FileNames.ExtensionIsLastDotSuffix` | Assets/Scripts/Localization/LocalizationDownloader.cs:273 | A file's extension is the suffix starting at its last dot, with no other dot in it. It is empty exactly when the name has no dot or ends with one. |
| `FileNames.ExtensionAtLastDot` | Assets/Scripts/Localization/LocalizationDownloader.cs:273 | A name whose last dot is at position i, with at least one character after it, has the suffix from i on as its extension. |
| `FileNames.Extension` | Assets/Scripts/Localization/LocalizationDownloader.cs:273 | The extension a file-info object reports: from the last dot on, or empty when the name has no dot or ends with one. Its properties are stated by `ExtensionIsLastDotSuffix`. |
| `FileNames.IsExpectedFile` | Assets/Scripts/Localization/LocalizationDownloader.cs:273 | A file the clear step may delete without throwing: its extension is `.lang`, `.meta`, `.ver` or `.md`, or its name is `config.json`. |
| `FileNames.SkippedOnExtract` | Assets/Scripts/Localization/LocalizationDownloader.cs:204 | An archive file that unpacking does not write: its name starts with `en_US.lang`, compared case-sensitively. |
| `FileNames.PreservedFilesAreExpected` | Assets/Scripts/Localization/LocalizationDownloader.cs:273-282 | Neither `en_US.lang` nor `en_US.lang.meta` can make the clear step throw. |
| `FileNames.SplitEntryPath` | Assets/Scripts/Localization/LocalizationDownloader.cs:189-190 | An entry path splits at its last '/'. The file name has no '/'. A path without '/' has an empty directory part. Otherwise the path is `dir/file`. |
| `FileNames.SplitJoin` | Assets/Scripts/Localization/LocalizationDownloader.cs:189-190 | Splitting `dir/file`, where `file` has no '/', gives back `dir` and `file`. |
| `Remote.GetHashOfLastCommitFromAPIResponse` | Assets/Scripts/Localization/LocalizationDownloader.cs:306-315 | An empty body throws (argument null). A body the JSON library rejects throws. Otherwise the result is the `sha` member, or null when it is absent. |
| `Remote.LatestCommitHash` | Assets/Scripts/Localization/LocalizationDownloader.cs:80-88 | If reading the hash throws, the latest hash stays the empty string. Otherwise it is the parsed `sha`. |
| `Remote.NeedsDownload` | Assets/Scripts/Localization/LocalizationDownloader.cs:90 | The archive is downloaded exactly when the latest hash differs from the stored one. |
| `Remote.ShouldSaveConfig` | Assets/Scripts/Localization/LocalizationDownloader.cs:109 | The save is attempted exactly when the latest hash is not empty and differs from the stored one. |
| `Folders.Clear` | Assets/Scripts/Localization/LocalizationDownloader.cs:265-291 | The clear step returns, or throws for an unexpected file, or throws for a non-empty directory. |
| `Folders.ClearStopsAtFile` | Assets/Scripts/Localization/LocalizationDownloader.cs:268-282 | At the first unexpected file in listing order, the clear step throws. The non-preserved files listed before it are deleted. No directory is touched. |
| `Folders.ClearStopsAtDir` | Assets/Scripts/Localization/LocalizationDownloader.cs:285-288 | When every file is expected, the clear step throws at the first non-empty directory in listing order. The directories listed before it are deleted. |
| `Folders.ClearCompletes` | Assets/Scripts/Localization/LocalizationDownloader.cs:268-290 | When every file is expected and no listed directory has files, the clear step deletes every non-preserved file and every listed directory, and returns. |
| `Folders.ClearKeepsPreserved` | Assets/Scripts/Localization/LocalizationDownloader.cs:279-282 | Whether the clear step returns or throws, the preserved files are kept, and no file or directory is created or changed. |
| `Folders.ClearThrowsOnUnexpected` | Assets/Scripts/Localization/LocalizationDownloader.cs:268-277 | A throw for an unexpected file happens at a listed position. Every file before that position was expected, and only those files are deleted. |
| `Folders.ClearSucceedsIff` | Assets/Scripts/Localization/LocalizationDownloader.cs:265-291 | With complete listings, clearing succeeds exactly when every file is of an expected kind and every subdirectory is empty. It then leaves only the preserved files, unchanged, and no subdirectory. |
| `Folders.ExtractEntry` | Assets/Scripts/Localization/LocalizationDownloader.cs:189-224 | One archive entry: its directory part is created if missing, and its file is written unless the name is empty or skipped. Its effect is stated by `ExtractEntryLookup` and `ExtractEntryDirs`. |
| `Folders.Extract` | Assets/Scripts/Localization/LocalizationDownloader.cs:187-225 | The archive entries unpacked in order. Its effect is stated by `ExtractLookup` and `ExtractDirs`. |
| `Folders.ExtractEntryLookup` | Assets/Scripts/Localization/LocalizationDownloader.cs:189-224 | Unpacking one entry changes only the location it writes, and writes the entry's contents there. |
| `Folders.ExtractLookup` | Assets/Scripts/Localization/LocalizationDownloader.cs:187-225 | After unpacking, each location holds the contents of the last entry written there. A location no entry writes is unchanged. |
| `Folders.ExtractEntryDirs` | Assets/Scripts/Localization/LocalizationDownloader.cs:192-200 | Unpacking one entry adds exactly the directory part of its path, if that part is not empty. |
| `Folders.ExtractDirs` | Assets/Scripts/Localization/LocalizationDownloader.cs:187-200 | Unpacking creates exactly the directories named by the entries' directory parts. |
| `Folders.ExtractSkipsPreserved` | Assets/Scripts/Localization/LocalizationDownloader.cs:204 | Unpacking never writes a file whose name starts with `en_US.lang`, in the folder or in any directory. |
| `Folders.StagedFilesComeFromArchive` | Assets/Scripts/Localization/LocalizationDownloader.cs:187-225 | When the folder has no subdirectory before unpacking, every file in a subdirectory afterwards was written by an archive entry. None of those files is named like a preserved file. |
| `Folders.InstallKeepsPreserved` | Assets/Scripts/Localization/LocalizationDownloader.cs:187-258 | Unpacking into a folder with no subdirectory and then moving a directory up leaves the presence and contents of each preserved file unchanged. |
| `Folders.MoveUp` | Assets/Scripts/Localization/LocalizationDownloader.cs:240-258 | Moving the staging directory up: with no subdirectory it throws; otherwise the staged files overwrite the top-level ones and the staging directory is deleted. Its effect is stated by `MoveUpMovesStagedFiles`. |
| `Folders.InstallContent` | Assets/Scripts/Localization/LocalizationDownloader.cs:187-258 | After unpacking into a folder with no subdirectory and moving `staging` up, a top-level name holds what the archive last wrote into `staging`, else what it last wrote at the top level, else what the folder held before. |
| `Folders.MoveUpMovesStagedFiles` | Assets/Scripts/Localization/LocalizationDownloader.cs:240-258 | With no subdirectory, moving up throws. Otherwise every file of the staging directory is placed under the folder with the same contents, overwriting a same-named file. Other files stay. The staging directory is removed and the other directories stay. |
| `Synchronizer.ReportsError` | Assets/Scripts/Localization/LocalizationDownloader.cs:165-171 | The handler's error guard: the request's error is neither null nor empty. |
| `Synchronizer.Proceeds` | Assets/Scripts/Localization/LocalizationDownloader.cs:157-171 | The handler gets past both guards: the request is done and reports no error. |
| `Synchronizer.Complete` | Assets/Scripts/Localization/LocalizationDownloader.cs:155-263 | If the download is not done or reports an error, nothing changes and there is no callback. A throw in the clear step is passed on. The callback runs exactly once, and only on success. Success means clearing succeeded, a directory existed, every file of the staging directory is now in the folder and the staging directory is gone. `staging` is meant to be an unpacked directory, as the class method guarantees; for any other name the function returns without moving a file. |
| `Synchronizer.Download` | Assets/Scripts/Localization/LocalizationDownloader.cs:130-149 | The archive request is always sent. When it reports an error, nothing else changes and the coroutine ends normally. |
| `Synchronizer.UpdateConfig` | Assets/Scripts/Localization/LocalizationDownloader.cs:102-126 | Only `config.json` and the saved hashes can change. With no save due, nothing changes. A successful save records the hash and writes `config.json`. A failed save deletes `config.json` and rethrows. |
| `Synchronizer.Sync` | Assets/Scripts/Localization/LocalizationDownloader.cs:61-100 | The version query is always sent. The archive request is sent exactly when the version check has no error and the latest hash differs from the stored one. Without it, nothing else changes. An unparsable body triggers a download exactly when a hash is stored. At most one callback runs. The hash is saved exactly when the download coroutine did not throw, the hash is not empty and the save succeeds. |
| `Synchronizer.CompleteReplacesContents` | Assets/Scripts/Localization/LocalizationDownloader.cs:151-263 | With complete listings and `staging` one of the unpacked directories, a completion that returns leaves at each top-level name exactly the archive's file in `staging`, else the archive's top-level file, else the preserved file from before; every other earlier file is gone. The directories left are the archive's other directories. |
| `Synchronizer.CompleteKeepsPreserved` | Assets/Scripts/Localization/LocalizationDownloader.cs:155-291 | When the file system lists every subdirectory, the completion handler keeps each preserved file's presence and contents, whether it returns or throws. |
| `Synchronizer.SyncKeepsPreservedFiles` | Assets/Scripts/Localization/LocalizationDownloader.cs:61-291 | When the file system lists every subdirectory, a run keeps the presence and contents of `en_US.lang` and `en_US.lang.meta`, whether it returns or throws. |
| `Synchronizer.SingleFolderArchiveLeavesNoDirectory` | Assets/Scripts/Localization/LocalizationDownloader.cs:240-258 | When all archive entries sit under the directory that is moved up, a completed run leaves no subdirectory. |
| `Synchronizer.LeftoverDirectoryBlocksUpdates` | Assets/Scripts/Localization/LocalizationDownloader.cs:285-288 | With a non-empty subdirectory in the folder and complete listings, every run whose archive arrives complete and without error throws in the clear step. It runs no callback and saves no hash. |
| `Synchronizer.FailedDownloadStillSavesHash` | Assets/Scripts/Localization/LocalizationDownloader.cs:96-98 | When the archive request fails, the run still saves the new hash. It runs no callback and changes no file but `config.json`. |
| `Synchronizer.SecondRunIsNoOp` | Assets/Scripts/Localization/LocalizationDownloader.cs:90-99 | After a run has saved hash h, a run with h stored and the same version-check answer only sends the version query. |
| `Downloader.LocalizationFolder.DeleteFiles` | Assets/Scripts/Localization/LocalizationDownloader.cs:268-283 | The file loop deletes the non-preserved files in listing order and stops at the first unexpected file, which it reports. |
| `Downloader.LocalizationFolder.DeleteDirectories` | Assets/Scripts/Localization/LocalizationDownloader.cs:285-288 | The directory loop deletes directories in listing order and stops at the first non-empty one, which it reports. |
| `Downloader.LocalizationFolder.ClearLocalizationDirectory` | Assets/Scripts/Localization/LocalizationDownloader.cs:265-291 | Leaves the state and outcome given by `Folders.Clear`. |
| `Downloader.LocalizationFolder.UnpackEntry` | Assets/Scripts/Localization/LocalizationDownloader.cs:189-224 | Unpacking one entry leaves the folder given by `Folders.ExtractEntry`. |
| `Downloader.LocalizationFolder.UnpackArchive` | Assets/Scripts/Localization/LocalizationDownloader.cs:181-226 | Leaves the folder given by `Folders.Extract`. Nothing else changes. |
| `Downloader.LocalizationFolder.MoveStagedFiles` | Assets/Scripts/Localization/LocalizationDownloader.cs:247-255 | Moving the files of the staging directory one at a time leaves the folder's files overwritten by the staged ones and the staging directory empty. |
| `Downloader.LocalizationFolder.MoveFilesUp` | Assets/Scripts/Localization/LocalizationDownloader.cs:240-258 | Picks one existing directory as `staging`, moves its files up one at a time, deletes it, and leaves the state given by `Folders.MoveUp`. |
| `Downloader.LocalizationFolder.OnDownloadLocalizationComplete` | Assets/Scripts/Localization/LocalizationDownloader.cs:155-263 | Leaves the state and outcome given by `Synchronizer.Complete`. On success, the directory moved up is one that unpacking produced. |
| `Downloader.LocalizationFolder.DownloadLocalizationFromWeb` | Assets/Scripts/Localization/LocalizationDownloader.cs:130-149 | Leaves the state and outcome given by `Synchronizer.Download`. When the archive arrives complete and without error and the step returns, the directory moved up is one that unpacking produced. |
| `Downloader.LocalizationFolder.UpdateConfigFile` | Assets/Scripts/Localization/LocalizationDownloader.cs:102-126 | Leaves the state and outcome given by `Synchronizer.UpdateConfig`. |
| `Downloader.LocalizationFolder.CheckIfCurrentLocalizationIsUpToDate` | Assets/Scripts/Localization/LocalizationDownloader.cs:61-100 | Leaves the state and outcome given by `Synchronizer.Sync`. When the run downloads, the archive arrives complete and without error and the download returns, the directory moved up is one that unpacking produced. |

## Left out

- Logging: every `Log`, `LogWarning` and `LogError` call is a no-op. This removes the loop at lines 231-238, which only reports leftover files, and the "more than one directory" message at lines 241-244.
- Web requests and coroutine scheduling: each request is an input response, an `isDone` flag, an optional error and a body. Their suspension points are not modelled.
- JSON parsing: the result of `JObject.Parse` on the body is an input. Only the empty-body check is modelled.
- Zip decoding and the 2048-byte copy loop: the archive is an input sequence of entries. The stream handed to the zip reader at line 181 is built from a byte count, not the bytes; that construction is not modelled. As written, the zip reader never sees the downloaded bytes; the `archive` input stands for the entries the code means to unpack.
- `LocalizationTable.hash` and `LocalizationTable.SaveConfigFile` are not part of this model. The stored hash is a parameter of a run. The save is an input that either writes given bytes into `config.json` or throws. The source reads `LocalizationTable.hash` twice, at line 63 and again in the save guard at line 109, and the callback at line 262 runs in between and may reload it; the model uses one stored value for both reads.
- The caller's callback at line 262 is assumed to return normally and is only counted. A callback that throws, or a null callback, would let an exception escape after the move-up, and the run would then end without the config write at line 98; the model saves the hash in that case.
- An exception that escapes the download coroutine is taken to end the whole run, so no config write follows it.
- Synchronizer.SyncKeepsPreservedFiles, Synchronizer.CompleteKeepsPreserved, Folders.InstallKeepsPreserved and Folders.ExtractSkipsPreserved hold for a case-sensitive file system only. Names are map keys compared exactly, as the source compares them at lines 204 and 279. On a case-insensitive file system, such as the Windows and macOS defaults, an archive entry `Top/EN_US.lang` is not skipped at line 204, and the copy at line 253 then overwrites `en_US.lang`.
- Nested directories: a directory part such as `A/B` is one key of the directory map, not a directory inside `A`. So the non-recursive delete of `A` does not see `B`.
- Path handling beyond a split at the last '/': backslashes, rooted entry paths and separator normalisation are not modelled. A file and a directory with the same name can coexist in the model.
- I/O failures other than the modelled exceptions are not modelled: locked files, permissions, a listed name that no longer exists, a failing copy.
- `Dispose` of the request at line 161 has no effect in the model.
- An empty directory list at line 247 raises an index error; the model reports it as the failure `NoStagingDirectory`.
- Assets/Editor/BuildGame.cs and Assets/UI/Editor/AutomaticVerticalSizeEditor.cs are not part of this model. They are build and editor tooling.
