/** The file-name tests the downloader applies while clearing, extracting and checking the folder. */
module FileNames {
  import opened Types

  /** The baseline localization file, which no update deletes or overwrites. */
  const PreservedLang: string := "en_US.lang"
  /** Unity's metadata sidecar of the baseline file. */
  const PreservedMeta: string := "en_US.lang.meta"
  /** The file that records the installed version. */
  const ConfigFile: string := "config.json"
  /** The extensions the clear step expects to find in the folder. */
  const ExpectedExtensions: set<string> := {".lang", ".meta", ".ver", ".md"}

  predicate IsPreserved(name: string) {
    name == PreservedLang || name == PreservedMeta
  }

  /** Position of the last occurrence of `c` in `s`. */
  function LastIndex(s: string, c: char): (r: Option<nat>)
    ensures r.None? <==> c !in s
    ensures r.Some? ==> r.value < |s| && s[r.value] == c && c !in s[r.value + 1..]
  {
    var k := LastWhere(s, (x: char) => x == c);
    assert k.Some? ==> forall j :: k.value < j < |s| ==> s[j] != c;
    k
  }

  /**
   * The extension of a file name as a file-info object reports it: the text from the
   * last dot on, or empty when there is no dot or the dot ends the name.
   */
  function Extension(name: string): string {
    match LastIndex(name, '.')
    case None => ""
    case Some(i) => if i == |name| - 1 then "" else name[i..]
  }

  /**
   * The extension is the suffix of the name that starts at its last dot, and it is empty
   * exactly when the name has no dot or ends with one.
   */
  lemma ExtensionIsLastDotSuffix(name: string)
    ensures var ext := Extension(name);
      && |ext| <= |name| && ext == name[|name| - |ext|..]
      && (ext != "" ==> |ext| >= 2 && ext[0] == '.' && '.' !in ext[1..])
      && (ext == "" <==> '.' !in name || name[|name| - 1] == '.')
  {
    match LastIndex(name, '.')
    case None =>
    case Some(i) =>
      if i < |name| - 1 {
        assert name[i..][1..] == name[i + 1..];
      }
  }

  /** The clear step's test: a file it may delete without throwing. */
  predicate IsExpectedFile(name: string) {
    Extension(name) in ExpectedExtensions || name == ConfigFile
  }

  /** The extraction step's test: an archive file it does not write. */
  predicate SkippedOnExtract(fileName: string) {
    PreservedLang <= fileName
  }

  /** A name whose last dot sits at `i`, not at its end, has the suffix from `i` on as its extension. */
  lemma ExtensionAtLastDot(name: string, i: nat)
    requires i < |name| - 1 && name[i] == '.' && '.' !in name[i + 1..]
    ensures Extension(name) == name[i..]
  {
    ExtensionIsLastDotSuffix(name);
  }

  /** Neither preserved file can make the clear step throw. */
  lemma PreservedFilesAreExpected()
    ensures IsExpectedFile(PreservedLang) && IsExpectedFile(PreservedMeta)
  {
    ExtensionAtLastDot(PreservedLang, 5);
    assert PreservedLang[5..] == ".lang";
    ExtensionAtLastDot(PreservedMeta, 10);
    assert PreservedMeta[10..] == ".meta";
  }

  /** An archive entry path split at its last '/' into directory part and file name. */
  datatype EntryPath = EntryPath(dir: string, file: string)

  function SplitEntryPath(path: string): (p: EntryPath)
    ensures '/' !in p.file
    ensures '/' !in path ==> p == EntryPath("", path)
    ensures '/' in path ==> path == p.dir + "/" + p.file
  {
    match LastIndex(path, '/')
    case None => EntryPath("", path)
    case Some(i) => EntryPath(path[..i], path[i + 1..])
  }

  /** Splitting undoes joining a directory part and a file name with '/'. */
  lemma SplitJoin(dir: string, file: string)
    requires '/' !in file
    ensures SplitEntryPath(dir + "/" + file) == EntryPath(dir, file)
  {
    var path := dir + "/" + file;
    assert path[|dir|] == '/';
    assert path[|dir| + 1..] == file;
  }
}
