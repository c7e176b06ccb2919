/** Values shared by every part of the localization downloader model. */
module Types {

  /** Raw file contents. */
  type Bytes = seq<bv8>

  /** `None` also stands for a C# `null` reference where the source can produce one. */
  datatype Option<T> = None | Some(value: T)

  /** The exceptions the downloader lets escape; each one ends the running coroutine. */
  datatype Failure =
    | UnexpectedFile(name: string)       // the clear step met a file of an unknown kind
    | DirectoryNotEmpty(name: string)    // a non-recursive directory delete met a non-empty directory
    | NoStagingDirectory                 // no directory to move files out of (index 0 of an empty array)
    | ConfigWriteFailed                  // saving config.json failed and the exception was rethrown

  /** How a call of the source ended: it returned, or it threw. */
  datatype Outcome = Returned | Threw(failure: Failure)

  /** Index of the first element of `s` satisfying `p`, if there is one. */
  function FirstWhere<T>(s: seq<T>, p: T -> bool): (r: Option<nat>)
    ensures r.None? <==> forall i :: 0 <= i < |s| ==> !p(s[i])
    ensures r.Some? ==> r.value < |s| && p(s[r.value]) && forall i :: 0 <= i < r.value ==> !p(s[i])
  {
    if |s| == 0 then None
    else if p(s[0]) then Some(0)
    else match FirstWhere(s[1..], p)
      case None => None
      case Some(k) => Some(k + 1)
  }

  /** Index of the last element of `s` satisfying `p`, if there is one. */
  function LastWhere<T>(s: seq<T>, p: T -> bool): (r: Option<nat>)
    ensures r.None? <==> forall i :: 0 <= i < |s| ==> !p(s[i])
    ensures r.Some? ==> r.value < |s| && p(s[r.value]) && forall i :: r.value < i < |s| ==> !p(s[i])
  {
    if |s| == 0 then None
    else if p(s[|s| - 1]) then Some(|s| - 1)
    else LastWhere(s[..|s| - 1], p)
  }
}
