/**
 * The two web requests of the downloader and the decisions taken on the version check:
 * reading the latest commit hash out of the response and comparing it with the stored one.
 */
module Remote {
  import opened Types

  /** What a web request reports once it has been awaited. */
  datatype Response = Response(isDone: bool, error: Option<string>, text: string)

  /**
   * What the JSON library makes of a response body: it rejects the text, or it yields an
   * object whose "sha" member, read as a string, is a string or null (`None`) when absent.
   */
  datatype ParsedJson = Malformed | Object(sha: Option<string>)

  /** Why no hash could be read out of the response. */
  datatype HashError = EmptyResponse | MalformedResponse

  datatype HashLookup = Found(sha: Option<string>) | Failed(error: HashError)

  /** The sha of the last commit, read out of the body of the version check. */
  function GetHashOfLastCommitFromAPIResponse(body: string, json: ParsedJson): (r: HashLookup)
    ensures r.Failed? <==> body == "" || json.Malformed?
    ensures r.Failed? ==> (r.error == EmptyResponse <==> body == "")
    ensures r.Found? ==> json == Object(r.sha)
  {
    if body == "" then Failed(EmptyResponse)
    else match json
      case Malformed => Failed(MalformedResponse)
      case Object(sha) => Found(sha)
  }

  /**
   * The latest hash the version check settles on: an exception while reading it is only
   * logged and leaves the initial empty string.
   */
  function LatestCommitHash(body: string, json: ParsedJson): (latest: Option<string>)
    ensures body == "" || json.Malformed? ==> latest == Some("")
    ensures json.Object? && body != "" ==> latest == json.sha
  {
    match GetHashOfLastCommitFromAPIResponse(body, json)
    case Failed(_) => Some("")
    case Found(sha) => sha
  }

  /** An update is downloaded exactly when the latest hash differs from the stored one. */
  predicate NeedsDownload(latest: Option<string>, stored: string) {
    latest != Some(stored)
  }

  /**
   * The guard of the config write: the stored hash differs or is empty, and the latest
   * hash is not empty. The second half of the disjunction adds nothing.
   */
  function ShouldSaveConfig(stored: string, latest: Option<string>): (save: bool)
    ensures save <==> latest != Some("") && latest != Some(stored)
  {
    (Some(stored) != latest || stored == "") && latest != Some("")
  }
}
