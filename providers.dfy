/**
 * The provider classifiers: each turns one HTTP response from the GitHub or
 * GitLab API into "the latest release/commit reference" (`Some`), "nothing
 * usable" (`None`), or an exception the checker does not catch. The HTTP
 * request itself is not modelled: the response is the input.
 */
module Providers {
  import opened Common

  /**
   * One API response: status code, the `Content-Type` header (None when the
   * header is absent) and the body as `response.json()` decodes it (None when
   * the body is not valid JSON).
   */
  datatype Response = Response(status: int, contentType: Option<string>, body: Option<Json>)

  /** The `/rate_limit` response: status and the two integer headers, None when absent. */
  datatype RateLimitResponse = RateLimitResponse(status: int, remaining: Option<int>, reset: Option<int>)

  /** `response.ok` (and `bool(response)`): false exactly for 4xx and 5xx statuses. */
  predicate ResponseOk(status: int) {
    !(400 <= status < 600)
  }

  // ---------------------------------------------------------------------------
  // The Python operations the classifiers apply to a response

  /** Whether the Content-Type header mentions JSON; a missing header makes the substring test a TypeError. */
  function IsJson(r: Response): (res: PyResult<bool>)
    ensures res.Raised? <==> r.contentType.None?
    ensures res.Raised? ==> res.error == TypeError
    ensures res.Ok? ==> (res.value <==> Contains(r.contentType.value, "json"))
  {
    match r.contentType
    case None => Raised(TypeError)
    case Some(ct) => Ok(Contains(ct, "json"))
  }

  /** `response.json()`: an undecodable body raises a ValueError. */
  function Decode(r: Response): (res: PyResult<Json>)
    ensures res.Raised? <==> r.body.None?
    ensures res.Raised? ==> res.error == ValueError
    ensures res.Ok? ==> Some(res.value) == r.body
  {
    match r.body
    case None => Raised(ValueError)
    case Some(j) => Ok(j)
  }

  /** `j.get(key)`: only an object has `get`. */
  function Get(j: Json, key: string): (res: PyResult<Option<Json>>)
    ensures res.Raised? <==> !j.JObj?
    ensures res.Raised? ==> res.error == AttributeError
    ensures res.Ok? ==> (res.value.Some? <==> key in j.fields)
    ensures res.Ok? && res.value.Some? ==> res.value.value == j.fields[key]
  {
    match j
    case JObj(fields) => Ok(if key in fields then Some(fields[key]) else None)
    case _ => Raised(AttributeError)
  }

  /** `j[0]`: the first item of an array or the first character of a string. */
  function First(j: Json): (res: PyResult<Json>)
    ensures j.JArr? && j.items != [] ==> res == Ok(j.items[0])
    ensures j.JArr? && j.items == [] ==> res == Raised(IndexError)
    ensures j.JObj? ==> res == Raised(KeyError)
    ensures res.Raised? && res.error == IndexError ==> (j.JArr? || j.JStr?)
  {
    match j
    case JArr(items) => if items == [] then Raised(IndexError) else Ok(items[0])
    case JStr(s) => if s == "" then Raised(IndexError) else Ok(JStr([s[0]]))
    case JObj(_) => Raised(KeyError)
    case _ => Raised(TypeError)
  }

  /** `j[key]` with a string key. */
  function Field(j: Json, key: string): (res: PyResult<Json>)
    ensures res.Ok? <==> j.JObj? && key in j.fields
    ensures res.Ok? ==> res.value == j.fields[key]
    ensures res.Raised? ==> (res.error == KeyError <==> j.JObj?)
  {
    match j
    case JObj(fields) => if key in fields then Ok(fields[key]) else Raised(KeyError)
    case _ => Raised(TypeError)
  }

  /** `j` is an object whose `key` holds a truthy value. */
  predicate HasTruthy(j: Json, key: string) {
    j.JObj? && key in j.fields && Truthy(j.fields[key])
  }

  /** The value under `key` when it is truthy, otherwise None; only an object can be asked. */
  function TruthyField(j: Json, key: string): (res: PyResult<Option<Json>>)
    ensures res.Raised? <==> !j.JObj?
    ensures res.Raised? ==> res.error == AttributeError
    ensures res.Ok? ==> (res.value.Some? <==> HasTruthy(j, key))
    ensures res.Ok? && res.value.Some? ==> res.value.value == j.fields[key]
  {
    match Get(j, key)
    case Raised(e) => Raised(e)
    case Ok(g) => Ok(if g.Some? && Truthy(g.value) then g else None)
  }

  // ---------------------------------------------------------------------------
  // The classifiers

  /** `get_latest_release`: the `html_url` of the latest GitHub release; the status is never read. */
  function GitHubLatestRelease(r: Response): (res: PyResult<Option<Json>>)
    ensures res == Raised(TypeError) <==> r.contentType.None?
    ensures res == Raised(ValueError) <==> IsJson(r) == Ok(true) && r.body.None?
    ensures res == Raised(AttributeError) <==> IsJson(r) == Ok(true) && r.body.Some? && !r.body.value.JObj?
    ensures IsJson(r) == Ok(false) ==> res == Ok(None)
    ensures res.Ok? && res.value.Some? <==> IsJson(r) == Ok(true) && r.body.Some? && HasTruthy(r.body.value, "html_url")
    ensures res.Ok? && res.value.Some? ==> res.value.value == r.body.value.fields["html_url"]
  {
    match IsJson(r)
    case Raised(e) => Raised(e)
    case Ok(isJson) =>
      if !isJson then Ok(None)
      else
        match Decode(r)
        case Raised(e) => Raised(e)
        case Ok(j) => TruthyField(j, "html_url")
  }

  /** `get_latest_commit`: the `html_url` of the first commit listed, for a 2xx/3xx response only. */
  function GitHubLatestCommit(r: Response): (res: PyResult<Option<Json>>)
    ensures !ResponseOk(r.status) ==> res == Ok(None)
    ensures ResponseOk(r.status) && r.contentType.None? ==> res == Raised(TypeError)
    ensures ResponseOk(r.status) && IsJson(r) == Ok(false) ==> res == Ok(None)
    ensures ResponseOk(r.status) && IsJson(r) == Ok(true) && r.body.None? ==> res == Raised(ValueError)
    ensures ResponseOk(r.status) && IsJson(r) == Ok(true) && r.body == Some(JArr([])) ==> res == Raised(IndexError)
    ensures res.Ok? && res.value.Some? <==>
      ResponseOk(r.status) && IsJson(r) == Ok(true) && r.body.Some? && r.body.value.JArr? &&
      r.body.value.items != [] && HasTruthy(r.body.value.items[0], "html_url")
    ensures res.Ok? && res.value.Some? ==> res.value.value == r.body.value.items[0].fields["html_url"]
  {
    if !ResponseOk(r.status) then Ok(None)
    else
      match IsJson(r)
      case Raised(e) => Raised(e)
      case Ok(isJson) =>
        if !isJson then Ok(None)
        else
          match Decode(r)
          case Raised(e) => Raised(e)
          case Ok(j) =>
            match First(j)
            case Raised(e) => Raised(e)
            case Ok(latest) => TruthyField(latest, "html_url")
  }

  /**
   * `get_gitlab_latest_release`: the `self` link of the first release, with
   * a KeyError on the way turned into None. The decoded body is bound only
   * when the content type mentions JSON; otherwise the lookup reads an unbound
   * local. An empty array is "no release" only together with status 200.
   */
  function GitLabLatestRelease(r: Response): (res: PyResult<Option<Json>>)
    ensures r.contentType.None? ==> res == Raised(TypeError)
    ensures IsJson(r) == Ok(false) ==> res == Raised(UnboundLocalError)
    ensures IsJson(r) == Ok(true) && r.body.None? ==> res == Raised(ValueError)
    ensures IsJson(r) == Ok(true) && r.body == Some(JArr([])) ==>
      res == (if r.status == 200 then Ok(None) else Raised(IndexError))
    ensures IsJson(r) == Ok(true) && r.body.Some? && r.body.value.JObj? ==> res == Ok(None)
    ensures res.Ok? && res.value.Some? <==>
      IsJson(r) == Ok(true) && r.body.Some? && r.body.value.JArr? && r.body.value.items != [] &&
      r.body.value.items[0].JObj? && "_links" in r.body.value.items[0].fields &&
      HasTruthy(r.body.value.items[0].fields["_links"], "self")
    ensures res.Ok? && res.value.Some? ==> res.value.value == r.body.value.items[0].fields["_links"].fields["self"]
  {
    match IsJson(r)
    case Raised(e) => Raised(e)
    case Ok(isJson) =>
      if !isJson then Raised(UnboundLocalError)
      else
        match Decode(r)
        case Raised(e) => Raised(e)
        case Ok(j) =>
          if j == JArr([]) && r.status == 200 then Ok(None)
          else
            match First(j)
            case Raised(e) => if e == KeyError then Ok(None) else Raised(e)
            case Ok(latest) =>
              match Field(latest, "_links")
              case Raised(e) => if e == KeyError then Ok(None) else Raised(e)
              case Ok(links) => TruthyField(links, "self")
  }

  /**
   * `get_gitlab_latest_commit`: the `web_url` of the first commit listed.
   * `checksExpiredToken` selects the newer version, which answers None to a
   * JSON 401 response before indexing the body.
   */
  function GitLabLatestCommit(r: Response, checksExpiredToken: bool): (res: PyResult<Option<Json>>)
    ensures r.contentType.None? ==> res == Raised(TypeError)
    ensures IsJson(r) == Ok(false) ==> res == Ok(None)
    ensures IsJson(r) == Ok(true) && r.body.None? ==> res == Raised(ValueError)
    ensures IsJson(r) == Ok(true) && r.body.Some? && checksExpiredToken && r.status == 401 ==> res == Ok(None)
    ensures IsJson(r) == Ok(true) && r.body.Some? && r.body.value.JObj? && !(checksExpiredToken && r.status == 401) ==>
      res == Raised(KeyError)
    ensures res.Ok? && res.value.Some? <==>
      IsJson(r) == Ok(true) && r.body.Some? && !(checksExpiredToken && r.status == 401) &&
      r.body.value.JArr? && r.body.value.items != [] && HasTruthy(r.body.value.items[0], "web_url")
    ensures res.Ok? && res.value.Some? ==> res.value.value == r.body.value.items[0].fields["web_url"]
  {
    match IsJson(r)
    case Raised(e) => Raised(e)
    case Ok(isJson) =>
      if !isJson then Ok(None)
      else
        match Decode(r)
        case Raised(e) => Raised(e)
        case Ok(j) =>
          if checksExpiredToken && r.status == 401 then Ok(None)
          else
            match First(j)
            case Raised(e) => Raised(e)
            case Ok(latest) => TruthyField(latest, "web_url")
  }

  /** `get_ratelimit_status`: (remaining, reset epoch) for status 200, None otherwise. */
  function RateLimitStatus(r: RateLimitResponse): (res: PyResult<Option<(int, int)>>)
    ensures r.status != 200 ==> res == Ok(None)
    ensures r.status == 200 && r.remaining.Some? && r.reset.Some? ==>
      res == Ok(Some((r.remaining.value, r.reset.value)))
    ensures res.Raised? <==> r.status == 200 && (r.remaining.None? || r.reset.None?)
    ensures res.Raised? ==> res.error == KeyError
  {
    if r.status != 200 then Ok(None)
    else if r.remaining.None? || r.reset.None? then Raised(KeyError)
    else Ok(Some((r.remaining.value, r.reset.value)))
  }

  // ---------------------------------------------------------------------------
  // Properties relating the classifiers

  /** The GitHub release classifier gives the same answer whatever the status code. */
  lemma GitHubReleaseIgnoresStatus(r: Response, status: int)
    ensures GitHubLatestRelease(r.(status := status)) == GitHubLatestRelease(r)
  {
  }

  /**
   * An expired GitLab token (status 401 with a JSON object body) crashed the
   * older commit classifier with a KeyError; the newer one answers None.
   */
  lemma ExpiredTokenNowHandled(r: Response)
    requires r.status == 401 && IsJson(r) == Ok(true) && r.body.Some? && r.body.value.JObj?
    ensures GitLabLatestCommit(r, false) == Raised(KeyError)
    ensures GitLabLatestCommit(r, true) == Ok(None)
  {
  }

  /** Outside a JSON 401 response the two GitLab commit classifiers agree. */
  lemma CommitVersionsAgree(r: Response)
    requires r.status != 401 || IsJson(r) != Ok(true) || r.body.None?
    ensures GitLabLatestCommit(r, false) == GitLabLatestCommit(r, true)
  {
  }

  /** Every reference a classifier reports is truthy: an empty string is never announced. */
  lemma ReportedReferencesAreTruthy(r: Response, checksExpiredToken: bool)
    ensures forall res :: (res in [GitHubLatestRelease(r), GitHubLatestCommit(r),
                                   GitLabLatestRelease(r), GitLabLatestCommit(r, checksExpiredToken)] &&
                           res.Ok? && res.value.Some?) ==> Truthy(res.value.value)
  {
  }
}
