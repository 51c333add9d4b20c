/** The HTTP-backed version checker: an endpoint set once by the polling
    service, read by every lookup. */
module ApiVersionChecker {
  import opened Wrappers
  import opened JavaStrings
  import opened Oracles

  /** Why `isAvailable` threw: it has no handler of its own. */
  datatype ProbeError = RequestFailed | NullBody

  const DescriptionPrefix: string := "API-based version checker using HTTP calls to: "
  const NotConfigured: string := "not configured"

  /** An endpoint worth calling: set and not blank. */
  predicate Configured(apiEndpoint: Option<string>) {
    apiEndpoint.Some? && !IsBlank(apiEndpoint.value)
  }

  class ApiVersionChecker {
    /** The version endpoint; unset until the polling service configures it. */
    var apiEndpoint: Option<string>

    constructor ()
      ensures apiEndpoint == None
    {
      apiEndpoint := None;
    }

    /** `setApiEndpoint`: replaces the endpoint, blank or not. */
    method SetApiEndpoint(endpoint: string)
      modifies this
      ensures apiEndpoint == Some(endpoint)
    {
      apiEndpoint := Some(endpoint);
    }

    /** `getCurrentVersion`: the `data` of the decoded envelope, or empty
        when the endpoint is not configured, the body is null or blank, the
        body does not decode, `data` is null, or the request throws. The
        code is not consulted: the endpoint names the version itself. */
    function GetCurrentVersion(code: string, env: Env): (v: Option<int>)
      reads this
      ensures !Configured(apiEndpoint) ==> v == None
      ensures v.Some? <==>
        && Configured(apiEndpoint)
        && env.httpGet(apiEndpoint.value).Ok?
        && !IsBlank(env.httpGet(apiEndpoint.value).value)
        && env.decodeVersion(env.httpGet(apiEndpoint.value).value).Ok?
      ensures v.Some? ==> v.value == env.decodeVersion(env.httpGet(apiEndpoint.value).value).value
    {
      if !Configured(apiEndpoint) then None
      else
        match env.httpGet(apiEndpoint.value)
        case Ok(jsonResponse) =>
          if IsBlank(jsonResponse) then None
          else
            (match env.decodeVersion(jsonResponse)
             case Ok(data) => Some(data)
             case _ => None)
        case _ => None
    }

    /** `isAvailable`: false without a usable endpoint; otherwise whether
        the endpoint answers with a non-blank body. A failed request or a
        null body escapes as an exception. */
    function IsAvailable(env: Env): (r: Result<bool, ProbeError>)
      reads this
      ensures !Configured(apiEndpoint) ==> r == Success(false)
      ensures Configured(apiEndpoint) ==>
        (r.Success? <==> env.httpGet(apiEndpoint.value).Ok?)
      ensures r == Success(true) <==>
        Configured(apiEndpoint) && env.httpGet(apiEndpoint.value).Ok? && !IsBlank(env.httpGet(apiEndpoint.value).value)
    {
      if !Configured(apiEndpoint) then Success(false)
      else
        match env.httpGet(apiEndpoint.value)
        case Ok(jsonResponse) => Success(!IsBlank(jsonResponse))
        case Null => Failure(NullBody)
        case Error => Failure(RequestFailed)
    }

    /** `getDescription`: names the endpoint, even a blank one, or says it
        is not configured. */
    function GetDescription(): (d: string)
      reads this
      ensures StartsWith(d, DescriptionPrefix)
      ensures apiEndpoint.Some? ==> d[|DescriptionPrefix|..] == apiEndpoint.value
      ensures apiEndpoint.None? ==> d[|DescriptionPrefix|..] == NotConfigured
    {
      DescriptionPrefix + (if apiEndpoint.Some? then apiEndpoint.value else NotConfigured)
    }
  }

  /** A version found implies the checker would also report itself available. */
  lemma VersionImpliesAvailable(checker: ApiVersionChecker, code: string, env: Env)
    requires checker.GetCurrentVersion(code, env).Some?
    ensures checker.IsAvailable(env) == Success(true)
  {
  }
}
