/** The HTTP rule loader: a request URL carrying the resource filter, a
    decoded envelope whose entries are screened one by one, and an endpoint
    probe. */
module ApiPolicyLoader {
  import opened Wrappers
  import opened JavaStrings
  import opened PolicyRules
  import opened Oracles

  // ------------------------------------------------------------ request URL

  /** `&` when the base URL already carries a query string, `?` otherwise. */
  function Separator(baseUrl: string): string {
    if '?' in baseUrl then "&" else "?"
  }

  /** `buildApiUrl`: the base URL, then for a non-empty filter the separator
      and `resourceCode=` followed by the codes joined with commas, verbatim. */
  function BuildApiUrl(baseUrl: string, resources: seq<string>): (url: string)
    ensures resources == [] ==> url == baseUrl
    ensures StartsWith(url, baseUrl)
    ensures resources != [] ==>
      url == baseUrl + Separator(baseUrl) + "resourceCode=" + Join(",", resources)
  {
    if resources == [] then baseUrl
    else baseUrl + Separator(baseUrl) + "resourceCode=" + Join(",", resources)
  }

  /** The URL keeps the base's own query string intact: exactly one of the
      two separators follows the base, and it is `&` precisely when the
      base already holds a `?`. */
  lemma SeparatorFollowsBase(baseUrl: string, resources: seq<string>)
    requires resources != []
    ensures |BuildApiUrl(baseUrl, resources)| > |baseUrl|
    ensures BuildApiUrl(baseUrl, resources)[|baseUrl|] == '&' <==> '?' in baseUrl
    ensures BuildApiUrl(baseUrl, resources)[|baseUrl|] == '?' <==> '?' !in baseUrl
  {
    var url := BuildApiUrl(baseUrl, resources);
    assert url == baseUrl + (Separator(baseUrl) + "resourceCode=" + Join(",", resources));
  }

  /** The filter can be read back from the URL: the text after
      `resourceCode=` splits on commas into the original codes, provided no
      code holds a comma itself. */
  lemma FilterRecoverable(baseUrl: string, resources: seq<string>)
    requires resources != []
    requires forall k :: 0 <= k < |resources| ==> ',' !in resources[k]
    ensures |BuildApiUrl(baseUrl, resources)| == |baseUrl| + 14 + |Join(",", resources)|
    ensures Pieces(BuildApiUrl(baseUrl, resources)[|baseUrl| + 14..], ',') == resources
  {
    var p := Join(",", resources);
    var url := BuildApiUrl(baseUrl, resources);
    var head := baseUrl + Separator(baseUrl) + "resourceCode=";
    assert |head| == |baseUrl| + 14;
    assert url == head + p;
    assert url[|head|..] == p;
    PiecesJoin(resources, ',');
  }

  // --------------------------------------------------------- rule screening

  /** `isValidPolicyRule`: present, with role, resource and action present,
      and neither code blank after trimming. */
  predicate IsValidPolicyRule(entry: Option<PolicyRule>) {
    && entry.Some?
    && entry.value.roleId.Some?
    && entry.value.resourceCode.Some?
    && entry.value.actionCode.Some?
    && !IsBlank(entry.value.resourceCode.value)
    && !IsBlank(entry.value.actionCode.value)
  }

  /** What screening one decoded entry contributes. */
  function Screened(entry: Option<PolicyRule>): seq<PolicyRule> {
    if IsValidPolicyRule(entry) then [entry.value] else []
  }

  /** The decoded entries `isValidPolicyRule` accepts, in their order. */
  function ValidRules(data: seq<Option<PolicyRule>>): (kept: seq<PolicyRule>)
    ensures |kept| <= |data|
  {
    if data == [] then []
    else ValidRules(data[..|data| - 1]) + Screened(data[|data| - 1])
  }

  lemma ValidRulesSnoc(xs: seq<Option<PolicyRule>>, entry: Option<PolicyRule>)
    ensures ValidRules(xs + [entry]) == ValidRules(xs) + Screened(entry)
  {
    assert (xs + [entry])[..|xs|] == xs;
  }

  /** Screening a concatenation screens each part: the output keeps the
      input's order. */
  lemma {:induction false} ValidRulesAppend(a: seq<Option<PolicyRule>>, b: seq<Option<PolicyRule>>)
    ensures ValidRules(a + b) == ValidRules(a) + ValidRules(b)
    decreases |b|
  {
    if b == [] {
      assert a + b == a;
    } else {
      var c, e := b[..|b| - 1], b[|b| - 1];
      assert b == c + [e];
      assert a + b == (a + c) + [e];
      calc {
        ValidRules(a + b);
        ValidRules((a + c) + [e]);
        { ValidRulesSnoc(a + c, e); }
        ValidRules(a + c) + Screened(e);
        { ValidRulesAppend(a, c); }
        ValidRules(a) + ValidRules(c) + Screened(e);
        { ValidRulesSnoc(c, e); }
        ValidRules(a) + ValidRules(b);
      }
    }
  }

  /** A rule is kept exactly when it was decoded and passes the check. */
  lemma {:induction false} ValidRulesExact(data: seq<Option<PolicyRule>>, rule: PolicyRule)
    ensures rule in ValidRules(data) <==> Some(rule) in data && IsValidPolicyRule(Some(rule))
  {
    if data != [] {
      var n := |data| - 1;
      ValidRulesExact(data[..n], rule);
      assert data == data[..n] + [data[n]];
    }
  }

  /** Every kept rule is a valid one. */
  lemma ValidRulesAllValid(data: seq<Option<PolicyRule>>)
    ensures forall k :: 0 <= k < |ValidRules(data)| ==> IsValidPolicyRule(Some(ValidRules(data)[k]))
  {
    forall k | 0 <= k < |ValidRules(data)|
      ensures IsValidPolicyRule(Some(ValidRules(data)[k]))
    {
      ValidRulesExact(data, ValidRules(data)[k]);
    }
  }

  // ------------------------------------------------------------ the load

  /** What `parseApiResponse` produces for a response body. */
  function ParsedResponse(json: string, env: Env): (r: Result<seq<PolicyRule>, LoadError>)
    ensures env.decodeRules(json).Error? <==> r.Failure?
    ensures r.Failure? ==> r.error == ApiResponseInvalid
    ensures env.decodeRules(json).Null? ==> r == Success([])
  {
    match env.decodeRules(json)
    case Error => Failure(ApiResponseInvalid)
    case Null => Success([])
    case Ok(data) => Success(ValidRules(data))
  }

  /** `parseApiResponse`: decodes the envelope, then keeps the valid entries
      one by one. */
  method ParseApiResponse(json: string, env: Env) returns (r: Result<seq<PolicyRule>, LoadError>)
    ensures r == ParsedResponse(json, env)
  {
    match env.decodeRules(json)
    case Error =>
      return Failure(ApiResponseInvalid);
    case Null =>
      return Success([]);
    case Ok(data) =>
      var validPolicies: seq<PolicyRule> := [];
      for i := 0 to |data|
        invariant validPolicies == ValidRules(data[..i])
      {
        assert data[..i + 1][..i] == data[..i];
        if IsValidPolicyRule(data[i]) {
          validPolicies := validPolicies + [data[i].value];
        } else {
          assert Screened(data[i]) == [];
        }
      }
      assert data[..|data|] == data;
      return Success(validPolicies);
  }

  /** What `loadPolicyRulesFromApi` returns or throws. */
  function ApiLoad(apiEndpoint: string, resources: seq<string>, env: Env): (r: Result<seq<PolicyRule>, LoadError>)
    ensures env.httpGet(BuildApiUrl(apiEndpoint, resources)).Error? ==> r == Failure(ApiRequestFailed)
    ensures env.httpGet(BuildApiUrl(apiEndpoint, resources)).Null? ==> r == Success([])
  {
    match env.httpGet(BuildApiUrl(apiEndpoint, resources))
    case Error => Failure(ApiRequestFailed)
    case Null => Success([])
    case Ok(body) => if IsBlank(body) then Success([]) else ParsedResponse(body, env)
  }

  /** `loadPolicyRulesFromApi`: one GET of the filtered URL; an empty body
      means no rules, an undecodable one or a failed request aborts. */
  method LoadPolicyRulesFromApi(apiEndpoint: string, resources: seq<string>, env: Env)
    returns (r: Result<seq<PolicyRule>, LoadError>)
    ensures r == ApiLoad(apiEndpoint, resources, env)
  {
    var requestUrl := BuildApiUrl(apiEndpoint, resources);
    match env.httpGet(requestUrl)
    case Error =>
      return Failure(ApiRequestFailed);
    case Null =>
      return Success([]);
    case Ok(jsonResponse) =>
      if IsBlank(jsonResponse) {
        return Success([]);
      }
      r := ParseApiResponse(jsonResponse, env);
  }

  /** A successful load returns exactly the valid decoded entries, in order,
      and a blank body returns none. */
  lemma ApiLoadOutcomes(apiEndpoint: string, resources: seq<string>, env: Env)
    ensures var response := env.httpGet(BuildApiUrl(apiEndpoint, resources));
      response.Ok? && IsBlank(response.value) ==> ApiLoad(apiEndpoint, resources, env) == Success([])
    ensures var response := env.httpGet(BuildApiUrl(apiEndpoint, resources));
      response.Ok? && !IsBlank(response.value) && env.decodeRules(response.value).Ok? ==>
        ApiLoad(apiEndpoint, resources, env) == Success(ValidRules(env.decodeRules(response.value).value))
    ensures ApiLoad(apiEndpoint, resources, env).Failure? <==>
      var response := env.httpGet(BuildApiUrl(apiEndpoint, resources));
      response.Error? || (response.Ok? && !IsBlank(response.value) && env.decodeRules(response.value).Error?)
  {
  }

  /** Every rule a successful load returns passes `isValidPolicyRule`. */
  lemma ApiLoadValid(apiEndpoint: string, resources: seq<string>, env: Env)
    requires ApiLoad(apiEndpoint, resources, env).Success?
    ensures forall k :: 0 <= k < |ApiLoad(apiEndpoint, resources, env).value| ==>
      IsValidPolicyRule(Some(ApiLoad(apiEndpoint, resources, env).value[k]))
  {
    var response := env.httpGet(BuildApiUrl(apiEndpoint, resources));
    if response.Ok? && !IsBlank(response.value) && env.decodeRules(response.value).Ok? {
      ValidRulesAllValid(env.decodeRules(response.value).value);
    }
  }

  /** `isApiEndpointValid`: a GET of the endpoint with `?limit=1` appended
      returned a non-blank body; a null body or an exception means false. */
  function IsApiEndpointValid(apiEndpoint: string, env: Env): (valid: bool)
    ensures valid <==> env.httpGet(apiEndpoint + "?limit=1").Ok? && !IsBlank(env.httpGet(apiEndpoint + "?limit=1").value)
  {
    match env.httpGet(apiEndpoint + "?limit=1")
    case Ok(response) => !IsBlank(response)
    case _ => false
  }
}
