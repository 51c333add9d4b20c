/** Version polling: a cached version number, an enabled flag and a chosen
    version checker; a tick reloads the policies only when the reported
    version differs from the cached one. */
module VersionPollingService {
  import opened Wrappers
  import opened JavaStrings
  import opened Oracles
  import opened Engine
  import opened PolicySourceParser
  import opened CasbinProperties
  import PolicyLoader
  import DatabaseVersionChecker
  import ApiVersionChecker

  /** Which `VersionChecker` implementation the service uses. */
  datatype CheckerKind = DatabaseChecker | ApiChecker

  /** The checker switch: database and api sources have one, others none. */
  function SelectCheckerKind(kind: string): (checker: Option<CheckerKind>)
    ensures checker == Some(DatabaseChecker) <==> kind == DatabaseType
    ensures checker == Some(ApiChecker) <==> kind == ApiType
  {
    if kind == DatabaseType then Some(DatabaseChecker)
    else if kind == ApiType then Some(ApiChecker)
    else None
  }

  /** `validatePollingConfiguration`: whether polling applies; a source
      that does not parse makes it throw. */
  function ValidatePollingConfiguration(properties: Properties): (r: Result<bool, ParseError>)
    ensures r.Failure? ==> Parse(properties.policySource).Failure?
  {
    var polling := properties.polling;
    if !IsValidForPolling(polling) then Success(false)
    else if CompareTo(polling.duration.value, MinimumDuration()) < 0 then Success(false)
    else if properties.policySource.None? || IsBlank(properties.policySource.value) then Success(false)
    else
      match Parse(properties.policySource)
      case Failure(e) => Failure(e)
      case Success(config) => Success(config.kind != ResourceType)
  }

  /** Polling applies exactly when the polling settings are valid and the
      source parses to a database or api descriptor: the minimum-duration
      and blank-source checks never decide anything on their own. */
  lemma ValidationCharacterised(properties: Properties)
    ensures ValidatePollingConfiguration(properties) == Success(true) <==>
      && IsValidForPolling(properties.polling)
      && Parse(properties.policySource).Success?
      && Parse(properties.policySource).value.kind != ResourceType
    ensures ValidatePollingConfiguration(properties) == Success(true) ==>
      SelectCheckerKind(Parse(properties.policySource).value.kind).Some?
  {
    if IsValidForPolling(properties.polling) {
      ValidMeetsMinimum(properties.polling);
    }
    if Parse(properties.policySource).Success? {
      ParsedDescriptorValid(properties.policySource);
    }
  }

  /** The outcome of one polling tick, as values: the new cached version
      and the number of reloads it started. */
  datatype TickResult = TickResult(cache: int, reloads: nat)

  /** `checkVersionAndReload` on values: disabled or no version observed
      means nothing; an unchanged version means nothing; a changed one means
      one reload, and the cache moves only if that reload succeeded. */
  function Tick(enabled: bool, cached: int, observed: Option<int>, reloadSucceeds: bool): (t: TickResult)
    ensures t.reloads <= 1
    ensures t.reloads == 1 <==> enabled && observed.Some? && observed.value != cached
    ensures t.cache != cached ==> enabled && observed == Some(t.cache) && reloadSucceeds
  {
    if !enabled || observed.None? || observed.value == cached then TickResult(cached, 0)
    else TickResult(if reloadSucceeds then observed.value else cached, 1)
  }

  /** After a successful reload the next tick on the same version is quiet. */
  lemma TickSettles(cached: int, v: int, nextSucceeds: bool)
    requires v != cached
    ensures Tick(true, cached, Some(v), true) == TickResult(v, 1)
    ensures Tick(true, Tick(true, cached, Some(v), true).cache, Some(v), nextSucceeds).reloads == 0
  {
  }

  /** After a failed reload the mismatch remains, so the next tick retries. */
  lemma TickRetries(cached: int, v: int, nextSucceeds: bool)
    requires v != cached
    ensures Tick(true, cached, Some(v), false).cache == cached
    ensures Tick(true, Tick(true, cached, Some(v), false).cache, Some(v), nextSucceeds).reloads == 1
  {
  }

  class VersionPollingService {
    const properties: Properties
    const policyLoader: PolicyLoader.PolicyLoader
    const enforcer: Enforcer
    const apiVersionChecker: ApiVersionChecker.ApiVersionChecker

    /** The last version the service acted on. */
    var cachedVersion: int
    var selectedVersionChecker: Option<CheckerKind>
    var pollingEnabled: bool

    /** An enabled service has a checker and a version code to ask about. */
    predicate Valid()
      reads this
    {
      pollingEnabled ==> selectedVersionChecker.Some? && properties.polling.versionCode.Some?
    }

    constructor (properties: Properties, policyLoader: PolicyLoader.PolicyLoader, enforcer: Enforcer,
                 apiVersionChecker: ApiVersionChecker.ApiVersionChecker)
      requires policyLoader.properties == properties
      ensures this.properties == properties && this.policyLoader == policyLoader
      ensures this.enforcer == enforcer && this.apiVersionChecker == apiVersionChecker
      ensures cachedVersion == 0 && !pollingEnabled && selectedVersionChecker.None?
      ensures Valid()
    {
      this.properties := properties;
      this.policyLoader := policyLoader;
      this.enforcer := enforcer;
      this.apiVersionChecker := apiVersionChecker;
      cachedVersion := 0;
      selectedVersionChecker := None;
      pollingEnabled := false;
    }

    /** Whether the chosen checker reports itself available; the API
        checker may throw instead. */
    function CheckerAvailable(checker: CheckerKind, env: Env): Result<bool, ApiVersionChecker.ProbeError>
      reads apiVersionChecker
    {
      match checker
      case DatabaseChecker => Success(DatabaseVersionChecker.IsAvailable(env))
      case ApiChecker => apiVersionChecker.IsAvailable(env)
    }

    /** The version the chosen checker reports for `code`. */
    function CheckerVersion(checker: CheckerKind, code: string, env: Env): Option<int>
      reads apiVersionChecker
    {
      match checker
      case DatabaseChecker => DatabaseVersionChecker.GetCurrentVersion(code, env)
      case ApiChecker => apiVersionChecker.GetCurrentVersion(code, env)
    }

    /** What a tick would observe: nothing when disabled. */
    function ObservedVersion(env: Env): Option<int>
      reads this, apiVersionChecker
    {
      if !pollingEnabled || selectedVersionChecker.None? || properties.polling.versionCode.None? then None
      else CheckerVersion(selectedVersionChecker.value, properties.polling.versionCode.value, env)
    }

    /** The endpoint the API checker holds after setup: the configured
        version endpoint when it is usable, the previous one otherwise. */
    function EndpointAfterSetup(before: Option<string>): Option<string> {
      var endpoint := properties.polling.versionApiEndpoint;
      if ValidatePollingConfiguration(properties) == Success(true)
         && Parse(properties.policySource).value.kind == ApiType
         && endpoint.Some? && !IsBlank(endpoint.value)
      then endpoint
      else before
    }

    /** `setupApiVersionChecker`: hands a usable version endpoint to the
        API checker, and leaves it alone otherwise. */
    method SetupApiVersionChecker()
      modifies apiVersionChecker
      ensures var endpoint := properties.polling.versionApiEndpoint;
        apiVersionChecker.apiEndpoint ==
          if endpoint.Some? && !IsBlank(endpoint.value) then endpoint else old(apiVersionChecker.apiEndpoint)
    {
      var versionApiEndpoint := properties.polling.versionApiEndpoint;
      if versionApiEndpoint.None? || IsBlank(versionApiEndpoint.value) {
        return;
      }
      apiVersionChecker.SetApiEndpoint(versionApiEndpoint.value);
    }

    /** `setupVersionChecker`: re-parses the source and picks the checker;
        any other type leaves the previous choice. */
    method SetupVersionChecker()
      requires Parse(properties.policySource).Success?
      modifies this, apiVersionChecker
      ensures var kind := Parse(properties.policySource).value.kind;
        selectedVersionChecker ==
          if SelectCheckerKind(kind).Some? then SelectCheckerKind(kind) else old(selectedVersionChecker)
      ensures var kind := Parse(properties.policySource).value.kind;
        var endpoint := properties.polling.versionApiEndpoint;
        apiVersionChecker.apiEndpoint ==
          if kind == ApiType && endpoint.Some? && !IsBlank(endpoint.value) then endpoint
          else old(apiVersionChecker.apiEndpoint)
      ensures cachedVersion == old(cachedVersion) && pollingEnabled == old(pollingEnabled)
    {
      var sourceInfo := Parse(properties.policySource).value;
      if sourceInfo.kind == DatabaseType {
        selectedVersionChecker := Some(DatabaseChecker);
      } else if sourceInfo.kind == ApiType {
        SetupApiVersionChecker();
        selectedVersionChecker := Some(ApiChecker);
      }
    }

    /** `initialize`: enables polling when the configuration applies and
        the chosen checker answers that it is available; a failing parse or
        a throwing availability probe leaves the flag as it was. */
    method Initialize(env: Env)
      requires Valid()
      modifies this, apiVersionChecker
      ensures Valid()
      ensures cachedVersion == old(cachedVersion)
      ensures apiVersionChecker.apiEndpoint == EndpointAfterSetup(old(apiVersionChecker.apiEndpoint))
      ensures ValidatePollingConfiguration(properties) != Success(true) ==>
        selectedVersionChecker == old(selectedVersionChecker) && pollingEnabled == old(pollingEnabled)
      ensures ValidatePollingConfiguration(properties) == Success(true) ==>
        && selectedVersionChecker == SelectCheckerKind(Parse(properties.policySource).value.kind)
        && selectedVersionChecker.Some?
        && (pollingEnabled <==>
              old(pollingEnabled) || CheckerAvailable(selectedVersionChecker.value, env) == Success(true))
    {
      var valid := ValidatePollingConfiguration(properties);
      if valid != Success(true) {
        return;
      }
      ValidationCharacterised(properties);
      SetupVersionChecker();
      var available := CheckerAvailable(selectedVersionChecker.value, env);
      if available != Success(true) {
        return;
      }
      pollingEnabled := true;
    }

    /** `loadInitialVersion`: caches the reported version, or 0 when none
        is reported; never reloads. */
    method LoadInitialVersion(env: Env)
      requires Valid()
      modifies this
      ensures Valid()
      ensures pollingEnabled == old(pollingEnabled) && selectedVersionChecker == old(selectedVersionChecker)
      ensures !pollingEnabled ==> cachedVersion == old(cachedVersion)
      ensures pollingEnabled ==> cachedVersion == old(ObservedVersion(env)).GetOr(0)
    {
      if !pollingEnabled {
        return;
      }
      var versionCode := properties.polling.versionCode.value;
      var currentVersion := CheckerVersion(selectedVersionChecker.value, versionCode, env);
      cachedVersion := currentVersion.GetOr(0);
    }

    /** `reloadPolicies`: one load, whose exception is passed on. */
    method ReloadPolicies(env: Env) returns (r: Outcome<PolicyLoader.ReloadError>)
      modifies policyLoader, enforcer
      ensures policyLoader.calls == old(policyLoader.calls) + 1
      ensures r == PolicyLoader.LoadOutcome(policyLoader.properties, env)
      ensures enforcer.rules == PolicyLoader.EngineAfterLoad(old(enforcer.rules), policyLoader.properties, env)
    {
      r := policyLoader.LoadPolicies(enforcer, env);
    }

    /** `checkVersionAndReload`: one polling tick, as `Tick` describes it;
        a failing reload is swallowed and leaves the cache for a retry. */
    method CheckVersionAndReload(env: Env)
      requires Valid()
      modifies this, policyLoader, enforcer
      ensures Valid()
      ensures pollingEnabled == old(pollingEnabled) && selectedVersionChecker == old(selectedVersionChecker)
      ensures var t := Tick(old(pollingEnabled), old(cachedVersion), old(ObservedVersion(env)),
                            PolicyLoader.LoadOutcome(policyLoader.properties, env).Pass?);
        && cachedVersion == t.cache
        && policyLoader.calls == old(policyLoader.calls) + t.reloads
        && enforcer.rules == (if t.reloads == 1
                              then PolicyLoader.EngineAfterLoad(old(enforcer.rules), policyLoader.properties, env)
                              else old(enforcer.rules))
    {
      if !pollingEnabled {
        return;
      }
      var versionCode := properties.polling.versionCode.value;
      var currentVersionOpt := CheckerVersion(selectedVersionChecker.value, versionCode, env);
      if currentVersionOpt.None? {
        return;
      }
      var currentVersion := currentVersionOpt.value;
      if currentVersion != cachedVersion {
        var reloaded := ReloadPolicies(env);
        if reloaded.Fail? {
          return;
        }
        cachedVersion := currentVersion;
      }
    }

    /** `setCachedVersion`: overwrites the cache and nothing else. */
    method SetCachedVersion(version: int)
      requires Valid()
      modifies this
      ensures Valid()
      ensures cachedVersion == version
      ensures pollingEnabled == old(pollingEnabled) && selectedVersionChecker == old(selectedVersionChecker)
    {
      cachedVersion := version;
    }

    function GetCachedVersion(): int
      reads this
    {
      cachedVersion
    }

    function IsPollingEnabled(): bool
      reads this
    {
      pollingEnabled
    }
  }
}
