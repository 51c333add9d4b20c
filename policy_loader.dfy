/** The orchestrator: parse the configured source, fetch the rules from the
    matching loader, then clear the engine and insert the batch. */
module PolicyLoader {
  import opened Wrappers
  import opened PolicyRules
  import opened Oracles
  import opened Engine
  import opened PolicySourceParser
  import opened CasbinProperties
  import ResourcePolicyLoader
  import DatabasePolicyLoader
  import ApiPolicyLoader

  /** Why `loadPolicies` threw its RuntimeException. */
  datatype ReloadError =
    | InvalidSource(parseError: ParseError)
    | LoaderFailed(loadError: LoadError)
    | UnsupportedPolicyType(kind: string)
    | EnforcerFailed

  /** A loader's exception, rethrown by the orchestrator. */
  function FromLoader(loaded: Result<seq<PolicyRule>, LoadError>): Result<seq<PolicyRule>, ReloadError> {
    match loaded
    case Success(rules) => Success(rules)
    case Failure(e) => Failure(LoaderFailed(e))
  }

  /** `loadPolicyRules`: the loader named by the descriptor's type, each
      given the same resource filter. The database loader runs its own fixed
      query, so the descriptor's query is not passed to it. */
  function FetchRules(kind: string, query: string, resources: seq<string>, env: Env): (r: Result<seq<PolicyRule>, ReloadError>)
    ensures !IsSupportedType(kind) ==> r == Failure(UnsupportedPolicyType(kind))
    ensures r.Failure? && IsSupportedType(kind) ==> r.error.LoaderFailed?
  {
    if kind == DatabaseType then FromLoader(DatabasePolicyLoader.LoadPolicyRulesFromDatabase(resources, env))
    else if kind == ResourceType then FromLoader(ResourcePolicyLoader.CsvLoad(query, resources, env))
    else if kind == ApiType then FromLoader(ApiPolicyLoader.ApiLoad(query, resources, env))
    else Failure(UnsupportedPolicyType(kind))
  }

  /** The dispatch as a statement switch over the three loaders. */
  method LoadPolicyRules(kind: string, query: string, resources: seq<string>, env: Env)
    returns (r: Result<seq<PolicyRule>, ReloadError>)
    ensures r == FetchRules(kind, query, resources, env)
  {
    var loaded: Result<seq<PolicyRule>, LoadError>;
    if kind == DatabaseType {
      loaded := DatabasePolicyLoader.LoadPolicyRulesFromDatabase(resources, env);
    } else if kind == ResourceType {
      loaded := ResourcePolicyLoader.LoadPolicyRulesFromCsv(query, resources, env);
    } else if kind == ApiType {
      loaded := ApiPolicyLoader.LoadPolicyRulesFromApi(query, resources, env);
    } else {
      return Failure(UnsupportedPolicyType(kind));
    }
    r := FromLoader(loaded);
  }

  /** The rules one load would insert: parse, then fetch. */
  function LoadedRules(properties: Properties, env: Env): (r: Result<seq<PolicyRule>, ReloadError>)
    ensures Parse(properties.policySource).Failure? ==>
      r == Failure(InvalidSource(Parse(properties.policySource).error))
  {
    match Parse(properties.policySource)
    case Failure(e) => Failure(InvalidSource(e))
    case Success(config) => FetchRules(config.kind, config.query, properties.resources, env)
  }

  /** How `loadPolicies` ends: normally, or with the error it throws. */
  function LoadOutcome(properties: Properties, env: Env): (r: Outcome<ReloadError>)
    ensures LoadedRules(properties, env).Failure? ==> r == Fail(LoadedRules(properties, env).error)
  {
    match LoadedRules(properties, env)
    case Failure(e) => Fail(e)
    case Success(policies) =>
      if policies != [] && env.addPolicies(policies).Threw? then Fail(EnforcerFailed) else Pass
  }

  /** The engine's rules after `loadPolicies`, starting from `before`. */
  function EngineAfterLoad(before: seq<PolicyRule>, properties: Properties, env: Env): (after: seq<PolicyRule>)
    ensures LoadedRules(properties, env).Failure? ==> after == before
  {
    match LoadedRules(properties, env)
    case Failure(_) => before
    case Success(policies) =>
      if policies != [] && env.addPolicies(policies).Threw? then [] else policies
  }

  /** `loadPoliciesIntoEnforcer`: nothing to do for an empty batch, otherwise
      one batch insert whose `false` answer is only a warning. */
  method LoadPoliciesIntoEnforcer(enforcer: Enforcer, policies: seq<PolicyRule>, env: Env)
    returns (r: Outcome<ReloadError>)
    modifies enforcer
    ensures policies == [] ==> enforcer.rules == old(enforcer.rules) && r == Pass
    ensures policies != [] && env.addPolicies(policies).Threw? ==>
      enforcer.rules == old(enforcer.rules) && r == Fail(EnforcerFailed)
    ensures policies != [] && env.addPolicies(policies).Added? ==>
      enforcer.rules == old(enforcer.rules) + policies && r == Pass
  {
    if policies == [] {
      return Pass;
    }
    var success := enforcer.AddPolicies(policies, env);
    if success.None? {
      return Fail(EnforcerFailed);
    }
    return Pass;
  }

  class PolicyLoader {
    /** The configuration, read afresh on every load. */
    const properties: Properties

    /** How many times `loadPolicies` has been entered. */
    ghost var calls: nat

    constructor (properties: Properties)
      ensures this.properties == properties && calls == 0
    {
      this.properties := properties;
      calls := 0;
    }

    /** `loadPolicies`: a failed parse or fetch throws before the engine is
        touched; otherwise the engine is cleared and then given the batch. */
    method LoadPolicies(enforcer: Enforcer, env: Env) returns (r: Outcome<ReloadError>)
      modifies this, enforcer
      ensures calls == old(calls) + 1
      ensures r == LoadOutcome(properties, env)
      ensures enforcer.rules == EngineAfterLoad(old(enforcer.rules), properties, env)
    {
      calls := calls + 1;
      var config := Parse(properties.policySource);
      if config.Failure? {
        return Fail(InvalidSource(config.error));
      }
      var policies := LoadPolicyRules(config.value.kind, config.value.query, properties.resources, env);
      if policies.Failure? {
        return Fail(policies.error);
      }
      enforcer.ClearPolicy();
      r := LoadPoliciesIntoEnforcer(enforcer, policies.value, env);
    }
  }

  // ------------------------------------------------------------ properties

  /** After a successful parse the type is always one the dispatch knows. */
  lemma ParsedTypeDispatched(properties: Properties, env: Env)
    requires Parse(properties.policySource).Success?
    ensures LoadedRules(properties, env).Failure? ==> LoadedRules(properties, env).error.LoaderFailed?
  {
    ParsedDescriptorValid(properties.policySource);
  }

  /** A parse or loader failure leaves the engine exactly as it was. */
  lemma FailureBeforeClearKeepsRules(before: seq<PolicyRule>, properties: Properties, env: Env)
    requires LoadedRules(properties, env).Failure?
    ensures EngineAfterLoad(before, properties, env) == before
    ensures LoadOutcome(properties, env).Fail?
  {
  }

  /** A successful load leaves the engine holding exactly the fetched rules,
      whatever it held before; an `addPolicies` answer of `false` changes nothing. */
  lemma SuccessReplacesRules(before: seq<PolicyRule>, properties: Properties, env: Env)
    requires LoadOutcome(properties, env).Pass?
    ensures LoadedRules(properties, env).Success?
    ensures EngineAfterLoad(before, properties, env) == LoadedRules(properties, env).value
  {
  }

  /** An empty batch empties the engine and never reaches `addPolicies`. */
  lemma EmptyBatchClears(before: seq<PolicyRule>, properties: Properties, env: Env)
    requires LoadedRules(properties, env) == Success([])
    ensures EngineAfterLoad(before, properties, env) == []
    ensures LoadOutcome(properties, env) == Pass
  {
  }

  /** When the batch insert throws, the error propagates and the cleared
      rules are not restored. */
  lemma ThrowLeavesEngineEmpty(before: seq<PolicyRule>, properties: Properties, env: Env)
    requires LoadedRules(properties, env).Success? && LoadedRules(properties, env).value != []
    requires env.addPolicies(LoadedRules(properties, env).value).Threw?
    ensures EngineAfterLoad(before, properties, env) == []
    ensures LoadOutcome(properties, env) == Fail(EnforcerFailed)
  {
  }

  /** Loading twice against the same world is the same as loading once. */
  lemma LoadIdempotent(before: seq<PolicyRule>, properties: Properties, env: Env)
    ensures EngineAfterLoad(EngineAfterLoad(before, properties, env), properties, env) ==
      EngineAfterLoad(before, properties, env)
  {
  }

  /** A resource source loads the CSV file named by its query, filtered by
      the configured resource list. */
  lemma ResourceSourceReadsCsv(properties: Properties, env: Env)
    requires Parse(properties.policySource).Success?
    requires Parse(properties.policySource).value.kind == ResourceType
    ensures var path := Parse(properties.policySource).value.query;
      ResourcePolicyLoader.CsvLoad(path, properties.resources, env).Success? ==>
        LoadedRules(properties, env) == Success(ResourcePolicyLoader.CsvLoad(path, properties.resources, env).value)
  {
  }
}
