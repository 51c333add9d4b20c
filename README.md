# Casbin policy source and refresh, modelled in Dafny

This project models the part of the `kha-be-common` library that fills a
Casbin authorization engine with RBAC rules and decides when to refill it.
The model covers these pieces:

- **Policy source parser.** It parses the `type:query` setting into a descriptor.
- **Three rule loaders**, each with an optional resource-code filter:
  - a CSV file on the classpath;
  - a fixed SQL query with bound placeholders;
  - an HTTP endpoint returning a JSON envelope.
- **`PolicyLoader`.** It parses the source, dispatches to a loader, then clears the engine and inserts the batch.
- **Two version checkers** (database and HTTP).
- **`VersionPollingService`.** It caches a version number and reloads only when the reported version changes.
- **`PolicyEventListener`.** It reacts to `<marker>:<version>` pub/sub messages.

## Layout

- `wrappers.dfy` defines the result types:
  - `Option` is a Java reference that may be null, or an `Optional`;
  - `Result` is a method that returns or throws;
  - `Outcome` is a `void` method that may throw.
- `java_strings.dfy` defines the Java `String` operations the code relies on:
  - `trim`, `isEmpty` after trim, `toLowerCase`/`toUpperCase`;
  - `startsWith`, `contains`, `indexOf`;
  - `split` with limit 2 and without a limit (trailing empty fields dropped);
  - `String.join`;
  - `Long.parseLong` and `Long.toString`.
- `policy_rules.dfy` holds the `PolicyRule` record, the loader errors and the reference meaning of a resource filter.
- `oracles.dfy` defines `Env`, with one function per outside collaborator:
  - JDBC;
  - classpath reads;
  - `RestTemplate`;
  - Jackson decoding;
  - the engine's batch insert.

  Each call yields `Ok(value)`, `Null` or `Error` (an exception).
- `engine.dfy` holds the engine's rule store: a class with `ClearPolicy` and `AddPolicies`.
- There is one module per core source file. Imperative code is modelled as classes and methods, each proved against a specification function:
  - the CSV loop;
  - the API response loop;
  - `loadPolicies`;
  - the polling service;
  - the listener.

  The rest is modelled as functions and lemmas.

## Model

| member | source | states |
|---|---|---|
| PolicySourceParser.Parse | src/main/java/com/defi/common/casbin/util/PolicySourceParser.java:35-61 | A null or blank source fails with `NullOrEmpty`. A source without `:` fails with `MissingSeparator`. Otherwise the text is cut at the FIRST `:`, and the two segments decide the result. |
| PolicySourceParser.ParseSegments | src/main/java/com/defi/common/casbin/util/PolicySourceParser.java:45-60 | A success carries the trimmed, lower-cased type and the trimmed query. The type is supported, the query fits the type, and the query is non-empty and trimmed. A blank query fails with `EmptyQuery` whatever the type. |
| PolicySourceParser.ValidatePolicyType | src/main/java/com/defi/common/casbin/util/PolicySourceParser.java:69-74 | Passes iff the type is exactly `database`, `resource` or `api`; otherwise fails with `UnsupportedType(type)`. |
| PolicySourceParser.ValidatePolicyQuery | src/main/java/com/defi/common/casbin/util/PolicySourceParser.java:83-101 | A database query passes iff its upper-cased form starts with `SELECT`. A resource query passes iff it contains `csv` (case-sensitive). An api query passes iff it starts with `http://` or `https://`. |
| PolicySourceParser.ParsedDescriptorValid | src/main/java/com/defi/common/casbin/util/PolicySourceParser.java:57-60 | Every successful parse has a supported type and a query that fits that type, is non-empty and has no surrounding whitespace. |
| PolicySourceParser.SupportedTypeColonFree | src/main/java/com/defi/common/casbin/util/PolicySourceParser.java:69-74 | No supported type name contains `:`. |
| PolicySourceParser.ParseCutsAfterKind | src/main/java/com/defi/common/casbin/util/PolicySourceParser.java:40-43 | When the type has no `:`, everything after the first `:` is the query, including further colons. |
| PolicySourceParser.SegmentsAccepted | src/main/java/com/defi/common/casbin/util/PolicySourceParser.java:45-60 | Segments that pass all three checks give exactly the normalised descriptor. |
| PolicySourceParser.ParseJoined | src/main/java/com/defi/common/casbin/util/PolicySourceParser.java:40-60 | `kind:query` with a valid kind and a valid, trimmed query parses to `(lower(trim(kind)), query)`. |
| PolicySourceParser.ParseIdempotent | src/main/java/com/defi/common/casbin/util/PolicySourceParser.java:40-60 | Joining a parsed descriptor back as `type:query` and parsing it again gives the same result. |
| PolicySourceParser.EmptyQueryBeforeType | src/main/java/com/defi/common/casbin/util/PolicySourceParser.java:48-53 | A blank query fails with `EmptyQuery` even when the type is unknown, because the empty-query check runs first. |
| PolicySourceParser.UnknownTypeRejected | src/main/java/com/defi/common/casbin/util/PolicySourceParser.java:48-74 | A non-blank query with an unknown type fails with `UnsupportedType`, naming the normalised type. |
| CasbinProperties.DefaultPolling | src/main/java/com/defi/common/casbin/config/CasbinProperties.java:81-109 | Initially there is no duration and no version endpoint. |
| CasbinProperties.Defaults | src/main/java/com/defi/common/casbin/config/CasbinProperties.java:50-56 | The default filter is empty, meaning load everything, and no policy source is set. |
| CasbinProperties.MinimumDuration | src/main/java/com/defi/common/casbin/config/CasbinProperties.java:127-129 | The minimum is exactly one minute. A duration compares `>=` to it iff it has at least 60 whole seconds. |
| CasbinProperties.IsValidForPolling | src/main/java/com/defi/common/casbin/config/CasbinProperties.java:116-120 | Holds iff the duration is set with at least 60 whole seconds (`toMinutes` truncates) and the version code is set and not blank. |
| CasbinProperties.ValidMeetsMinimum | src/main/java/com/defi/common/casbin/config/CasbinProperties.java:116-129 | Every configuration valid for polling is at least the minimum duration. |
| CasbinProperties.EnabledNotConsulted | src/main/java/com/defi/common/casbin/config/CasbinProperties.java:91-120 | The `enabled` flag does not affect validity. |
| CasbinProperties.DefaultsDoNotPoll | src/main/java/com/defi/common/casbin/config/CasbinProperties.java:81-120 | With the defaults, polling is not valid, `enabled` is false and the version code is `policy_version`. |
| PolicyRules.FilterByResource | src/main/java/com/defi/common/casbin/service/ResourcePolicyLoader.java:72 | Reference filter: an empty filter keeps everything; otherwise a rule is kept iff its resource code is listed. |
| ResourcePolicyLoader.LineRule | src/main/java/com/defi/common/casbin/service/ResourcePolicyLoader.java:56-84 | A rule produced from line `i` (0-based) gets id `i + 1`. |
| ResourcePolicyLoader.LineRuleShape | src/main/java/com/defi/common/casbin/service/ResourcePolicyLoader.java:56-80 | A line yielding a rule is not blank and not a `#` comment. Its role is a long within range. Its resource and action codes are trimmed. The filter admits its resource code. |
| ResourcePolicyLoader.LineResults | src/main/java/com/defi/common/casbin/service/ResourcePolicyLoader.java:53-85 | There is one outcome per line of the file. |
| ResourcePolicyLoader.Collect | src/main/java/com/defi/common/casbin/service/ResourcePolicyLoader.java:52-85 | The collected rules are never more than the lines. |
| ResourcePolicyLoader.LineResultsNumbered | src/main/java/com/defi/common/casbin/service/ResourcePolicyLoader.java:74 | Each line's rule, if any, is numbered after its own position. |
| ResourcePolicyLoader.CollectProvenance | src/main/java/com/defi/common/casbin/service/ResourcePolicyLoader.java:55-79 | Each collected rule came from the line its id names. |
| ResourcePolicyLoader.CollectOrdered | src/main/java/com/defi/common/casbin/service/ResourcePolicyLoader.java:55-79 | Collected ids are present and strictly increasing. |
| ResourcePolicyLoader.CollectComplete | src/main/java/com/defi/common/casbin/service/ResourcePolicyLoader.java:55-85 | Every line's rule is collected. |
| ResourcePolicyLoader.CsvRulesProvenance | src/main/java/com/defi/common/casbin/service/ResourcePolicyLoader.java:52-85 | Every loaded rule is the rule its 1-based line number produces. |
| ResourcePolicyLoader.CsvRulesOrdered | src/main/java/com/defi/common/casbin/service/ResourcePolicyLoader.java:52-85 | Loaded ids follow file order and are unique, strictly increasing. |
| ResourcePolicyLoader.CsvRulesComplete | src/main/java/com/defi/common/casbin/service/ResourcePolicyLoader.java:52-85 | Every line that yields a rule contributes it; bad lines are skipped and loading continues. |
| ResourcePolicyLoader.CsvLoad | src/main/java/com/defi/common/casbin/service/ResourcePolicyLoader.java:44-93 | The load fails (`ResourceUnreadable`) iff the `classpath:` resource cannot be read, and never returns a partial list. |
| ResourcePolicyLoader.LoadPolicyRulesFromCsv | src/main/java/com/defi/common/casbin/service/ResourcePolicyLoader.java:44-94 | The indexed loop with `continue` yields exactly `CsvLoad`: the rules of the lines in order. |
| ResourcePolicyLoader.LineRuleFilter | src/main/java/com/defi/common/casbin/service/ResourcePolicyLoader.java:72 | Filtering a line while reading it equals filtering its unfiltered rule. |
| ResourcePolicyLoader.CollectFilter | src/main/java/com/defi/common/casbin/service/ResourcePolicyLoader.java:52-85 | Collecting filtered outcomes equals filtering the collected rules. |
| ResourcePolicyLoader.CsvRulesFilter | src/main/java/com/defi/common/casbin/service/ResourcePolicyLoader.java:72 | A filtered load equals `FilterByResource` of the unfiltered load. |
| ResourcePolicyLoader.LineRuleOfFormatted | src/main/java/com/defi/common/casbin/service/ResourcePolicyLoader.java:56-80 | A line `p,<role>,<resource>,<action>` reads back as that rule, with id = line number, when the filter admits it; otherwise it gives nothing. |
| ResourcePolicyLoader.EmptyActionDropsRow | src/main/java/com/defi/common/casbin/service/ResourcePolicyLoader.java:63-65 | `p,<role>,<resource>,` yields no rule, because Java drops the trailing empty field and fewer than four fields remain. |
| ResourcePolicyLoader.InteriorEmptyActionKept | src/main/java/com/defi/common/casbin/service/ResourcePolicyLoader.java:63-79 | `p,<role>,<resource>,,<more>` keeps its interior empty field. It reads back as a rule with the empty action code, numbered after its line, when the filter admits it. |
| ResourcePolicyLoader.TwoRowLoad | src/main/java/com/defi/common/casbin/service/ResourcePolicyLoader.java:44-88 | A two-row file filtered by its resource loads both rules, with ids 1 and 2. |
| ResourcePolicyLoader.UserFile | src/main/java/com/defi/common/casbin/service/ResourcePolicyLoader.java:44-88 | `p,1,user,read` and `p,2,user,write` filtered by `user` load two `user` rules with ids 1 and 2. |
| DatabasePolicyLoader.PlaceholderCount | src/main/java/com/defi/common/casbin/service/DatabasePolicyLoader.java:101 | The joined placeholder list holds exactly `n` marks and nothing but marks and commas. |
| DatabasePolicyLoader.InClauseCount | src/main/java/com/defi/common/casbin/service/DatabasePolicyLoader.java:101-102 | The `resource_code IN (...)` clause holds exactly one `?` per filter entry. |
| DatabasePolicyLoader.Connector | src/main/java/com/defi/common/casbin/service/DatabasePolicyLoader.java:104-110 | The connector word adds no placeholder. |
| DatabasePolicyLoader.AddResourceFilterToQuery | src/main/java/com/defi/common/casbin/service/DatabasePolicyLoader.java:95-111 | An empty filter returns the query unchanged. Otherwise the query stays a prefix. ` AND ` is appended when the upper-cased, trimmed query contains `WHERE` anywhere, ` WHERE ` otherwise, followed by the `IN` clause. |
| DatabasePolicyLoader.FilterValuesNotInSql | src/main/java/com/defi/common/casbin/service/DatabasePolicyLoader.java:95-111 | The rewritten SQL depends only on the number of filter entries, never on their text. |
| DatabasePolicyLoader.FilterAddsPlaceholders | src/main/java/com/defi/common/casbin/service/DatabasePolicyLoader.java:95-111 | A non-empty filter adds exactly one `?` per entry. |
| DatabasePolicyLoader.NoWNoWhere | src/main/java/com/defi/common/casbin/service/DatabasePolicyLoader.java:104-106 | A trimmed query with no `W` or `w` never counts as mentioning `WHERE`. |
| DatabasePolicyLoader.RuleQueryHasNoPlaceholder | src/main/java/com/defi/common/casbin/service/DatabasePolicyLoader.java:58 | The fixed `SELECT * FROM auth.policy_rules` holds no `?`. |
| DatabasePolicyLoader.RuleQueryHasNoWhere | src/main/java/com/defi/common/casbin/service/DatabasePolicyLoader.java:58 | The fixed query does not mention `WHERE`, so a filter always takes the ` WHERE ` branch. |
| DatabasePolicyLoader.FilterOnPlainQuery | src/main/java/com/defi/common/casbin/service/DatabasePolicyLoader.java:95-111 | On a query with no `?` and no `WHERE`, a non-empty filter is introduced by ` WHERE `, and the result holds exactly one `?` per entry. |
| DatabasePolicyLoader.RuleQuerySql | src/main/java/com/defi/common/casbin/service/DatabasePolicyLoader.java:58-70 | The filtered rule query is `SELECT * FROM auth.policy_rules WHERE resource_code IN (?,…,?)`, with exactly as many `?` as filter entries. |
| DatabasePolicyLoader.RuleQuery | src/main/java/com/defi/common/casbin/service/DatabasePolicyLoader.java:57-71 | An empty filter runs the fixed `SELECT * FROM auth.policy_rules` unchanged, with no arguments. A non-empty one runs that query followed by ` WHERE resource_code IN (?,…,?)`, and binds the filter values in order. The statement always holds exactly one `?` per bound value. |
| DatabasePolicyLoader.LoadPolicyRulesFromDatabase | src/main/java/com/defi/common/casbin/service/DatabasePolicyLoader.java:57-80 | Succeeds with the queried rows iff the query returns. Every failure becomes `DatabaseQueryFailed`. |
| DatabasePolicyLoader.IsQueryValid | src/main/java/com/defi/common/casbin/service/DatabasePolicyLoader.java:119-127 | True iff the statement with ` LIMIT 1` appended runs without an exception. |
| DatabasePolicyLoader.VersionCall | src/main/java/com/defi/common/casbin/service/DatabasePolicyLoader.java:142-143 | The version lookup is the fixed statement, with the code as its only bound argument. |
| DatabasePolicyLoader.GetCurrentVersion | src/main/java/com/defi/common/casbin/service/DatabasePolicyLoader.java:140-150 | Present iff the lookup returned a value, and then equal to it. A null or an exception gives empty. |
| DatabasePolicyLoader.GetCurrentPolicyVersion | src/main/java/com/defi/common/casbin/service/DatabasePolicyLoader.java:157-159 | The `policy_version` entry, or 0 when it is empty. |
| DatabaseVersionChecker.GetCurrentVersion | src/main/java/com/defi/common/casbin/service/DatabaseVersionChecker.java:29-39 | A present scalar is returned. A null result or any exception gives empty, and nothing is thrown. |
| DatabaseVersionChecker.IsAvailable | src/main/java/com/defi/common/casbin/service/DatabaseVersionChecker.java:41-51 | True iff `SELECT 1` runs without an exception. |
| DatabaseVersionChecker.GetDescription | src/main/java/com/defi/common/casbin/service/DatabaseVersionChecker.java:53-56 | Always returns the fixed description. |
| ApiPolicyLoader.BuildApiUrl | src/main/java/com/defi/common/casbin/service/ApiPolicyLoader.java:104-113 | An empty filter gives the base URL. Otherwise the result is: the base URL; then `&` or `?`; then `resourceCode=`; then the codes joined with `,`, unencoded. The base is always a prefix. |
| ApiPolicyLoader.SeparatorFollowsBase | src/main/java/com/defi/common/casbin/service/ApiPolicyLoader.java:111-112 | The character after the base is `&` iff the base contains `?`, and `?` iff it does not. |
| ApiPolicyLoader.FilterRecoverable | src/main/java/com/defi/common/casbin/service/ApiPolicyLoader.java:110-112 | The text after `resourceCode=` splits on `,` back into the filter, when no code holds a comma. |
| ApiPolicyLoader.ValidRules | src/main/java/com/defi/common/casbin/service/ApiPolicyLoader.java:139-148 | Screening never adds entries. |
| ApiPolicyLoader.ValidRulesAppend | src/main/java/com/defi/common/casbin/service/ApiPolicyLoader.java:139-148 | Screening a concatenation concatenates the screenings, so the decoded order is kept. |
| ApiPolicyLoader.ValidRulesExact | src/main/java/com/defi/common/casbin/service/ApiPolicyLoader.java:139-176 | A rule is in the output iff it was decoded and `isValidPolicyRule` accepts it: all three fields are non-null, and the resource and action codes are not blank. |
| ApiPolicyLoader.ValidRulesAllValid | src/main/java/com/defi/common/casbin/service/ApiPolicyLoader.java:139-148 | Every output rule is valid. |
| ApiPolicyLoader.ParsedResponse | src/main/java/com/defi/common/casbin/service/ApiPolicyLoader.java:126-154 | An undecodable body fails with `ApiResponseInvalid`, and only such a body does. A null `data` gives an empty list. |
| ApiPolicyLoader.ParseApiResponse | src/main/java/com/defi/common/casbin/service/ApiPolicyLoader.java:126-154 | The appending loop yields exactly `ParsedResponse`. |
| ApiPolicyLoader.ApiLoad | src/main/java/com/defi/common/casbin/service/ApiPolicyLoader.java:63-95 | A failed GET aborts with `ApiRequestFailed`. A null body gives an empty list. |
| ApiPolicyLoader.LoadPolicyRulesFromApi | src/main/java/com/defi/common/casbin/service/ApiPolicyLoader.java:63-95 | The method yields exactly `ApiLoad`. |
| ApiPolicyLoader.ApiLoadOutcomes | src/main/java/com/defi/common/casbin/service/ApiPolicyLoader.java:63-95 | A blank body gives an empty list. A decoded body gives exactly its valid entries. The load fails iff the GET fails or a non-blank body does not decode. |
| ApiPolicyLoader.ApiLoadValid | src/main/java/com/defi/common/casbin/service/ApiPolicyLoader.java:63-95 | Every rule of a successful load is valid. |
| ApiPolicyLoader.IsApiEndpointValid | src/main/java/com/defi/common/casbin/service/ApiPolicyLoader.java:184-192 | True iff a GET of `endpoint?limit=1` returns a non-blank body. A null body or an exception gives false. |
| Engine.Enforcer.ClearPolicy | src/main/java/com/defi/common/casbin/service/PolicyLoader.java:83 | The engine holds no rules afterwards. |
| Engine.Enforcer.AddPolicies | src/main/java/com/defi/common/casbin/service/PolicyLoader.java:126 | The batch is appended and the engine's flag returned. If the engine throws, nothing is added. |
| PolicyLoader.FetchRules | src/main/java/com/defi/common/casbin/service/PolicyLoader.java:149-161 | An unknown type fails with `UnsupportedPolicyType`. For a known type, every failure is the loader's own. |
| PolicyLoader.LoadPolicyRules | src/main/java/com/defi/common/casbin/service/PolicyLoader.java:149-161 | The switch gives exactly `FetchRules`: `database`, `resource` and `api` go to the three loaders, each with the same filter. |
| PolicyLoader.LoadedRules | src/main/java/com/defi/common/casbin/service/PolicyLoader.java:70-80 | A source that does not parse fails with its parse error before any loader runs. |
| PolicyLoader.LoadOutcome | src/main/java/com/defi/common/casbin/service/PolicyLoader.java:69-95 | A parse or loader failure is rethrown as is. |
| PolicyLoader.EngineAfterLoad | src/main/java/com/defi/common/casbin/service/PolicyLoader.java:69-95 | A parse or loader failure leaves the rules as they were. |
| PolicyLoader.LoadPoliciesIntoEnforcer | src/main/java/com/defi/common/casbin/service/PolicyLoader.java:111-138 | An empty batch does nothing. An engine that throws fails the load with `EnforcerFailed`. An engine that returns, even `false`, gets the batch appended and the load passes. |
| PolicyLoader.PolicyLoader.constructor | src/main/java/com/defi/common/casbin/service/PolicyLoader.java:45-50 | The loader keeps its configuration, and no load has run yet. |
| PolicyLoader.PolicyLoader.LoadPolicies | src/main/java/com/defi/common/casbin/service/PolicyLoader.java:69-95 | One call. The outcome is `LoadOutcome` and the engine ends as `EngineAfterLoad` says. |
| PolicyLoader.ParsedTypeDispatched | src/main/java/com/defi/common/casbin/service/PolicyLoader.java:77-80 | After a successful parse, any failure comes from the loader and never from an unsupported type. |
| PolicyLoader.FailureBeforeClearKeepsRules | src/main/java/com/defi/common/casbin/service/PolicyLoader.java:75-83 | Parse and loader failures happen before `clearPolicy`: the rules are unchanged and the load fails. |
| PolicyLoader.SuccessReplacesRules | src/main/java/com/defi/common/casbin/service/PolicyLoader.java:83-86 | A passing load leaves exactly the fetched rules, whatever was there before. |
| PolicyLoader.EmptyBatchClears | src/main/java/com/defi/common/casbin/service/PolicyLoader.java:114-117 | An empty fetch leaves an empty engine and passes. |
| PolicyLoader.ThrowLeavesEngineEmpty | src/main/java/com/defi/common/casbin/service/PolicyLoader.java:83-137 | When `addPolicies` throws after the clear, the load fails and the old rules are not restored. |
| PolicyLoader.LoadIdempotent | src/main/java/com/defi/common/casbin/service/PolicyLoader.java:69-95 | Loading twice from the same world leaves the same rules as loading once. |
| PolicyLoader.ResourceSourceReadsCsv | src/main/java/com/defi/common/casbin/service/PolicyLoader.java:155-156 | A `resource` source loads the CSV file its query names, with the configured filter. |
| ApiVersionChecker.ApiVersionChecker.constructor | src/main/java/com/defi/common/casbin/service/ApiVersionChecker.java:32 | The endpoint starts unset. |
| ApiVersionChecker.ApiVersionChecker.SetApiEndpoint | src/main/java/com/defi/common/casbin/service/ApiVersionChecker.java:41-43 | The endpoint is replaced. |
| ApiVersionChecker.ApiVersionChecker.GetCurrentVersion | src/main/java/com/defi/common/casbin/service/ApiVersionChecker.java:45-77 | An unset or blank endpoint gives empty. A value is present iff the GET returns a non-blank body whose envelope decodes with non-null `data`, and then it is that `data`. All else is empty. |
| ApiVersionChecker.ApiVersionChecker.IsAvailable | src/main/java/com/defi/common/casbin/service/ApiVersionChecker.java:79-87 | An unset endpoint gives false. Otherwise it returns iff the GET gives a body, and it is true iff that body is not blank; a failed GET or a null body escapes as an error. |
| ApiVersionChecker.ApiVersionChecker.GetDescription | src/main/java/com/defi/common/casbin/service/ApiVersionChecker.java:89-93 | The fixed prefix, followed by the endpoint or by `not configured`. |
| ApiVersionChecker.VersionImpliesAvailable | src/main/java/com/defi/common/casbin/service/ApiVersionChecker.java:45-87 | A checker that reports a version also reports itself available. |
| VersionPollingService.SelectCheckerKind | src/main/java/com/defi/common/casbin/service/VersionPollingService.java:228-243 | `database` selects the database checker and `api` the API checker. Nothing else selects either. |
| VersionPollingService.ValidatePollingConfiguration | src/main/java/com/defi/common/casbin/service/VersionPollingService.java:190-222 | It throws only when the source does not parse. |
| VersionPollingService.ValidationCharacterised | src/main/java/com/defi/common/casbin/service/VersionPollingService.java:190-222 | Polling applies iff the polling settings are valid and the source parses to a non-`resource` descriptor. The minimum-duration and blank-source checks never decide on their own. An applicable source always has a checker. |
| VersionPollingService.Tick | src/main/java/com/defi/common/casbin/service/VersionPollingService.java:134-170 | At most one reload. A reload happens iff polling is enabled and a version was read that differs from the cache. The cache moves only to that version, and only if the reload passed. |
| VersionPollingService.TickSettles | src/main/java/com/defi/common/casbin/service/VersionPollingService.java:151-159 | After a successful reload, the next tick at the same version does not reload. |
| VersionPollingService.TickRetries | src/main/java/com/defi/common/casbin/service/VersionPollingService.java:156-169 | After a failed reload the cache is unchanged, so the next tick reloads again. |
| VersionPollingService.VersionPollingService.constructor | src/main/java/com/defi/common/casbin/service/VersionPollingService.java:55-65 | The cache starts at 0 and polling starts disabled, with no checker. The service shares its configuration with its loader. |
| VersionPollingService.VersionPollingService.SetupApiVersionChecker | src/main/java/com/defi/common/casbin/service/VersionPollingService.java:246-255 | A usable version endpoint is handed to the API checker; otherwise its endpoint is left alone. |
| VersionPollingService.VersionPollingService.SetupVersionChecker | src/main/java/com/defi/common/casbin/service/VersionPollingService.java:224-244 | The checker follows the parsed type. Any other type keeps the previous choice. Only the `api` branch configures the endpoint. |
| VersionPollingService.VersionPollingService.Initialize | src/main/java/com/defi/common/casbin/service/VersionPollingService.java:67-94 | Nothing changes unless the configuration applies. When it applies, the checker is selected, and polling becomes enabled iff it was already enabled or the checker answers available. A throwing probe does not enable polling. |
| VersionPollingService.VersionPollingService.LoadInitialVersion | src/main/java/com/defi/common/casbin/service/VersionPollingService.java:99-117 | When disabled, nothing changes. Otherwise the cache becomes the reported version, or 0. It never reloads, since the loader is outside its frame. |
| VersionPollingService.VersionPollingService.ReloadPolicies | src/main/java/com/defi/common/casbin/service/VersionPollingService.java:257-266 | Exactly one `loadPolicies`, whose outcome is passed on. |
| VersionPollingService.VersionPollingService.CheckVersionAndReload | src/main/java/com/defi/common/casbin/service/VersionPollingService.java:133-170 | The new cache, the number of loads and the engine's rules are exactly what `Tick` gives. The flag and the checker are unchanged. |
| VersionPollingService.VersionPollingService.SetCachedVersion | src/main/java/com/defi/common/casbin/service/VersionPollingService.java:267-270 | The cache is overwritten. The flag and the checker are unchanged, and there is no reload. |
| PolicyEventListener.ParseReloadMessage | src/main/java/com/defi/common/casbin/event/PolicyEventListener.java:95-98 | A body is ignored iff it does not start with the marker. A version read is in the long range. Fewer than two `:` fields is malformed. |
| PolicyEventListener.ReloadMessageRoundTrip | src/main/java/com/defi/common/casbin/event/PolicyEventListener.java:95-98 | `marker:Long.toString(v)` reloads at `v` when the marker has no `:`. |
| PolicyEventListener.MissingVersionMalformed | src/main/java/com/defi/common/casbin/event/PolicyEventListener.java:98 | The bare marker, and the marker followed by `:`, both carry no version and are malformed. |
| PolicyEventListener.PolicyEventListener.constructor | src/main/java/com/defi/common/casbin/event/PolicyEventListener.java:59-61 | The listener keeps its collaborators and the marker. They are the same loader and engine the polling service uses. |
| PolicyEventListener.PolicyEventListener.OnMessage | src/main/java/com/defi/common/casbin/event/PolicyEventListener.java:86-111 | A reload message sets the cache to its version, then runs exactly one load, whose failure is swallowed with the cache still at the version. Any other message changes nothing and loads nothing. The polling flag and the selected checker never change. The channel pattern plays no part. |

## Left out

- I/O is left out as collaborators. JDBC, the classpath `ResourceLoader`, `RestTemplate`, Jackson decoding and the engine's batch insert are functions of `Env`. Their results, including which rows the database returns, are inputs.
- The JDBC row mapper (`DatabasePolicyLoader.java:40-47`) is not part of this model. A SQL NULL `id` or `role_id` becomes 0 there; here the rows are whatever the collaborator returns.
- `PolicyRule.toCasbinPolicy` and the `PolicyRule` class are not part of this model. `addPolicies` receives the rule records, and a conversion failure counts as the engine throwing.
- The value of `PolicyEventConstant.RELOAD_MESSAGE` is not part of this model: it is the listener's `reloadMarker`. The message body is given as text; its byte decoding with the platform charset is left out.
- Logging is left out. So is the `@Scheduled` delay expression, along with the Spring lifecycle hooks (`@PostConstruct`, `ApplicationReadyEvent`); their methods are called explicitly.
- `AtomicLong` atomicity, and concurrency between the scheduler and the listener, are left out: calls are sequential.
- Java strings are restricted:
  - `toLowerCase`/`toUpperCase` map ASCII letters only;
  - `Long.parseLong` accepts ASCII digits only;
  - `trim` removes characters up to U+0020.

  The `split` calls use `"\n"`, `","` and `":"`. These regular expressions match their literal character, so splitting is modelled on that character.
- Ids, roles and versions from collaborators are unbounded integers. The 64-bit range is enforced only where the code parses text (`Long.parseLong`).
- `Engine.Enforcer.AddPolicies` reads the engine's `false` answer as "the batch was still appended". The engine is outside this model, and the loader ignores the flag (`PolicyLoader.java:126-131`). So `SuccessReplacesRules` holds for a `false` answer only under this reading.
- `getCachedVersion` and `isPollingEnabled` are plain getters without contracts.
- `getDescription` in `initialize` is used only for logging and is not called.
- `DatabaseVersionChecker.GetCurrentVersion` is defined through the rule loader's lookup. The two classes run the same statement with the same error handling.
- `PolicyLoader.PolicyLoader.LoadPolicies` and `PolicyEventListener.PolicyEventListener.OnMessage` count loads with a ghost counter, `calls`, on the loader.
- `PolicyLoader.java:154` passes `(policyQuery, resources)` to the database loader, which takes only `resources` and runs its fixed query (`DatabasePolicyLoader.java:57-58`). The model calls it with the filter only, so a database descriptor's query is validated but never executed.
- `VersionPollingService.java:107,141,253` call `getCurrentVersion(code)` and `setVersionApiEndpoint`. `ApiVersionChecker` declares a zero-argument `getCurrentVersion()` (line 46) and `setApiEndpoint` (line 41). The model follows the `VersionChecker.java:24-38` shape: the API checker takes the code and ignores it, and the endpoint setter is `SetApiEndpoint`.
- Three behaviours of the code that a reader might not expect, all modelled as written:
  - The CSV loader does not require non-empty codes. It accepts an empty resource code (`p,1,,read`). A trailing empty action (`p,1,user,`) drops the row, because `split` removes trailing empty fields (`EmptyActionDropsRow`). An empty action followed by another field (`p,1,user,,x`) is accepted as an empty action code (`InteriorEmptyActionKept`).
  - `ApiVersionChecker.isAvailable` lets a failed GET or a null body escape as an exception (`ApiVersionChecker.IsAvailable` returns an error for them). The database checker never throws.
  - The database loader ignores the configured query and runs its fixed one.
