/** The JDBC rule loader: a fixed rule query, optionally narrowed to a list
    of resource codes through bound placeholders, plus the version lookups
    the same class offers. */
module DatabasePolicyLoader {
  import opened Wrappers
  import opened JavaStrings
  import opened PolicyRules
  import opened Oracles

  /** The only rule query this loader runs. */
  const PolicyRulesQuery: string := "SELECT * FROM auth.policy_rules"

  /** The version lookup; the code is always a bound argument. */
  const VersionQuery: string := "SELECT version FROM auth_version WHERE code = ?"

  const PolicyVersionCode: string := "policy_version"

  /** `String.join(",", …)` over one "?" per filter entry. */
  function Placeholders(n: nat): string {
    if n == 0 then "" else if n == 1 then "?" else "?," + Placeholders(n - 1)
  }

  /** The placeholder list holds exactly one '?' per entry, and nothing
      but marks and commas. */
  lemma {:induction false} PlaceholderCount(n: nat)
    ensures Count('?', Placeholders(n)) == n
    ensures forall k :: 0 <= k < |Placeholders(n)| ==> Placeholders(n)[k] in "?,"
  {
    if n > 1 {
      PlaceholderCount(n - 1);
      CountAppend('?', "?,", Placeholders(n - 1));
    }
  }

  /** The clause a non-empty filter appends: `resource_code IN (?,…,?)`. */
  function InClause(n: nat): string {
    "resource_code IN (" + Placeholders(n) + ")"
  }

  lemma InClauseCount(n: nat)
    ensures Count('?', InClause(n)) == n
  {
    PlaceholderCount(n);
    CountSandwich('?', "resource_code IN (", Placeholders(n), ")");
  }

  /** Whether the upper-cased, trimmed query mentions WHERE anywhere. */
  predicate MentionsWhere(query: string) {
    Contains(ToUpperCase(Trim(query)), "WHERE")
  }

  /** The word joining the filter to the query. */
  function Connector(query: string): (connector: string)
    ensures '?' !in connector
  {
    if MentionsWhere(query) then " AND " else " WHERE "
  }

  /** `addResourceFilterToQuery`: an empty filter leaves the query alone;
      otherwise an `IN` clause with one placeholder per entry is appended,
      joined with AND when the upper-cased, trimmed query already mentions
      WHERE anywhere, and introduced by WHERE otherwise. */
  function AddResourceFilterToQuery(originalQuery: string, resources: seq<string>): (r: string)
    ensures resources == [] ==> r == originalQuery
    ensures StartsWith(r, originalQuery)
    ensures resources != [] && MentionsWhere(originalQuery) ==>
      r == originalQuery + " AND " + InClause(|resources|)
    ensures resources != [] && !MentionsWhere(originalQuery) ==>
      r == originalQuery + " WHERE " + InClause(|resources|)
  {
    if resources == [] then originalQuery
    else originalQuery + Connector(originalQuery) + InClause(|resources|)
  }

  /** The rewritten text depends on the filter's length only: no filter
      value ever reaches the SQL. */
  lemma FilterValuesNotInSql(originalQuery: string, a: seq<string>, b: seq<string>)
    requires |a| == |b|
    ensures AddResourceFilterToQuery(originalQuery, a) == AddResourceFilterToQuery(originalQuery, b)
  {
  }

  /** A non-empty filter adds exactly one '?' per entry. */
  lemma FilterAddsPlaceholders(originalQuery: string, resources: seq<string>)
    requires resources != []
    ensures Count('?', AddResourceFilterToQuery(originalQuery, resources)) ==
      Count('?', originalQuery) + |resources|
  {
    InClauseCount(|resources|);
    CountAround('?', originalQuery, Connector(originalQuery), InClause(|resources|));
  }

  /** A query with no letter W in either case cannot mention WHERE. */
  lemma NoWNoWhere(query: string)
    requires Unpadded(query) && 'W' !in query && 'w' !in query
    ensures !MentionsWhere(query)
  {
    TrimOfTrimmed(query);
    UpperCaseAvoids(query, 'W');
    ContainsNeedsHead(ToUpperCase(query), "WHERE");
  }

  // The characters of the fixed rule query that matter to the filter, one
  // lemma each: the solver handles a single character test on the literal
  // far more cheaply than their conjunction.
  lemma RuleQueryHasNoMark()
    ensures '?' !in PolicyRulesQuery
  {
  }

  lemma RuleQueryHasNoUpperW()
    ensures 'W' !in PolicyRulesQuery
  {
  }

  lemma RuleQueryHasNoLowerW()
    ensures 'w' !in PolicyRulesQuery
  {
  }

  /** The fixed rule query binds nothing by itself. */
  lemma RuleQueryHasNoPlaceholder()
    ensures Count('?', PolicyRulesQuery) == 0
  {
    RuleQueryHasNoMark();
    CountAbsent('?', PolicyRulesQuery);
  }

  /** The fixed rule query has no WHERE, so a filter is introduced by one. */
  lemma RuleQueryHasNoWhere()
    ensures !MentionsWhere(PolicyRulesQuery)
  {
    RuleQueryHasNoUpperW();
    RuleQueryHasNoLowerW();
    assert Unpadded(PolicyRulesQuery);
    NoWNoWhere(PolicyRulesQuery);
  }

  /** The statement `loadPolicyRulesFromDatabase` issues: the fixed query
      with no arguments for an empty filter; otherwise the fixed query with
      a WHERE clause holding one placeholder per filter entry, and the
      filter values bound in order. */
  function RuleQuery(resources: seq<string>): (call: SqlCall)
    ensures call.args == resources
    ensures resources == [] ==> call.sql == PolicyRulesQuery
    ensures resources != [] ==> call.sql == PolicyRulesQuery + " WHERE " + InClause(|resources|)
    ensures StartsWith(call.sql, PolicyRulesQuery)
    ensures Count('?', call.sql) == |call.args|
  {
    RuleQuerySql(resources);
    SqlCall(AddResourceFilterToQuery(PolicyRulesQuery, resources), resources)
  }

  /** The text of the rule statement, with its placeholder count. */
  lemma RuleQuerySql(resources: seq<string>)
    ensures resources != [] ==>
      AddResourceFilterToQuery(PolicyRulesQuery, resources) == PolicyRulesQuery + " WHERE " + InClause(|resources|)
    ensures Count('?', AddResourceFilterToQuery(PolicyRulesQuery, resources)) == |resources|
  {
    RuleQueryHasNoPlaceholder();
    RuleQueryHasNoWhere();
    FilterOnPlainQuery(PolicyRulesQuery, resources);
  }

  /** On a query with no placeholder and no WHERE, the filter is introduced
      by WHERE and the result binds exactly one value per entry. */
  lemma FilterOnPlainQuery(query: string, resources: seq<string>)
    requires Count('?', query) == 0 && !MentionsWhere(query)
    ensures resources != [] ==>
      AddResourceFilterToQuery(query, resources) == query + " WHERE " + InClause(|resources|)
    ensures Count('?', AddResourceFilterToQuery(query, resources)) == |resources|
  {
    if resources != [] {
      FilterAddsPlaceholders(query, resources);
    }
  }

  /** `loadPolicyRulesFromDatabase`: the mapped rows in the order the
      database returned them, or a failure for any exception (a null list
      fails too, on its first use). */
  function LoadPolicyRulesFromDatabase(resources: seq<string>, env: Env): (r: Result<seq<PolicyRule>, LoadError>)
    ensures r.Success? <==> env.queryRules(RuleQuery(resources)).Ok?
    ensures r.Success? ==> r.value == env.queryRules(RuleQuery(resources)).value
    ensures r.Failure? ==> r.error == DatabaseQueryFailed
  {
    match env.queryRules(RuleQuery(resources))
    case Ok(rules) => Success(rules)
    case _ => Failure(DatabaseQueryFailed)
  }

  /** `isQueryValid`: runs the statement with " LIMIT 1" appended; any
      exception makes it false. */
  function IsQueryValid(sqlQuery: string, env: Env): (valid: bool)
    ensures valid <==> env.queryRowSet(sqlQuery + " LIMIT 1")
  {
    env.queryRowSet(sqlQuery + " LIMIT 1")
  }

  /** The version lookup for `code`, with `code` bound rather than spliced. */
  function VersionCall(code: string): (call: SqlCall)
    ensures call.sql == VersionQuery && call.args == [code]
  {
    SqlCall(VersionQuery, [code])
  }

  /** `getCurrentVersion`: the stored version, or nothing when the row is
      missing, the column is null or the query throws. */
  function GetCurrentVersion(code: string, env: Env): (v: Option<int>)
    ensures v.Some? <==> env.queryScalar(VersionCall(code)).Ok?
    ensures v.Some? ==> v.value == env.queryScalar(VersionCall(code)).value
  {
    match env.queryScalar(VersionCall(code))
    case Ok(version) => Some(version)
    case _ => None
  }

  /** `getCurrentPolicyVersion`: the `policy_version` entry, 0 when absent. */
  function GetCurrentPolicyVersion(env: Env): (v: int)
    ensures GetCurrentVersion(PolicyVersionCode, env).None? ==> v == 0
    ensures GetCurrentVersion(PolicyVersionCode, env).Some? ==> v == GetCurrentVersion(PolicyVersionCode, env).value
  {
    GetCurrentVersion(PolicyVersionCode, env).GetOr(0)
  }
}
