/** The database-backed version checker: one bound lookup per code and a
    trivial connectivity probe, every failure folded into a plain answer. */
module DatabaseVersionChecker {
  import opened Wrappers
  import opened Oracles
  import DatabasePolicyLoader

  /** The connectivity probe. */
  const ProbeQuery: string := "SELECT 1"

  const Description: string := "Database-based version checker using direct SQL queries"

  /** `getCurrentVersion`: the same bound lookup the rule loader offers; a
      stored value comes back present, a null column or any exception comes
      back empty, and nothing is ever thrown. */
  function GetCurrentVersion(code: string, env: Env): (v: Option<int>)
    ensures env.queryScalar(DatabasePolicyLoader.VersionCall(code)).Ok? ==>
      v == Some(env.queryScalar(DatabasePolicyLoader.VersionCall(code)).value)
    ensures !env.queryScalar(DatabasePolicyLoader.VersionCall(code)).Ok? ==> v == None
  {
    DatabasePolicyLoader.GetCurrentVersion(code, env)
  }

  /** `isAvailable`: true exactly when the probe runs without an exception;
      the probe's value, even a null one, is not inspected. */
  function IsAvailable(env: Env): (available: bool)
    ensures available <==> !env.queryScalar(SqlCall(ProbeQuery, [])).Error?
  {
    match env.queryScalar(SqlCall(ProbeQuery, []))
    case Error => false
    case _ => true
  }

  /** `getDescription`. */
  function GetDescription(): (d: string)
    ensures d == Description
  {
    Description
  }
}
