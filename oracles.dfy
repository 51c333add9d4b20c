/** Everything the policy subsystem obtains from outside: JDBC, the
    classpath, HTTP, JSON decoding and the authorization engine's batch
    insert. Each collaborator is a function from its request to what it
    produced, so one `Env` value fixes the state of the world for a call. */
module Oracles {
  import opened Wrappers
  import opened PolicyRules

  /** What one external call produced: a value, a Java `null`, or an exception. */
  datatype Fetch<+T> = Ok(value: T) | Null | Error

  /** A JDBC statement with its positional bind arguments. */
  datatype SqlCall = SqlCall(sql: string, args: seq<string>)

  /** What the engine's `addPolicies` did with a batch: returned its flag, or threw. */
  datatype AddOutcome = Added(success: bool) | Threw

  datatype Env = Env(
    /** `JdbcTemplate.query` with the policy-rule row mapper. */
    queryRules: SqlCall -> Fetch<seq<PolicyRule>>,
    /** `JdbcTemplate.queryForObject` for a single numeric column. */
    queryScalar: SqlCall -> Fetch<int>,
    /** `JdbcTemplate.queryForRowSet`: true iff the statement ran without an exception. */
    queryRowSet: string -> bool,
    /** The text of a classpath resource, decoded as UTF-8. */
    readClasspath: string -> Fetch<string>,
    /** `RestTemplate.getForObject(url, String.class)`. */
    httpGet: string -> Fetch<string>,
    /** Jackson decoding of a rule envelope: `Ok(data)`, `Null` for a null
        `data` field, `Error` for text that does not decode. Entries may be null. */
    decodeRules: string -> Fetch<seq<Option<PolicyRule>>>,
    /** Jackson decoding of a version envelope, with the same three outcomes. */
    decodeVersion: string -> Fetch<int>,
    /** The engine's reaction to a batch insert. */
    addPolicies: seq<PolicyRule> -> AddOutcome)
}
