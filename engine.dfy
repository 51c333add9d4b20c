/** The authorization engine the subsystem fills. Only its rule store is
    modelled: the policy evaluation itself is outside this model. */
module Engine {
  import opened Wrappers
  import opened PolicyRules
  import opened Oracles

  class Enforcer {
    /** The rules currently loaded, in insertion order. */
    var rules: seq<PolicyRule>

    constructor ()
      ensures rules == []
    {
      rules := [];
    }

    /** `clearPolicy`: drops every rule. */
    method ClearPolicy()
      modifies this
      ensures rules == []
    {
      rules := [];
    }

    /** `addPolicies`: appends the batch and returns the engine's flag, or
        returns `None` when the engine throws, in which case nothing was added. */
    method AddPolicies(batch: seq<PolicyRule>, env: Env) returns (success: Option<bool>)
      modifies this
      ensures env.addPolicies(batch).Threw? ==> success == None && rules == old(rules)
      ensures env.addPolicies(batch).Added? ==>
        success == Some(env.addPolicies(batch).success) && rules == old(rules) + batch
    {
      match env.addPolicies(batch)
      case Threw =>
        success := None;
      case Added(flag) =>
        rules := rules + batch;
        success := Some(flag);
    }
  }
}
