/** The rule record every loader produces, the errors a loader raises, and
    the reference meaning of a resource filter. */
module PolicyRules {
  import opened Wrappers

  /** One RBAC grant: role `roleId` may perform `actionCode` on
      `resourceCode`. Every field is a nullable boxed value, as in the
      source's record, because rules decoded from HTTP may lack any of them. */
  datatype PolicyRule = PolicyRule(
    id: Option<int>,
    roleId: Option<int>,
    resourceCode: Option<string>,
    actionCode: Option<string>)

  /** Why a rule loader gave up; the source raises a RuntimeException for each. */
  datatype LoadError =
    | ResourceUnreadable(path: string)
    | DatabaseQueryFailed
    | ApiRequestFailed
    | ApiResponseInvalid

  predicate HasResourceIn(rule: PolicyRule, filter: seq<string>) {
    rule.resourceCode.Some? && rule.resourceCode.value in filter
  }

  /** What a resource filter keeps: everything when the filter is empty,
      otherwise the rules whose resource code is listed, in their order. */
  function FilterByResource(rules: seq<PolicyRule>, filter: seq<string>): (kept: seq<PolicyRule>)
    ensures |kept| <= |rules|
    ensures forall r :: r in kept <==> r in rules && (filter == [] || HasResourceIn(r, filter))
  {
    if filter == [] || rules == [] then rules
    else
      var n := |rules| - 1;
      assert rules == rules[..n] + [rules[n]];
      FilterByResource(rules[..n], filter) + (if HasResourceIn(rules[n], filter) then [rules[n]] else [])
  }
}
