/** The `app.casbin` configuration: resource filter, policy source and the
    polling settings, with the source's defaults and its polling predicate. */
module CasbinProperties {
  import opened Wrappers
  import opened JavaStrings

  /** `java.time.Duration`: whole seconds plus a non-negative nanosecond part. */
  datatype Duration = Duration(seconds: int, nanos: nat)

  /** Java's `long` division, which truncates toward zero. */
  function JavaDiv(a: int, b: int): int
    requires b > 0
  {
    if a >= 0 then a / b else -((-a) / b)
  }

  /** `Duration.toMinutes`: whole minutes, truncated toward zero. */
  function ToMinutes(d: Duration): int {
    JavaDiv(d.seconds, 60)
  }

  /** `Duration.compareTo`: by seconds, then by nanoseconds. */
  function CompareTo(a: Duration, b: Duration): int {
    if a.seconds != b.seconds then (if a.seconds < b.seconds then -1 else 1)
    else if a.nanos != b.nanos then (if a.nanos < b.nanos then -1 else 1)
    else 0
  }

  datatype PollingConfig = PollingConfig(
    duration: Option<Duration>,
    enabled: bool,
    versionCode: Option<string>,
    versionApiEndpoint: Option<string>)

  /** The source's `CasbinProperties` bean. */
  datatype Properties = Properties(
    resources: seq<string>,
    policySource: Option<string>,
    polling: PollingConfig)

  const DefaultVersionCode: string := "policy_version"

  /** The field initialisers of `PollingConfig`. */
  function DefaultPolling(): (p: PollingConfig)
    ensures p.duration.None? && p.versionApiEndpoint.None?
  {
    PollingConfig(None, false, Some(DefaultVersionCode), None)
  }

  /** The field initialisers of `CasbinProperties`: an empty filter, which
      loads every rule, and no policy source. */
  function Defaults(): (p: Properties)
    ensures p.resources == [] && p.policySource.None?
  {
    Properties([], None, DefaultPolling())
  }

  /** `PollingConfig.getMinimumDuration`: one minute. */
  function MinimumDuration(): (d: Duration)
    ensures ToMinutes(d) == 1 && d.nanos == 0
    ensures forall e: Duration :: CompareTo(e, d) >= 0 <==> e.seconds >= 60
  {
    Duration(60, 0)
  }

  /** `PollingConfig.isValidForPolling`. Because `toMinutes` truncates, the
      test is exactly "at least 60 whole seconds"; the `enabled` flag plays
      no part. */
  function IsValidForPolling(p: PollingConfig): (valid: bool)
    ensures valid <==>
      && p.duration.Some? && p.duration.value.seconds >= 60
      && p.versionCode.Some? && !IsBlank(p.versionCode.value)
  {
    p.duration.Some? && ToMinutes(p.duration.value) >= 1
    && p.versionCode.Some? && !IsBlank(p.versionCode.value)
  }

  /** A configuration valid for polling is never shorter than the minimum,
      so the separate minimum-duration check of the polling service cannot
      reject one. */
  lemma ValidMeetsMinimum(p: PollingConfig)
    requires IsValidForPolling(p)
    ensures CompareTo(p.duration.value, MinimumDuration()) >= 0
  {
  }

  /** Switching `enabled` does not change whether a configuration is valid. */
  lemma EnabledNotConsulted(p: PollingConfig, enabled: bool)
    ensures IsValidForPolling(p.(enabled := enabled)) == IsValidForPolling(p)
  {
  }

  /** Out of the box there is no duration, so polling is not configured. */
  lemma DefaultsDoNotPoll()
    ensures !IsValidForPolling(Defaults().polling)
    ensures !Defaults().polling.enabled && Defaults().polling.versionCode == Some("policy_version")
  {
  }
}
