/** The pub/sub listener: a `<marker>:<version>` message overwrites the
    polling service's cached version and then reloads the policies. */
module PolicyEventListener {
  import opened Wrappers
  import opened JavaStrings
  import opened Oracles
  import opened Engine
  import PolicyLoader
  import VersionPollingService

  /** How `onMessage` reads a body. */
  datatype ReloadMessage =
    | Ignored         // does not start with the marker
    | Reload(version: int)
    | Malformed       // starts with the marker, but the second field is missing or not a long

  /** The body test of `onMessage`: a marker prefix, then the second
      `:`-separated field read as a long. A missing field and a non-numeric
      one both throw in the source, which its own handler swallows. */
  function ParseReloadMessage(body: string, marker: string): (m: ReloadMessage)
    ensures !StartsWith(body, marker) <==> m == Ignored
    ensures m.Reload? ==> MinLong <= m.version <= MaxLong
    ensures StartsWith(body, marker) && |Split(body, ':')| < 2 ==> m == Malformed
  {
    if !StartsWith(body, marker) then Ignored
    else
      var fields := Split(body, ':');
      if |fields| < 2 then Malformed
      else
        match ParseLong(fields[1])
        case Some(version) => Reload(version)
        case None => Malformed
  }

  /** A message built as marker, colon and `Long.toString(v)` reloads at `v`. */
  lemma ReloadMessageRoundTrip(marker: string, v: int)
    requires ':' !in marker
    requires MinLong <= v <= MaxLong
    ensures ParseReloadMessage(marker + ":" + LongToString(v), marker) == Reload(v)
  {
    var number := LongToString(v);
    var body := marker + ":" + number;
    assert body[..|marker|] == marker;
    LongToStringShape(v);
    assert body == Join([':'], [marker, number]) by {
      assert [marker, number][1..] == [number];
    }
    SplitJoin([marker, number], ':');
    ParseLongToString(v);
  }

  /** The bare marker, with or without a trailing colon, carries no version. */
  lemma MissingVersionMalformed(marker: string)
    requires ':' !in marker
    ensures ParseReloadMessage(marker, marker) == Malformed
    ensures ParseReloadMessage(marker + ":", marker) == Malformed
  {
    assert (marker + ":")[..|marker|] == marker;
    var ps := Pieces(marker + ":", ':');
    IndexOfAfter(marker, ':', []);
    assert (marker + ":")[|marker| + 1..] == [];
    assert ps == [marker] + Pieces([], ':');
    assert Split(marker + ":", ':') == DropTrailingEmpty(ps);
    PiecesCount(marker + ":", ':');
    CountAbsent(':', marker);
  }

  class PolicyEventListener {
    const versionPollingService: VersionPollingService.VersionPollingService
    const policyLoader: PolicyLoader.PolicyLoader
    const enforcer: Enforcer
    /** The `RELOAD_MESSAGE` prefix. */
    const reloadMarker: string

    constructor (versionPollingService: VersionPollingService.VersionPollingService,
                 policyLoader: PolicyLoader.PolicyLoader, enforcer: Enforcer, reloadMarker: string)
      requires versionPollingService.policyLoader == policyLoader && versionPollingService.enforcer == enforcer
      ensures this.versionPollingService == versionPollingService && this.policyLoader == policyLoader
      ensures this.enforcer == enforcer && this.reloadMarker == reloadMarker
    {
      this.versionPollingService := versionPollingService;
      this.policyLoader := policyLoader;
      this.enforcer := enforcer;
      this.reloadMarker := reloadMarker;
    }

    /** `onMessage`: on a reload message, first the cache is overwritten and
        then one load runs, whose failure is swallowed; anything else is
        ignored. The channel pattern is only logged. */
    method OnMessage(body: string, pattern: Option<string>, env: Env)
      requires versionPollingService.Valid()
      modifies versionPollingService, policyLoader, enforcer
      ensures versionPollingService.Valid()
      ensures versionPollingService.pollingEnabled == old(versionPollingService.pollingEnabled)
      ensures versionPollingService.selectedVersionChecker == old(versionPollingService.selectedVersionChecker)
      ensures ParseReloadMessage(body, reloadMarker).Reload? ==>
        && versionPollingService.cachedVersion == ParseReloadMessage(body, reloadMarker).version
        && policyLoader.calls == old(policyLoader.calls) + 1
        && enforcer.rules == PolicyLoader.EngineAfterLoad(old(enforcer.rules), policyLoader.properties, env)
      ensures !ParseReloadMessage(body, reloadMarker).Reload? ==>
        && versionPollingService.cachedVersion == old(versionPollingService.cachedVersion)
        && policyLoader.calls == old(policyLoader.calls)
        && enforcer.rules == old(enforcer.rules)
    {
      match ParseReloadMessage(body, reloadMarker)
      case Reload(version) =>
        versionPollingService.SetCachedVersion(version);
        var _ := policyLoader.LoadPolicies(enforcer, env);
      case _ =>
    }
  }
}
