/** Parsing of the `type:query` policy-source setting into a validated
    descriptor. Every failure is an `IllegalArgumentException` in the source;
    here it is a `ParseError` naming the check that failed. */
module PolicySourceParser {
  import opened Wrappers
  import opened JavaStrings

  /** A parsed descriptor; `kind` is the source's `type` field. */
  datatype PolicySourceConfig = PolicySourceConfig(kind: string, query: string)

  datatype ParseError =
    | NullOrEmpty
    | MissingSeparator
    | EmptyQuery(kind: string)
    | UnsupportedType(kind: string)
    | InvalidQuery(kind: string)

  const DatabaseType: string := "database"
  const ResourceType: string := "resource"
  const ApiType: string := "api"

  predicate IsSupportedType(kind: string) {
    kind == DatabaseType || kind == ResourceType || kind == ApiType
  }

  /** The per-type query check: a database query reads as a SELECT in any
      letter case, a resource path mentions "csv", an API query is an
      absolute http(s) URL. A type outside the switch passes unchecked. */
  predicate QueryFitsType(kind: string, query: string) {
    if kind == DatabaseType then StartsWith(ToUpperCase(query), "SELECT")
    else if kind == ResourceType then Contains(query, "csv")
    else if kind == ApiType then StartsWith(query, "http://") || StartsWith(query, "https://")
    else true
  }

  function ValidatePolicyType(kind: string): (r: Outcome<ParseError>)
    ensures r.Pass? <==> kind in {DatabaseType, ResourceType, ApiType}
    ensures r.Fail? ==> r.error == UnsupportedType(kind)
  {
    if IsSupportedType(kind) then Pass else Fail(UnsupportedType(kind))
  }

  function ValidatePolicyQuery(kind: string, query: string): (r: Outcome<ParseError>)
    ensures kind == ResourceType ==> (r.Pass? <==> Contains(query, "csv"))
    ensures kind == ApiType ==> (r.Pass? <==> StartsWith(query, "http://") || StartsWith(query, "https://"))
    ensures kind == DatabaseType ==> (r.Pass? <==> StartsWith(ToUpperCase(query), "SELECT"))
    ensures r.Fail? ==> r.error == InvalidQuery(kind)
  {
    if QueryFitsType(kind, query) then Pass else Fail(InvalidQuery(kind))
  }

  /** The checks `parse` applies once the text is cut at the first ':'. */
  function ParseSegments(before: string, after: string): (r: Result<PolicySourceConfig, ParseError>)
    ensures r.Success? ==> r.value == PolicySourceConfig(ToLowerCase(Trim(before)), Trim(after))
    ensures r.Success? ==> IsSupportedType(r.value.kind) && QueryFitsType(r.value.kind, r.value.query)
    ensures r.Success? ==> r.value.query != [] && Trim(r.value.query) == r.value.query
    ensures IsBlank(after) ==> r == Failure(EmptyQuery(ToLowerCase(Trim(before))))
  {
    var kind := ToLowerCase(Trim(before));
    var query := Trim(after);
    TrimIdempotent(after);
    if query == [] then Failure(EmptyQuery(kind))
    else if ValidatePolicyType(kind).Fail? then Failure(ValidatePolicyType(kind).error)
    else if ValidatePolicyQuery(kind, query).Fail? then Failure(ValidatePolicyQuery(kind, query).error)
    else Success(PolicySourceConfig(kind, query))
  }

  /** `PolicySourceParser.parse`. The text before the FIRST ':' is the type
      (trimmed, lower-cased); everything after it is the query (trimmed),
      which may itself contain ':'. The empty-query check comes before the
      type check. */
  function Parse(source: Option<string>): (r: Result<PolicySourceConfig, ParseError>)
    ensures source.None? || IsBlank(source.value) ==> r == Failure(NullOrEmpty)
    ensures source.Some? && !IsBlank(source.value) && ':' !in source.value ==> r == Failure(MissingSeparator)
    ensures source.Some? && !IsBlank(source.value) && ':' in source.value ==>
      var i := IndexOf(source.value, ':');
      r == ParseSegments(source.value[..i], source.value[i + 1..])
  {
    if source.None? || IsBlank(source.value) then Failure(NullOrEmpty)
    else
      var segments := SplitOnce(source.value, ':');
      if |segments| != 2 then Failure(MissingSeparator)
      else ParseSegments(segments[0], segments[1])
  }

  /** What a successful parse promises about the descriptor. */
  lemma ParsedDescriptorValid(source: Option<string>)
    requires Parse(source).Success?
    ensures var c := Parse(source).value;
      && IsSupportedType(c.kind) && QueryFitsType(c.kind, c.query)
      && c.query != [] && Trim(c.query) == c.query
  {
    var s := source.value;
    if ':' !in s {
      assert false;
    }
  }

  /** The three type names have no ':'. */
  lemma SupportedTypeColonFree(kind: string)
    requires IsSupportedType(kind)
    ensures ':' !in kind
  {
  }

  /** `kind + ":" + query` is cut right after `kind` when `kind` has no ':'. */
  lemma ParseCutsAfterKind(kind: string, query: string)
    requires ':' !in kind
    ensures Parse(Some(kind + ":" + query)) == ParseSegments(kind, query)
  {
    var s := kind + ":" + query;
    assert s == kind + [':'] + query;
    IndexOfAfter(kind, ':', query);
    NotBlankAt(s, |kind|);
    assert s[..|kind|] == kind;
    assert s[|kind| + 1..] == query;
  }

  lemma SegmentsAccepted(before: string, after: string)
    requires Trim(after) != []
    requires IsSupportedType(ToLowerCase(Trim(before)))
    requires QueryFitsType(ToLowerCase(Trim(before)), Trim(after))
    ensures ParseSegments(before, after) == Success(PolicySourceConfig(ToLowerCase(Trim(before)), Trim(after)))
  {
  }

  /** Parsing `kind + ":" + query` splits exactly there, whatever ':'s the
      query holds, and normalises the kind. */
  lemma ParseJoined(kind: string, query: string)
    requires ':' !in kind
    requires IsSupportedType(ToLowerCase(Trim(kind)))
    requires query != [] && Trim(query) == query
    requires QueryFitsType(ToLowerCase(Trim(kind)), query)
    ensures Parse(Some(kind + ":" + query)) == Success(PolicySourceConfig(ToLowerCase(Trim(kind)), query))
  {
    ParseCutsAfterKind(kind, query);
    SegmentsAccepted(kind, query);
  }

  /** Parsing is idempotent: re-serialising a parsed descriptor as
      `kind:query` and parsing it again gives the same descriptor. */
  lemma ParseIdempotent(source: Option<string>)
    requires Parse(source).Success?
    ensures var c := Parse(source).value; Parse(Some(c.kind + ":" + c.query)) == Parse(source)
  {
    ParsedDescriptorValid(source);
    var s := source.value;
    var i := IndexOf(s, ':');
    NotBlankAt(s, i);
    var c := Parse(source).value;
    NormalFormStable(s[..i]);
    SupportedTypeColonFree(c.kind);
    ParseJoined(c.kind, c.query);
  }

  /** A source with nothing after its ':' is refused for the empty query,
    whatever its type: "foo:" fails as an empty query, not as an unknown type. */
  lemma EmptyQueryBeforeType(kind: string, query: string)
    requires ':' !in kind && IsBlank(query)
    ensures Parse(Some(kind + ":" + query)) == Failure(EmptyQuery(ToLowerCase(Trim(kind))))
  {
    ParseCutsAfterKind(kind, query);
  }

  /** An unknown type with a non-empty query is refused as unsupported,
      never with a generic error. */
  lemma UnknownTypeRejected(kind: string, query: string)
    requires ':' !in kind && !IsSupportedType(ToLowerCase(Trim(kind)))
    requires !IsBlank(query)
    ensures Parse(Some(kind + ":" + query)) == Failure(UnsupportedType(ToLowerCase(Trim(kind))))
  {
    ParseCutsAfterKind(kind, query);
  }
}
