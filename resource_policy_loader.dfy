/** The CSV rule loader: a classpath resource in Casbin's `p,role,resource,action`
    format, read line by line, each rule numbered by its 1-based line. */
module ResourcePolicyLoader {
  import opened Wrappers
  import opened JavaStrings
  import opened PolicyRules
  import opened Oracles

  /** The rule one raw line yields, with `index` its 0-based line number:
      nothing for blank lines, comments, lines with fewer than four fields or
      another first field, an unparsable role, or a resource the filter
      excludes. */
  function LineRule(index: nat, raw: string, resources: seq<string>): (rule: Option<PolicyRule>)
    ensures rule.Some? ==> rule.value.id == Some(index + 1)
  {
    var line := Trim(raw);
    if line == [] || StartsWith(line, "#") then None
    else
      var parts := Split(line, ',');
      if |parts| >= 4 && Trim(parts[0]) == "p" then
        match ParseLong(Trim(parts[1]))
        case None => None
        case Some(roleId) =>
          var resourceCode := Trim(parts[2]);
          if resources == [] || resourceCode in resources then
            Some(PolicyRule(Some(index + 1), Some(roleId), Some(resourceCode), Some(Trim(parts[3]))))
          else None
      else None
  }

  /** A rule comes from a non-blank, non-comment line; its role is a 64-bit
      value, its codes are trimmed, and its resource passes the filter. */
  lemma LineRuleShape(index: nat, raw: string, resources: seq<string>)
    requires LineRule(index, raw, resources).Some?
    ensures !IsBlank(raw) && Trim(raw)[0] != '#'
    ensures var rule := LineRule(index, raw, resources).value;
      && rule.roleId.Some? && MinLong <= rule.roleId.value <= MaxLong
      && rule.resourceCode.Some? && Trim(rule.resourceCode.value) == rule.resourceCode.value
      && rule.actionCode.Some? && Trim(rule.actionCode.value) == rule.actionCode.value
      && (resources == [] || HasResourceIn(rule, resources))
  {
    var parts := Split(Trim(raw), ',');
    TrimIdempotent(parts[2]);
    TrimIdempotent(parts[3]);
  }

  /** The outcome of every line, in file order. */
  function LineResults(lines: seq<string>, resources: seq<string>): (rs: seq<Option<PolicyRule>>)
    ensures |rs| == |lines|
  {
    seq(|lines|, i requires 0 <= i < |lines| => LineRule(i, lines[i], resources))
  }

  /** The present values of `rs`, in order. */
  function Collect(rs: seq<Option<PolicyRule>>): (rules: seq<PolicyRule>)
    ensures |rules| <= |rs|
  {
    if rs == [] then []
    else
      var n := |rs| - 1;
      Collect(rs[..n]) + (if rs[n].Some? then [rs[n].value] else [])
  }

  /** Each present entry carries its 1-based position as id. */
  predicate Numbered(rs: seq<Option<PolicyRule>>) {
    forall i :: 0 <= i < |rs| && rs[i].Some? ==> rs[i].value.id == Some(i + 1)
  }

  lemma LineResultsNumbered(lines: seq<string>, resources: seq<string>)
    ensures Numbered(LineResults(lines, resources))
  {
  }

  /** The rules of a whole file, in line order. */
  function CsvRules(lines: seq<string>, resources: seq<string>): seq<PolicyRule> {
    Collect(LineResults(lines, resources))
  }

  lemma {:induction false} CollectProvenance(rs: seq<Option<PolicyRule>>)
    requires Numbered(rs)
    ensures forall k :: 0 <= k < |Collect(rs)| ==>
      var rule := Collect(rs)[k];
      && rule.id.Some? && 1 <= rule.id.value <= |rs|
      && rs[rule.id.value - 1] == Some(rule)
  {
    if rs != [] {
      var n := |rs| - 1;
      assert Numbered(rs[..n]);
      CollectProvenance(rs[..n]);
    }
  }

  /** Every rule has an id and the ids strictly increase along the list. */
  predicate IdsIncreasing(rules: seq<PolicyRule>) {
    && (forall k :: 0 <= k < |rules| ==> rules[k].id.Some?)
    && (forall j, k :: 0 <= j < k < |rules| ==> rules[j].id.value < rules[k].id.value)
  }

  lemma {:induction false} CollectOrdered(rs: seq<Option<PolicyRule>>)
    requires Numbered(rs)
    ensures IdsIncreasing(Collect(rs))
  {
    if rs != [] {
      var n := |rs| - 1;
      assert Numbered(rs[..n]);
      CollectOrdered(rs[..n]);
      CollectProvenance(rs[..n]);
    }
  }

  lemma {:induction false} CollectComplete(rs: seq<Option<PolicyRule>>, i: nat)
    requires i < |rs| && rs[i].Some?
    ensures rs[i].value in Collect(rs)
  {
    var n := |rs| - 1;
    if i < n {
      assert rs[..n][i] == rs[i];
      CollectComplete(rs[..n], i);
    }
  }

  /** Every rule of the file comes from the line its id names. */
  lemma CsvRulesProvenance(lines: seq<string>, resources: seq<string>)
    ensures forall k :: 0 <= k < |CsvRules(lines, resources)| ==>
      var rule := CsvRules(lines, resources)[k];
      && rule.id.Some? && 1 <= rule.id.value <= |lines|
      && LineRule(rule.id.value - 1, lines[rule.id.value - 1], resources) == Some(rule)
  {
    LineResultsNumbered(lines, resources);
    CollectProvenance(LineResults(lines, resources));
  }

  /** Ids strictly increase, so they are unique and follow file order. */
  lemma CsvRulesOrdered(lines: seq<string>, resources: seq<string>)
    ensures IdsIncreasing(CsvRules(lines, resources))
  {
    LineResultsNumbered(lines, resources);
    CollectOrdered(LineResults(lines, resources));
  }

  /** No rule is lost: every line that yields a rule contributes it. */
  lemma CsvRulesComplete(lines: seq<string>, resources: seq<string>, i: nat)
    requires i < |lines| && LineRule(i, lines[i], resources).Some?
    ensures LineRule(i, lines[i], resources).value in CsvRules(lines, resources)
  {
    CollectComplete(LineResults(lines, resources), i);
  }

  /** The whole load: the resource is read as `classpath:<path>`; a missing
      or unreadable resource fails the load rather than giving a partial list. */
  function CsvLoad(path: string, resources: seq<string>, env: Env): (r: Result<seq<PolicyRule>, LoadError>)
    ensures r.Failure? <==> !env.readClasspath("classpath:" + path).Ok?
    ensures r.Failure? ==> r.error == ResourceUnreadable(path)
  {
    match env.readClasspath("classpath:" + path)
    case Ok(text) => Success(CsvRules(Split(text, '\n'), resources))
    case _ => Failure(ResourceUnreadable(path))
  }

  /** `loadPolicyRulesFromCsv`: one pass over the lines, skipping the ones that
      yield nothing. */
  method LoadPolicyRulesFromCsv(resourcePath: string, resources: seq<string>, env: Env)
    returns (r: Result<seq<PolicyRule>, LoadError>)
    ensures r == CsvLoad(resourcePath, resources, env)
  {
    var content := env.readClasspath("classpath:" + resourcePath);
    if !content.Ok? {
      return Failure(ResourceUnreadable(resourcePath));
    }
    var lines := Split(content.value, '\n');
    var policies: seq<PolicyRule> := [];
    for i := 0 to |lines|
      invariant policies == Collect(LineResults(lines, resources)[..i])
    {
      ghost var rs := LineResults(lines, resources);
      assert rs[..i + 1][..i] == rs[..i];
      assert rs[i] == LineRule(i, lines[i], resources);
      var line := Trim(lines[i]);
      if line == [] || StartsWith(line, "#") {
        continue;
      }
      var parts := Split(line, ',');
      if |parts| >= 4 && Trim(parts[0]) == "p" {
        var roleId := ParseLong(Trim(parts[1]));
        if roleId.Some? {
          var resourceCode := Trim(parts[2]);
          var actionCode := Trim(parts[3]);
          if resources == [] || resourceCode in resources {
            policies := policies + [PolicyRule(Some(i + 1), roleId, Some(resourceCode), Some(actionCode))];
          }
        }
      }
    }
    assert LineResults(lines, resources)[..|lines|] == LineResults(lines, resources);
    return Success(policies);
  }

  /** Filtering while reading keeps exactly what filtering the unfiltered
      load afterwards would keep. */
  function Filtered(result: Option<PolicyRule>, resources: seq<string>): Option<PolicyRule> {
    match result
    case Some(rule) => if resources == [] || HasResourceIn(rule, resources) then Some(rule) else None
    case None => None
  }

  lemma LineRuleFilter(index: nat, raw: string, resources: seq<string>)
    ensures LineRule(index, raw, resources) == Filtered(LineRule(index, raw, []), resources)
  {
  }

  lemma {:induction false} CollectFilter(rs: seq<Option<PolicyRule>>, all: seq<Option<PolicyRule>>, resources: seq<string>)
    requires |rs| == |all|
    requires forall i :: 0 <= i < |rs| ==> rs[i] == Filtered(all[i], resources)
    ensures Collect(rs) == FilterByResource(Collect(all), resources)
  {
    if rs != [] && resources != [] {
      var n := |rs| - 1;
      assert forall i :: 0 <= i < n ==> rs[..n][i] == rs[i] && all[..n][i] == all[i];
      CollectFilter(rs[..n], all[..n], resources);
      var c := Collect(all);
      assert c == Collect(all[..n]) + (if all[n].Some? then [all[n].value] else []);
      assert Collect(rs) == Collect(rs[..n]) + (if rs[n].Some? then [rs[n].value] else []);
      if all[n].Some? {
        assert c[..|c| - 1] == Collect(all[..n]);
        assert FilterByResource(c, resources) == FilterByResource(Collect(all[..n]), resources)
          + (if HasResourceIn(all[n].value, resources) then [all[n].value] else []);
      } else {
        assert c == Collect(all[..n]);
      }
    } else if resources == [] {
      assert rs == all;
    }
  }

  lemma CsvRulesFilter(lines: seq<string>, resources: seq<string>)
    ensures CsvRules(lines, resources) == FilterByResource(CsvRules(lines, []), resources)
  {
    forall i | 0 <= i < |lines| {
      LineRuleFilter(i, lines[i], resources);
    }
    CollectFilter(LineResults(lines, resources), LineResults(lines, []), resources);
  }

  /** A rule written back in CSV form. */
  function FormatLine(roleId: int, resourceCode: string, actionCode: string): string {
    "p," + LongToString(roleId) + "," + resourceCode + "," + actionCode
  }

  lemma FormatLineJoin(roleId: int, resourceCode: string, actionCode: string)
    ensures FormatLine(roleId, resourceCode, actionCode) ==
      Join([','], ["p", LongToString(roleId), resourceCode, actionCode])
  {
    var role := LongToString(roleId);
    var fields := ["p", role, resourceCode, actionCode];
    assert fields[1..][1..][1..] == [actionCode];
    assert Join([','], fields[1..][1..]) == resourceCode + "," + actionCode;
    assert Join([','], fields[1..]) == role + "," + (resourceCode + "," + actionCode);
  }

  /** A formatted row is already trimmed and starts with `p`. */
  lemma FormattedRowTrimmed(roleId: int, resourceCode: string, actionCode: string)
    requires Unpadded(actionCode) || actionCode == ","
    ensures Trim(FormatLine(roleId, resourceCode, actionCode)) == FormatLine(roleId, resourceCode, actionCode)
    ensures FormatLine(roleId, resourceCode, actionCode)[0] == 'p'
  {
    var line := FormatLine(roleId, resourceCode, actionCode);
    if actionCode != [] {
      assert line[|line| - 1] == actionCode[|actionCode| - 1];
    }
    TrimOfTrimmed(line);
  }

  /** A formatted row splits into its four fields. */
  lemma FormattedRowFields(roleId: int, resourceCode: string, actionCode: string)
    requires ',' !in resourceCode && ',' !in actionCode && actionCode != []
    ensures Split(FormatLine(roleId, resourceCode, actionCode), ',') == ["p", LongToString(roleId), resourceCode, actionCode]
  {
    LongToStringShape(roleId);
    FormatLineJoin(roleId, resourceCode, actionCode);
    SplitJoin(["p", LongToString(roleId), resourceCode, actionCode], ',');
  }

  /** Reading a formatted rule back gives the rule, with the line number as id. */
  lemma LineRuleOfFormatted(index: nat, roleId: int, resourceCode: string, actionCode: string, resources: seq<string>)
    requires MinLong <= roleId <= MaxLong
    requires ',' !in resourceCode && Unpadded(resourceCode)
    requires ',' !in actionCode && actionCode != [] && Unpadded(actionCode)
    ensures LineRule(index, FormatLine(roleId, resourceCode, actionCode), resources) ==
      if resources == [] || resourceCode in resources
      then Some(PolicyRule(Some(index + 1), Some(roleId), Some(resourceCode), Some(actionCode)))
      else None
  {
    FormattedRowTrimmed(roleId, resourceCode, actionCode);
    FormattedRowFields(roleId, resourceCode, actionCode);
    LongToStringShape(roleId);
    ParseLongToString(roleId);
    TrimOfTrimmed("p");
    TrimOfTrimmed(resourceCode);
    TrimOfTrimmed(actionCode);
  }

  /** Java drops trailing empty fields, so a row with an empty action has
      only three fields and yields nothing. */
  lemma EmptyActionDropsRow(index: nat, roleId: int, resourceCode: string, resources: seq<string>)
    requires ',' !in resourceCode
    ensures LineRule(index, FormatLine(roleId, resourceCode, ""), resources) == None
  {
    EmptyActionFields(roleId, resourceCode);
  }

  /** Java keeps interior empty fields, so an empty action followed by a
      further field is read as the empty action code. */
  lemma InteriorEmptyActionKept(index: nat, roleId: int, resourceCode: string, extra: string, resources: seq<string>)
    requires MinLong <= roleId <= MaxLong
    requires ',' !in resourceCode && Unpadded(resourceCode)
    requires ',' !in extra && extra != [] && Unpadded(extra)
    ensures LineRule(index, FormatLine(roleId, resourceCode, "," + extra), resources) ==
      if resources == [] || resourceCode in resources
      then Some(PolicyRule(Some(index + 1), Some(roleId), Some(resourceCode), Some("")))
      else None
  {
    var line := FormatLine(roleId, resourceCode, "," + extra);
    InteriorEmptyFields(roleId, resourceCode, extra);
    var parts := Split(Trim(line), ',');
    assert |parts| == 5 && parts[1] == LongToString(roleId) && parts[2] == resourceCode && parts[3] == "";
    assert line != [] && line[0] == 'p';
    ParseLongToString(roleId);
    TrimOfTrimmed("p");
    TrimOfTrimmed(resourceCode);
    TrimOfTrimmed("");
  }

  lemma InteriorEmptyFields(roleId: int, resourceCode: string, extra: string)
    requires ',' !in resourceCode && ',' !in extra && extra != [] && Unpadded(extra)
    ensures Trim(FormatLine(roleId, resourceCode, "," + extra)) == FormatLine(roleId, resourceCode, "," + extra)
    ensures Split(FormatLine(roleId, resourceCode, "," + extra), ',') == ["p", LongToString(roleId), resourceCode, "", extra]
  {
    var fields := ["p", LongToString(roleId), resourceCode, "", extra];
    var line := FormatLine(roleId, resourceCode, "," + extra);
    LongToStringShape(roleId);
    FormattedRowTrimmed(roleId, resourceCode, "," + extra);
    FormatLineJoin(roleId, resourceCode, "," + extra);
    assert fields[1..][1..][1..][1..] == [extra];
    assert Join([','], fields[1..][1..][1..]) == "," + extra;
    assert Join([','], fields[1..][1..]) == resourceCode + "," + ("," + extra);
    var four := ["p", LongToString(roleId), resourceCode, "," + extra];
    assert four[1..][1..][1..] == ["," + extra];
    assert Join([','], four[1..][1..]) == Join([','], fields[1..][1..]);
    assert Join([','], four[1..]) == Join([','], fields[1..]);
    assert line == Join([','], fields);
    SplitJoin(fields, ',');
  }

  lemma EmptyActionFields(roleId: int, resourceCode: string)
    requires ',' !in resourceCode
    ensures Trim(FormatLine(roleId, resourceCode, "")) == FormatLine(roleId, resourceCode, "")
    ensures |Split(FormatLine(roleId, resourceCode, ""), ',')| < 4
  {
    var fields := ["p", LongToString(roleId), resourceCode, ""];
    var line := FormatLine(roleId, resourceCode, "");
    LongToStringShape(roleId);
    FormatLineJoin(roleId, resourceCode, "");
    PiecesJoin(fields, ',');
    assert line[1] == ',' && line[|line| - 1] == ',';
    TrimOfTrimmed(line);
  }

  /** Two formatted rows of one resource, filtered on that resource, give
      both rules, numbered 1 and 2. */
  lemma TwoRowRules(role1: int, role2: int, resourceCode: string, action1: string, action2: string)
    requires MinLong <= role1 <= MaxLong && MinLong <= role2 <= MaxLong
    requires ',' !in resourceCode && Unpadded(resourceCode)
    requires ',' !in action1 && action1 != [] && Unpadded(action1)
    requires ',' !in action2 && action2 != [] && Unpadded(action2)
    ensures CsvRules([FormatLine(role1, resourceCode, action1), FormatLine(role2, resourceCode, action2)], [resourceCode]) == [
      PolicyRule(Some(1), Some(role1), Some(resourceCode), Some(action1)),
      PolicyRule(Some(2), Some(role2), Some(resourceCode), Some(action2))]
  {
    LineRuleOfFormatted(0, role1, resourceCode, action1, [resourceCode]);
    LineRuleOfFormatted(1, role2, resourceCode, action2, [resourceCode]);
    CsvRulesOfTwo(FormatLine(role1, resourceCode, action1), FormatLine(role2, resourceCode, action2), [resourceCode]);
  }

  lemma CsvRulesOfTwo(l1: string, l2: string, resources: seq<string>)
    ensures CsvRules([l1, l2], resources) == Collect([LineRule(0, l1, resources), LineRule(1, l2, resources)])
  {
    assert LineResults([l1, l2], resources) == [LineRule(0, l1, resources), LineRule(1, l2, resources)];
  }

  /** A two-line file splits into its two rows. */
  lemma TwoLineText(l1: string, l2: string)
    requires '\n' !in l1 && '\n' !in l2 && l2 != []
    ensures Split(l1 + "\n" + l2, '\n') == [l1, l2]
  {
    assert Join("\n", [l1, l2]) == l1 + "\n" + l2;
    SplitJoin([l1, l2], '\n');
  }

  /** A file of two formatted rows of one resource, loaded with that resource
      as the filter, yields both rules in file order. */
  lemma TwoRowLoad(path: string, env: Env, role1: int, role2: int, resourceCode: string, action1: string, action2: string)
    requires MinLong <= role1 <= MaxLong && MinLong <= role2 <= MaxLong
    requires ',' !in resourceCode && '\n' !in resourceCode && Unpadded(resourceCode)
    requires ',' !in action1 && '\n' !in action1 && action1 != [] && Unpadded(action1)
    requires ',' !in action2 && '\n' !in action2 && action2 != [] && Unpadded(action2)
    requires env.readClasspath("classpath:" + path) ==
      Ok(FormatLine(role1, resourceCode, action1) + "\n" + FormatLine(role2, resourceCode, action2))
    ensures CsvLoad(path, [resourceCode], env) == Success([
      PolicyRule(Some(1), Some(role1), Some(resourceCode), Some(action1)),
      PolicyRule(Some(2), Some(role2), Some(resourceCode), Some(action2))])
  {
    var l1 := FormatLine(role1, resourceCode, action1);
    var l2 := FormatLine(role2, resourceCode, action2);
    LongToStringShape(role1);
    LongToStringShape(role2);
    TwoLineText(l1, l2);
    TwoRowRules(role1, role2, resourceCode, action1, action2);
  }

  /** The file `p,1,user,read` / `p,2,user,write` filtered on `user`. */
  lemma UserFile(path: string, env: Env)
    requires env.readClasspath("classpath:" + path) == Ok("p,1,user,read\np,2,user,write")
    ensures CsvLoad(path, ["user"], env) == Success([
      PolicyRule(Some(1), Some(1), Some("user"), Some("read")),
      PolicyRule(Some(2), Some(2), Some("user"), Some("write"))])
  {
    assert LongToString(1) == "1" && LongToString(2) == "2";
    assert "p,1,user,read\np,2,user,write" == FormatLine(1, "user", "read") + "\n" + FormatLine(2, "user", "write");
    TwoRowLoad(path, env, 1, 2, "user", "read", "write");
  }
}
