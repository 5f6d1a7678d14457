/**
 * Requests as the router sees them: what the registered rules do with a
 * power toggle, a single-environment query, the version endpoint, and a path
 * outside the API.
 */
module Scenarios {
  import opened Wrappers
  import opened Text
  import opened Template
  import opened Endpoint
  import opened RouteTable
  import opened Router

  /** An endpoint's path segments: the API prefix's two, then whatever the suffix splits into. */
  lemma EndpointSegments(suffix: string)
    ensures PathSegments(GetEndpoint(suffix)) == Some(["api", "v1"] + Split(suffix, '/'))
  {
    var path := GetEndpoint(suffix);
    GetEndpointShape(suffix);
    var t2 := "v1" + ['/'] + suffix;
    var t1 := "api" + ['/'] + t2;
    assert ApiPrefix == "/" + "api" + ['/'] + "v1" + ['/'];
    assert path == "/" + t1;
    assert path[1..] == t1;
    SplitAfterPiece("api", t2, '/');
    SplitAfterPiece("v1", suffix, '/');
    assert Split(t1, '/') == ["api"] + (["v1"] + Split(suffix, '/'));
    assert path[0] == '/';
    assert PathSegments(path) == Some(Split(t1, '/'));
    assert ["api"] + (["v1"] + Split(suffix, '/')) == ["api", "v1"] + Split(suffix, '/');
  }

  /** The segments of an endpoint "<resource>/<id>/<last>": the API prefix's two, the resource, the id, then whatever `last` splits into. */
  lemma ItemSegments(resource: string, id: string, last: string)
    requires '/' !in resource && '/' !in id
    ensures PathSegments(GetEndpoint(resource + "/" + id + "/" + last)) ==
      Some(["api", "v1", resource, id] + Split(last, '/'))
  {
    EndpointSegments(resource + "/" + id + "/" + last);
    ItemSplit(resource, id, last);
    assert ["api", "v1"] + ([resource, id] + Split(last, '/')) == ["api", "v1", resource, id] + Split(last, '/');
  }

  lemma ItemSplit(resource: string, id: string, last: string)
    requires '/' !in resource && '/' !in id
    ensures Split(resource + "/" + id + "/" + last, '/') == [resource, id] + Split(last, '/')
  {
    var t := id + ['/'] + last;
    assert resource + "/" + id + "/" + last == resource + ['/'] + t;
    SplitAfterPiece(resource, t, '/');
    SplitAfterPiece(id, last, '/');
  }

  /** A trailing piece that splits into one segment is that segment. */
  lemma SingleSegment(last: string)
    requires |Split(last, '/')| == 1
    ensures Split(last, '/') == [last]
  {
    JoinSplit(last, '/');
  }

  /**
   * POST /api/v1/env/<id>/<state> toggles that environment when the state is
   * "start" or "stop", with exactly the id and the state bound; any other
   * state is served by no rule (the catch-all serves GET only).
   */
  lemma EnvPowerToggleRequest(configured: string, id: string, state: string)
    requires id != "" && '/' !in id
    ensures Dispatch(Registered(configured), "POST", GetEndpoint("env/" + id + "/" + state)) ==
      if state == "start" || state == "stop"
      then Api("EnvPowerToggle", HandlerEnvPowerToggle, map["env-id" := id, "state" := state])
      else NoMatch
  {
    var path := GetEndpoint("env/" + id + "/" + state);
    EnvItemMatch("POST", path, id, state);
    if state == "start" || state == "stop" {
      ExplicitRouteWins(configured, "POST", path, 4);
    } else {
      FallbackLast(configured, "POST", path);
    }
  }

  /**
   * GET /api/v1/env/<id>/<group> queries that environment when the group is
   * "summary" or "details"; any other group is not an API request and falls
   * through to the static-file server.
   */
  lemma EnvSingleRequest(configured: string, id: string, group: string)
    requires id != "" && '/' !in id
    ensures Dispatch(Registered(configured), "GET", GetEndpoint("env/" + id + "/" + group)) ==
      if group == "summary" || group == "details"
      then Api("EnvSingle", HandlerEnvSingle, map["env-id" := id, "group" := group])
      else Static(StaticRoot(configured), GetEndpoint("env/" + id + "/" + group)[1..])
  {
    var path := GetEndpoint("env/" + id + "/" + group);
    EnvItemMatch("GET", path, id, group);
    if group == "summary" || group == "details" {
      ExplicitRouteWins(configured, "GET", path, 3);
    } else {
      GetEndpointShape("env/" + id + "/" + group);
      FallbackLast(configured, "GET", path);
    }
  }

  /**
   * GET /api/v1/env/<group> queries all environments when the group is
   * "summary" or "details", with exactly the group bound; any other single
   * segment falls through to the static-file server.
   */
  lemma EnvAllRequest(configured: string, group: string)
    requires '/' !in group
    ensures Dispatch(Registered(configured), "GET", GetEndpoint("env/" + group)) ==
      if group == "summary" || group == "details"
      then Api("EnvAll", HandlerEnvAll, map["group" := group])
      else Static(StaticRoot(configured), GetEndpoint("env/" + group)[1..])
  {
    var path := GetEndpoint("env/" + group);
    EnvGroupMatch(path, group);
    if group == "summary" || group == "details" {
      ExplicitRouteWins(configured, "GET", path, 2);
    } else {
      GetEndpointShape("env/" + group);
      FallbackLast(configured, "GET", path);
    }
  }

  /**
   * How the API rules treat a GET of "env/<group>": only the all-environments
   * rule can claim it, and it does exactly when the group is one of its
   * enumerated values, binding that value alone.
   */
  lemma EnvGroupMatch(path: string, group: string)
    requires path == GetEndpoint("env/" + group) && '/' !in group
    ensures forall j :: 0 <= j < |ApiRules| && j != 2 ==> !Claims(ApiRules[j], "GET", path)
    ensures Claims(ApiRules[2], "GET", path) <==> group in ApiRules[2].path.parsed.value[3].allowed
    ensures Claims(ApiRules[2], "GET", path) ==>
      RuleMatches(ApiRules[2], "GET", path).value == map[ApiRules[2].path.parsed.value[3].name := group]
  {
    var parts := ["api", "v1", "env", group];
    EndpointSegments("env/" + group);
    assert "env/" + group == "env" + ['/'] + group;
    SplitAfterPiece("env", group, '/');
    SplitWithoutSep(group, '/');
    assert ["api", "v1"] + (["env"] + [group]) == parts;
    forall j | 0 <= j < |ApiRules| && j != 2
      ensures !Claims(ApiRules[j], "GET", path)
    {
      if Claims(ApiRules[j], "GET", path) {
        ClaimShape("GET", path, j);
        assert false;
      }
    }
    FourSegmentMatch(ApiRules[2], ApiRules[2].path.parsed.value, path, parts, group);
  }

  /**
   * A "<resource>/{enumeration}" template under the API prefix claims
   * "<resource>/<last>" exactly when `last` is an enumerated value, and binds
   * that value alone.
   */
  lemma FourSegmentMatch(rule: Rule, segs: seq<Segment>, path: string, parts: seq<string>, last: string)
    requires rule.path == PathTemplate(Ok(segs)) && rule.httpMethod == "GET"
    requires |segs| == 4 && segs[0] == Literal("api") && segs[1] == Literal("v1") && segs[2].Literal? && segs[3].Enum?
    requires PathSegments(path) == Some(parts) && parts == ["api", "v1", segs[2].text, last]
    ensures Claims(rule, "GET", path) <==> last in segs[3].allowed
    ensures Claims(rule, "GET", path) ==> RuleMatches(rule, "GET", path).value == map[segs[3].name := last]
  {
    if last in segs[3].allowed {
      assert MatchSegments(segs, parts).Some?;
      assert DistinctNames(segs);
      MatchBindings(segs, parts);
      assert VariableNames(segs) == {segs[3].name} by {
        assert IsVariable(segs[3]);
      }
    } else if Claims(rule, "GET", path) {
      TemplateClaim(rule, segs, "GET", path);
      assert false;
    }
  }

  /**
   * How the API rules treat a GET or POST of "env/<id>/<last>": only the
   * single-environment rule (GET) or the power-toggle rule (POST) can claim
   * it, and it does exactly when `last` is one of its enumerated values,
   * binding the id and that value.
   */
  lemma EnvItemMatch(httpMethod: string, path: string, id: string, last: string)
    requires httpMethod == "GET" || httpMethod == "POST"
    requires path == GetEndpoint("env/" + id + "/" + last)
    requires id != "" && '/' !in id
    ensures var k := if httpMethod == "GET" then 3 else 4;
      && (forall j :: 0 <= j < |ApiRules| && j != k ==> !Claims(ApiRules[j], httpMethod, path))
      && (Claims(ApiRules[k], httpMethod, path) <==> last in ApiRules[k].path.parsed.value[4].allowed)
      && (Claims(ApiRules[k], httpMethod, path) ==>
            RuleMatches(ApiRules[k], httpMethod, path).value ==
              map[ApiRules[k].path.parsed.value[3].name := id, ApiRules[k].path.parsed.value[4].name := last])
  {
    assert "env/" + id + "/" + last == "env" + "/" + id + "/" + last;
    ItemSegments("env", id, last);
    var k := if httpMethod == "GET" then 3 else 4;
    OthersDecline(httpMethod, path, ["api", "v1", "env", id] + Split(last, '/'), k);
    FiveSegmentMatch(ApiRules[k], ApiRules[k].path.parsed.value, httpMethod, path, id, last);
  }

  /**
   * A "<resource>/{id}/{enumeration}" template under the API prefix claims
   * "<resource>/<id>/<last>" exactly when `last` is an enumerated value, and
   * binds the id and that value.
   */
  lemma FiveSegmentMatch(rule: Rule, segs: seq<Segment>, httpMethod: string, path: string, id: string, last: string)
    requires rule.path == PathTemplate(Ok(segs)) && rule.httpMethod == httpMethod
    requires |segs| == 5 && segs[0] == Literal("api") && segs[1] == Literal("v1") && segs[2].Literal?
    requires segs[3].Free? && segs[4].Enum? && segs[3].name != segs[4].name
    requires forall v :: v in segs[4].allowed ==> '/' !in v
    requires PathSegments(path) == Some(["api", "v1", segs[2].text, id] + Split(last, '/')) && id != ""
    ensures Claims(rule, httpMethod, path) <==> last in segs[4].allowed
    ensures Claims(rule, httpMethod, path) ==>
      RuleMatches(rule, httpMethod, path).value == map[segs[3].name := id, segs[4].name := last]
  {
    var parts := ["api", "v1", segs[2].text, id] + Split(last, '/');
    if last in segs[4].allowed {
      SplitWithoutSep(last, '/');
      assert parts == ["api", "v1", segs[2].text, id, last];
      assert MatchSegments(segs, parts).Some?;
      FiveSegmentBindings(segs, id, last, parts);
    } else if Claims(rule, httpMethod, path) {
      TemplateClaim(rule, segs, httpMethod, path);
      SingleSegment(last);
      assert false;
    }
  }

  /** A GET or POST under "env" with at least five segments is claimed by no API rule other than the five-segment one for its method. */
  lemma OthersDecline(httpMethod: string, path: string, parts: seq<string>, k: nat)
    requires httpMethod == "GET" || httpMethod == "POST"
    requires k == if httpMethod == "GET" then 3 else 4
    requires PathSegments(path) == Some(parts) && |parts| >= 5 && parts[2] == "env"
    ensures forall j :: 0 <= j < |ApiRules| && j != k ==> !Claims(ApiRules[j], httpMethod, path)
  {
    forall j | 0 <= j < |ApiRules| && j != k
      ensures !Claims(ApiRules[j], httpMethod, path)
    {
      if Claims(ApiRules[j], httpMethod, path) {
        ClaimShape(httpMethod, path, j);
        assert false;
      }
    }
  }

  /** The bindings of a matched "<resource>/{id}/{enumeration}" template: the id and the enumerated value, nothing else. */
  lemma FiveSegmentBindings(segs: seq<Segment>, id: string, last: string, parts: seq<string>)
    requires |segs| == 5 && segs[0].Literal? && segs[1].Literal? && segs[2].Literal?
    requires segs[3].Free? && segs[4].Enum? && segs[3].name != segs[4].name
    requires |parts| == 5 && parts[3] == id && parts[4] == last
    requires MatchSegments(segs, parts).Some?
    ensures MatchSegments(segs, parts).value == map[segs[3].name := id, segs[4].name := last]
  {
    assert DistinctNames(segs);
    MatchBindings(segs, parts);
    var vars := MatchSegments(segs, parts).value;
    assert VariableNames(segs) == {segs[3].name, segs[4].name} by {
      assert IsVariable(segs[3]) && IsVariable(segs[4]);
    }
  }

  /** POST /api/v1/env/42/start starts environment 42. */
  lemma StartEnvironment42(configured: string)
    ensures Dispatch(Registered(configured), "POST", GetEndpoint("env/42/start")) ==
      Api("EnvPowerToggle", HandlerEnvPowerToggle, map["env-id" := "42", "state" := "start"])
  {
    assert "env/" + "42" + "/" + "start" == "env/42/start";
    EnvPowerToggleRequest(configured, "42", "start");
  }

  /** POST /api/v1/env/42/pause is served by no rule: "pause" is not a state. */
  lemma PauseEnvironment42(configured: string)
    ensures Dispatch(Registered(configured), "POST", GetEndpoint("env/42/pause")) == NoMatch
  {
    assert "env/" + "42" + "/" + "pause" == "env/42/pause";
    EnvPowerToggleRequest(configured, "42", "pause");
  }

  /**
   * Every path outside "/api/v1/" belongs to the single-page application: a
   * GET is served from the static root, no rule serves anything else.
   */
  lemma OutsideApi(configured: string, httpMethod: string, path: string)
    requires !(ApiPrefix <= path)
    ensures Dispatch(Registered(configured), httpMethod, path) ==
      if httpMethod == "GET" && "/" <= path then Static(StaticRoot(configured), path[1..]) else NoMatch
  {
    forall i | 0 <= i < |ApiRules|
      ensures !Claims(ApiRules[i], httpMethod, path)
    {
      if Claims(ApiRules[i], httpMethod, path) {
        ApiPathsUnderPrefix(httpMethod, path, i);
        assert false;
      }
    }
    FallbackLast(configured, httpMethod, path);
  }

  /** Whatever an API rule claims lies under "/api/v1/". */
  lemma ApiPathsUnderPrefix(httpMethod: string, path: string, i: nat)
    requires i < |ApiRules| && Claims(ApiRules[i], httpMethod, path)
    ensures ApiPrefix <= path
  {
    ClaimShape(httpMethod, path, i);
    PrefixFromSegments(path, PathSegments(path).value);
  }

  /** A path whose segments start with "api", "v1" and go on lies under "/api/v1/". */
  lemma PrefixFromSegments(path: string, parts: seq<string>)
    requires PathSegments(path) == Some(parts) && |parts| >= 3 && parts[0] == "api" && parts[1] == "v1"
    ensures ApiPrefix <= path
  {
    JoinSplit(path[1..], '/');
    JoinTwoHeads(parts, '/');
    var rest := Join(parts[2..], '/');
    assert ApiPrefix == "/" + "api" + ['/'] + "v1" + ['/'];
    assert path == "/" + path[1..];
    assert path == ApiPrefix + rest;
  }

  /** Joining three or more parts puts the first two, each followed by the separator, before the rest. */
  lemma JoinTwoHeads(parts: seq<string>, sep: char)
    requires |parts| >= 3
    ensures Join(parts, sep) == parts[0] + [sep] + parts[1] + [sep] + Join(parts[2..], sep)
  {
    assert parts[1..][1..] == parts[2..];
  }

  /** GET /api/v1/version reaches the version handler with no bindings. */
  lemma VersionRequest(configured: string)
    ensures Dispatch(Registered(configured), "GET", GetEndpoint("version")) ==
      Api("Version", HandlerVersion, map[])
  {
    VersionMatch(GetEndpoint("version"));
    ExplicitRouteWins(configured, "GET", GetEndpoint("version"), 0);
  }

  lemma VersionMatch(path: string)
    requires path == GetEndpoint("version")
    ensures RuleMatches(ApiRules[0], "GET", path) == Some(map[])
  {
    LiteralEndpointMatch(ApiRules[0], "version", path);
  }

  /** A template of literals only, "/api/v1/<name>", matches the endpoint `name` and binds nothing. */
  lemma LiteralEndpointMatch(rule: Rule, name: string, path: string)
    requires rule.path == PathTemplate(Ok([Literal("api"), Literal("v1"), Literal(name)]))
    requires name != "" && '/' !in name && path == GetEndpoint(name)
    ensures RuleMatches(rule, rule.httpMethod, path) == Some(map[])
  {
    var segs := [Literal("api"), Literal("v1"), Literal(name)];
    var parts := ["api", "v1", name];
    EndpointSegments(name);
    SplitWithoutSep(name, '/');
    assert ["api", "v1"] + [name] == parts;
    assert MatchSegments(segs, parts).Some?;
    MatchBindings(segs, parts);
    assert DistinctNames(segs);
    assert VariableNames(segs) == {};
  }

  /** A POST under "instance" is claimed by no API rule other than the instance power toggle. */
  lemma InstanceOthersDecline(path: string, parts: seq<string>)
    requires PathSegments(path) == Some(parts) && |parts| >= 3 && parts[2] == "instance"
    ensures forall j :: 0 <= j < |ApiRules| && j != 5 ==> !Claims(ApiRules[j], "POST", path)
  {
    forall j | 0 <= j < |ApiRules| && j != 5
      ensures !Claims(ApiRules[j], "POST", path)
    {
      if Claims(ApiRules[j], "POST", path) {
        ClaimShape("POST", path, j);
        assert false;
      }
    }
  }

  /** POST /api/v1/refresh reaches the refresh handler with no bindings. */
  lemma RefreshRequest(configured: string)
    ensures Dispatch(Registered(configured), "POST", GetEndpoint("refresh")) ==
      Api("Refresh", HandlerRefresh, map[])
  {
    LiteralEndpointMatch(ApiRules[1], "refresh", GetEndpoint("refresh"));
    ExplicitRouteWins(configured, "POST", GetEndpoint("refresh"), 1);
  }

  /**
   * POST /api/v1/instance/<id>/<state> toggles that instance when the state
   * is "start" or "stop"; no rule serves any other state.
   */
  lemma InstancePowerToggleRequest(configured: string, id: string, state: string)
    requires id != "" && '/' !in id
    ensures Dispatch(Registered(configured), "POST", GetEndpoint("instance/" + id + "/" + state)) ==
      if state == "start" || state == "stop"
      then Api("InstancePowerToggle", HandlerInstancePowerToggle, map["instance-id" := id, "state" := state])
      else NoMatch
  {
    var path := GetEndpoint("instance/" + id + "/" + state);
    assert "instance/" + id + "/" + state == "instance" + "/" + id + "/" + state;
    ItemSegments("instance", id, state);
    InstanceOthersDecline(path, ["api", "v1", "instance", id] + Split(state, '/'));
    FiveSegmentMatch(ApiRules[5], ApiRules[5].path.parsed.value, "POST", path, id, state);
    if state == "start" || state == "stop" {
      ExplicitRouteWins(configured, "POST", path, 5);
    } else {
      FallbackLast(configured, "POST", path);
    }
  }

  /** GET /some/spa/route is the single-page application's: served from the static root as "some/spa/route". */
  lemma SpaRouteRequest(configured: string)
    ensures Dispatch(Registered(configured), "GET", "/some/spa/route") ==
      Static(StaticRoot(configured), "some/spa/route")
  {
    assert ApiPrefix[1] != "/some/spa/route"[1];
    OutsideApi(configured, "GET", "/some/spa/route");
  }

  /**
   * The application's assets are handed to the file server over the
   * configured static-files directory, or over "./frondent/dist" when none is
   * configured.
   */
  lemma StaticAssetRoot(configured: string)
    ensures Dispatch(Registered(configured), "GET", "/assets/app.js") ==
      Static(if configured == "" then "./frondent/dist" else configured, "assets/app.js")
  {
    assert ApiPrefix[2] != "/assets/app.js"[2];
    OutsideApi(configured, "GET", "/assets/app.js");
  }
}
