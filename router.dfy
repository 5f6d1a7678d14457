/**
 * The router: the route table registered rule by rule, in order, followed
 * by a GET-only catch-all that serves the single-page application's static
 * files.  A request is dispatched to the first registered rule it matches.
 */
module Router {
  import opened Wrappers
  import opened Text
  import opened Template
  import opened Endpoint
  import opened RouteTable

  /** The static-files directory used when none is configured. */
  const DefaultStaticDir: string := "./frondent/dist"

  /** How a rule matches request paths: a parsed template, or any path under a prefix. */
  datatype PathMatcher =
    | PathTemplate(parsed: Result<seq<Segment>, PatternError>)
    | PathPrefix(prefix: string)

  /** One registration: name, HTTP method, path matcher and handler. */
  datatype Rule = Rule(name: string, httpMethod: string, path: PathMatcher, handler: Handler)

  /** What serving a request amounts to. */
  datatype Outcome =
    | Api(name: string, handler: Handler, vars: map<string, string>)
    | Static(root: string, file: string)
    | NoMatch

  /**
   * Whether a rule claims a request, and with which variable bindings.  A
   * rule whose template failed to parse never matches.
   */
  function RuleMatches(rule: Rule, httpMethod: string, path: string): (r: Option<map<string, string>>)
    ensures r.Some? ==> rule.httpMethod == httpMethod
    ensures rule.path.PathTemplate? && rule.path.parsed.Err? ==> r.None?
    ensures rule.path.PathPrefix? && rule.httpMethod == httpMethod ==> (r.Some? <==> rule.path.prefix <= path)
  {
    if rule.httpMethod != httpMethod then None
    else match rule.path
      case PathPrefix(prefix) => if prefix <= path then Some(map[]) else None
      case PathTemplate(Err(_)) => None
      case PathTemplate(Ok(segs)) => MatchPath(segs, path)
  }

  predicate Claims(rule: Rule, httpMethod: string, path: string)
  {
    RuleMatches(rule, httpMethod, path).Some?
  }

  /** The position of the first rule that claims the request, if any does. */
  function FirstMatch(rules: seq<Rule>, httpMethod: string, path: string): (r: Option<nat>)
    ensures r.Some? ==> r.value < |rules| && Claims(rules[r.value], httpMethod, path)
    ensures r.Some? ==> forall j :: 0 <= j < r.value ==> !Claims(rules[j], httpMethod, path)
    ensures r.None? <==> forall j :: 0 <= j < |rules| ==> !Claims(rules[j], httpMethod, path)
    decreases |rules|
  {
    if |rules| == 0 then None
    else if Claims(rules[0], httpMethod, path) then Some(0)
    else match FirstMatch(rules[1..], httpMethod, path)
      case None => None
      case Some(k) => Some(k + 1)
  }

  /**
   * Runs a matched rule's handler: an API handler receives the bindings; the
   * static-file handler strips its prefix and serves the rest of the path
   * from its root, answering not-found when the prefix is missing.
   */
  function Invoke(rule: Rule, path: string, vars: map<string, string>): (r: Outcome)
    ensures r.Api? <==> !rule.handler.StaticFiles?
    ensures r.Api? ==> r.name == rule.name && r.handler == rule.handler && r.vars == vars
    ensures r.Static? ==> r.root == rule.handler.root && rule.handler.stripPrefix + r.file == path
    ensures r.NoMatch? <==> rule.handler.StaticFiles? && !(rule.handler.stripPrefix <= path)
  {
    match rule.handler
    case StaticFiles(strip, root) => if strip <= path then Static(root, path[|strip|..]) else NoMatch
    case _ => Api(rule.name, rule.handler, vars)
  }

  /** First match wins; when no rule claims the request, no rule serves it. */
  function Dispatch(rules: seq<Rule>, httpMethod: string, path: string): Outcome
  {
    match FirstMatch(rules, httpMethod, path)
    case None => NoMatch
    case Some(i) => Invoke(rules[i], path, RuleMatches(rules[i], httpMethod, path).value)
  }

  /** The rule registering one route of the table; its template is parsed at registration. */
  function RuleFor(route: Route): Rule
  {
    Rule(route.name, route.httpMethod, PathTemplate(ParsePattern(route.pattern)), route.handler)
  }

  function Compiled(routes: seq<Route>): (rules: seq<Rule>)
    ensures |rules| == |routes|
  {
    seq(|routes|, i requires 0 <= i < |routes| => RuleFor(routes[i]))
  }

  /** Compiling one more route appends its rule. */
  lemma CompiledAppend(routes: seq<Route>, route: Route)
    ensures Compiled(routes + [route]) == Compiled(routes) + [RuleFor(route)]
  {
  }

  /** The static-files directory: the configured one, or the default when none is configured. */
  function StaticRoot(configured: string): (root: string)
    ensures root != ""
    ensures configured != "" ==> root == configured
    ensures configured == "" ==> root == DefaultStaticDir
  {
    if configured == "" then DefaultStaticDir else configured
  }

  /** The GET-only rule that hands every path to the static-file server. */
  function CatchAll(root: string): Rule
  {
    Rule("", "GET", PathPrefix("/"), StaticFiles("/", root))
  }

  /** The six API rules as the router registers them, their templates parsed. */
  const ApiRules: seq<Rule> := [
    Rule("Version", "GET", PathTemplate(Ok(VersionSegments)), HandlerVersion),
    Rule("Refresh", "POST", PathTemplate(Ok(RefreshSegments)), HandlerRefresh),
    Rule("EnvAll", "GET", PathTemplate(Ok(EnvAllSegments)), HandlerEnvAll),
    Rule("EnvSingle", "GET", PathTemplate(Ok(EnvSingleSegments)), HandlerEnvSingle),
    Rule("EnvPowerToggle", "POST", PathTemplate(Ok(EnvPowerSegments)), HandlerEnvPowerToggle),
    Rule("InstancePowerToggle", "POST", PathTemplate(Ok(InstancePowerSegments)), HandlerInstancePowerToggle)
  ]

  /** The rules `NewRouter` registers, in order (see `RegisteredRules`). */
  function Registered(configured: string): seq<Rule>
  {
    ApiRules + [CatchAll(StaticRoot(configured))]
  }

  class Router {
    /** The registered rules, in registration (and so matching) order. */
    var rules: seq<Rule>

    constructor ()
      ensures rules == []
    {
      rules := [];
    }

    /** Registers a template route for one HTTP method under a name. */
    method Handle(httpMethod: string, template: string, name: string, handler: Handler)
      modifies this
      ensures rules == old(rules) + [Rule(name, httpMethod, PathTemplate(ParsePattern(template)), handler)]
    {
      rules := rules + [Rule(name, httpMethod, PathTemplate(ParsePattern(template)), handler)];
    }

    /** Registers every route of a table once, in table order. */
    method HandleRoutes(table: seq<Route>)
      modifies this
      ensures rules == old(rules) + Compiled(table)
    {
      for i := 0 to |table|
        invariant rules == old(rules) + Compiled(table[..i])
      {
        var route := table[i];
        Handle(route.httpMethod, route.pattern, route.name, route.handler);
        CompiledAppend(table[..i], route);
        assert table[..i + 1] == table[..i] + [route];
      }
      assert table[..|table|] == table;
    }

    /** Registers an unnamed rule claiming every path under a prefix for one HTTP method. */
    method HandlePrefix(httpMethod: string, prefix: string, handler: Handler)
      modifies this
      ensures rules == old(rules) + [Rule("", httpMethod, PathPrefix(prefix), handler)]
    {
      rules := rules + [Rule("", httpMethod, PathPrefix(prefix), handler)];
    }
  }

  /**
   * Builds the router: every route of the table once, in table order, then
   * the static-files catch-all for GET on "/".
   */
  method NewRouter(staticFilesDir: string) returns (router: Router)
    ensures fresh(router)
    ensures router.rules == Compiled(Routes) + [CatchAll(StaticRoot(staticFilesDir))]
  {
    router := new Router();
    router.HandleRoutes(Routes);
    var staticPath := staticFilesDir;
    if staticPath == "" {
      staticPath := DefaultStaticDir;
    }
    router.HandlePrefix("GET", "/", StaticFiles("/", staticPath));
  }

  // ------------------------------------------------------------- properties

  /** Registering the table compiles every route's template to its declared segments, keeping name, method and handler. */
  lemma CompiledTable()
    ensures Compiled(Routes) == ApiRules
  {
    forall i | 0 <= i < |Routes|
      ensures Compiled(Routes)[i] == ApiRules[i]
    {
      CompiledAt(i);
    }
  }

  lemma CompiledAt(i: nat)
    requires i < |Routes|
    ensures Compiled(Routes)[i] == ApiRules[i]
  {
    RouteParses(i);
    assert Compiled(Routes)[i] == Rule(Routes[i].name, Routes[i].httpMethod, PathTemplate(Ok(DeclaredSegments[i])), Routes[i].handler);
  }

  /** `Registered` is what `NewRouter` registers: the compiled table in order, then the catch-all. */
  lemma RegisteredRules(configured: string)
    ensures Registered(configured) == Compiled(Routes) + [CatchAll(StaticRoot(configured))]
  {
    CompiledTable();
  }

  /** The first-match position is determined by its two defining facts. */
  lemma FirstMatchIs(rules: seq<Rule>, httpMethod: string, path: string, k: nat)
    requires k < |rules| && Claims(rules[k], httpMethod, path)
    requires forall j :: 0 <= j < k ==> !Claims(rules[j], httpMethod, path)
    ensures FirstMatch(rules, httpMethod, path) == Some(k)
  {
    var r := FirstMatch(rules, httpMethod, path);
    assert r.Some?;
    assert !(r.value < k);
    assert !(k < r.value);
  }

  /** A request goes to the handler of the first rule that claims it. */
  lemma DispatchFirst(rules: seq<Rule>, httpMethod: string, path: string, k: nat)
    requires k < |rules| && Claims(rules[k], httpMethod, path)
    requires forall j :: 0 <= j < k ==> !Claims(rules[j], httpMethod, path)
    ensures Dispatch(rules, httpMethod, path) == Invoke(rules[k], path, RuleMatches(rules[k], httpMethod, path).value)
  {
    FirstMatchIs(rules, httpMethod, path, k);
  }

  /** A template rule claims a request only when its method agrees and its segments match the path's one for one. */
  lemma TemplateClaim(rule: Rule, segs: seq<Segment>, httpMethod: string, path: string)
    requires rule.path == PathTemplate(Ok(segs)) && Claims(rule, httpMethod, path)
    ensures httpMethod == rule.httpMethod
    ensures PathSegments(path).Some? && |PathSegments(path).value| == |segs|
    ensures forall k :: 0 <= k < |segs| ==> Accepts(segs[k], PathSegments(path).value[k])
  {
  }

  /** A matched literal segment is that literal in the path. */
  lemma LiteralAt(segs: seq<Segment>, parts: seq<string>, k: nat, text: string)
    requires |parts| == |segs| && k < |segs| && segs[k] == Literal(text) && Accepts(segs[k], parts[k])
    ensures parts[k] == text
  {
  }

  /**
   * What an API rule's claim reveals about the request: its method, the
   * number of path segments, the leading "api" and "v1", and the third
   * segment ("version", "refresh", "env" or "instance").
   */
  lemma ClaimShape(httpMethod: string, path: string, i: nat)
    requires i < |ApiRules| && Claims(ApiRules[i], httpMethod, path)
    ensures httpMethod == ApiRules[i].httpMethod
    ensures PathSegments(path).Some?
    ensures |PathSegments(path).value| == [3, 3, 4, 5, 5, 5][i]
    ensures PathSegments(path).value[2] == ["version", "refresh", "env", "env", "env", "instance"][i]
    ensures PathSegments(path).value[0] == "api" && PathSegments(path).value[1] == "v1"
  {
    var rule := ApiRules[i];
    var segs := rule.path.parsed.value;
    TemplateClaim(rule, segs, httpMethod, path);
    var parts := PathSegments(path).value;
    LiteralAt(segs, parts, 0, "api");
    LiteralAt(segs, parts, 1, "v1");
    if i == 0 {
      LiteralAt(segs, parts, 2, "version");
    } else if i == 1 {
      LiteralAt(segs, parts, 2, "refresh");
    } else if i < 5 {
      LiteralAt(segs, parts, 2, "env");
    } else {
      LiteralAt(segs, parts, 2, "instance");
    }
  }

  /** No request is claimed by two of the six API rules. */
  lemma ExplicitRoutesDisjoint(httpMethod: string, path: string, i: nat, j: nat)
    requires i < j < |ApiRules|
    ensures !(Claims(ApiRules[i], httpMethod, path) && Claims(ApiRules[j], httpMethod, path))
  {
    if Claims(ApiRules[i], httpMethod, path) && Claims(ApiRules[j], httpMethod, path) {
      ClaimShape(httpMethod, path, i);
      ClaimShape(httpMethod, path, j);
      assert false;
    }
  }

  /** Whenever one of the API rules claims a request, dispatch runs that rule's handler with its bindings. */
  lemma ExplicitRouteWins(configured: string, httpMethod: string, path: string, i: nat)
    requires i < |ApiRules| && Claims(ApiRules[i], httpMethod, path)
    ensures Dispatch(Registered(configured), httpMethod, path) ==
      Api(ApiRules[i].name, ApiRules[i].handler, RuleMatches(ApiRules[i], httpMethod, path).value)
  {
    var rules := Registered(configured);
    EarlierRulesDecline(httpMethod, path, i);
    assert forall j :: 0 <= j < i ==> rules[j] == ApiRules[j];
    DispatchFirst(rules, httpMethod, path, i);
    ApiInvoke(i, path, RuleMatches(ApiRules[i], httpMethod, path).value);
  }

  /** No API rule before one that claims a request claims it too. */
  lemma EarlierRulesDecline(httpMethod: string, path: string, i: nat)
    requires i < |ApiRules| && Claims(ApiRules[i], httpMethod, path)
    ensures forall j :: 0 <= j < i ==> !Claims(ApiRules[j], httpMethod, path)
  {
    forall j | 0 <= j < i
      ensures !Claims(ApiRules[j], httpMethod, path)
    {
      ExplicitRoutesDisjoint(httpMethod, path, j, i);
    }
  }

  /** An API rule's handler receives the rule's name and the bindings. */
  lemma ApiInvoke(i: nat, path: string, vars: map<string, string>)
    requires i < |ApiRules|
    ensures Invoke(ApiRules[i], path, vars) == Api(ApiRules[i].name, ApiRules[i].handler, vars)
  {
    assert !ApiRules[i].handler.StaticFiles?;
  }

  /**
   * The catch-all is tried last and only for GET: a request no API rule
   * claims is served from the static root with its leading "/" stripped when
   * it is a GET, and no rule serves it otherwise.
   */
  lemma FallbackLast(configured: string, httpMethod: string, path: string)
    requires forall i :: 0 <= i < |ApiRules| ==> !Claims(ApiRules[i], httpMethod, path)
    ensures Dispatch(Registered(configured), httpMethod, path) ==
      if httpMethod == "GET" && "/" <= path then Static(StaticRoot(configured), path[1..]) else NoMatch
  {
    var rules := Registered(configured);
    if httpMethod == "GET" && "/" <= path {
      DispatchFirst(rules, httpMethod, path, |ApiRules|);
    } else {
      assert !Claims(rules[|ApiRules|], httpMethod, path);
      assert FirstMatch(rules, httpMethod, path).None?;
    }
  }

  /** The bindings of an environment query or power toggle hold an allowed group or state. */
  lemma EnumBound(httpMethod: string, path: string, i: nat)
    requires 2 <= i < |ApiRules| && Claims(ApiRules[i], httpMethod, path)
    ensures var vars := RuleMatches(ApiRules[i], httpMethod, path).value;
      if i < 4 then "group" in vars && (vars["group"] == "summary" || vars["group"] == "details")
      else "state" in vars && (vars["state"] == "start" || vars["state"] == "stop")
  {
    var segs := ApiRules[i].path.parsed.value;
    var parts := PathSegments(path).value;
    var k := |segs| - 1;
    assert segs[k] == if i < 4 then GroupVar else StateVar;
    assert DistinctNames(segs);
    MatchedEnumIsAllowed(segs, parts, k);
  }

  /**
   * An outcome respects the enumerations: an environment query's group is
   * "summary" or "details", a power toggle's state is "start" or "stop".
   */
  predicate ValuesAllowed(outcome: Outcome)
  {
    match outcome
    case Api(_, handler, vars) =>
      && (handler == HandlerEnvAll || handler == HandlerEnvSingle ==>
            "group" in vars && (vars["group"] == "summary" || vars["group"] == "details"))
      && (handler == HandlerEnvPowerToggle || handler == HandlerInstancePowerToggle ==>
            "state" in vars && (vars["state"] == "start" || vars["state"] == "stop"))
    case _ => true
  }

  /** What an API rule hands to its handler respects the enumerations. */
  lemma ApiValuesAllowed(httpMethod: string, path: string, i: nat)
    requires i < |ApiRules| && Claims(ApiRules[i], httpMethod, path)
    ensures ValuesAllowed(Api(ApiRules[i].name, ApiRules[i].handler, RuleMatches(ApiRules[i], httpMethod, path).value))
  {
    if 2 <= i {
      EnumBound(httpMethod, path, i);
    }
  }

  /** An enumerated segment never lets another value through to a dispatched handler. */
  lemma DispatchedValuesAllowed(configured: string, httpMethod: string, path: string)
    ensures ValuesAllowed(Dispatch(Registered(configured), httpMethod, path))
  {
    if i :| 0 <= i < |ApiRules| && Claims(ApiRules[i], httpMethod, path) {
      ExplicitRouteWins(configured, httpMethod, path, i);
      ApiValuesAllowed(httpMethod, path, i);
    } else {
      FallbackLast(configured, httpMethod, path);
    }
  }
}
