# Request routing of the power-toggle backend

This project models, in Dafny, how the backend of the AWS power-toggle
service routes HTTP requests. The Go source is `backend/router.go`. It
covers four things:

- the endpoint formatter `getEndpoint`, which builds every API path from the
  format `"/api/v%s/%s"` and API version `"1"`;
- the table of six API routes: name, HTTP method, path template and handler;
- `newRouter`, which registers each route once, in table order, and then
  adds a GET-only catch-all on prefix `"/"`. The catch-all strips the leading
  `"/"` and serves files from the static-files directory. That directory is
  the configured one, or `"./frondent/dist"` when none is configured;
- the dispatch semantics of those registrations, stated over the
  registered rules. The first rule that claims a request wins. A free variable
  `{name}` matches any non-empty path segment. An enumerated variable
  `{name:a|b}` matches exactly one of its listed values. A template that does
  not parse never matches.

Modules, one file each:

- `Wrappers` (`wrappers.dfy`): `Option` and `Result`.
- `Text` (`text.dfy`): splitting at a separator character and joining back, with the round-trip lemmas.
- `Endpoint` (`endpoint.dfy`): the endpoint formatter, and the subset of `fmt.Sprintf` it uses.
- `Template` (`template.dfy`): the template language. It covers parsing, rendering back to text, and matching a request path with variable bindings.
- `RouteTable` (`route_table.dfy`): the route table and the segments each template declares.
- `Router` (`router.dfy`): the router as a class whose rule list each registration extends. It also holds `NewRouter` and the dispatch specification with its properties.
- `Scenarios` (`scenarios.dfy`): what the registered router does with concrete kinds of request.

Two modelling choices apply throughout. Paths are `string`s. A request's
outcome is `Api(name, handler, bindings)`, `Static(root, file)` or
`NoMatch`. `NoMatch` means no rule serves the request. The mux then
answers 404, or 405 when the path matches a rule for another method. The
GET catch-all matches every "/"-rooted path, so an unclaimed non-GET request
gets 405.

## Model

| member | source | states |
|---|---|---|
| Endpoint.GetEndpoint | backend/router.go:17-20 | Computes an API endpoint: "/api/v", the API version, "/", then the suffix |
| Endpoint.Sprintf | backend/router.go:19 | Computes `fmt.Sprintf` on string arguments: each `%s` writes the next argument, or the missing-argument marker when none is left; `%%` writes `%`; other text is copied |
| Endpoint.GetEndpointFormats | backend/router.go:11-20 | For every suffix, `GetEndpoint(suffix)` equals `Sprintf("/api/v%s/%s", ["1", suffix])`, the formatting `getEndpoint` performs |
| Endpoint.GetEndpointShape | backend/router.go:17-20 | Every endpoint is the prefix "/api/v1/" followed by the suffix verbatim |
| Endpoint.EndpointSuffix | backend/router.go:17-20 | The suffix read back from a path: when present, the prefix plus it is the path; when absent, the path does not start with "/api/v1/" |
| Endpoint.EndpointRoundTrip | backend/router.go:17-20 | Reading the suffix back from `GetEndpoint(suffix)` gives `suffix`, so no two suffixes share an endpoint |
| Endpoint.EndpointSuffixInverse | backend/router.go:17-20 | The suffix read back from a path is `suffix` if and only if the path is `GetEndpoint(suffix)` |
| Endpoint.SprintfVerbatim | backend/router.go:19 | Format text without `%` is copied verbatim in front of whatever the rest of the format produces |
| Endpoint.SprintfTakesArgument | backend/router.go:19 | A `%s` verb writes the next argument and consumes it |
| Template.ParsePattern | backend/router.go:86 | Parses a route template into segments. A result needs a leading "/" and distinct variable names; text without a leading "/" is an error |
| Template.MatchPath | backend/router.go:86 | Matches a request path against parsed segments. A match needs a "/"-rooted path with exactly as many segments as the template |
| Template.ParseIffRender | backend/router.go:86 | A template text parses to a list of segments exactly when it is their rendering, so parse and render are inverse |
| Template.ParseRender | backend/router.go:86 | Every well-formed segment list, rendered, parses back to itself |
| Template.RenderParse | backend/router.go:86 | Whatever parses is well formed (names distinct, values non-empty) and renders back to the template text verbatim |
| Template.PathSegments | backend/router.go:86 | A request path is read as segments exactly when it is non-empty and starts with "/" |
| Template.MatchSegments | backend/router.go:86 | Segments match a template exactly when the counts agree and every segment is accepted (literal equal, free variable non-empty, enumerated value listed) |
| Template.MatchBindings | backend/router.go:86 | A match binds exactly the template's variable names, each to the request segment at its position |
| Template.MatchedEnumIsAllowed | backend/router.go:52-70 | A matched enumerated variable is bound to one of its listed values |
| RouteTable.Routes | backend/router.go:34-73 | The six routes in registration order: name, method, endpoint template and handler |
| RouteTable.TableShape | backend/router.go:34-73 | The table holds six routes, each for GET or POST, each pattern under "/api/v1/", with pairwise distinct names |
| RouteTable.TemplatesParse | backend/router.go:34-73 | Every pattern in the table parses, into the segments that route declares |
| RouteTable.VersionParses | backend/router.go:37-42 | The Version pattern parses to the literals api, v1, version |
| RouteTable.RefreshParses | backend/router.go:43-48 | The Refresh pattern parses to the literals api, v1, refresh |
| RouteTable.EnvAllParses | backend/router.go:49-54 | The EnvAll pattern parses to api, v1, env and the enumeration group ∈ {summary, details} |
| RouteTable.EnvSingleParses | backend/router.go:55-60 | The EnvSingle pattern parses to api, v1, env, the free variable env-id and the enumeration group ∈ {summary, details} |
| RouteTable.EnvPowerParses | backend/router.go:61-66 | The EnvPowerToggle pattern parses to api, v1, env, the free variable env-id and the enumeration state ∈ {start, stop} |
| RouteTable.InstancePowerParses | backend/router.go:67-72 | The InstancePowerToggle pattern parses to api, v1, instance, the free variable instance-id and the enumeration state ∈ {start, stop} |
| Router.Router.constructor | backend/router.go:77 | A new router has no rules |
| Router.Router.Handle | backend/router.go:84-88 | Registering a route appends exactly one rule with its method, parsed template, name and handler; earlier rules are unchanged |
| Router.Router.HandleRoutes | backend/router.go:78-89 | Registering the table appends one rule per route, once each and in table order |
| Router.Router.HandlePrefix | backend/router.go:97-100 | Registering the catch-all appends one GET rule for every path under the prefix |
| Router.NewRouter | backend/router.go:75-103 | The new router's rules are the compiled table in order, followed by the catch-all serving the static root |
| Router.StaticRoot | backend/router.go:92-95 | The static root is the configured directory when one is configured, and exactly "./frondent/dist" otherwise |
| Router.RuleFor | backend/router.go:84-88 | The rule one route registers: its method, its template as parsed at registration, its name and its handler |
| Router.Compiled | backend/router.go:78-89 | The rules a table registers: one per route, in table order |
| Router.RuleMatches | backend/router.go:84-88 | A rule claims a request only for its own method. A rule whose template failed to parse claims nothing. A prefix rule claims exactly the paths under its prefix. A template rule binds its variables |
| Router.Invoke | backend/router.go:97-100 | Running a claimed rule. An API rule's handler gets the rule's name and bindings. The static-file rule strips its prefix and hands the rest of the path to the file server over its root; when the prefix is missing, no rule serves the request |
| Router.Dispatch | backend/router.go:78-100 | Runs the first registered rule that claims the request; when none claims it, no rule serves it |
| Router.CatchAll | backend/router.go:97-100 | The GET rule on prefix "/" that strips "/" and hands the path to the file server over the static root |
| Router.FirstMatch | backend/router.go:78-100 | The chosen rule claims the request and no earlier rule does; there is none exactly when no rule claims it |
| Router.CompiledAppend | backend/router.go:78-89 | Compiling one more route appends its rule to the compiled rules |
| Router.CompiledTable | backend/router.go:78-89 | Compiling the table gives six rules, each keeping its route's name, method and handler, with its template parsed |
| Router.RegisteredRules | backend/router.go:75-103 | The rules dispatch is stated over are exactly the ones `NewRouter` registers |
| Router.FirstMatchIs | backend/router.go:78-100 | The first-match position is the rule that claims the request while no earlier rule does |
| Router.DispatchFirst | backend/router.go:78-100 | A request goes to the handler of the first rule that claims it, with that rule's bindings |
| Router.ClaimShape | backend/router.go:34-73 | A claimed request has the route's method, "api" and "v1" as its first segments, the route's segment count and the route's resource as its third segment |
| Router.ExplicitRoutesDisjoint | backend/router.go:34-73 | No request is claimed by two of the six API routes, so their relative order does not matter |
| Router.EarlierRulesDecline | backend/router.go:34-73 | No API rule before the one claiming a request claims it too |
| Router.ExplicitRouteWins | backend/router.go:78-100 | Whenever an API route claims a request, dispatch runs that route's handler with its bindings, whatever the static root |
| Router.FallbackLast | backend/router.go:97-100 | A request no API route claims is served from the static root with its leading "/" stripped when it is a GET of a "/"-rooted path, and no rule serves it otherwise |
| Router.EnumBound | backend/router.go:49-72 | The bindings of an environment query hold an allowed group; those of a power toggle hold an allowed state |
| Router.ApiValuesAllowed | backend/router.go:49-72 | What any API route hands its handler respects the enumerations |
| Router.DispatchedValuesAllowed | backend/router.go:49-100 | Whatever is dispatched, an environment query's group is summary or details and a power toggle's state is start or stop |
| Scenarios.EndpointSegments | backend/router.go:17-20 | An endpoint's segments are "api", "v1", then the suffix's segments |
| Scenarios.EnvPowerToggleRequest | backend/router.go:61-66 | POST /api/v1/env/<id>/<state> runs EnvPowerToggle with exactly env-id=id and the state when the state is start or stop, and no rule serves it otherwise |
| Scenarios.EnvAllRequest | backend/router.go:49-54 | GET /api/v1/env/<group> runs EnvAll with exactly group bound when the group is summary or details, and otherwise falls through to the static files |
| Scenarios.EnvGroupMatch | backend/router.go:49-54 | For GET of env/<group>, only the all-environments route can claim it; it does exactly when the group is an allowed value, binding it alone |
| Scenarios.EnvSingleRequest | backend/router.go:55-60 | GET /api/v1/env/<id>/<group> runs EnvSingle with exactly env-id=id and the group when the group is summary or details, and otherwise falls through to the static files |
| Scenarios.EnvItemMatch | backend/router.go:55-66 | For GET or POST of env/<id>/<last>, only the five-segment route for that method can claim it; it does exactly when last is an allowed value, binding id and last |
| Scenarios.InstancePowerToggleRequest | backend/router.go:67-72 | POST /api/v1/instance/<id>/<state> runs InstancePowerToggle with exactly instance-id=id and the state when the state is start or stop, and no rule serves it otherwise |
| Scenarios.StartEnvironment42 | backend/router.go:61-66 | POST /api/v1/env/42/start runs EnvPowerToggle with env-id=42 and state=start |
| Scenarios.PauseEnvironment42 | backend/router.go:61-66 | POST /api/v1/env/42/pause is served by no rule |
| Scenarios.VersionRequest | backend/router.go:37-42 | GET /api/v1/version runs Version with no bindings |
| Scenarios.RefreshRequest | backend/router.go:43-48 | POST /api/v1/refresh runs Refresh with no bindings |
| Scenarios.ApiPathsUnderPrefix | backend/router.go:34-73 | Every request an API route claims has a path under "/api/v1/" |
| Scenarios.OutsideApi | backend/router.go:97-100 | Every path outside "/api/v1/" belongs to the static files: a GET is handed to the file server over the static root, and no rule serves anything else |
| Scenarios.SpaRouteRequest | backend/router.go:97-100 | GET /some/spa/route is served from the static root as some/spa/route |
| Scenarios.StaticAssetRoot | backend/router.go:92-100 | GET /assets/app.js is handed to the file server as assets/app.js, over the configured directory, or over "./frondent/dist" when none is configured |

## Left out

- Default static directory: the code's default is the literal `"./frondent/dist"` (backend/router.go:94). The model follows the code, not the documented `./frontend/dist`.
- Trailing slashes: the router enables `StrictSlash(true)` (backend/router.go:77), which redirects a path that differs from a template only by a trailing slash. The model has no redirects: such a path matches no API template. A GET of it falls through to the static files; no rule serves any other method.
- Method mismatch: the mux answers 405 when a path matches a route for another method, and 404 otherwise. The model folds both into `NoMatch`.
- Mux internals: regular-expression compilation, route scoring and path cleaning are not modelled. Templates are matched segment by segment, with the semantics given above for the table's templates. The parser accepts only the subset of the template language the table uses:
  - a variable with a pattern, such as `{id:[0-9]+}`, becomes a one-value enumeration rather than a regular expression;
  - a variable inside a segment, such as `a{b}`, is a parse error, although the mux compiles it;
  - an empty alternative, such as `{a:x|}`, is rejected.
- Configuration: reading the static-files directory from the configuration store is not modelled. The configured value is a parameter of `NewRouter` and the dispatch lemmas.
- File serving: the file server's disk access, directory listings and index pages are not modelled. The outcome names the root and the file path requested.
- Handlers: handler bodies are not part of this model. `Handler` only names them.
- Runtime: concurrency and the HTTP server are not modelled.
- Formatting: `Sprintf` covers only the `%s` and `%%` verbs and the missing-argument marker. Other verbs, flags and the surplus-argument report are not modelled, since the endpoint format uses only two `%s`.
- Endpoint.GetEndpoint: it is defined as the concatenation the format produces rather than as a call to `Sprintf`. `GetEndpointFormats` proves the two equal for every suffix.
