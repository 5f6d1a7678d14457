/**
 * The route table: six API routes, each an operation name, an HTTP method,
 * a template built by the endpoint formatter, and the handler it is bound to.
 */
module RouteTable {
  import opened Wrappers
  import opened Endpoint
  import opened Template
  import opened Text

  /** The handlers a route can be bound to; their bodies are not part of this model. */
  datatype Handler =
    | HandlerVersion
    | HandlerRefresh
    | HandlerEnvAll
    | HandlerEnvSingle
    | HandlerEnvPowerToggle
    | HandlerInstancePowerToggle
    | StaticFiles(stripPrefix: string, root: string)

  datatype Route = Route(name: string, httpMethod: string, pattern: string, handler: Handler)

  /** All defined server endpoints, in registration order. */
  const Routes: seq<Route> := [
    Route("Version", "GET", GetEndpoint("version"), HandlerVersion),
    Route("Refresh", "POST", GetEndpoint("refresh"), HandlerRefresh),
    Route("EnvAll", "GET", GetEndpoint("env/{group:summary|details}"), HandlerEnvAll),
    Route("EnvSingle", "GET", GetEndpoint("env/{env-id}/{group:summary|details}"), HandlerEnvSingle),
    Route("EnvPowerToggle", "POST", GetEndpoint("env/{env-id}/{state:start|stop}"), HandlerEnvPowerToggle),
    Route("InstancePowerToggle", "POST", GetEndpoint("instance/{instance-id}/{state:start|stop}"),
          HandlerInstancePowerToggle)
  ]

  // The segments the table's templates declare.
  const GroupVar: Segment := Enum("group", ["summary", "details"])
  const StateVar: Segment := Enum("state", ["start", "stop"])
  const VersionSegments: seq<Segment> := [Literal("api"), Literal("v1"), Literal("version")]
  const RefreshSegments: seq<Segment> := [Literal("api"), Literal("v1"), Literal("refresh")]
  const EnvAllSegments: seq<Segment> := [Literal("api"), Literal("v1"), Literal("env"), GroupVar]
  const EnvSingleSegments: seq<Segment> :=
    [Literal("api"), Literal("v1"), Literal("env"), Free("env-id"), GroupVar]
  const EnvPowerSegments: seq<Segment> :=
    [Literal("api"), Literal("v1"), Literal("env"), Free("env-id"), StateVar]
  const InstancePowerSegments: seq<Segment> :=
    [Literal("api"), Literal("v1"), Literal("instance"), Free("instance-id"), StateVar]

  /**
   * The table holds six routes with pairwise-distinct names, each for GET or
   * POST and each under the "/api/v1/" prefix.
   */
  lemma TableShape()
    ensures |Routes| == 6
    ensures forall i :: 0 <= i < |Routes| ==> Routes[i].httpMethod == "GET" || Routes[i].httpMethod == "POST"
    ensures forall i :: 0 <= i < |Routes| ==> ApiPrefix <= Routes[i].pattern
    ensures forall i, j :: 0 <= i < j < |Routes| ==> Routes[i].name != Routes[j].name
  {
    RoutesUnderApiPrefix();
    RouteNamesDistinct();
  }

  lemma RoutesUnderApiPrefix()
    ensures forall i :: 0 <= i < |Routes| ==> ApiPrefix <= Routes[i].pattern
  {
    forall i | 0 <= i < |Routes| ensures ApiPrefix <= Routes[i].pattern {
      var suffixes := [
        "version", "refresh", "env/{group:summary|details}", "env/{env-id}/{group:summary|details}",
        "env/{env-id}/{state:start|stop}", "instance/{instance-id}/{state:start|stop}"];
      assert Routes[i].pattern == GetEndpoint(suffixes[i]);
      GetEndpointShape(suffixes[i]);
    }
  }

  lemma RouteNamesDistinct()
    ensures forall i, j :: 0 <= i < j < |Routes| ==> Routes[i].name != Routes[j].name
  {
  }

  /** The segments each route of the table declares, in table order. */
  const DeclaredSegments: seq<seq<Segment>> := [
    VersionSegments, RefreshSegments, EnvAllSegments, EnvSingleSegments, EnvPowerSegments, InstancePowerSegments
  ]

  /** Every template in the table parses, into the segments listed above. */
  lemma TemplatesParse()
    ensures forall i :: 0 <= i < |Routes| ==> ParsePattern(Routes[i].pattern) == Ok(DeclaredSegments[i])
  {
    forall i | 0 <= i < |Routes|
      ensures ParsePattern(Routes[i].pattern) == Ok(DeclaredSegments[i])
    {
      RouteParses(i);
    }
  }

  lemma RouteParses(i: nat)
    requires i < |Routes|
    ensures ParsePattern(Routes[i].pattern) == Ok(DeclaredSegments[i])
  {
    if i == 0 {
      VersionParses();
    } else if i == 1 {
      RefreshParses();
    } else if i == 2 {
      EnvAllParses();
    } else if i == 3 {
      EnvSingleParses();
    } else if i == 4 {
      EnvPowerParses();
    } else {
      InstancePowerParses();
    }
  }

  lemma VersionParses()
    ensures ParsePattern(GetEndpoint("version")) == Ok(VersionSegments)
  {
    LiteralWellFormed("version");
    ApiTemplateOne("version", Literal("version"));
  }

  lemma RefreshParses()
    ensures ParsePattern(GetEndpoint("refresh")) == Ok(RefreshSegments)
  {
    LiteralWellFormed("refresh");
    ApiTemplateOne("refresh", Literal("refresh"));
  }

  lemma EnvAllParses()
    ensures ParsePattern(GetEndpoint("env/{group:summary|details}")) == Ok(EnvAllSegments)
  {
    LiteralWellFormed("env");
    GroupWellFormed();
    EnvAllText();
    ApiTemplateTwo("env/{group:summary|details}", Literal("env"), GroupVar);
  }

  lemma EnvSingleParses()
    ensures ParsePattern(GetEndpoint("env/{env-id}/{group:summary|details}")) == Ok(EnvSingleSegments)
  {
    LiteralWellFormed("env");
    FreeWellFormed("env-id");
    GroupWellFormed();
    EnvSingleText();
    ApiTemplateThree("env/{env-id}/{group:summary|details}", Literal("env"), Free("env-id"), GroupVar);
  }

  lemma EnvPowerParses()
    ensures ParsePattern(GetEndpoint("env/{env-id}/{state:start|stop}")) == Ok(EnvPowerSegments)
  {
    LiteralWellFormed("env");
    FreeWellFormed("env-id");
    StateWellFormed();
    EnvPowerText();
    ApiTemplateThree("env/{env-id}/{state:start|stop}", Literal("env"), Free("env-id"), StateVar);
  }

  lemma InstancePowerParses()
    ensures ParsePattern(GetEndpoint("instance/{instance-id}/{state:start|stop}")) == Ok(InstancePowerSegments)
  {
    LiteralWellFormed("instance");
    FreeWellFormed("instance-id");
    StateWellFormed();
    InstancePowerText();
    ApiTemplateThree("instance/{instance-id}/{state:start|stop}", Literal("instance"), Free("instance-id"), StateVar);
  }

  lemma EnvAllText()
    ensures RenderSegment(Literal("env")) + "/" + RenderSegment(GroupVar) == "env/{group:summary|details}"
  {
    GroupRendering();
  }

  lemma EnvSingleText()
    ensures RenderSegment(Literal("env")) + "/" + RenderSegment(Free("env-id")) + "/" + RenderSegment(GroupVar)
         == "env/{env-id}/{group:summary|details}"
  {
    GroupRendering();
    ThreePieces(Literal("env"), Free("env-id"), GroupVar, "{group:summary|details}");
    assert "env" + "/" + "{env-id}" + "/" == "env/{env-id}/";
    assert "env/{env-id}/" + "{group:summary|details}" == "env/{env-id}/{group:summary|details}";
  }

  lemma EnvPowerText()
    ensures RenderSegment(Literal("env")) + "/" + RenderSegment(Free("env-id")) + "/" + RenderSegment(StateVar)
         == "env/{env-id}/{state:start|stop}"
  {
    StateRendering();
    ThreePieces(Literal("env"), Free("env-id"), StateVar, "{state:start|stop}");
    assert "env" + "/" + "{env-id}" + "/" == "env/{env-id}/";
    assert "env/{env-id}/" + "{state:start|stop}" == "env/{env-id}/{state:start|stop}";
  }

  lemma InstancePowerText()
    ensures RenderSegment(Literal("instance")) + "/" + RenderSegment(Free("instance-id")) + "/"
            + RenderSegment(StateVar) == "instance/{instance-id}/{state:start|stop}"
  {
    StateRendering();
    ThreePieces(Literal("instance"), Free("instance-id"), StateVar, "{state:start|stop}");
    assert "instance" + "/" + "{instance-id}" + "/" == "instance/{instance-id}/";
    assert "instance/{instance-id}/" + "{state:start|stop}" == "instance/{instance-id}/{state:start|stop}";
  }

  /** The rendering of a literal, a free variable and an already rendered third segment. */
  lemma ThreePieces(c: Segment, d: Segment, e: Segment, te: string)
    requires c.Literal? && d.Free? && RenderSegment(e) == te
    ensures RenderSegment(c) + "/" + RenderSegment(d) + "/" + RenderSegment(e)
         == c.text + "/" + "{" + d.name + "}" + "/" + te
  {
  }

  lemma LiteralWellFormed(t: string)
    requires forall i :: 0 <= i < |t| ==> 'a' <= t[i] <= 'z' || '0' <= t[i] <= '9'
    ensures SegmentWellFormed(Literal(t))
  {
  }

  lemma FreeWellFormed(n: string)
    requires n != ""
    requires forall i :: 0 <= i < |n| ==> 'a' <= n[i] <= 'z' || n[i] == '-'
    ensures SegmentWellFormed(Free(n))
  {
  }

  lemma GroupWellFormed()
    ensures SegmentWellFormed(GroupVar)
  {
    assert IsName("group");
    assert IsValue("summary") && IsValue("details");
  }

  lemma GroupRendering()
    ensures RenderSegment(GroupVar) == "{group:summary|details}"
  {
  }

  lemma StateWellFormed()
    ensures SegmentWellFormed(StateVar)
  {
    assert IsName("state");
    assert IsValue("start") && IsValue("stop");
  }

  lemma StateRendering()
    ensures RenderSegment(StateVar) == "{state:start|stop}"
  {
  }

  /** "/api/v1" written as the template's first two segments. */
  lemma ApiSegments(rest: string)
    ensures "/" + RenderSegment(Literal("api")) + "/" + RenderSegment(Literal("v1")) + "/" + rest
         == ApiPrefix + rest
  {
    assert "/" + "api" + "/" + "v1" + "/" == ApiPrefix;
  }

  lemma ApiTemplateOne(suffix: string, c: Segment)
    requires SegmentWellFormed(c) && c.Literal?
    requires RenderSegment(c) == suffix
    ensures ParsePattern(GetEndpoint(suffix)) == Ok([Literal("api"), Literal("v1"), c])
  {
    var segs := [Literal("api"), Literal("v1"), c];
    var pieces := [RenderSegment(Literal("api")), RenderSegment(Literal("v1")), RenderSegment(c)];
    assert RenderPieces(segs) == pieces;
    assert Join(pieces[1..], '/') == pieces[1] + "/" + pieces[2];
    assert Join(pieces, '/') == pieces[0] + "/" + Join(pieces[1..], '/');
    ApiSegments(suffix);
    assert SegmentWellFormed(Literal("api")) && SegmentWellFormed(Literal("v1"));
    TemplateParses(suffix, segs);
  }

  lemma ApiTemplateTwo(suffix: string, c: Segment, d: Segment)
    requires SegmentWellFormed(c) && SegmentWellFormed(d) && c.Literal?
    requires RenderSegment(c) + "/" + RenderSegment(d) == suffix
    ensures ParsePattern(GetEndpoint(suffix)) == Ok([Literal("api"), Literal("v1"), c, d])
  {
    var segs := [Literal("api"), Literal("v1"), c, d];
    var pieces := [RenderSegment(Literal("api")), RenderSegment(Literal("v1")), RenderSegment(c), RenderSegment(d)];
    assert RenderPieces(segs) == pieces;
    assert Join(pieces[2..], '/') == pieces[2] + "/" + pieces[3];
    assert Join(pieces[1..], '/') == pieces[1] + "/" + Join(pieces[2..], '/');
    assert Join(pieces, '/') == pieces[0] + "/" + Join(pieces[1..], '/');
    ApiSegments(suffix);
    assert SegmentWellFormed(Literal("api")) && SegmentWellFormed(Literal("v1"));
    TemplateParses(suffix, segs);
  }

  lemma ApiTemplateThree(suffix: string, c: Segment, d: Segment, e: Segment)
    requires SegmentWellFormed(c) && SegmentWellFormed(d) && SegmentWellFormed(e) && c.Literal?
    requires IsVariable(d) && IsVariable(e) ==> d.name != e.name
    requires RenderSegment(c) + "/" + RenderSegment(d) + "/" + RenderSegment(e) == suffix
    ensures ParsePattern(GetEndpoint(suffix)) == Ok([Literal("api"), Literal("v1"), c, d, e])
  {
    var segs := [Literal("api"), Literal("v1"), c, d, e];
    RenderApiThree(c, d, e);
    ApiSegments(suffix);
    assert SegmentWellFormed(Literal("api")) && SegmentWellFormed(Literal("v1"));
    TemplateParses(suffix, segs);
  }

  lemma RenderApiThree(c: Segment, d: Segment, e: Segment)
    ensures Render([Literal("api"), Literal("v1"), c, d, e])
         == "/" + RenderSegment(Literal("api")) + "/" + RenderSegment(Literal("v1")) + "/"
            + (RenderSegment(c) + "/" + RenderSegment(d) + "/" + RenderSegment(e))
  {
    var pieces := [RenderSegment(Literal("api")), RenderSegment(Literal("v1")), RenderSegment(c),
                   RenderSegment(d), RenderSegment(e)];
    assert RenderPieces([Literal("api"), Literal("v1"), c, d, e]) == pieces;
    JoinFive(pieces[0], pieces[1], pieces[2], pieces[3], pieces[4]);
  }

  lemma JoinFive(a: string, b: string, c: string, d: string, e: string)
    ensures "/" + Join([a, b, c, d, e], '/') == "/" + a + "/" + b + "/" + (c + "/" + d + "/" + e)
  {
    assert [a, b, c, d, e][1..] == [b, c, d, e];
    assert [b, c, d, e][1..] == [c, d, e];
    assert [c, d, e][1..] == [d, e];
    assert [d, e][1..] == [e];
    assert Join([d, e], '/') == d + "/" + e;
    assert Join([c, d, e], '/') == c + "/" + (d + "/" + e);
    assert Join([b, c, d, e], '/') == b + "/" + (c + "/" + d + "/" + e);
  }

  lemma TemplateParses(suffix: string, segs: seq<Segment>)
    requires forall i :: 0 <= i < |segs| ==> SegmentWellFormed(segs[i])
    requires |segs| >= 1 && DistinctNames(segs)
    requires Render(segs) == ApiPrefix + suffix
    ensures ParsePattern(GetEndpoint(suffix)) == Ok(segs)
  {
    GetEndpointShape(suffix);
    ParseRender(segs);
  }
}
