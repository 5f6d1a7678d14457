/**
 * The endpoint formatter: every API pattern is the format "/api/v%s/%s"
 * filled with the API version and a resource suffix.
 */
module Endpoint {
  import opened Wrappers

  /** The compatibility version of the API, written into every API route. */
  const ApiVersion: string := "1"

  /** The format every API route is built from. */
  const EndpointFormat: string := "/api/v%s/%s"

  /** The path prefix every API route starts with. */
  const ApiPrefix: string := "/api/v1/"

  /**
   * Go's `fmt.Sprintf` restricted to string arguments and the verbs `%s`
   * and `%%`: each `%s` takes the next argument, `%%` writes one `%`, a `%s`
   * with no argument left writes `%!s(MISSING)`, anything else is copied.
   */
  function Sprintf(format: string, args: seq<string>): string
    decreases |format|
  {
    if |format| == 0 then ""
    else if format[0] == '%' && |format| >= 2 && format[1] == 's' then
      if |args| > 0 then args[0] + Sprintf(format[2..], args[1..])
      else "%!s(MISSING)" + Sprintf(format[2..], args)
    else if format[0] == '%' && |format| >= 2 && format[1] == '%' then
      "%" + Sprintf(format[2..], args)
    else [format[0]] + Sprintf(format[1..], args)
  }

  /**
   * A properly formatted API endpoint for the given suffix: the endpoint
   * format filled with the API version and the suffix (see `GetEndpointFormats`).
   */
  function GetEndpoint(suffix: string): string
  {
    "/api/v" + ApiVersion + "/" + suffix
  }

  /** Inverse of `GetEndpoint`: the suffix of an API path, if it is one. */
  function EndpointSuffix(path: string): (r: Option<string>)
    ensures r.Some? ==> ApiPrefix + r.value == path
    ensures r.None? ==> !(ApiPrefix <= path)
  {
    if ApiPrefix <= path then Some(path[|ApiPrefix|..]) else None
  }

  /** Text without `%` is copied verbatim in front of whatever the rest formats to. */
  lemma {:induction false} SprintfVerbatim(text: string, rest: string, args: seq<string>)
    requires '%' !in text
    ensures Sprintf(text + rest, args) == text + Sprintf(rest, args)
    decreases |text|
  {
    if |text| > 0 {
      var f := text + rest;
      assert f[0] == text[0] && text[0] in text;
      assert f[1..] == text[1..] + rest;
      SprintfVerbatim(text[1..], rest, args);
      calc {
        Sprintf(f, args);
        [text[0]] + Sprintf(text[1..] + rest, args);
        [text[0]] + (text[1..] + Sprintf(rest, args));
        ([text[0]] + text[1..]) + Sprintf(rest, args);
        { assert [text[0]] + text[1..] == text; }
        text + Sprintf(rest, args);
      }
    } else {
      assert text + rest == rest;
    }
  }

  /** A `%s` at the front of the format consumes exactly the first argument. */
  lemma SprintfTakesArgument(rest: string, arg: string, args: seq<string>)
    ensures Sprintf("%s" + rest, [arg] + args) == arg + Sprintf(rest, args)
  {
    var f := "%s" + rest;
    assert f[0] == '%' && f[1] == 's' && f[2..] == rest;
    assert ([arg] + args)[1..] == args;
  }

  /** `GetEndpoint` is exactly what formatting the endpoint format with the version and the suffix produces. */
  lemma GetEndpointFormats(suffix: string)
    ensures GetEndpoint(suffix) == Sprintf(EndpointFormat, [ApiVersion, suffix])
  {
    assert EndpointFormat == "/api/v" + ("%s" + ("/" + ("%s" + "")));
    SprintfVerbatim("/api/v", "%s" + ("/" + ("%s" + "")), [ApiVersion, suffix]);
    SprintfTakesArgument("/" + ("%s" + ""), ApiVersion, [suffix]);
    SprintfVerbatim("/", "%s" + "", [suffix]);
    SprintfTakesArgument("", suffix, []);
  }

  /** Every endpoint is the fixed prefix "/api/v1/" followed by the suffix verbatim. */
  lemma GetEndpointShape(suffix: string)
    ensures GetEndpoint(suffix) == ApiPrefix + suffix
  {
    assert "/api/v" + ApiVersion + "/" == ApiPrefix;
  }

  /** `EndpointSuffix` recovers the suffix an endpoint was built from. */
  lemma EndpointRoundTrip(suffix: string)
    ensures EndpointSuffix(GetEndpoint(suffix)) == Some(suffix)
  {
    GetEndpointShape(suffix);
    assert (ApiPrefix + suffix)[|ApiPrefix|..] == suffix;
  }

  /** Every path carrying the API prefix is the endpoint of exactly its suffix. */
  lemma EndpointSuffixInverse(path: string, suffix: string)
    ensures EndpointSuffix(path) == Some(suffix) <==> GetEndpoint(suffix) == path
  {
    GetEndpointShape(suffix);
    if GetEndpoint(suffix) == path {
      EndpointRoundTrip(suffix);
    }
  }
}
