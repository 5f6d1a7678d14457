/**
 * The route-template language of the route table.  A template is a
 * `/`-separated list of segments, each one of
 *   - a literal, matched verbatim;
 *   - a free variable `{name}`, matching any non-empty segment;
 *   - an enumerated variable `{name:a|b|...}`, matching exactly one of the
 *     listed values.
 * Matching a request path binds every variable's name to the segment it
 * matched.
 */
module Template {
  import opened Wrappers
  import opened Text

  datatype Segment =
    | Literal(text: string)
    | Free(name: string)
    | Enum(name: string, allowed: seq<string>)

  datatype PatternError =
    | MissingLeadingSlash
    | UnbalancedBraces(piece: string)
    | BadVariable(piece: string)
    | DuplicateVariable

  /** Text a literal segment may hold. */
  predicate IsLiteralText(t: string)
  {
    '{' !in t && '}' !in t && '/' !in t
  }

  /** A variable name: non-empty, free of the template's punctuation. */
  predicate IsName(n: string)
  {
    n != "" && '{' !in n && '}' !in n && '/' !in n && ':' !in n && '|' !in n
  }

  /** One alternative of an enumeration: non-empty, free of `{`, `}`, `/` and `|`. */
  predicate IsValue(v: string)
  {
    v != "" && '{' !in v && '}' !in v && '/' !in v && '|' !in v
  }

  predicate IsVariable(seg: Segment)
  {
    !seg.Literal?
  }

  predicate SegmentWellFormed(seg: Segment)
  {
    match seg
    case Literal(t) => IsLiteralText(t)
    case Free(n) => IsName(n)
    case Enum(n, allowed) =>
      IsName(n) && |allowed| >= 1 && forall i :: 0 <= i < |allowed| ==> IsValue(allowed[i])
  }

  /** No two variables of the template share a name. */
  predicate DistinctNames(segs: seq<Segment>)
  {
    forall i, j :: 0 <= i < j < |segs| && IsVariable(segs[i]) && IsVariable(segs[j]) ==>
      segs[i].name != segs[j].name
  }

  /** A template that can be written down and read back. */
  predicate WellFormed(segs: seq<Segment>)
  {
    && |segs| >= 1
    && (forall i :: 0 <= i < |segs| ==> SegmentWellFormed(segs[i]))
    && DistinctNames(segs)
  }

  // ---------------------------------------------------------------- parsing

  /** Reads the inside of a `{...}` piece. */
  function ParseVariable(inner: string): Result<Segment, PatternError>
  {
    if ':' in inner then
      var k := IndexOf(inner, ':');
      var name := inner[..k];
      var allowed := Split(inner[k + 1..], '|');
      if IsName(name) && forall i :: 0 <= i < |allowed| ==> IsValue(allowed[i])
      then Ok(Enum(name, allowed))
      else Err(BadVariable(inner))
    else if IsName(inner) then Ok(Free(inner))
    else Err(BadVariable(inner))
  }

  /** Reads one `/`-free piece of a template. */
  function ParsePiece(piece: string): Result<Segment, PatternError>
  {
    if 2 <= |piece| && piece[0] == '{' && piece[|piece| - 1] == '}' then
      ParseVariable(piece[1..|piece| - 1])
    else if '{' !in piece && '}' !in piece then Ok(Literal(piece))
    else Err(UnbalancedBraces(piece))
  }

  /** Reads the pieces in order; the first bad piece decides the error. */
  function ParsePieces(pieces: seq<string>): (r: Result<seq<Segment>, PatternError>)
    ensures r.Ok? ==> |r.value| == |pieces|
    decreases |pieces|
  {
    if |pieces| == 0 then Ok([])
    else match ParsePiece(pieces[0])
      case Err(e) => Err(e)
      case Ok(seg) =>
        match ParsePieces(pieces[1..])
        case Err(e) => Err(e)
        case Ok(segs) => Ok([seg] + segs)
  }

  /** Reads a whole template: a leading `/`, then `/`-separated pieces with distinct variable names. */
  function ParsePattern(t: string): (r: Result<seq<Segment>, PatternError>)
    ensures r.Ok? ==> |t| > 0 && t[0] == '/' && DistinctNames(r.value)
    ensures (|t| == 0 || t[0] != '/') ==> r == Err(MissingLeadingSlash)
  {
    if |t| == 0 || t[0] != '/' then Err(MissingLeadingSlash)
    else match ParsePieces(Split(t[1..], '/'))
      case Err(e) => Err(e)
      case Ok(segs) => if DistinctNames(segs) then Ok(segs) else Err(DuplicateVariable)
  }

  // -------------------------------------------------------------- rendering

  function RenderSegment(seg: Segment): string
  {
    match seg
    case Literal(t) => t
    case Free(n) => "{" + n + "}"
    case Enum(n, allowed) => "{" + n + ":" + Join(allowed, '|') + "}"
  }

  function RenderPieces(segs: seq<Segment>): (pieces: seq<string>)
    ensures |pieces| == |segs|
  {
    seq(|segs|, i requires 0 <= i < |segs| => RenderSegment(segs[i]))
  }

  /** The template text of a list of segments. */
  function Render(segs: seq<Segment>): string
  {
    "/" + Join(RenderPieces(segs), '/')
  }

  // ------------------------------------------------------ parse/render laws

  lemma RenderedSegmentHasNoSlash(seg: Segment)
    requires SegmentWellFormed(seg)
    ensures '/' !in RenderSegment(seg)
  {
    if seg.Enum? {
      JoinKeepsOut(seg.allowed, '|', '/');
    }
  }

  /** Joining parts that avoid `c` with a separator other than `c` avoids `c`. */
  lemma {:induction false} JoinKeepsOut(parts: seq<string>, sep: char, c: char)
    requires sep != c
    requires forall i :: 0 <= i < |parts| ==> c !in parts[i]
    ensures c !in Join(parts, sep)
    decreases |parts|
  {
    if |parts| > 1 {
      JoinKeepsOut(parts[1..], sep, c);
    }
  }

  /** A braced piece is read by its inside. */
  lemma BracedPiece(inner: string)
    ensures ParsePiece("{" + inner + "}") == ParseVariable(inner)
  {
    var p := "{" + inner + "}";
    assert p[1..|p| - 1] == inner;
  }

  /** The first `:` after a colon-free name sits right after the name. */
  lemma ColonAfterName(n: string, body: string)
    requires ':' !in n
    ensures ':' in n + ":" + body
    ensures IndexOf(n + ":" + body, ':') == |n|
  {
    var inner := n + ":" + body;
    assert inner[|n|] == ':';
    assert forall j :: 0 <= j < |n| ==> inner[j] == n[j];
  }

  lemma EnumRoundTrip(n: string, allowed: seq<string>)
    requires SegmentWellFormed(Enum(n, allowed))
    ensures ParseVariable(n + ":" + Join(allowed, '|')) == Ok(Enum(n, allowed))
  {
    var body := Join(allowed, '|');
    var inner := n + ":" + body;
    ColonAfterName(n, body);
    assert inner[..|n|] == n;
    assert inner[|n| + 1..] == body;
    SplitJoin(allowed, '|');
  }

  lemma SegmentRoundTrip(seg: Segment)
    requires SegmentWellFormed(seg)
    ensures ParsePiece(RenderSegment(seg)) == Ok(seg)
  {
    match seg
    case Literal(t) =>
      if 2 <= |t| { assert t[0] in t; }
    case Free(n) =>
      BracedPiece(n);
    case Enum(n, allowed) =>
      BracedPiece(n + ":" + Join(allowed, '|'));
      assert "{" + (n + ":" + Join(allowed, '|')) + "}" == RenderSegment(seg);
      EnumRoundTrip(n, allowed);
  }

  lemma {:induction false} PiecesRoundTrip(segs: seq<Segment>)
    requires forall i :: 0 <= i < |segs| ==> SegmentWellFormed(segs[i])
    ensures ParsePieces(RenderPieces(segs)) == Ok(segs)
    decreases |segs|
  {
    if |segs| > 0 {
      SegmentRoundTrip(segs[0]);
      PiecesRoundTrip(segs[1..]);
      assert RenderPieces(segs)[1..] == RenderPieces(segs[1..]);
      assert [segs[0]] + segs[1..] == segs;
    }
  }

  /** Every well-formed template reads back as the segments it was written from. */
  lemma ParseRender(segs: seq<Segment>)
    requires WellFormed(segs)
    ensures ParsePattern(Render(segs)) == Ok(segs)
  {
    var pieces := RenderPieces(segs);
    forall i | 0 <= i < |pieces|
      ensures '/' !in pieces[i]
    {
      RenderedSegmentHasNoSlash(segs[i]);
    }
    var t := Render(segs);
    assert t[1..] == Join(pieces, '/');
    SplitJoin(pieces, '/');
    PiecesRoundTrip(segs);
  }

  /** What a `/`-free inside of braces reads as is well formed and renders back to it. */
  lemma VariableParsedBack(inner: string, seg: Segment)
    requires ParseVariable(inner) == Ok(seg)
    ensures SegmentWellFormed(seg) && RenderSegment(seg) == "{" + inner + "}"
  {
    if ':' in inner {
      EnumParsedBack(inner, seg);
    }
  }

  lemma EnumParsedBack(inner: string, seg: Segment)
    requires ':' in inner && ParseVariable(inner) == Ok(seg)
    ensures SegmentWellFormed(seg) && RenderSegment(seg) == "{" + inner + "}"
  {
    var k := IndexOf(inner, ':');
    var body := inner[k + 1..];
    assert seg == Enum(inner[..k], Split(body, '|'));
    JoinSplit(body, '|');
    assert inner == inner[..k] + ":" + body;
  }

  lemma PieceParsedBack(piece: string, seg: Segment)
    requires '/' !in piece
    requires ParsePiece(piece) == Ok(seg)
    ensures SegmentWellFormed(seg) && RenderSegment(seg) == piece
  {
    if 2 <= |piece| && piece[0] == '{' && piece[|piece| - 1] == '}' {
      var inner := piece[1..|piece| - 1];
      assert piece == "{" + inner + "}";
      assert ParseVariable(inner) == Ok(seg);
      VariableParsedBack(inner, seg);
    }
  }

  lemma {:induction false} PiecesParsedBack(pieces: seq<string>, segs: seq<Segment>)
    requires forall i :: 0 <= i < |pieces| ==> '/' !in pieces[i]
    requires ParsePieces(pieces) == Ok(segs)
    ensures forall i :: 0 <= i < |segs| ==> SegmentWellFormed(segs[i])
    ensures RenderPieces(segs) == pieces
    decreases |pieces|
  {
    if |pieces| > 0 {
      var seg := ParsePiece(pieces[0]).value;
      var rest := ParsePieces(pieces[1..]).value;
      assert segs == [seg] + rest;
      PieceParsedBack(pieces[0], seg);
      PiecesParsedBack(pieces[1..], rest);
      assert RenderPieces(segs) == [RenderSegment(seg)] + RenderPieces(rest);
      assert [pieces[0]] + pieces[1..] == pieces;
    }
  }

  /** Whatever parses is well formed, and writing it back gives the template text verbatim. */
  lemma RenderParse(t: string, segs: seq<Segment>)
    requires ParsePattern(t) == Ok(segs)
    ensures WellFormed(segs) && Render(segs) == t
  {
    var pieces := Split(t[1..], '/');
    var parsed := ParsePieces(pieces);
    assert parsed == Ok(segs);
    PiecesParsedBack(pieces, segs);
    JoinSplit(t[1..], '/');
    assert t == "/" + t[1..];
  }

  /** Parsing and rendering are inverse: a template reads as `segs` exactly when it is their rendering. */
  lemma ParseIffRender(t: string, segs: seq<Segment>)
    ensures ParsePattern(t) == Ok(segs) <==> WellFormed(segs) && Render(segs) == t
  {
    if ParsePattern(t) == Ok(segs) {
      RenderParse(t, segs);
    }
    if WellFormed(segs) && Render(segs) == t {
      ParseRender(segs);
    }
  }

  // --------------------------------------------------------------- matching

  /** Whether one request-path segment satisfies one template segment. */
  predicate Accepts(seg: Segment, value: string)
  {
    match seg
    case Literal(t) => value == t
    case Free(_) => value != ""
    case Enum(_, allowed) => value in allowed
  }

  /** The segments of a request path: the `/`-separated pieces after its leading `/`. */
  function PathSegments(path: string): (r: Option<seq<string>>)
    ensures r.Some? <==> |path| > 0 && path[0] == '/'
  {
    if |path| > 0 && path[0] == '/' then Some(Split(path[1..], '/')) else None
  }

  /** `vars` extended with the value a variable segment matched; literals bind nothing. */
  function Bind(seg: Segment, value: string, vars: map<string, string>): map<string, string>
  {
    if IsVariable(seg) then vars[seg.name := value] else vars
  }

  /**
   * Matches request-path segments against template segments, one for one,
   * collecting the variable bindings.  It succeeds exactly when the counts
   * agree and every segment is accepted.
   */
  function MatchSegments(segs: seq<Segment>, parts: seq<string>): (r: Option<map<string, string>>)
    ensures r.Some? <==>
      |segs| == |parts| && forall i :: 0 <= i < |segs| ==> Accepts(segs[i], parts[i])
    decreases |segs|
  {
    if |segs| != |parts| then None
    else if |segs| == 0 then Some(map[])
    else if !Accepts(segs[0], parts[0]) then None
    else match MatchSegments(segs[1..], parts[1..])
      case None => None
      case Some(vars) => Some(Bind(segs[0], parts[0], vars))
  }

  /** Matches a request path against a template. */
  function MatchPath(segs: seq<Segment>, path: string): (r: Option<map<string, string>>)
    ensures r.Some? ==> |path| > 0 && path[0] == '/' && |PathSegments(path).value| == |segs|
  {
    match PathSegments(path)
    case None => None
    case Some(parts) => MatchSegments(segs, parts)
  }

  /** The names of the template's variables. */
  function VariableNames(segs: seq<Segment>): set<string>
  {
    set i | 0 <= i < |segs| && IsVariable(segs[i]) :: segs[i].name
  }

  /**
   * A successful match binds exactly the template's variable names, each to
   * the request segment at its own position.
   */
  lemma {:induction false} MatchBindings(segs: seq<Segment>, parts: seq<string>)
    requires DistinctNames(segs)
    requires MatchSegments(segs, parts).Some?
    ensures MatchSegments(segs, parts).value.Keys == VariableNames(segs)
    ensures forall i :: 0 <= i < |segs| && IsVariable(segs[i]) ==>
      MatchSegments(segs, parts).value[segs[i].name] == parts[i]
    decreases |segs|
  {
    if |segs| > 0 {
      var tail := segs[1..];
      assert DistinctNames(tail) by {
        forall i, j | 0 <= i < j < |tail| && IsVariable(tail[i]) && IsVariable(tail[j])
          ensures tail[i].name != tail[j].name
        {
          assert tail[i] == segs[i + 1] && tail[j] == segs[j + 1];
        }
      }
      MatchBindings(tail, parts[1..]);
      var rest := MatchSegments(tail, parts[1..]).value;
      var vars := MatchSegments(segs, parts).value;
      assert vars == Bind(segs[0], parts[0], rest);
      assert VariableNames(segs) ==
        (if IsVariable(segs[0]) then {segs[0].name} else {}) + VariableNames(tail)
      by {
        forall n | n in VariableNames(segs)
          ensures n in (if IsVariable(segs[0]) then {segs[0].name} else {}) + VariableNames(tail)
        {
          var i :| 0 <= i < |segs| && IsVariable(segs[i]) && segs[i].name == n;
          if i > 0 { assert tail[i - 1] == segs[i]; }
        }
        forall n | n in VariableNames(tail) ensures n in VariableNames(segs) {
          var i :| 0 <= i < |tail| && IsVariable(tail[i]) && tail[i].name == n;
          assert segs[i + 1] == tail[i];
        }
      }
      forall i | 0 <= i < |segs| && IsVariable(segs[i])
        ensures vars[segs[i].name] == parts[i]
      {
        if i > 0 {
          assert tail[i - 1] == segs[i];
          if IsVariable(segs[0]) {
            assert segs[0].name != segs[i].name;
          }
        }
      }
    }
  }

  /** A successful match gives every enumerated variable one of its listed values. */
  lemma MatchedEnumIsAllowed(segs: seq<Segment>, parts: seq<string>, i: nat)
    requires DistinctNames(segs)
    requires MatchSegments(segs, parts).Some?
    requires i < |segs| && segs[i].Enum?
    ensures segs[i].name in MatchSegments(segs, parts).value
    ensures MatchSegments(segs, parts).value[segs[i].name] in segs[i].allowed
  {
    MatchBindings(segs, parts);
    assert Accepts(segs[i], parts[i]);
  }
}
