/** The request router: routes registered in order, paths matched segment
    by segment with `:name` placeholders, and errors turned into
    responses. */
module Routing {
  import opened Wrappers
  import opened Text
  import opened Errors

  /** Names the handler a route was registered with; what a handler does
      is given to `Handle` as a function of this name and the bindings. */
  type HandlerId = nat

  datatype Route = Route(verb: string, path: string, segments: seq<string>, handler: HandlerId)

  /** A response body: whatever a handler wrote, or an error object. */
  datatype Body = Payload(json: string) | ErrorJson(error: ErrorBody)

  datatype RouteResponse = RouteResponse(statusCode: int, body: Body)

  /** How a handler finished: with a response, an `AppError`, or any other
      error. */
  datatype Outcome = Returned(response: RouteResponse) | ThrewApp(err: AppError) | ThrewOther

  const INTERNAL_ERROR: string := "Internal server error"

  /** The `catch` clause: an `AppError` becomes its status and error body,
      anything else a 500 with a fixed message and no code. */
  function Respond(outcome: Outcome): (r: RouteResponse)
    ensures outcome.Returned? ==> r == outcome.response
    ensures outcome.ThrewApp? ==>
      r.statusCode == outcome.err.statusCode && r.body.ErrorJson? &&
      r.body.error.error == outcome.err.message &&
      (r.body.error.code.Some? <==> outcome.err.code.Some? && outcome.err.code.value != "")
    ensures outcome.ThrewOther? ==> r == RouteResponse(500, ErrorJson(ErrorBody(INTERNAL_ERROR, None)))
  {
    match outcome
    case Returned(response) => response
    case ThrewApp(err) => RouteResponse(err.statusCode, ErrorJson(ToErrorBody(err)))
    case ThrewOther => RouteResponse(500, ErrorJson(ErrorBody(INTERNAL_ERROR, None)))
  }

  // ------------------------------------------------------------ matching

  predicate IsParam(segment: string) {
    |segment| > 0 && segment[0] == ':'
  }

  function ParamName(segment: string): string
    requires IsParam(segment)
  {
    segment[1..]
  }

  /** The bindings of the first `n` segments, a later placeholder of the
      same name overwriting an earlier one. */
  function Bindings(routeSegments: seq<string>, pathSegments: seq<string>, n: nat): map<string, string>
    requires n <= |routeSegments| == |pathSegments|
  {
    if n == 0 then map[]
    else
      var earlier := Bindings(routeSegments, pathSegments, n - 1);
      if IsParam(routeSegments[n - 1]) then earlier[ParamName(routeSegments[n - 1]) := pathSegments[n - 1]]
      else earlier
  }

  predicate LiteralMismatch(routeSegments: seq<string>, pathSegments: seq<string>) {
    exists i :: 0 <= i < |routeSegments| && i < |pathSegments| &&
      !IsParam(routeSegments[i]) && routeSegments[i] != pathSegments[i]
  }

  /** What `matchRoute` computes: nothing when the segment counts differ or
      a literal segment differs, otherwise the placeholder bindings. */
  function RouteMatch(routeSegments: seq<string>, pathSegments: seq<string>): Option<map<string, string>> {
    if |routeSegments| != |pathSegments| || LiteralMismatch(routeSegments, pathSegments) then None
    else Some(Bindings(routeSegments, pathSegments, |routeSegments|))
  }

  /** The names bound are those of the placeholders, and each is bound to
      the path segment under its last occurrence. */
  lemma {:induction false} BindingsSpec(routeSegments: seq<string>, pathSegments: seq<string>, n: nat)
    requires n <= |routeSegments| == |pathSegments|
    ensures forall k :: k in Bindings(routeSegments, pathSegments, n) <==>
      exists i :: 0 <= i < n && IsParam(routeSegments[i]) && ParamName(routeSegments[i]) == k
    ensures forall i ::
      (0 <= i < n && IsParam(routeSegments[i]) &&
       forall j :: i < j < n && IsParam(routeSegments[j]) ==> ParamName(routeSegments[j]) != ParamName(routeSegments[i])) ==>
      Bindings(routeSegments, pathSegments, n)[ParamName(routeSegments[i])] == pathSegments[i]
  {
    if n > 0 {
      BindingsSpec(routeSegments, pathSegments, n - 1);
    }
  }

  /** `matchRoute`. */
  method MatchRoute(routeSegments: seq<string>, pathSegments: seq<string>) returns (r: Option<map<string, string>>)
    ensures r == RouteMatch(routeSegments, pathSegments)
  {
    if |routeSegments| != |pathSegments| {
      return None;
    }
    var params: map<string, string> := map[];
    for i := 0 to |routeSegments|
      invariant params == Bindings(routeSegments, pathSegments, i)
      invariant forall j :: 0 <= j < i ==> IsParam(routeSegments[j]) || routeSegments[j] == pathSegments[j]
    {
      var segment := routeSegments[i];
      if IsParam(segment) {
        params := params[ParamName(segment) := pathSegments[i]];
      } else if segment != pathSegments[i] {
        return None;
      }
    }
    return Some(params);
  }

  /** A path matches a route exactly when it has as many segments and
      agrees on every literal one; then every placeholder is bound, to the
      path segment under its last occurrence, and nothing else is. */
  lemma RouteMatchSpec(routeSegments: seq<string>, pathSegments: seq<string>)
    ensures RouteMatch(routeSegments, pathSegments).Some? <==>
      |routeSegments| == |pathSegments| &&
      forall i :: 0 <= i < |routeSegments| && !IsParam(routeSegments[i]) ==> routeSegments[i] == pathSegments[i]
    ensures RouteMatch(routeSegments, pathSegments).Some? ==>
      var params := RouteMatch(routeSegments, pathSegments).value;
      (forall k :: k in params <==>
        exists i :: 0 <= i < |routeSegments| && IsParam(routeSegments[i]) && ParamName(routeSegments[i]) == k) &&
      (forall i ::
        (0 <= i < |routeSegments| && IsParam(routeSegments[i]) &&
         forall j :: i < j < |routeSegments| && IsParam(routeSegments[j]) ==>
           ParamName(routeSegments[j]) != ParamName(routeSegments[i])) ==>
        params[ParamName(routeSegments[i])] == pathSegments[i])
  {
    if |routeSegments| == |pathSegments| {
      BindingsSpec(routeSegments, pathSegments, |routeSegments|);
    }
  }

  // ---------------------------------------------------------- dispatch

  /** A route whose path matched, with its bindings. */
  datatype Candidate = Candidate(route: Route, params: map<string, string>)

  /** The routes whose path matches, in registration order. */
  function Matched(routes: seq<Route>, pathSegments: seq<string>): (r: seq<Candidate>)
    ensures |r| == 0 <==> forall k :: 0 <= k < |routes| ==> RouteMatch(routes[k].segments, pathSegments).None?
  {
    if routes == [] then []
    else
      var last := routes[|routes| - 1];
      var earlier := Matched(routes[..|routes| - 1], pathSegments);
      assert forall k :: 0 <= k < |routes| - 1 ==> routes[..|routes| - 1][k] == routes[k];
      var m := RouteMatch(last.segments, pathSegments);
      if m.Some? then earlier + [Candidate(last, m.value)] else earlier
  }

  /** `matchingRoutes.find`: the first candidate registered for the method. */
  function FindMethod(candidates: seq<Candidate>, verb: string): Option<Candidate> {
    if candidates == [] then None
    else if candidates[0].route.verb == verb then Some(candidates[0])
    else FindMethod(candidates[1..], verb)
  }

  lemma {:induction false} FindMethodAppend(a: seq<Candidate>, b: seq<Candidate>, verb: string)
    ensures FindMethod(a + b, verb) == if FindMethod(a, verb).Some? then FindMethod(a, verb) else FindMethod(b, verb)
  {
    if a == [] {
      assert a + b == b;
    } else {
      assert (a + b)[0] == a[0];
      assert (a + b)[1..] == a[1..] + b;
      FindMethodAppend(a[1..], b, verb);
    }
  }

  /** The earliest-registered route for the method whose path matches. */
  function EarliestRoute(routes: seq<Route>, verb: string, pathSegments: seq<string>): (r: Option<nat>)
    ensures r.Some? ==>
      r.value < |routes| && routes[r.value].verb == verb &&
      RouteMatch(routes[r.value].segments, pathSegments).Some? &&
      forall j :: 0 <= j < r.value ==>
        routes[j].verb != verb || RouteMatch(routes[j].segments, pathSegments).None?
    ensures r.None? ==>
      forall j :: 0 <= j < |routes| ==>
        routes[j].verb != verb || RouteMatch(routes[j].segments, pathSegments).None?
  {
    if routes == [] then None
    else
      var n := |routes| - 1;
      var earlier := EarliestRoute(routes[..n], verb, pathSegments);
      assert forall k :: 0 <= k < n ==> routes[..n][k] == routes[k];
      if earlier.Some? then earlier
      else if routes[n].verb == verb && RouteMatch(routes[n].segments, pathSegments).Some? then Some(n)
      else None
  }

  /** Finding the method among the matched routes picks the earliest route
      for that method whose path matches. */
  lemma {:induction false} FindMethodEarliest(routes: seq<Route>, verb: string, pathSegments: seq<string>)
    ensures var e := EarliestRoute(routes, verb, pathSegments);
      FindMethod(Matched(routes, pathSegments), verb) ==
        if e.Some? then Some(Candidate(routes[e.value], RouteMatch(routes[e.value].segments, pathSegments).value))
        else None
  {
    if routes != [] {
      var n := |routes| - 1;
      FindMethodEarliest(routes[..n], verb, pathSegments);
      var m := RouteMatch(routes[n].segments, pathSegments);
      if m.Some? {
        FindMethodAppend(Matched(routes[..n], pathSegments), [Candidate(routes[n], m.value)], verb);
      }
      var e := EarliestRoute(routes[..n], verb, pathSegments);
      if e.Some? {
        assert routes[..n][e.value] == routes[e.value];
      }
    }
  }

  // ------------------------------------------------------------- router

  class Router {
    var routes: seq<Route>

    constructor()
      ensures routes == []
    {
      routes := [];
    }

    /** Registers one route; earlier routes stay as they were. */
    method Add(verb: string, path: string, handler: HandlerId)
      modifies this
      ensures routes == old(routes) + [Route(verb, path, Split(path, '/'), handler)]
    {
      routes := routes + [Route(verb, path, Split(path, '/'), handler)];
    }

    /** `get`. */
    method Get(path: string, handler: HandlerId)
      modifies this
      ensures routes == old(routes) + [Route("GET", path, Split(path, '/'), handler)]
    {
      Add("GET", path, handler);
    }

    /** `post`. */
    method Post(path: string, handler: HandlerId)
      modifies this
      ensures routes == old(routes) + [Route("POST", path, Split(path, '/'), handler)]
    {
      Add("POST", path, handler);
    }

    /** `patch`. */
    method Patch(path: string, handler: HandlerId)
      modifies this
      ensures routes == old(routes) + [Route("PATCH", path, Split(path, '/'), handler)]
    {
      Add("PATCH", path, handler);
    }

    /** `delete`. */
    method Delete(path: string, handler: HandlerId)
      modifies this
      ensures routes == old(routes) + [Route("DELETE", path, Split(path, '/'), handler)]
    {
      Add("DELETE", path, handler);
    }

    /** `handle`: 404 when no route's path matches, 405 when some do but
        none for the method, otherwise the earliest-registered route for the
        method runs with its bindings and its outcome becomes the response. */
    method Handle(verb: string, path: string, invoke: (HandlerId, map<string, string>) -> Outcome)
      returns (resp: RouteResponse)
      ensures (forall k :: 0 <= k < |routes| ==> RouteMatch(routes[k].segments, Split(path, '/')).None?) ==>
        resp == RouteResponse(404, ErrorJson(ErrorBody(NOT_FOUND_MESSAGE, Some("NOT_FOUND"))))
      ensures (exists k :: 0 <= k < |routes| && RouteMatch(routes[k].segments, Split(path, '/')).Some?) &&
              (forall k :: 0 <= k < |routes| && RouteMatch(routes[k].segments, Split(path, '/')).Some? ==>
                routes[k].verb != verb) ==>
        resp == RouteResponse(405, ErrorJson(ErrorBody("Method not allowed", Some("METHOD_NOT_ALLOWED"))))
      ensures forall k ::
        (0 <= k < |routes| && routes[k].verb == verb &&
         RouteMatch(routes[k].segments, Split(path, '/')).Some? &&
         forall j :: 0 <= j < k ==> routes[j].verb != verb || RouteMatch(routes[j].segments, Split(path, '/')).None?) ==>
        resp == Respond(invoke(routes[k].handler, RouteMatch(routes[k].segments, Split(path, '/')).value))
    {
      var pathSegments := Split(path, '/');
      var matching: seq<Candidate> := [];
      for i := 0 to |routes|
        invariant matching == Matched(routes[..i], pathSegments)
      {
        var params := MatchRoute(routes[i].segments, pathSegments);
        assert routes[..i + 1][..i] == routes[..i];
        if params.Some? {
          matching := matching + [Candidate(routes[i], params.value)];
        }
      }
      assert routes[..|routes|] == routes;
      if |matching| == 0 {
        return Respond(ThrewApp(NotFound(NOT_FOUND_MESSAGE)));
      }
      var found := FindMethod(matching, verb);
      FindMethodEarliest(routes, verb, pathSegments);
      if found.None? {
        return Respond(ThrewApp(MethodNotAllowed()));
      }
      resp := Respond(invoke(found.value.route.handler, found.value.params));
    }
  }
}
