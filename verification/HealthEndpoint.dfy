/**
 The health endpoints of ingress: which configured endpoint answers a request, and with
 which status.
 */
module HealthEndpoint {
  import opened HealthVerdict
  import opened Wrappers

  /** A query as configured; its duration strings may or may not parse. */
  datatype Query = Query(promql: string, durationsParse: bool)

  datatype HealthConfig = HealthConfig(path: string, instantQuery: Option<Query>, rangeQuery: Option<Query>)

  datatype Endpoint = Endpoint(path: string, query: Query)

  function EnsureLeadingSlash(path: string): (r: string)
    ensures r != "" && r[0] == '/' && (r == path || r == "/" + path)
    ensures path != "" && path[0] == '/' ==> r == path
  {
    if path == "" || path[0] != '/' then "/" + path else path
  }

  /** An endpoint needs exactly one kind of query, with durations that parse. */
  function NewHealthEndpoint(c: HealthConfig): Option<Endpoint> {
    match (c.instantQuery, c.rangeQuery)
    case (Some(q), None) => if q.durationsParse then Some(Endpoint(EnsureLeadingSlash(c.path), q)) else None
    case (None, Some(q)) => if q.durationsParse then Some(Endpoint(EnsureLeadingSlash(c.path), q)) else None
    case _ => None
  }

  /** The endpoints a config list yields; the ones with errors are skipped. */
  function Built(configs: seq<HealthConfig>): seq<Endpoint> {
    if configs == [] then []
    else
      var before := Built(configs[..|configs| - 1]);
      match NewHealthEndpoint(configs[|configs| - 1])
      case Some(e) => before + [e]
      case None => before
  }

  /** Does the config have exactly one kind of query? */
  predicate OneQuery(c: HealthConfig) {
    c.instantQuery.Some? <==> c.rangeQuery.None?
  }

  function TheQuery(c: HealthConfig): Query
    requires OneQuery(c)
  {
    if c.instantQuery.Some? then c.instantQuery.value else c.rangeQuery.value
  }

  /** Does the config answer requests for the path: one query, with durations that parse, and the
      path with or without its leading slash? */
  predicate Serves(c: HealthConfig, path: string) {
    && OneQuery(c) && TheQuery(c).durationsParse
    && path != "" && path[0] == '/' && (path == c.path || (path == "/" + c.path && !("/" <= c.path)))
  }

  class Ingress {
    var healthEndpoints: seq<Endpoint>

    constructor ()
      ensures healthEndpoints == []
    {
      healthEndpoints := [];
    }

    /** On every config update the list is built anew. */
    method UpdateConfig(configs: seq<HealthConfig>)
      modifies this
      ensures healthEndpoints == Built(configs)
    {
      healthEndpoints := [];
      for i := 0 to |configs|
        invariant healthEndpoints == Built(configs[..i])
      {
        assert configs[..i + 1][..i] == configs[..i];
        var endpoint := NewHealthEndpoint(configs[i]);
        if endpoint.Some? {
          healthEndpoints := healthEndpoints + [endpoint.value];
        }
      }
      assert configs[..|configs|] == configs;
    }

    /** healthEndpointHandler: the status written, or none when no endpoint has the path. The
        verdict of a query is whatever the query engine answers. */
    method Handle(path: string, exec: Query -> QueryResult) returns (status: Option<int>)
      ensures status == Respond(healthEndpoints, path, exec)
    {
      for i := 0 to |healthEndpoints|
        invariant forall j :: 0 <= j < i ==> healthEndpoints[j].path != path
      {
        if healthEndpoints[i].path == path {
          RespondFirst(healthEndpoints, path, exec, i);
          var verdict := HandleQueryResult(exec(healthEndpoints[i].query));
          return Some(if verdict.Healthy? then OK else SERVICE_UNAVAILABLE);
        }
      }
      RespondNone(healthEndpoints, path, exec);
      return None;
    }
  }

  /** The response of the first endpoint with the path. */
  function Respond(endpoints: seq<Endpoint>, path: string, exec: Query -> QueryResult): Option<int> {
    if endpoints == [] then None
    else if endpoints[0].path == path then Some(Status(VerdictOf(exec(endpoints[0].query))))
    else Respond(endpoints[1..], path, exec)
  }

  lemma {:induction false} RespondFirst(endpoints: seq<Endpoint>, path: string, exec: Query -> QueryResult, i: nat)
    requires i < |endpoints| && endpoints[i].path == path
    requires forall j :: 0 <= j < i ==> endpoints[j].path != path
    ensures Respond(endpoints, path, exec) == Some(Status(VerdictOf(exec(endpoints[i].query))))
    decreases i
  {
    if i == 0 {
    } else {
      RespondFirst(endpoints[1..], path, exec, i - 1);
    }
  }

  lemma {:induction false} RespondNone(endpoints: seq<Endpoint>, path: string, exec: Query -> QueryResult)
    requires forall j :: 0 <= j < |endpoints| ==> endpoints[j].path != path
    ensures Respond(endpoints, path, exec) == None
    decreases |endpoints|
  {
    if endpoints == [] {
    } else {
      RespondNone(endpoints[1..], path, exec);
    }
  }

  lemma {:induction false} RespondConcat(a: seq<Endpoint>, b: seq<Endpoint>, path: string, exec: Query -> QueryResult)
    ensures Respond(a + b, path, exec)
            == if Respond(a, path, exec).Some? then Respond(a, path, exec) else Respond(b, path, exec)
    decreases |a|
  {
    if a == [] {
      assert a + b == b;
    } else {
      RespondConcat(a[1..], b, path, exec);
      assert (a + b)[1..] == a[1..] + b;
    }
  }

  lemma ServesIff(c: HealthConfig, path: string)
    ensures Serves(c, path) <==> NewHealthEndpoint(c).Some? && NewHealthEndpoint(c).value.path == path
    ensures Serves(c, path) ==> NewHealthEndpoint(c).value.query == TheQuery(c)
  {
    assert "/" <= c.path <==> c.path != "" && c.path[0] == '/';
  }

  /** For every config list and path: a request is answered from the first config, in config
      order, that is valid and has the path once normalised. It gets 200 exactly when that
      query is healthy and 503 otherwise; with no such config nothing is written. */
  lemma {:induction false} AnsweredByFirstConfig(configs: seq<HealthConfig>, path: string, exec: Query -> QueryResult)
    ensures forall k ::
              0 <= k < |configs| && Serves(configs[k], path) && (forall j :: 0 <= j < k ==> !Serves(configs[j], path))
              ==> Respond(Built(configs), path, exec)
                  == Some(if VerdictOf(exec(TheQuery(configs[k]))).Healthy? then 200 else 503)
    ensures Respond(Built(configs), path, exec).None? <==> forall j :: 0 <= j < |configs| ==> !Serves(configs[j], path)
    decreases |configs|
  {
    if configs == [] {
    } else {
      var before, last := configs[..|configs| - 1], configs[|configs| - 1];
      AnsweredByFirstConfig(before, path, exec);
      assert forall j :: 0 <= j < |before| ==> before[j] == configs[j];
      ServesIff(last, path);
      if NewHealthEndpoint(last).Some? {
        RespondConcat(Built(before), [NewHealthEndpoint(last).value], path, exec);
      }
    }
  }
}
