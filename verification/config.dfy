/** Routes, and the two checks across routes that `src/config/mod.rs` makes before the proxy starts:
    they are what the rest of the model may assume about its configuration. */
module Configuration {
  import opened Common

  datatype Strategy = RoundRobin | FirstHealthy

  datatype RouteConfig = RouteConfig(
    pathPrefix: string,
    backends: seq<Url>,
    balancing: Strategy,
    retryOnStatuses: seq<nat>,
    passiveFailureStatuses: seq<nat>,
    healthCheckEndpoint: Option<string>)

  datatype Config = Config(routes: seq<RouteConfig>, defaultEndpoint: string)

  datatype ConfigError =
    | NoRoutes
    | PrefixWithoutSlash(prefix: string)
    | NoBackends(prefix: string)
    | DuplicatePrefix(prefix: string)
    | ConflictingEndpoints(backend: Url, previous: string, endpoint: string)

  predicate RouteOk(r: RouteConfig) {
    r.pathPrefix != "" && r.pathPrefix[0] == '/' && r.backends != []
  }

  ghost predicate UniquePrefixes(routes: seq<RouteConfig>) {
    forall i, j :: 0 <= i < j < |routes| ==> routes[i].pathPrefix != routes[j].pathPrefix
  }

  /** The endpoint on which a route has its backends checked. */
  function EndpointOf(c: Config, r: RouteConfig): string {
    match r.healthCheckEndpoint
    case Some(e) => e
    case None => c.defaultEndpoint
  }

  /** Route `i` has backend `b` checked on endpoint `e`. */
  ghost predicate Checks(c: Config, i: int, b: Url, e: string) {
    0 <= i < |c.routes| && b in c.routes[i].backends && EndpointOf(c, c.routes[i]) == e
  }

  ghost predicate SingleEndpoints(c: Config) {
    forall i, j, b, e, f :: Checks(c, i, b, e) && Checks(c, j, b, f) ==> e == f
  }

  /** The routes that share a backend have it checked on the same endpoint: their own, where they have one. */
  lemma SingleEndpointsMeans(c: Config)
    ensures SingleEndpoints(c)
       <==> forall r, s, b :: r in c.routes && s in c.routes && b in r.backends && b in s.backends ==>
              (if r.healthCheckEndpoint.Some? then r.healthCheckEndpoint.value else c.defaultEndpoint)
              == (if s.healthCheckEndpoint.Some? then s.healthCheckEndpoint.value else c.defaultEndpoint)
  {
    if SingleEndpoints(c) {
      forall r, s, b | r in c.routes && s in c.routes && b in r.backends && b in s.backends
        ensures EndpointOf(c, r) == EndpointOf(c, s)
      {
        var i :| 0 <= i < |c.routes| && c.routes[i] == r;
        var j :| 0 <= j < |c.routes| && c.routes[j] == s;
        assert Checks(c, i, b, EndpointOf(c, r)) && Checks(c, j, b, EndpointOf(c, s));
      }
    } else {
      var i, j, b, e, f :| Checks(c, i, b, e) && Checks(c, j, b, f) && e != f;
      assert c.routes[i] in c.routes && c.routes[j] in c.routes;
    }
  }

  ghost predicate ValidConfig(c: Config) {
    && c.routes != []
    && (forall i :: 0 <= i < |c.routes| ==> RouteOk(c.routes[i]))
    && UniquePrefixes(c.routes)
    && SingleEndpoints(c)
  }

  /** Accepts exactly the valid configurations, and rejects the others for a reason that holds. */
  method Validate(c: Config) returns (error: Option<ConfigError>)
    ensures error.None? <==> ValidConfig(c)
    ensures error.None? ==>
              c.routes != [] && forall r :: r in c.routes ==> "/" <= r.pathPrefix && |r.backends| > 0
    ensures error == Some(NoRoutes) <==> c.routes == []
    ensures error.Some? && error.value.PrefixWithoutSlash? ==>
              exists r :: r in c.routes && r.pathPrefix == error.value.prefix && !("/" <= r.pathPrefix)
    ensures error.Some? && error.value.NoBackends? ==>
              exists r :: r in c.routes && r.pathPrefix == error.value.prefix && |r.backends| == 0
    ensures error.Some? && error.value.DuplicatePrefix? ==>
              exists i, j :: 0 <= i < j < |c.routes|
                && c.routes[i].pathPrefix == c.routes[j].pathPrefix == error.value.prefix
    ensures error.Some? && error.value.ConflictingEndpoints? ==>
              && error.value.previous != error.value.endpoint
              && (exists i :: Checks(c, i, error.value.backend, error.value.previous))
              && (exists i :: Checks(c, i, error.value.backend, error.value.endpoint))
  {
    if c.routes == [] {
      return Some(NoRoutes);
    }
    var seenPrefixes: set<string> := {};
    for i := 0 to |c.routes|
      invariant forall k :: 0 <= k < i ==> RouteOk(c.routes[k])
      invariant UniquePrefixes(c.routes[..i])
      invariant forall p :: p in seenPrefixes <==> exists k :: 0 <= k < i && c.routes[k].pathPrefix == p
    {
      var route := c.routes[i];
      if route.pathPrefix == "" || route.pathPrefix[0] != '/' {
        return Some(PrefixWithoutSlash(route.pathPrefix));
      }
      if route.backends == [] {
        return Some(NoBackends(route.pathPrefix));
      }
      if route.pathPrefix in seenPrefixes {
        return Some(DuplicatePrefix(route.pathPrefix));
      }
      seenPrefixes := seenPrefixes + {route.pathPrefix};
      assert c.routes[..i + 1] == c.routes[..i] + [route];
    }
    assert c.routes[..|c.routes|] == c.routes;
    error := ValidateEndpoints(c);
  }

  method ValidateEndpoints(c: Config) returns (error: Option<ConfigError>)
    ensures error.None? <==> SingleEndpoints(c)
    ensures error.Some? ==>
              && error.value.ConflictingEndpoints?
              && error.value.previous != error.value.endpoint
              && (exists i :: Checks(c, i, error.value.backend, error.value.previous))
              && (exists i :: Checks(c, i, error.value.backend, error.value.endpoint))
  {
    var endpointByBackend: map<Url, string> := map[];
    for i := 0 to |c.routes|
      invariant forall b :: b in endpointByBackend ==> exists k :: Checks(c, k, b, endpointByBackend[b])
      invariant forall k, b, e :: k < i && Checks(c, k, b, e) ==> b in endpointByBackend && endpointByBackend[b] == e
    {
      var route := c.routes[i];
      var endpoint := EndpointOf(c, route);
      for j := 0 to |route.backends|
        invariant forall b :: b in endpointByBackend ==> exists k :: Checks(c, k, b, endpointByBackend[b])
        invariant forall k, b, e :: k < i && Checks(c, k, b, e) ==> b in endpointByBackend && endpointByBackend[b] == e
        invariant forall k :: 0 <= k < j ==> route.backends[k] in endpointByBackend && endpointByBackend[route.backends[k]] == endpoint
      {
        var backend := route.backends[j];
        assert Checks(c, i, backend, endpoint);
        if backend in endpointByBackend {
          var previous := endpointByBackend[backend];
          if previous != endpoint {
            return Some(ConflictingEndpoints(backend, previous, endpoint));
          }
        }
        endpointByBackend := endpointByBackend[backend := endpoint];
      }
      forall k, b, e | k <= i && Checks(c, k, b, e) ensures b in endpointByBackend && endpointByBackend[b] == e {
        if k == i {
          var n :| 0 <= n < |route.backends| && route.backends[n] == b;
        }
      }
    }
    error := None;
  }
}
