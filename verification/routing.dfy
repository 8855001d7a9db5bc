/** Route matching (`src/routing/mod.rs`): the longest configured prefix wins. */
module Routing {
  import opened Common
  import opened Configuration
  import opened Text

  predicate StartsWith(s: string, prefix: string) {
    prefix <= s
  }

  /** The filter of `match_route`. */
  predicate Matches(path: string, prefix: string) {
    path == prefix || StartsWith(path, prefix + "/")
  }

  /** The filter and `max_by_key`, which keeps the last of several maximal elements. */
  function MatchRoute(path: string, routes: seq<RouteConfig>): (found: Option<RouteConfig>)
    ensures found.Some? ==> found.value in routes && Matches(path, found.value.pathPrefix)
    ensures found.None? <==> forall r :: r in routes ==> !Matches(path, r.pathPrefix)
    ensures found.Some? ==> forall r :: r in routes && Matches(path, r.pathPrefix) ==> |r.pathPrefix| <= |found.value.pathPrefix|
  {
    if routes == [] then None
    else
      var n := |routes| - 1;
      var best := MatchRoute(path, routes[..n]);
      assert routes == routes[..n] + [routes[n]];
      if Matches(path, routes[n].pathPrefix)
         && (best.None? || |best.value.pathPrefix| <= |routes[n].pathPrefix|)
      then Some(routes[n]) else best
  }

  /** Of several matching routes of the same length the last one is chosen. */
  lemma {:induction false} LastLongestIsChosen(path: string, routes: seq<RouteConfig>, i: nat)
    requires i < |routes| && Matches(path, routes[i].pathPrefix)
    requires forall j :: 0 <= j < |routes| && Matches(path, routes[j].pathPrefix) ==> |routes[j].pathPrefix| <= |routes[i].pathPrefix|
    requires forall j :: i < j < |routes| && Matches(path, routes[j].pathPrefix) ==> |routes[j].pathPrefix| < |routes[i].pathPrefix|
    ensures MatchRoute(path, routes) == Some(routes[i])
  {
    var n := |routes| - 1;
    if i < n {
      LastLongestIsChosen(path, routes[..n], i);
    }
  }

  /** The segments of a path. */
  function Segments(s: string): (r: seq<string>)
    ensures r != []
  {
    Split(s, '/')
  }

  /** A prefix matches exactly when its segments are the first segments of the path. */
  lemma {:induction false} MatchesBySegments(path: string, prefix: string)
    ensures Matches(path, prefix) <==> Segments(prefix) <= Segments(path)
  {
    if prefix == "" {
      assert Segments(prefix) == [""];
      assert [""] <= Segments(path) <==> Segments(path)[0] == "";
      if path != "" {
        assert prefix + "/" == "/";
        assert Matches(path, prefix) <==> path[0] == '/';
        assert path[0] != '/' ==> |Segments(path)[0]| > 0;
      }
    } else if path == "" {
      assert Segments(path) == [""];
      assert |Segments(prefix)| > 1 || |Segments(prefix)[0]| > 0;
      assert |prefix + "/"| > 0;
    } else {
      var a, b := Segments(prefix[1..]), Segments(path[1..]);
      MatchesBySegments(path[1..], prefix[1..]);
      assert Matches(path, prefix) <==> path[0] == prefix[0] && Matches(path[1..], prefix[1..]) by {
        assert (prefix + "/")[1..] == prefix[1..] + "/";
        if path[0] == prefix[0] && Matches(path[1..], prefix[1..]) {
          assert path == [path[0]] + path[1..];
          assert prefix == [prefix[0]] + prefix[1..];
          if path[1..] != prefix[1..] {
            assert prefix + "/" == [prefix[0]] + (prefix[1..] + "/");
          }
        }
      }
      assert Segments(prefix) <= Segments(path) <==> path[0] == prefix[0] && a <= b by {
        HeadsAgree(path, prefix);
      }
    }
  }

  lemma HeadsAgree(path: string, prefix: string)
    requires path != "" && prefix != ""
    ensures Segments(prefix) <= Segments(path)
       <==> path[0] == prefix[0] && Segments(prefix[1..]) <= Segments(path[1..])
  {
    var a, b := Segments(prefix[1..]), Segments(path[1..]);
    var s, t := Segments(prefix), Segments(path);
    if s <= t {
      assert s[0] == t[0];
      if path[0] == '/' {
        assert t[1..] == b;
        assert s[1..] == a;
        assert s[1..] <= t[1..];
      } else {
        assert s[1..] <= t[1..];
        assert a[0] == s[0][1..] && b[0] == t[0][1..];
        assert a == [a[0]] + s[1..] && b == [b[0]] + t[1..];
      }
    }
    if path[0] == prefix[0] && a <= b {
      if path[0] != '/' {
        assert a[0] == b[0] && a[1..] <= b[1..];
      }
    }
  }

  /** All matching prefixes form a chain. */
  lemma MatchesFormChain(path: string, p: string, q: string)
    requires Matches(path, p) && Matches(path, q) && |p| <= |q|
    ensures Matches(q, p) && Segments(p) <= Segments(q)
  {
    assert p <= path && q <= path;
    if |p| < |q| {
      assert path[|p|] == (p + "/")[|p|];
      assert q[|p|] == '/';
      assert p + "/" <= q;
    }
    MatchesBySegments(q, p);
  }

  /** With unique prefixes the chosen route is the one and only with the most matching segments. */
  lemma LongestMatchIsUnique(path: string, routes: seq<RouteConfig>, r: RouteConfig)
    requires UniquePrefixes(routes) && r in routes && Matches(path, r.pathPrefix)
    requires forall o :: o in routes && o != r && Matches(path, o.pathPrefix) ==>
                           |Segments(o.pathPrefix)| <= |Segments(r.pathPrefix)|
    ensures MatchRoute(path, routes) == Some(r)
  {
    var found := MatchRoute(path, routes).value;
    if found != r {
      MatchesFormChain(path, r.pathPrefix, found.pathPrefix);
      assert Segments(r.pathPrefix) == Segments(found.pathPrefix);
      SegmentsAreInjective(r.pathPrefix, found.pathPrefix);
      SamePrefixSameRoute(routes, r, found);
    }
  }

  lemma SegmentsAreInjective(p: string, q: string)
    requires Segments(p) == Segments(q)
    ensures p == q
  {
    MatchesBySegments(p, q);
    MatchesBySegments(q, p);
  }

  lemma SamePrefixSameRoute(routes: seq<RouteConfig>, r: RouteConfig, o: RouteConfig)
    requires UniquePrefixes(routes) && r in routes && o in routes && r.pathPrefix == o.pathPrefix
    ensures r == o
  {
  }

  /** The choice does not depend on the order of the routes. */
  lemma OrderDoesNotMatter(path: string, routes: seq<RouteConfig>, reordered: seq<RouteConfig>)
    requires UniquePrefixes(routes) && multiset(routes) == multiset(reordered)
    ensures MatchRoute(path, routes) == MatchRoute(path, reordered)
  {
    assert forall r :: r in routes <==> r in multiset(routes);
    assert forall r :: r in reordered <==> r in multiset(reordered);
    var a, b := MatchRoute(path, routes), MatchRoute(path, reordered);
    if a.Some? {
      assert a.value in reordered;
      assert b.Some? && b.value in routes;
      MatchesFormChain(path, a.value.pathPrefix, b.value.pathPrefix);
      SamePrefixSameRoute(routes, a.value, b.value);
    }
  }

  /** The prefix "/" is no catch-all: its second segment is empty. */
  lemma RootIsNoCatchAll(path: string)
    ensures Matches(path, "/") <==> path == "/" || StartsWith(path, "//")
    ensures Matches(path, "/") <==> Segments("/") <= Segments(path)
  {
    MatchesBySegments(path, "/");
    assert "/" + "/" == "//";
  }
}
