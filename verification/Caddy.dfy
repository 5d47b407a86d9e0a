/** The proxy client: it upserts and removes routes by the ids computed from the host. */
module Caddy {
  import opened Docker
  import opened RouteMap
  import opened RouteIds
  import opened RouteList

  function NamingFor(d: Digest): Naming { Naming((k: RouteKey) => IdOf(d, k), (t: Target) => Dial(t)) }

  /** For accepted host names of up to 60 characters no two routes share an id. */
  lemma ShortHostsSeparate(d: Digest, hosts: set<string>)
    requires forall h :: h in hosts ==> HostAlphabet(h) && |h| <= 60
    ensures Separate(NamingFor(d), hosts)
  {
    hide RouteId, HttpPassthroughRouteId, HostAlphabet;
    forall k: RouteKey, j: RouteKey | k.host in hosts && j.host in hosts && IdOf(d, k) == IdOf(d, j)
      ensures k == j
    {
      RouteIdClashIff(d, k.host, j.host);
      PrefixesDisjoint(d, k.host, j.host);
      PrefixesDisjoint(d, j.host, k.host);
    }
  }

  /** For such hosts, and requests of which no PATCH of an existing route fails before a POST, the
      list the client keeps is a map: every host whose last call did not fail is served exactly as
      that call asked. */
  lemma ShortHostsServed(d: Digest, hosts: set<string>, ops: seq<Op>)
    requires forall h :: h in hosts ==> HostAlphabet(h) && |h| <= 60
    requires Clean(NamingFor(d), hosts, ops)
    ensures var s := Run(NamingFor(d), ops);
      forall h :: h in s.settled ==> Serves(NamingFor(d), s.list, h, s.settled[h])
  {
    hide *;
    ShortHostsSeparate(d, hosts);
    var m := RouteListIsMap(NamingFor(d), hosts, ops);
  }

  /** How a POST ends when the server block may be missing: the base configuration is loaded once and
      the POST repeated. */
  function NetPost(ready: bool, post: Outcome, load: Outcome, again: Outcome): Outcome {
    if ready then post else if load.Done? then again else Refused
  }

  /** The requests of an upsert seen from the route list: 0 and 2 are the PATCHes or the DELETE, 1 and 3
      the POSTs, 4 the loading of the base configuration and 5 the repeated POST. */
  function Seen(ready: bool, o: nat -> Outcome): nat -> Outcome {
    (n: nat) => if n == 1 then NetPost(ready, o(1), o(4), o(5)) else o(n)
  }

  class Client {
    var ready: bool           // the server block exists
    var routes: seq<Route>
    const digest: Digest

    ghost predicate Valid()
      reads this
    {
      !ready ==> routes == []
    }

    constructor (d: Digest)
      ensures Valid() && routes == [] && !ready && digest == d
    {
      ready, routes, digest := false, [], d;
    }

    method Patch(id: string, r: Route, o: Outcome) returns (ok: bool)
      modifies this`routes
      ensures var i := Find(old(routes), id);
        && ok == (i < |old(routes)| && o.Done?)
        && routes == if i < |old(routes)| && o.Effect() then old(routes)[i := r] else old(routes)
    {
      var i := Find(routes, id);
      if i < |routes| && o.Effect() {
        routes := routes[i := r];
      }
      return i < |routes| && o.Done?;
    }

    method DeleteById(id: string, o: Outcome) returns (reply: Reply)
      modifies this`routes
      ensures (routes, reply) == Delete(old(routes), id, o)
    {
      var i := Find(routes, id);
      if i == |routes| {
        return if o.Done? then NotFound else Failed;
      }
      if o.Effect() {
        routes := routes[..i] + routes[i + 1..];
      }
      return if o.Done? then Fine else Failed;
    }

    /** On a server without its block the POST fails, and once the base configuration is loaded it is
        made again; from the list's point of view that is one POST. */
    method UpsertSingleRoute(r: Route, patch: Outcome, post: Outcome, load: Outcome, again: Outcome) returns (ok: bool)
      requires Valid()
      modifies this`ready, this`routes
      ensures Valid() && (ok ==> ready) && (old(ready) ==> ready)
      ensures (routes, ok) == UpsertSingle(old(routes), r, patch, NetPost(old(ready), post, load, again))
    {
      ok := Patch(r.id, r, patch);
      if ok {
        return;
      }
      if ready {
        if post.Effect() {
          routes := routes + [r];
        }
        return post.Done?;
      }
      if load.Effect() {
        ready, routes := true, [];
      }
      if !load.Done? {
        return false;
      }
      if again.Effect() {
        routes := routes + [r];
      }
      return again.Done?;
    }

    method UpsertRoute(host: string, upstream: string, port: int, force: bool, o: nat -> Outcome) returns (reply: Reply)
      requires Valid()
      modifies this`ready, this`routes
      ensures Valid()
      ensures (routes, reply) == Apply(NamingFor(digest), old(routes),
        Upsert(host, upstream, port, force, Seen(old(ready), o)))
    {
      hide RouteId, HttpPassthroughRouteId, Dial, UpsertSingle, Delete;
      if host == "" || upstream == "" || port <= 0 || port > 65535 {
        return BadInput;
      }
      var dial := JoinHostPort(upstream, port);
      var ok := UpsertSingleRoute(Route(RouteId(digest, host), host, false, dial), o(0), o(1), o(4), o(5));
      if !ok {
        return Failed;
      }
      if !force {
        ok := UpsertSingleRoute(Route(HttpPassthroughRouteId(digest, host), host, true, dial), o(2), o(3), o(4), o(5));
        return if ok then Fine else Failed;
      }
      reply := DeleteById(HttpPassthroughRouteId(digest, host), o(2));
      return if reply == Failed then Failed else Fine;
    }

    method RemoveRoute(host: string, o: nat -> Outcome) returns (reply: Reply)
      requires Valid()
      modifies this`routes
      ensures Valid()
      ensures (routes, reply) == Apply(NamingFor(digest), old(routes), Remove(host, o))
    {
      hide RouteId, HttpPassthroughRouteId, Dial;
      if host == "" {
        return BadInput;
      }
      reply := DeleteById(HttpPassthroughRouteId(digest, host), o(0));
      if reply == Failed {
        return;
      }
      reply := DeleteById(RouteId(digest, host), o(1));
    }
  }
}
