/** The proxy's routing table as the deploy code thinks of it: a map from host and kind of route to
    the upstream it leads to. */
module RouteMap {
  import opened Docker

  datatype Kind = Canonical | HttpSibling
  datatype RouteKey = RouteKey(host: string, kind: Kind)
  datatype Target = Target(upstream: string, port: int)

  type Routes = map<RouteKey, Target>

  /** Publishing a route; a shadowed one takes effect only where there was none. */
  function PutRoute(r: Routes, h: string, k: Kind, t: Target, o: Outcome): Routes {
    if o.Effect() || (o.Shadowed? && RouteKey(h, k) !in r) then r[RouteKey(h, k) := t] else r
  }

  /** Whether the caller is told that a route has been published. */
  predicate PutOk(o: Outcome) { o.Done? || o.Shadowed? }

  function DropRoute(r: Routes, h: string, k: Kind, o: Outcome): Routes {
    if o.Effect() then r - {RouteKey(h, k)} else r
  }

  /** The sibling half of an upsert: published when plain HTTP is allowed, dropped otherwise. */
  function PutSibling(r: Routes, h: string, force: bool, t: Target, o: Outcome): Routes {
    if !force then PutRoute(r, h, HttpSibling, t, o) else DropRoute(r, h, HttpSibling, o)
  }

  predicate SiblingOk(force: bool, o: Outcome) { if force then o.Done? else PutOk(o) }

  /** A whole upsert: bad input is refused, and a canonical route that could not be published leaves
      the sibling alone. */
  function Upserted(r: Routes, h: string, t: Target, force: bool, main: Outcome, sibling: Outcome): Routes {
    if h == "" || t.upstream == "" || !(0 < t.port <= 65535) then r
    else
      var r1 := PutRoute(r, h, Canonical, t, main);
      if PutOk(main) then PutSibling(r1, h, force, t, sibling) else r1
  }

  /** Host `h` is routed to `t`, over plain HTTP too exactly when HTTPS is not forced. */
  predicate Routed(r: Routes, h: string, t: Target, force: bool) {
    && RouteKey(h, Canonical) in r && r[RouteKey(h, Canonical)] == t
    && (RouteKey(h, HttpSibling) in r <==> !force)
    && (!force ==> r[RouteKey(h, HttpSibling)] == t)
  }

  /** Nothing but routes of `h` differ. */
  ghost predicate OnlyHost(r: Routes, r': Routes, h: string) {
    forall k: RouteKey :: k.host != h ==> (k in r' <==> k in r) && (k in r ==> r'[k] == r[k])
  }

  lemma UpsertedRoutes(r: Routes, h: string, t: Target, force: bool, main: Outcome, sibling: Outcome)
    ensures OnlyHost(r, Upserted(r, h, t, force, main, sibling), h)
    ensures h != "" && t.upstream != "" && 0 < t.port <= 65535 && main.Done? && sibling.Done? ==>
      Routed(Upserted(r, h, t, force, main, sibling), h, t, force)
  {
  }

  /** The two agree on host `h`. */
  ghost predicate SameAt(r: Routes, r': Routes, h: string) {
    forall k :: (RouteKey(h, k) in r <==> RouteKey(h, k) in r')
      && (RouteKey(h, k) in r ==> r[RouteKey(h, k)] == r'[RouteKey(h, k)])
  }

  lemma PutLocally(r: Routes, r': Routes, h: string, k: Kind, t: Target, o: Outcome)
    requires SameAt(r, r', h)
    ensures SameAt(PutRoute(r, h, k, t, o), PutRoute(r', h, k, t, o), h)
    ensures SameAt(DropRoute(r, h, k, o), DropRoute(r', h, k, o), h)
  {
    assert RouteKey(h, k) in r <==> RouteKey(h, k) in r';
  }

  /** An upsert looks only at the routes of its host. */
  lemma UpsertedLocally(r: Routes, r': Routes, h: string, t: Target, force: bool, main: Outcome, sibling: Outcome)
    requires SameAt(r, r', h)
    ensures SameAt(Upserted(r, h, t, force, main, sibling), Upserted(r', h, t, force, main, sibling), h)
  {
    hide SameAt, PutRoute, DropRoute;
    PutLocally(r, r', h, Canonical, t, main);
    PutLocally(PutRoute(r, h, Canonical, t, main), PutRoute(r', h, Canonical, t, main), h, HttpSibling, t, sibling);
  }

  lemma OnlyHostSame(r: Routes, r': Routes, h: string, other: string)
    requires OnlyHost(r, r', h) && other != h
    ensures SameAt(r, r', other)
  {
    forall k
      ensures RouteKey(other, k) in r <==> RouteKey(other, k) in r'
      ensures RouteKey(other, k) in r ==> r[RouteKey(other, k)] == r'[RouteKey(other, k)]
    {
      assert RouteKey(other, k).host != h;
    }
  }
}
