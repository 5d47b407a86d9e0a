/** The proxy's route list, and when it behaves as a map from host to target. */
module RouteList {
  import opened Wrappers
  import opened Docker
  import opened RouteMap

  // ---------------------------------------------------------------------------
  // The route list
  // ---------------------------------------------------------------------------

  /** How routes are named and addressed. */
  datatype Naming = Naming(id: RouteKey -> string, dial: Target -> string)

  datatype Route = Route(id: string, host: string, httpOnly: bool, dial: string)
  {
    function Key(): RouteKey { RouteKey(host, if httpOnly then HttpSibling else Canonical) }
  }

  function MakeRoute(nm: Naming, k: RouteKey, t: Target): Route {
    Route(nm.id(k), k.host, k.kind.HttpSibling?, nm.dial(t))
  }

  /** Position of the first route with an id, or the length. */
  function Find(l: seq<Route>, id: string): (i: nat)
    ensures i <= |l| && (i < |l| ==> l[i].id == id) && forall j :: 0 <= j < i ==> l[j].id != id
  {
    if l == [] || l[0].id == id then 0 else 1 + Find(l[1..], id)
  }

  /** upsertSingleRoute: PATCH by id, and on any error POST to the end of the list. */
  function UpsertSingle(l: seq<Route>, r: Route, patch: Outcome, post: Outcome): (seq<Route>, bool) {
    var i := Find(l, r.id);
    if i < |l| && patch.Done? then (l[i := r], true)
    else
      var l1 := if i < |l| && patch.Effect() then l[i := r] else l;
      (if post.Effect() then l1 + [r] else l1, post.Done?)
  }

  datatype Reply = Fine | BadInput | NotFound | Failed

  function Delete(l: seq<Route>, id: string, o: Outcome): (seq<Route>, Reply) {
    var i := Find(l, id);
    if i < |l| then (if o.Effect() then l[..i] + l[i + 1..] else l, if o.Done? then Fine else Failed)
    else (l, if o.Done? then NotFound else Failed)
  }

  /** A call of the client, with how its up to four requests end. */
  datatype Op =
    | Upsert(host: string, upstream: string, port: int, force: bool, o: nat -> Outcome)
    | Remove(host: string, o: nat -> Outcome)
  {
    predicate Accepted() { host != "" && (Upsert? ==> upstream != "" && 0 < port <= 65535) }
  }

  function Apply(nm: Naming, l: seq<Route>, op: Op): (seq<Route>, Reply) {
    if !op.Accepted() then (l, BadInput)
    else
      var c, s := RouteKey(op.host, Canonical), RouteKey(op.host, HttpSibling);
      match op
      case Upsert(_, upstream, port, force, o) =>
        var t := Target(upstream, port);
        var (l1, ok) := UpsertSingle(l, MakeRoute(nm, c, t), o(0), o(1));
        if !ok then (l1, Failed)
        else if !force then
          var (l2, ok2) := UpsertSingle(l1, MakeRoute(nm, s, t), o(2), o(3));
          (l2, if ok2 then Fine else Failed)
        else
          var (l2, reply) := Delete(l1, nm.id(s), o(2));
          (l2, if reply.Failed? then Failed else Fine)
      case Remove(_, o) =>
        var (l1, reply) := Delete(l, nm.id(s), o(0));
        if reply.Failed? then (l1, Failed) else Delete(l1, nm.id(c), o(1))
  }

  // ---------------------------------------------------------------------------
  // The list as a map
  // ---------------------------------------------------------------------------

  /** No two routes of these hosts share an id. */
  ghost predicate Separate(nm: Naming, hosts: set<string>) {
    forall k: RouteKey, j: RouteKey :: k.host in hosts && j.host in hosts && nm.id(k) == nm.id(j) ==> k == j
  }

  /** Every route is one of ours, for one of these hosts. */
  ghost predicate Managed(nm: Naming, hosts: set<string>, l: seq<Route>) {
    forall i :: 0 <= i < |l| ==> l[i].host in hosts && l[i].id == nm.id(l[i].Key())
  }

  ghost predicate Has(l: seq<Route>, k: RouteKey) {
    exists i :: 0 <= i < |l| && l[i].Key() == k
  }

  /** The list holds exactly one route for each entry of the map, leading where the map says. */
  ghost predicate Represents(nm: Naming, hosts: set<string>, l: seq<Route>, m: Routes) {
    && Managed(nm, hosts, l)
    && (forall i, j :: 0 <= i < j < |l| ==> l[i].Key() != l[j].Key())
    && (forall i :: 0 <= i < |l| ==> l[i].Key() in m && l[i].dial == nm.dial(m[l[i].Key()]))
    && (forall k :: k in m ==> Has(l, k))
  }

  lemma HasIffInMap(nm: Naming, hosts: set<string>, l: seq<Route>, m: Routes, k: RouteKey)
    requires Represents(nm, hosts, l, m)
    ensures k in m <==> Has(l, k)
  {
  }

  lemma ManagedOf(nm: Naming, hosts: set<string>, l: seq<Route>, m: Routes)
    requires Represents(nm, hosts, l, m)
    ensures Managed(nm, hosts, l)
  {
  }

  lemma TwiceIsNoMap(nm: Naming, hosts: set<string>, l: seq<Route>, i: nat, j: nat)
    requires i < j < |l| && l[i].Key() == l[j].Key()
    ensures forall m :: !Represents(nm, hosts, l, m)
  {
  }

  lemma FindKey(nm: Naming, hosts: set<string>, l: seq<Route>, k: RouteKey)
    requires Separate(nm, hosts) && Managed(nm, hosts, l) && k.host in hosts
    ensures var i := Find(l, nm.id(k)); (i < |l| <==> Has(l, k)) && (i < |l| ==> l[i].Key() == k)
  {
    hide Find;
    var i := Find(l, nm.id(k));
    assert Has(l, k) ==> i < |l|;
  }

  lemma ReplacedRepresents(nm: Naming, hosts: set<string>, l: seq<Route>, m: Routes, k: RouteKey, t: Target, i: nat)
    requires Represents(nm, hosts, l, m) && i < |l| && l[i].Key() == k
    ensures Represents(nm, hosts, l[i := MakeRoute(nm, k, t)], m[k := t])
  {
    var l', m' := l[i := MakeRoute(nm, k, t)], m[k := t];
    assert l'[i].Key() == k;
    forall j | j in m' ensures Has(l', j) {
      assert Has(l, j);
      var n :| 0 <= n < |l| && l[n].Key() == j;
      assert l'[n].Key() == j;
    }
  }

  lemma AppendedRepresents(nm: Naming, hosts: set<string>, l: seq<Route>, m: Routes, k: RouteKey, t: Target)
    requires Represents(nm, hosts, l, m) && k.host in hosts && !Has(l, k)
    ensures Represents(nm, hosts, l + [MakeRoute(nm, k, t)], m[k := t])
  {
    var l', m' := l + [MakeRoute(nm, k, t)], m[k := t];
    assert l'[|l|].Key() == k;
    forall j | j in m' ensures Has(l', j) {
      if j != k {
        assert Has(l, j);
        var n :| 0 <= n < |l| && l[n].Key() == j;
        assert l'[n].Key() == j;
      }
    }
  }

  lemma CutAt<T>(l: seq<T>, i: nat, l': seq<T>)
    requires i < |l| && l' == l[..i] + l[i + 1..]
    ensures |l'| == |l| - 1 && forall n :: 0 <= n < |l'| ==> l'[n] == l[if n < i then n else n + 1]
  {
  }

  lemma HasAfterCut(l: seq<Route>, i: nat, k: RouteKey)
    requires i < |l| && l[i].Key() != k && Has(l, k)
    ensures Has(l[..i] + l[i + 1..], k)
  {
    var l' := l[..i] + l[i + 1..];
    var n :| 0 <= n < |l| && l[n].Key() == k;
    assert l'[if n < i then n else n - 1].Key() == k;
  }

  lemma RemovedRepresents(nm: Naming, hosts: set<string>, l: seq<Route>, m: Routes, k: RouteKey, i: nat)
    requires Represents(nm, hosts, l, m) && i < |l| && l[i].Key() == k
    ensures Represents(nm, hosts, l[..i] + l[i + 1..], m - {k})
  {
    hide Has;
    var l', m' := l[..i] + l[i + 1..], m - {k};
    forall j | j in m' ensures Has(l', j) {
      HasAfterCut(l, i, j);
    }
    CutAt(l, i, l');
    StillListed(nm, l, m, l', k, i);
  }

  lemma StillListed(nm: Naming, l: seq<Route>, m: Routes, l': seq<Route>, k: RouteKey, i: nat)
    requires i < |l| && l[i].Key() == k && |l'| == |l| - 1
    requires forall n :: 0 <= n < |l'| ==> l'[n] == l[if n < i then n else n + 1]
    requires forall p, q :: 0 <= p < q < |l| ==> l[p].Key() != l[q].Key()
    requires forall n :: 0 <= n < |l| ==> l[n].Key() in m && l[n].dial == nm.dial(m[l[n].Key()])
    ensures forall p, q :: 0 <= p < q < |l'| ==> l'[p].Key() != l'[q].Key()
    ensures forall n :: 0 <= n < |l'| ==> l'[n].Key() in m - {k} && l'[n].dial == nm.dial((m - {k})[l'[n].Key()])
  {
    forall n | 0 <= n < |l'| ensures l'[n].Key() in m - {k} && l'[n].dial == nm.dial((m - {k})[l'[n].Key()]) {
      assert l'[n].Key() != k;
    }
  }

  /** How an upsert of one route ends, seen from the map: a PATCH that fails is followed by a POST whose
      success is reported, though a route that was there stays in force before the new one. */
  function Net(found: bool, patch: Outcome, post: Outcome): Outcome {
    var moved := if found then patch.Effect() else post.Effect();
    if (found && patch.Done?) || post.Done? then if moved then Done else Shadowed
    else if moved then Lost
    else Refused
  }

  /** A failed PATCH of an existing route is not followed by a POST that takes effect. */
  predicate NoShadow(found: bool, patch: Outcome, post: Outcome) { found ==> patch.Done? || !post.Effect() }

  /** Upserting one route keeps the list a map exactly when no POST follows the failed PATCH of an
      existing route, and then it is the map's own update. */
  lemma UpsertSingleRefines(nm: Naming, hosts: set<string>, l: seq<Route>, m: Routes, k: RouteKey, t: Target,
                            patch: Outcome, post: Outcome)
    requires Separate(nm, hosts) && Represents(nm, hosts, l, m) && k.host in hosts
    ensures var (l', ok) := UpsertSingle(l, MakeRoute(nm, k, t), patch, post);
      if NoShadow(k in m, patch, post)
      then Represents(nm, hosts, l', PutRoute(m, k.host, k.kind, t, Net(k in m, patch, post)))
        && ok == Net(k in m, patch, post).Done? && !Net(k in m, patch, post).Shadowed?
      else forall m' :: !Represents(nm, hosts, l', m')
  {
    hide Represents, Separate, Find;
    FindKey(nm, hosts, l, k) by { ManagedOf(nm, hosts, l, m); }
    var r, i := MakeRoute(nm, k, t), Find(l, nm.id(k));
    HasIffInMap(nm, hosts, l, m, k);
    if i < |l| {
      ReplacedRepresents(nm, hosts, l, m, k, t, i);
      if !NoShadow(true, patch, post) {
        var l' := UpsertSingle(l, r, patch, post).0;
        assert l'[i].Key() == k && l'[|l|].Key() == k;
        TwiceIsNoMap(nm, hosts, l', i, |l|);
      }
    } else {
      AppendedRepresents(nm, hosts, l, m, k, t);
    }
  }

  lemma DeleteRefines(nm: Naming, hosts: set<string>, l: seq<Route>, m: Routes, k: RouteKey, o: Outcome)
    requires Separate(nm, hosts) && Represents(nm, hosts, l, m) && k.host in hosts
    ensures var (l', reply) := Delete(l, nm.id(k), o);
      && Represents(nm, hosts, l', DropRoute(m, k.host, k.kind, o))
      && reply == if !o.Done? then Failed else if k in m then Fine else NotFound
  {
    hide Represents, Separate, Find;
    FindKey(nm, hosts, l, k) by { ManagedOf(nm, hosts, l, m); }
    HasIffInMap(nm, hosts, l, m, k);
    var i := Find(l, nm.id(k));
    if i < |l| {
      RemovedRepresents(nm, hosts, l, m, k, i);
    } else {
      assert m - {k} == m;
    }
  }

  /** The same call on the map. */
  function ApplyMap(m: Routes, op: Op): (Routes, Reply) {
    if !op.Accepted() then (m, BadInput)
    else
      var c, s := RouteKey(op.host, Canonical), RouteKey(op.host, HttpSibling);
      match op
      case Upsert(h, upstream, port, force, o) =>
        var t, n1 := Target(upstream, port), Net(c in m, o(0), o(1));
        var m1 := PutRoute(m, h, Canonical, t, n1);
        var n2 := if force then o(2) else Net(s in m1, o(2), o(3));
        if !PutOk(n1) then (m1, Failed)
        else (PutSibling(m1, h, force, t, n2), if SiblingOk(force, n2) then Fine else Failed)
      case Remove(h, o) =>
        var m1 := DropRoute(m, h, HttpSibling, o(0));
        if !o(0).Done? then (m1, Failed)
        else (DropRoute(m1, h, Canonical, o(1)), if !o(1).Done? then Failed else if c in m1 then Fine else NotFound)
  }

  /** Neither upsert inside the call appends beside a route it could not patch. */
  ghost predicate Unshadowed(l: seq<Route>, op: Op) {
    op.Upsert? ==>
      && NoShadow(Has(l, RouteKey(op.host, Canonical)), op.o(0), op.o(1))
      && NoShadow(!op.force && Has(l, RouteKey(op.host, HttpSibling)), op.o(2), op.o(3))
  }

  predicate UnshadowedMap(m: Routes, op: Op) {
    op.Upsert? ==>
      && NoShadow(RouteKey(op.host, Canonical) in m, op.o(0), op.o(1))
      && NoShadow(!op.force && RouteKey(op.host, HttpSibling) in m, op.o(2), op.o(3))
  }

  lemma UnshadowedInMap(nm: Naming, hosts: set<string>, l: seq<Route>, m: Routes, op: Op)
    requires Represents(nm, hosts, l, m)
    ensures Unshadowed(l, op) <==> UnshadowedMap(m, op)
  {
    HasIffInMap(nm, hosts, l, m, RouteKey(op.host, Canonical));
    HasIffInMap(nm, hosts, l, m, RouteKey(op.host, HttpSibling));
  }

  lemma ApplyRefines(nm: Naming, hosts: set<string>, l: seq<Route>, m: Routes, op: Op)
    requires Separate(nm, hosts) && Represents(nm, hosts, l, m) && op.host in hosts && Unshadowed(l, op)
    ensures Represents(nm, hosts, Apply(nm, l, op).0, ApplyMap(m, op).0)
    ensures Apply(nm, l, op).1 == ApplyMap(m, op).1
  {
    hide Separate, Represents, UpsertSingle, Delete, MakeRoute, Has;
    var c, s := RouteKey(op.host, Canonical), RouteKey(op.host, HttpSibling);
    HasIffInMap(nm, hosts, l, m, c);
    HasIffInMap(nm, hosts, l, m, s);
    if op.Accepted() {
      match op
      case Upsert(h, upstream, port, force, o) =>
        var t := Target(upstream, port);
        UpsertSingleRefines(nm, hosts, l, m, c, t, o(0), o(1));
        var l1, m1 := UpsertSingle(l, MakeRoute(nm, c, t), o(0), o(1)).0,
          PutRoute(m, h, Canonical, t, Net(c in m, o(0), o(1)));
        assert s in m1 <==> s in m;
        if force {
          DeleteRefines(nm, hosts, l1, m1, s, o(2));
        } else {
          UpsertSingleRefines(nm, hosts, l1, m1, s, t, o(2), o(3));
        }
      case Remove(h, o) =>
        DeleteRefines(nm, hosts, l, m, s, o(0));
        DeleteRefines(nm, hosts, Delete(l, nm.id(s), o(0)).0, DropRoute(m, h, HttpSibling, o(0)), c, o(1));
    }
  }

  /** The reply `op` has to get when its host has a canonical route, a plain-HTTP one, or not. */
  predicate Replied(op: Op, canonical: bool, sibling: bool, reply: Reply) {
    match op
    case Upsert(h, upstream, port, force, o) =>
      && reply != NotFound
      && (reply == BadInput <==> h == "" || upstream == "" || port < 1 || port > 65535)
      && (reply == Fine <==>
          && reply != BadInput
          && (o(1).Done? || (canonical && o(0).Done?))
          && (if force then o(2).Done? else o(3).Done? || (sibling && o(2).Done?)))
    case Remove(h, o) =>
      && (reply == BadInput <==> h == "")
      && (reply == Fine <==> h != "" && o(0).Done? && o(1).Done? && canonical)
      && (reply == NotFound <==> h != "" && o(0).Done? && o(1).Done? && !canonical)
  }

  /** The exact reply to each call, and which routes of its host a call that went through leaves. */
  lemma RepliesIff(nm: Naming, hosts: set<string>, l: seq<Route>, m: Routes, op: Op)
    requires Separate(nm, hosts) && Represents(nm, hosts, l, m) && op.host in hosts && Unshadowed(l, op)
    ensures var (l', reply) := Apply(nm, l, op);
      var c, s := RouteKey(op.host, Canonical), RouteKey(op.host, HttpSibling);
      && Replied(op, Has(l, c), Has(l, s), reply)
      && (reply == BadInput ==> l' == l)
      && (reply == Fine || reply == NotFound ==>
          (Has(l', c) <==> op.Upsert?) && (Has(l', s) <==> op.Upsert? && !op.force))
  {
    hide Represents, Separate, Apply, Has, ApplyMap, Replied, UnshadowedMap, Unshadowed;
    ApplyRefines(nm, hosts, l, m, op);
    var l', m' := Apply(nm, l, op).0, ApplyMap(m, op).0;
    UnshadowedInMap(nm, hosts, l, m, op);
    MapReplies(m, op);
    HasIffInMap(nm, hosts, l, m, RouteKey(op.host, Canonical));
    HasIffInMap(nm, hosts, l, m, RouteKey(op.host, HttpSibling));
    HasIffInMap(nm, hosts, l', m', RouteKey(op.host, Canonical));
    HasIffInMap(nm, hosts, l', m', RouteKey(op.host, HttpSibling));
    RefusedUntouched(nm, l, op);
  }

  lemma MapReplies(m: Routes, op: Op)
    requires UnshadowedMap(m, op)
    ensures var (m', reply) := ApplyMap(m, op);
      var c, s := RouteKey(op.host, Canonical), RouteKey(op.host, HttpSibling);
      && Replied(op, c in m, s in m, reply)
      && (reply == Fine || reply == NotFound ==>
          (c in m' <==> op.Upsert?) && (s in m' <==> op.Upsert? && !op.force))
  {
  }

  lemma RefusedUntouched(nm: Naming, l: seq<Route>, op: Op)
    ensures Apply(nm, l, op).1 == BadInput ==> Apply(nm, l, op).0 == l
  {
    hide UpsertSingle;
  }

  // ---------------------------------------------------------------------------
  // Shadowed routes
  // ---------------------------------------------------------------------------

  /** The map of the routes in force: of several with one id the first. */
  ghost predicate Leads(nm: Naming, hosts: set<string>, l: seq<Route>, m: Routes) {
    && Managed(nm, hosts, l)
    && (forall k :: k in m ==> k.host in hosts)
    && forall k: RouteKey :: k.host in hosts ==> LeadsAt(nm, l, m, k)
  }

  predicate LeadsAt(nm: Naming, l: seq<Route>, m: Routes, k: RouteKey) {
    var i := Find(l, nm.id(k));
    (k in m <==> i < |l|) && (i < |l| ==> l[i].dial == nm.dial(m[k]))
  }

  lemma RepresentsLeads(nm: Naming, hosts: set<string>, l: seq<Route>, m: Routes)
    requires Separate(nm, hosts) && Represents(nm, hosts, l, m)
    ensures Leads(nm, hosts, l, m)
  {
    forall k: RouteKey | k.host in hosts ensures LeadsAt(nm, l, m, k) {
      FindKey(nm, hosts, l, k);
      HasIffInMap(nm, hosts, l, m, k);
    }
  }

  /** Requests for a host go to its first canonical route, whatever stands behind it. */
  lemma LeadsDispatch(nm: Naming, hosts: set<string>, l: seq<Route>, m: Routes, h: string)
    requires Separate(nm, hosts) && Leads(nm, hosts, l, m) && h in hosts && RouteKey(h, Canonical) in m
    ensures Dispatch(l, h, false) == Some(nm.dial(m[RouteKey(h, Canonical)]))
  {
    var k := RouteKey(h, Canonical);
    assert LeadsAt(nm, l, m, k);
    FindKey(nm, hosts, l, k);
    var i := Find(l, nm.id(k));
    forall j | 0 <= j < i ensures !Matches(l[j], h, false) {
      assert l[j].id == nm.id(l[j].Key());
    }
    FirstDispatches(l, h, false, i);
  }

  lemma {:induction false} FirstDispatches(l: seq<Route>, h: string, http: bool, i: nat)
    requires i < |l| && Matches(l[i], h, http) && forall j :: 0 <= j < i ==> !Matches(l[j], h, http)
    ensures Dispatch(l, h, http) == Some(l[i].dial)
  {
    if i > 0 {
      FirstDispatches(l[1..], h, http, i - 1);
    }
  }

  lemma FindIs(l: seq<Route>, id: string, i: nat)
    requires i <= |l| && (i < |l| ==> l[i].id == id) && forall j :: 0 <= j < i ==> l[j].id != id
    ensures Find(l, id) == i
  {
    hide Find;
    assert Find(l, id) == i;
  }

  /** A route replaced in place, and one appended, seen through the ids. */
  lemma FindAfterPut(l: seq<Route>, r: Route, id: string)
    ensures var i := Find(l, r.id); i < |l| ==> Find(l[i := r], id) == Find(l, id)
    ensures Find(l + [r], id) == if Find(l, id) < |l| then Find(l, id) else if r.id == id then |l| else |l| + 1
  {
    var n, i := Find(l, id), Find(l, r.id);
    hide Find;
    if i < |l| {
      FindIs(l[i := r], id, n);
    }
    FindIs(l + [r], id, if n < |l| then n else if r.id == id then |l| else |l| + 1);
  }

  lemma ReplacedLeads(nm: Naming, hosts: set<string>, l: seq<Route>, m: Routes, k: RouteKey, t: Target)
    requires Separate(nm, hosts) && Leads(nm, hosts, l, m) && k.host in hosts && k in m
    ensures var i := Find(l, nm.id(k));
      i < |l| && Leads(nm, hosts, l[i := MakeRoute(nm, k, t)], m[k := t])
  {
    var r, i := MakeRoute(nm, k, t), Find(l, nm.id(k));
    assert LeadsAt(nm, l, m, k);
    FindKey(nm, hosts, l, k);
    ManagedPut(nm, hosts, l, i, k, t);
    hide Find, Managed, LeadsAt, MakeRoute;
    forall j: RouteKey | j.host in hosts ensures LeadsAt(nm, l[i := r], m[k := t], j) {
      ReplacedLeadsAt(nm, hosts, l, m, k, t, j);
    }
  }

  lemma ManagedPut(nm: Naming, hosts: set<string>, l: seq<Route>, i: nat, k: RouteKey, t: Target)
    requires Managed(nm, hosts, l) && i < |l| && k.host in hosts
    ensures Managed(nm, hosts, l[i := MakeRoute(nm, k, t)])
  {
    MadeKey(nm, k, t);
  }

  lemma ReplacedLeadsAt(nm: Naming, hosts: set<string>, l: seq<Route>, m: Routes, k: RouteKey, t: Target, j: RouteKey)
    requires Separate(nm, hosts) && k.host in hosts && j.host in hosts && LeadsAt(nm, l, m, j)
    requires Find(l, nm.id(k)) < |l|
    ensures LeadsAt(nm, l[Find(l, nm.id(k)) := MakeRoute(nm, k, t)], m[k := t], j)
  {
    FindAfterPut(l, MakeRoute(nm, k, t), nm.id(j));
    hide Find;
    assert nm.id(j) == nm.id(k) ==> j == k;
  }

  lemma AppendedLeads(nm: Naming, hosts: set<string>, l: seq<Route>, m: Routes, k: RouteKey, t: Target)
    requires Separate(nm, hosts) && Leads(nm, hosts, l, m) && k.host in hosts
    ensures Leads(nm, hosts, l + [MakeRoute(nm, k, t)], if k in m then m else m[k := t])
  {
    var r := MakeRoute(nm, k, t);
    hide Find;
    forall j: RouteKey | j.host in hosts ensures LeadsAt(nm, l + [r], if k in m then m else m[k := t], j) {
      assert LeadsAt(nm, l, m, j) && LeadsAt(nm, l, m, k);
      FindAfterPut(l, r, nm.id(j));
    }
  }

  /** With shadowed routes taken into account, the upsert of one route is always the map's own update, in
      one of four endings; only where a route is in force already can it be shadowed. */
  lemma UpsertSingleLeads(nm: Naming, hosts: set<string>, l: seq<Route>, m: Routes, k: RouteKey, t: Target,
                          patch: Outcome, post: Outcome)
    requires Separate(nm, hosts) && Leads(nm, hosts, l, m) && k.host in hosts
    ensures var (l', ok) := UpsertSingle(l, MakeRoute(nm, k, t), patch, post);
      var n := Net(k in m, patch, post);
      && Leads(nm, hosts, l', PutRoute(m, k.host, k.kind, t, n))
      && ok == PutOk(n) && (n.Shadowed? ==> k in m)
  {
    hide Leads, Separate, Find, Managed;
    KnownIsFound(nm, hosts, l, m, k);
    AppendedLeads(nm, hosts, l, m, k, t);
    assert RouteKey(k.host, k.kind) == k;
    var r, i := MakeRoute(nm, k, t), Find(l, nm.id(k));
    MadeId(nm, k, t);
    hide MakeRoute;
    if k in m {
      ReplacedLeads(nm, hosts, l, m, k, t);
      AppendedLeads(nm, hosts, l[i := r], m[k := t], k, t);
    }
  }

  lemma MadeId(nm: Naming, k: RouteKey, t: Target)
    ensures MakeRoute(nm, k, t).id == nm.id(k)
  {
  }

  lemma KnownIsFound(nm: Naming, hosts: set<string>, l: seq<Route>, m: Routes, k: RouteKey)
    requires Leads(nm, hosts, l, m) && k.host in hosts
    ensures k in m <==> Find(l, nm.id(k)) < |l|
  {
    assert LeadsAt(nm, l, m, k);
  }

  /** No second route waits behind the one for `k`. */
  ghost predicate Once(l: seq<Route>, k: RouteKey) {
    forall i, j :: 0 <= i < j < |l| ==> !(l[i].Key() == k && l[j].Key() == k)
  }

  lemma FindAfterCut(l: seq<Route>, i: nat, id: string)
    requires i < |l| && l[i].id != id
    ensures var n := Find(l, id); Find(l[..i] + l[i + 1..], id) == if n < i then n else n - 1
    ensures Find(l, id) < |l| <==> Find(l[..i] + l[i + 1..], id) < |l| - 1
  {
    var n, l' := Find(l, id), l[..i] + l[i + 1..];
    hide Find;
    CutAt(l, i, l');
    assert n != i;
    FindIs(l', id, if n < i then n else n - 1);
  }

  /** Deleting by id is removal from the map as long as nothing waits behind. */
  lemma DeleteLeads(nm: Naming, hosts: set<string>, l: seq<Route>, m: Routes, k: RouteKey, o: Outcome)
    requires Separate(nm, hosts) && Leads(nm, hosts, l, m) && k.host in hosts && Once(l, k)
    ensures var (l', reply) := Delete(l, nm.id(k), o);
      && Leads(nm, hosts, l', DropRoute(m, k.host, k.kind, o))
      && reply == if !o.Done? then Failed else if k in m then Fine else NotFound
  {
    hide Leads, Separate, Find, Once;
    KnownIsFound(nm, hosts, l, m, k);
    assert RouteKey(k.host, k.kind) == k;
    if k !in m {
      assert m - {k} == m;
    } else if o.Effect() {
      CutLeads(nm, hosts, l, m, k);
    }
  }

  lemma CutLeads(nm: Naming, hosts: set<string>, l: seq<Route>, m: Routes, k: RouteKey)
    requires Separate(nm, hosts) && Leads(nm, hosts, l, m) && k.host in hosts && Once(l, k)
    requires Find(l, nm.id(k)) < |l|
    ensures var i := Find(l, nm.id(k)); Leads(nm, hosts, l[..i] + l[i + 1..], m - {k})
  {
    FindKey(nm, hosts, l, k);
    var i := Find(l, nm.id(k));
    var l' := l[..i] + l[i + 1..];
    CutAt(l, i, l');
    hide Find;
    assert Managed(nm, hosts, l');
    NoneLeft(nm, hosts, l, l', i, k);
    hide Managed, Once;
    forall j: RouteKey | j.host in hosts ensures LeadsAt(nm, l', m - {k}, j) {
      assert LeadsAt(nm, l, m, j);
      if j == k {
        FindIs(l', nm.id(k), |l'|);
      } else {
        CutLeadsAt(nm, hosts, l, m, k, i, j);
      }
    }
  }

  lemma NoneLeft(nm: Naming, hosts: set<string>, l: seq<Route>, l': seq<Route>, i: nat, k: RouteKey)
    requires Separate(nm, hosts) && Managed(nm, hosts, l) && k.host in hosts && Once(l, k) && i < |l| && l[i].Key() == k
    requires |l'| == |l| - 1 && forall n :: 0 <= n < |l'| ==> l'[n] == l[if n < i then n else n + 1]
    ensures forall n :: 0 <= n < |l'| ==> l'[n].id != nm.id(k)
  {
    forall n | 0 <= n < |l'| ensures l'[n].id != nm.id(k) {
      assert l'[n].Key() != k && l'[n].id == nm.id(l'[n].Key());
    }
  }

  lemma CutLeadsAt(nm: Naming, hosts: set<string>, l: seq<Route>, m: Routes, k: RouteKey, i: nat, j: RouteKey)
    requires i < |l| && l[i].id == nm.id(k) && nm.id(j) != nm.id(k) && LeadsAt(nm, l, m, j)
    ensures LeadsAt(nm, l[..i] + l[i + 1..], m - {k}, j)
  {
    var l' := l[..i] + l[i + 1..];
    FindAfterCut(l, i, nm.id(j));
    CutAt(l, i, l');
    hide Find;
  }

  /** The siblings of hosts that force HTTPS, which upserts delete, are never published twice. */
  ghost predicate OnceForced(l: seq<Route>, forced: set<string>) {
    forall h :: h in forced ==> Once(l, RouteKey(h, HttpSibling))
  }

  lemma PutKeepsOnce(nm: Naming, l: seq<Route>, k: RouteKey, t: Target, patch: Outcome, post: Outcome, other: RouteKey)
    requires Find(l, nm.id(k)) < |l| ==> l[Find(l, nm.id(k))].Key() == k
    requires other != k && Once(l, other)
    ensures Once(UpsertSingle(l, MakeRoute(nm, k, t), patch, post).0, other)
  {
    hide Find;
  }

  lemma DeleteKeepsOnce(l: seq<Route>, id: string, o: Outcome, k: RouteKey)
    requires Once(l, k)
    ensures Once(Delete(l, id, o).0, k)
  {
    var i := Find(l, id);
    if i < |l| {
      CutAt(l, i, l[..i] + l[i + 1..]);
    }
    hide Find;
  }

  /** A whole upsert, however its requests end, is the same call on the map of the routes in force, with
      the same reply, for hosts that keep their choice about HTTPS. */
  lemma UpsertLeads(nm: Naming, hosts: set<string>, l: seq<Route>, m: Routes, op: Op, forced: set<string>)
    requires Separate(nm, hosts) && Leads(nm, hosts, l, m) && op.Upsert? && op.host in hosts
    requires OnceForced(l, forced) && (op.force <==> op.host in forced)
    ensures Leads(nm, hosts, Apply(nm, l, op).0, ApplyMap(m, op).0)
    ensures Apply(nm, l, op).1 == ApplyMap(m, op).1 && OnceForced(Apply(nm, l, op).0, forced)
  {
    if op.Accepted() {
      var c, s, t, o := RouteKey(op.host, Canonical), RouteKey(op.host, HttpSibling), Target(op.upstream, op.port),
        op.o;
      var l1, m1 := UpsertSingle(l, MakeRoute(nm, c, t), o(0), o(1)).0,
                    PutRoute(m, op.host, Canonical, t, Net(c in m, o(0), o(1)));
      UpsertSingleLeads(nm, hosts, l, m, c, t, o(0), o(1));
      PutKeepsForced(nm, hosts, l, c, t, o(0), o(1), forced);
      hide Leads, Separate, UpsertSingle, Delete, MakeRoute;
      if op.force {
        assert Once(l1, s);
        DeleteLeads(nm, hosts, l1, m1, s, o(2));
        DeleteKeepsForced(l1, nm.id(s), o(2), forced);
      } else {
        UpsertSingleLeads(nm, hosts, l1, m1, s, t, o(2), o(3));
        LeadsManaged(nm, hosts, l1, m1);
        PutKeepsForced(nm, hosts, l1, s, t, o(2), o(3), forced);
      }
    }
  }

  lemma LeadsManaged(nm: Naming, hosts: set<string>, l: seq<Route>, m: Routes)
    requires Leads(nm, hosts, l, m)
    ensures Managed(nm, hosts, l)
  {
  }

  lemma PutKeepsForced(nm: Naming, hosts: set<string>, l: seq<Route>, k: RouteKey, t: Target, patch: Outcome,
      post: Outcome,
                       forced: set<string>)
    requires Separate(nm, hosts) && Managed(nm, hosts, l) && k.host in hosts && OnceForced(l, forced)
    requires k.kind.HttpSibling? ==> k.host !in forced
    ensures OnceForced(UpsertSingle(l, MakeRoute(nm, k, t), patch, post).0, forced)
  {
    FindKey(nm, hosts, l, k);
    forall h | h in forced
      ensures Once(UpsertSingle(l, MakeRoute(nm, k, t), patch, post).0, RouteKey(h, HttpSibling))
    {
      PutKeepsOnce(nm, l, k, t, patch, post, RouteKey(h, HttpSibling));
    }
  }

  lemma DeleteKeepsForced(l: seq<Route>, id: string, o: Outcome, forced: set<string>)
    requires OnceForced(l, forced)
    ensures OnceForced(Delete(l, id, o).0, forced)
  {
    forall h | h in forced ensures Once(Delete(l, id, o).0, RouteKey(h, HttpSibling)) {
      DeleteKeepsOnce(l, id, o, RouteKey(h, HttpSibling));
    }
  }

  function ListAfter(nm: Naming, l: seq<Route>, ops: seq<Op>): seq<Route> {
    if ops == [] then l else Apply(nm, ListAfter(nm, l, ops[..|ops| - 1]), ops[|ops| - 1]).0
  }

  function MapAfter(m: Routes, ops: seq<Op>): Routes {
    if ops == [] then m else ApplyMap(MapAfter(m, ops[..|ops| - 1]), ops[|ops| - 1]).0
  }

  /** So are all the upserts of a swap, one after the other, on a list that was a map when it began. */
  lemma {:induction false} UpsertsLead(nm: Naming, hosts: set<string>, l: seq<Route>, m: Routes, ops: seq<Op>,
      forced: set<string>)
    requires Separate(nm, hosts) && Represents(nm, hosts, l, m)
    requires forall i :: 0 <= i < |ops| ==>
      ops[i].Upsert? && ops[i].host in hosts && (ops[i].force <==> ops[i].host in forced)
    ensures Leads(nm, hosts, ListAfter(nm, l, ops), MapAfter(m, ops)) && OnceForced(ListAfter(nm, l, ops), forced)
  {
    if ops == [] {
      RepresentsLeads(nm, hosts, l, m);
    } else {
      UpsertsLead(nm, hosts, l, m, ops[..|ops| - 1], forced);
      hide Leads, Separate, Represents, Apply, ApplyMap, OnceForced;
      UpsertLeads(nm, hosts, ListAfter(nm, l, ops[..|ops| - 1]), MapAfter(m, ops[..|ops| - 1]), ops[|ops| - 1], forced);
    }
  }

  // ---------------------------------------------------------------------------
  // Other hosts
  // ---------------------------------------------------------------------------

  function Others(l: seq<Route>, h: string): seq<Route> {
    if l == [] then []
    else
      var front := Others(l[..|l| - 1], h);
      if l[|l| - 1].host == h then front else front + [l[|l| - 1]]
  }

  lemma {:induction false} OthersOfConcat(a: seq<Route>, b: seq<Route>, h: string)
    ensures Others(a + b, h) == Others(a, h) + Others(b, h)
  {
    if b == [] {
      assert a + b == a;
    } else {
      OthersOfConcat(a, b[..|b| - 1], h);
      assert (a + b)[..|a + b| - 1] == a + b[..|b| - 1];
    }
  }

  lemma OthersPlusOwn(l: seq<Route>, r: Route, h: string)
    requires r.host == h
    ensures Others(l + [r], h) == Others(l, h)
  {
    OthersOfConcat(l, [r], h);
    assert Others([r], h) == [];
  }

  /** What stands at a position of host `h` does not matter to the others. */
  lemma OthersAround(l: seq<Route>, i: nat, r: Route, h: string)
    requires i < |l| && l[i].host == h && r.host == h
    ensures Others(l[i := r], h) == Others(l, h) == Others(l[..i] + l[i + 1..], h)
  {
    hide Others;
    var a, b := l[..i], l[i + 1..];
    assert l == a + [l[i]] + b && l[i := r] == a + [r] + b;
    OthersPlusOwn(a, l[i], h);
    OthersPlusOwn(a, r, h);
    OthersOfConcat(a + [l[i]], b, h);
    OthersOfConcat(a + [r], b, h);
    OthersOfConcat(a, b, h);
  }

  lemma ReplaceKeepsOthers(nm: Naming, hosts: set<string>, l: seq<Route>, i: nat, r: Route)
    requires Managed(nm, hosts, l) && i < |l| && l[i].host == r.host && r.id == nm.id(r.Key())
    ensures Managed(nm, hosts, l[i := r]) && Others(l[i := r], r.host) == Others(l, r.host)
    ensures Managed(nm, hosts, l[..i] + l[i + 1..]) && Others(l[..i] + l[i + 1..], r.host) == Others(l, r.host)
  {
    hide Others;
    OthersAround(l, i, r, r.host);
  }

  lemma AppendKeepsOthers(nm: Naming, hosts: set<string>, l: seq<Route>, r: Route)
    requires Managed(nm, hosts, l) && r.host in hosts && r.id == nm.id(r.Key())
    ensures Managed(nm, hosts, l + [r]) && Others(l + [r], r.host) == Others(l, r.host)
  {
    hide Others;
    OthersPlusOwn(l, r, r.host);
  }

  lemma UpsertKeepsOthers(nm: Naming, hosts: set<string>, l: seq<Route>, k: RouteKey, t: Target, patch: Outcome,
      post: Outcome)
    requires Separate(nm, hosts) && Managed(nm, hosts, l) && k.host in hosts
    ensures var l' := UpsertSingle(l, MakeRoute(nm, k, t), patch, post).0;
      Managed(nm, hosts, l') && Others(l', k.host) == Others(l, k.host)
  {
    FindKey(nm, hosts, l, k);
    MadeKey(nm, k, t);
    hide Separate, Find, Others, Managed;
    var r, i := MakeRoute(nm, k, t), Find(l, nm.id(k));
    AppendKeepsOthers(nm, hosts, l, r);
    if i < |l| {
      ReplaceKeepsOthers(nm, hosts, l, i, r);
      AppendKeepsOthers(nm, hosts, l[i := r], r);
    }
  }

  lemma DeleteKeepsOthers(nm: Naming, hosts: set<string>, l: seq<Route>, k: RouteKey, o: Outcome)
    requires Separate(nm, hosts) && Managed(nm, hosts, l) && k.host in hosts
    ensures var l' := Delete(l, nm.id(k), o).0;
      Managed(nm, hosts, l') && Others(l', k.host) == Others(l, k.host)
  {
    hide Separate, Find, Others, Managed;
    FindKey(nm, hosts, l, k);
    var i := Find(l, nm.id(k));
    if i < |l| {
      ManagedAt(nm, hosts, l, i);
      ReplaceKeepsOthers(nm, hosts, l, i, l[i]);
    }
  }

  lemma ManagedAt(nm: Naming, hosts: set<string>, l: seq<Route>, i: nat)
    requires Managed(nm, hosts, l) && i < |l|
    ensures l[i].host in hosts && l[i].id == nm.id(l[i].Key())
  {
  }

  /** However the requests of a call end, no other host's routes change, nor their order. */
  lemma OthersUntouched(nm: Naming, hosts: set<string>, l: seq<Route>, op: Op)
    requires Separate(nm, hosts) && Managed(nm, hosts, l) && op.host in hosts
    ensures Managed(nm, hosts, Apply(nm, l, op).0)
    ensures Others(Apply(nm, l, op).0, op.host) == Others(l, op.host)
  {
    hide Separate, Managed, UpsertSingle, Delete, MakeRoute, Others;
    var c, s := RouteKey(op.host, Canonical), RouteKey(op.host, HttpSibling);
    match op
    case Upsert(h, upstream, port, force, o) =>
      var t := Target(upstream, port);
      UpsertKeepsOthers(nm, hosts, l, c, t, o(0), o(1));
      var l1 := UpsertSingle(l, MakeRoute(nm, c, t), o(0), o(1)).0;
      UpsertKeepsOthers(nm, hosts, l1, s, t, o(2), o(3));
      DeleteKeepsOthers(nm, hosts, l1, s, o(2));
    case Remove(h, o) =>
      DeleteKeepsOthers(nm, hosts, l, s, o(0));
      DeleteKeepsOthers(nm, hosts, Delete(l, nm.id(s), o(0)).0, c, o(1));
  }

  // ---------------------------------------------------------------------------
  // Dispatch
  // ---------------------------------------------------------------------------

  predicate Matches(r: Route, host: string, http: bool) { r.host == host && (r.httpOnly ==> http) }

  /** Where the first matching route sends a request; every route is terminal. */
  function Dispatch(l: seq<Route>, host: string, http: bool): (out: Option<string>)
    ensures out.None? <==> forall i :: 0 <= i < |l| ==> !Matches(l[i], host, http)
    ensures out.Some? ==> exists i :: 0 <= i < |l| && Matches(l[i], host, http) && l[i].dial == out.value
  {
    if l == [] then None
    else if Matches(l[0], host, http) then Some(l[0].dial)
    else
      assert forall i :: 0 < i < |l| ==> l[i] == l[1..][i - 1];
      Dispatch(l[1..], host, http)
  }

  datatype Site = Site(target: Target, force: bool)

  /** The map holds for host `h` what `want` says: nothing, or one canonical route and a plain-HTTP
      sibling exactly when HTTPS is not forced. */
  ghost predicate Holds(m: Routes, h: string, want: Option<Site>) {
    var c, s := RouteKey(h, Canonical), RouteKey(h, HttpSibling);
    && (c in m <==> want.Some?)
    && (s in m <==> want.Some? && !want.value.force)
    && (c in m ==> m[c] == want.value.target)
    && (s in m ==> m[s] == want.value.target)
  }

  /** So does the list ... */
  ghost predicate Lists(nm: Naming, l: seq<Route>, h: string, want: Option<Site>) {
    var c, s := RouteKey(h, Canonical), RouteKey(h, HttpSibling);
    && (forall i, j :: 0 <= i < j < |l| && l[i].host == h ==> l[i].Key() != l[j].Key())
    && (Has(l, c) <==> want.Some?)
    && (Has(l, s) <==> want.Some? && !want.value.force)
    && (forall i :: 0 <= i < |l| && l[i].host == h ==> l[i] == MakeRoute(nm, l[i].Key(), want.value.target))
  }

  /** ... and requests of either scheme go where it says. */
  ghost predicate Serves(nm: Naming, l: seq<Route>, h: string, want: Option<Site>) {
    && Lists(nm, l, h, want)
    && forall http :: Dispatch(l, h, http) == if want.None? then None else Some(nm.dial(want.value.target))
  }

  lemma HoldsLists(nm: Naming, hosts: set<string>, l: seq<Route>, m: Routes, h: string, want: Option<Site>)
    requires Represents(nm, hosts, l, m) && Holds(m, h, want)
    ensures Lists(nm, l, h, want)
  {
    HasIffInMap(nm, hosts, l, m, RouteKey(h, Canonical));
    HasIffInMap(nm, hosts, l, m, RouteKey(h, HttpSibling));
    hide Has;
  }

  lemma HoldsServes(nm: Naming, hosts: set<string>, l: seq<Route>, m: Routes, h: string, want: Option<Site>)
    requires Represents(nm, hosts, l, m) && Holds(m, h, want)
    ensures Serves(nm, l, h, want)
  {
    HoldsLists(nm, hosts, l, m, h, want);
    hide Has, Holds, Represents;
    forall http
      ensures Dispatch(l, h, http) == if want.None? then None else Some(nm.dial(want.value.target))
    {
      ListsServes(nm, l, h, want, http);
    }
  }

  lemma ListsServes(nm: Naming, l: seq<Route>, h: string, want: Option<Site>, http: bool)
    requires Lists(nm, l, h, want)
    ensures Dispatch(l, h, http) == if want.None? then None else Some(nm.dial(want.value.target))
  {
    if want.Some? {
      HasMatches(l, h, http);
      hide Has;
    } else {
      assert forall i :: 0 <= i < |l| && l[i].host == h ==>
        l[i].Key() in {RouteKey(h, Canonical), RouteKey(h, HttpSibling)};
    }
  }

  lemma HasMatches(l: seq<Route>, h: string, http: bool)
    requires Has(l, RouteKey(h, Canonical))
    ensures exists i :: 0 <= i < |l| && Matches(l[i], h, http)
  {
    var i :| 0 <= i < |l| && l[i].Key() == RouteKey(h, Canonical);
    assert Matches(l[i], h, http);
  }

  // ---------------------------------------------------------------------------
  // Runs
  // ---------------------------------------------------------------------------

  /** What the last call for a host settled: a failed call leaves it open. */
  function Settle(settled: map<string, Option<Site>>, op: Op, reply: Reply): map<string, Option<Site>> {
    match reply
    case BadInput => settled
    case Failed => settled - {op.host}
    case _ => settled[op.host := if op.Upsert? then Some(Site(Target(op.upstream, op.port), op.force)) else None]
  }

  datatype State = State(list: seq<Route>, settled: map<string, Option<Site>>)

  function Step(nm: Naming, s: State, op: Op): State {
    var (l, reply) := Apply(nm, s.list, op);
    State(l, Settle(s.settled, op, reply))
  }

  function Run(nm: Naming, ops: seq<Op>): State {
    if ops == [] then State([], map[]) else Step(nm, Run(nm, ops[..|ops| - 1]), ops[|ops| - 1])
  }

  /** No call of the run appends beside a route it could not patch. */
  ghost predicate Clean(nm: Naming, hosts: set<string>, ops: seq<Op>) {
    ops == [] ||
    (&& Clean(nm, hosts, ops[..|ops| - 1])
     && ops[|ops| - 1].host in hosts
     && Unshadowed(Run(nm, ops[..|ops| - 1]).list, ops[|ops| - 1]))
  }

  lemma ApplySettles(m: Routes, op: Op, settled: map<string, Option<Site>>)
    requires UnshadowedMap(m, op)
    requires forall h :: h in settled ==> Holds(m, h, settled[h])
    ensures var (m', reply) := ApplyMap(m, op);
      var settled' := Settle(settled, op, reply);
      forall h :: h in settled' ==> Holds(m', h, settled'[h])
  {
  }

  /** After any run of upserts and removals, whatever failed along the way, the list is a map, and
      every host whose last call did not fail is served exactly as that call asked. */
  lemma {:induction false} RouteListIsMap(nm: Naming, hosts: set<string>, ops: seq<Op>) returns (m: Routes)
    requires Separate(nm, hosts) && Clean(nm, hosts, ops)
    ensures var s := Run(nm, ops);
      && Represents(nm, hosts, s.list, m)
      && (forall h :: h in s.settled ==> Holds(m, h, s.settled[h]) && Serves(nm, s.list, h, s.settled[h]))
  {
    hide Represents, Holds, Serves, Apply, ApplyMap, Settle, Separate, Unshadowed, UnshadowedMap;
    if ops == [] {
      m := map[];
      EmptyRepresents(nm, hosts);
    } else {
      var before := Run(nm, ops[..|ops| - 1]);
      var m0 := RouteListIsMap(nm, hosts, ops[..|ops| - 1]);
      var op := ops[|ops| - 1];
      ApplyRefines(nm, hosts, before.list, m0, op);
      UnshadowedInMap(nm, hosts, before.list, m0, op);
      ApplySettles(m0, op, before.settled);
      m := ApplyMap(m0, op).0;
    }
    var s := Run(nm, ops);
    forall h | h in s.settled ensures Serves(nm, s.list, h, s.settled[h]) {
      HoldsServes(nm, hosts, s.list, m, h, s.settled[h]);
    }
  }

  lemma EmptyRepresents(nm: Naming, hosts: set<string>)
    ensures Represents(nm, hosts, [], map[])
  {
  }

  /** A PATCH that fails on an existing route, followed by a POST that works, reports success and
      leaves the host on its previous upstream. */
  lemma FailedPatchShadows(nm: Naming, hosts: set<string>, l: seq<Route>, m: Routes, h: string, upstream: string,
      port: int,
                           o: nat -> Outcome)
    requires Separate(nm, hosts) && Represents(nm, hosts, l, m) && h in hosts && RouteKey(h, Canonical) in m
    requires o(0).Refused? && o(1).Done? && o(2).Done?
    requires h != "" && upstream != "" && 0 < port <= 65535
    ensures var (l', reply) := Apply(nm, l, Upsert(h, upstream, port, true, o));
      && reply == Fine
      && Dispatch(l', h, false) == Some(nm.dial(m[RouteKey(h, Canonical)]))
      && forall m' :: !Represents(nm, hosts, l', m')
  {
    assert nm.id(RouteKey(h, Canonical)) != nm.id(RouteKey(h, HttpSibling));
    hide *;
    ShadowedApply(nm, l, h, upstream, port, o) by { FindKnown(nm, hosts, l, m, RouteKey(h, Canonical)); }
    var r, cut := MakeRoute(nm, RouteKey(h, Canonical), Target(upstream, port)),
      Delete(l, nm.id(RouteKey(h, HttpSibling)), o(2)).0;
    var m1 := CutKeepsCanonical(nm, hosts, l, m, h, o(2));
    ShadowServesOld(nm, hosts, cut, m1, h, r) by { MadeKey(nm, RouteKey(h, Canonical), Target(upstream, port)); }
  }

  lemma MadeKey(nm: Naming, k: RouteKey, t: Target)
    ensures MakeRoute(nm, k, t).Key() == k
  {
  }

  lemma FindKnown(nm: Naming, hosts: set<string>, l: seq<Route>, m: Routes, k: RouteKey)
    requires Separate(nm, hosts) && Represents(nm, hosts, l, m) && k.host in hosts && k in m
    ensures Find(l, nm.id(k)) < |l|
  {
    hide *;
    ManagedOf(nm, hosts, l, m);
    FindKey(nm, hosts, l, k);
    HasIffInMap(nm, hosts, l, m, k);
  }

  lemma CutKeepsCanonical(nm: Naming, hosts: set<string>, l: seq<Route>, m: Routes, h: string, o: Outcome)
      returns (m1: Routes)
    requires Separate(nm, hosts) && Represents(nm, hosts, l, m) && h in hosts && RouteKey(h, Canonical) in m
    ensures Represents(nm, hosts, Delete(l, nm.id(RouteKey(h, HttpSibling)), o).0, m1)
    ensures RouteKey(h, Canonical) in m1 && m1[RouteKey(h, Canonical)] == m[RouteKey(h, Canonical)]
  {
    hide Separate, Represents, Delete;
    DeleteRefines(nm, hosts, l, m, RouteKey(h, HttpSibling), o);
    m1 := DropRoute(m, h, HttpSibling, o);
  }

  lemma ShadowedApply(nm: Naming, l: seq<Route>, h: string, upstream: string, port: int, o: nat -> Outcome)
    requires o(0).Refused? && o(1).Done? && o(2).Done?
    requires h != "" && upstream != "" && 0 < port <= 65535
    requires Find(l, nm.id(RouteKey(h, Canonical))) < |l|
      && nm.id(RouteKey(h, Canonical)) != nm.id(RouteKey(h, HttpSibling))
    ensures Apply(nm, l, Upsert(h, upstream, port, true, o)) ==
            (Delete(l, nm.id(RouteKey(h, HttpSibling)), o(2)).0
              + [MakeRoute(nm, RouteKey(h, Canonical), Target(upstream, port))], Fine)
  {
    hide Find;
    var r := MakeRoute(nm, RouteKey(h, Canonical), Target(upstream, port));
    assert UpsertSingle(l, r, o(0), o(1)) == (l + [r], true);
    DeleteBeforeLast(l, r, nm.id(RouteKey(h, HttpSibling)), o(2));
    assert !Delete(l, nm.id(RouteKey(h, HttpSibling)), o(2)).1.Failed?;
    hide Delete, UpsertSingle, MakeRoute;
  }

  lemma ShadowServesOld(nm: Naming, hosts: set<string>, l: seq<Route>, m: Routes, h: string, r: Route)
    requires Represents(nm, hosts, l, m) && RouteKey(h, Canonical) in m && r.Key() == RouteKey(h, Canonical)
    ensures Dispatch(l + [r], h, false) == Some(nm.dial(m[RouteKey(h, Canonical)]))
    ensures forall m' :: !Represents(nm, hosts, l + [r], m')
  {
    HttpsDispatch(nm, hosts, l, m, h);
    DispatchOfAppend(l, r, h, false);
    HasIffInMap(nm, hosts, l, m, RouteKey(h, Canonical));
    hide Represents, Dispatch;
    var i :| 0 <= i < |l| && l[i].Key() == RouteKey(h, Canonical);
    TwiceIsNoMap(nm, hosts, l + [r], i, |l|);
  }

  lemma {:induction false} FindBeforeLast(l: seq<Route>, r: Route, id: string)
    requires r.id != id
    ensures Find(l + [r], id) == if Find(l, id) < |l| then Find(l, id) else |l| + 1
  {
    if l != [] && l[0].id != id {
      FindBeforeLast(l[1..], r, id);
      assert (l + [r])[1..] == l[1..] + [r];
    }
  }

  lemma CutBeforeLast<T>(l: seq<T>, r: T, i: nat)
    requires i < |l|
    ensures (l + [r])[..i] + (l + [r])[i + 1..] == l[..i] + l[i + 1..] + [r]
  {
  }

  lemma DeleteBeforeLast(l: seq<Route>, r: Route, id: string, o: Outcome)
    requires r.id != id
    ensures Delete(l + [r], id, o) == (Delete(l, id, o).0 + [r], Delete(l, id, o).1)
  {
    FindBeforeLast(l, r, id);
    hide Find;
    var i := Find(l, id);
    if i < |l| {
      CutBeforeLast(l, r, i);
    }
  }

  lemma HttpsDispatch(nm: Naming, hosts: set<string>, l: seq<Route>, m: Routes, h: string)
    requires Represents(nm, hosts, l, m) && RouteKey(h, Canonical) in m
    ensures Dispatch(l, h, false) == Some(nm.dial(m[RouteKey(h, Canonical)]))
  {
    HasMatches(l, h, false);
  }

  lemma {:induction false} DispatchOfAppend(l: seq<Route>, r: Route, h: string, http: bool)
    ensures Dispatch(l, h, http).Some? ==> Dispatch(l + [r], h, http) == Dispatch(l, h, http)
  {
    if l != [] && !Matches(l[0], h, http) {
      DispatchOfAppend(l[1..], r, h, http);
      assert (l + [r])[1..] == l[1..] + [r];
    }
  }
}
