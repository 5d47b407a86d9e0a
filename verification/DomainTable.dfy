/** Which domain is an app's primary: the table of domains under creation, update, deletion and the
    removal of apps, and the way a deploy reads it. */
module DomainTable {
  import opened Wrappers

  datatype Domain = Domain(name: string, app: Option<string>, primary: bool, force: bool)
  type Table = map<string, Domain>

  datatype World = World(rows: Table, apps: set<string>)

  /** `app`: nothing asked, or the id as trimmed (empty to unbind). */
  datatype Change = Change(clearApp: bool, app: Option<string>, primary: Option<bool>)

  /** An update first reads its row and then runs its transaction; in between, other operations may
      have come, so `seen` is whatever the row was at that earlier time. */
  datatype Op =
    | Create(id: string, d: Domain)
    | Update(id: string, seen: Domain, change: Change)
    | Delete(id: string, panel: string -> bool)   // whether a host is the panel's own
    | DropApp(app: string)

  datatype Reply = Fine | AppNotFound | Duplicate | InUseByApp | InUseByPanel | NotFound

  // ---------------------------------------------------------------------------
  // Operations
  // ---------------------------------------------------------------------------

  function Demoted(rows: Table, app: string): Table {
    map id | id in rows :: if rows[id].app == Some(app) then rows[id].(primary := false) else rows[id]
  }

  ghost predicate NameTaken(rows: Table, name: string) { exists id :: id in rows && rows[id].name == name }

  ghost function Created(w: World, id: string, d: Domain): (World, Reply) {
    if d.app.Some? && d.app.value !in w.apps then (w, AppNotFound)
    else if NameTaken(w.rows, d.name) then (w, Duplicate)
    else
      var rows := if d.app.Some? && d.primary then Demoted(w.rows, d.app.value) else w.rows;
      (w.(rows := rows[id := d]), Fine)
  }

  function NextApp(seen: Domain, c: Change): Option<string> {
    if c.clearApp then None
    else if c.app.None? then seen.app
    else if c.app.value == "" then None
    else c.app
  }

  function NextPrimary(seen: Domain, c: Change): bool {
    NextApp(seen, c).Some? && if c.primary.Some? then c.primary.value else seen.primary
  }

  /** A row that has gone in the meantime is not an error for the two statements: the demotion stays,
      and only the final read reports that there is no such domain. */
  function Updated(w: World, id: string, seen: Domain, c: Change): (World, Reply) {
    var app, primary := NextApp(seen, c), NextPrimary(seen, c);
    if !c.clearApp && c.app.Some? && c.app.value != "" && c.app.value !in w.apps then (w, AppNotFound)
    else if app.Some? && app.value !in w.apps && id in w.rows then (w, AppNotFound)
    else
      var rows := if primary then Demoted(w.rows, app.value) else w.rows;
      if id in rows then (w.(rows := rows[id := rows[id].(app := app, primary := primary)]), Fine)
      else (w.(rows := rows), NotFound)
  }

  function Deleted(w: World, id: string, panel: string -> bool): (World, Reply) {
    if id !in w.rows then (w, NotFound)
    else if w.rows[id].app.Some? && w.rows[id].app.value != "" then (w, InUseByApp)
    else if panel(w.rows[id].name) then (w, InUseByPanel)
    else (w.(rows := w.rows - {id}), Fine)
  }

  function AppDropped(w: World, app: string): World {
    World(map id | id in w.rows && w.rows[id].app != Some(app) :: w.rows[id], w.apps - {app})
  }

  ghost function Apply(w: World, op: Op): (World, Reply) {
    match op
    case Create(id, d) => Created(w, id, d)
    case Update(id, seen, change) => Updated(w, id, seen, change)
    case Delete(id, panel) => Deleted(w, id, panel)
    case DropApp(app) => (AppDropped(w, app), Fine)
  }

  ghost function Run(w: World, ops: seq<Op>): World {
    if ops == [] then w else Apply(Run(w, ops[..|ops| - 1]), ops[|ops| - 1]).0
  }

  // ---------------------------------------------------------------------------
  // What every run keeps
  // ---------------------------------------------------------------------------

  ghost predicate IsPrimary(rows: Table, id: string, app: string) {
    id in rows && rows[id].app == Some(app) && rows[id].primary
  }

  ghost predicate OnePrimary(rows: Table) {
    forall i, j, app :: IsPrimary(rows, i, app) && IsPrimary(rows, j, app) ==> i == j
  }

  ghost predicate NamesUnique(rows: Table) {
    forall i, j :: i in rows && j in rows && rows[i].name == rows[j].name ==> i == j
  }

  ghost predicate Valid(w: World) {
    && OnePrimary(w.rows) && NamesUnique(w.rows)
    && forall id :: id in w.rows && w.rows[id].app.Some? ==> w.rows[id].app.value in w.apps
  }

  /** A new row, or a changed one, that is primary stands alone once its app's other primaries have
      been demoted. */
  lemma PlacedKeepsOne(rows: Table, id: string, d: Domain)
    requires OnePrimary(rows)
    ensures var rows' := if d.app.Some? && d.primary then Demoted(rows, d.app.value) else rows;
      OnePrimary(rows'[id := d])
  {
    var rows' := if d.app.Some? && d.primary then Demoted(rows, d.app.value) else rows;
    var after := rows'[id := d];
    assert forall i, a :: IsPrimary(after, i, a) && i != id ==> IsPrimary(rows, i, a);
    assert forall i :: d.app.Some? && d.primary && i != id ==> !IsPrimary(after, i, d.app.value);
    assert forall a :: IsPrimary(after, id, a) ==> d.primary && d.app == Some(a);
  }

  lemma DemotedKeepsOne(rows: Table, app: string)
    requires OnePrimary(rows)
    ensures OnePrimary(Demoted(rows, app)) && forall i :: !IsPrimary(Demoted(rows, app), i, app)
  {
    assert forall i, a :: IsPrimary(Demoted(rows, app), i, a) ==> IsPrimary(rows, i, a);
  }

  lemma ApplyKeepsValid(w: World, op: Op)
    requires Valid(w) && (op.Create? ==> op.id !in w.rows)
    ensures Valid(Apply(w, op).0)
  {
    match op
    case Create(id, d) =>
      PlacedKeepsOne(w.rows, id, d);
      hide OnePrimary;
    case Update(id, seen, change) =>
      UpdateKeepsValid(w, id, seen, change);
    case Delete(id, _) =>
      FewerKeepsOne(w.rows, w.rows - {id});
    case DropApp(app) =>
      FewerKeepsOne(w.rows, AppDropped(w, app).rows);
  }

  lemma FewerKeepsOne(rows: Table, rows': Table)
    requires OnePrimary(rows) && forall id :: id in rows' ==> id in rows && rows'[id] == rows[id]
    ensures OnePrimary(rows')
  {
    assert forall i, a :: IsPrimary(rows', i, a) ==> IsPrimary(rows, i, a);
  }

  lemma UpdateKeepsValid(w: World, id: string, seen: Domain, c: Change)
    requires Valid(w)
    ensures Valid(Updated(w, id, seen, c).0)
  {
    var app, primary := NextApp(seen, c), NextPrimary(seen, c);
    if primary {
      DemotedKeepsOne(w.rows, app.value);
    }
    if id in w.rows {
      PlacedKeepsOne(w.rows, id, w.rows[id].(app := app, primary := primary));
    }
    hide OnePrimary, NextApp, NextPrimary;
  }

  /** Every run keeps at most one primary per app. Ids of new rows are fresh. */
  lemma {:induction false} RunKeepsValid(w: World, ops: seq<Op>)
    requires Valid(w)
    requires forall i :: 0 <= i < |ops| && ops[i].Create? ==> ops[i].id !in Run(w, ops[..i]).rows
    ensures Valid(Run(w, ops))
  {
    hide Valid, Apply;
    if ops != [] {
      var n := |ops| - 1;
      var front := ops[..n];
      forall i | 0 <= i < |front| && front[i].Create?
        ensures front[i].id !in Run(w, front[..i]).rows
      {
        assert front[..i] == ops[..i];
      }
      RunKeepsValid(w, front);
      ApplyKeepsValid(Run(w, front), ops[n]);
    }
  }

  /** An operation that makes a domain the primary of an app has taken effect: it is the only one; and
      no app but that one, and the one the domain came from, has a different primary. */
  lemma PrimaryTakesOver(w: World, op: Op, app: string)
    requires Valid(w) && Apply(w, op).1 == Fine
    requires match op
             case Create(id, d) => id !in w.rows && d.primary && d.app == Some(app)
             case Update(id, seen, c) => NextPrimary(seen, c) && NextApp(seen, c) == Some(app)
             case _ => false
    ensures var rows := Apply(w, op).0.rows;
      && (forall i :: IsPrimary(rows, i, app) <==> i == op.id)
      && (forall i, a :: a != app && i != op.id ==> (IsPrimary(rows, i, a) <==> IsPrimary(w.rows, i, a)))
      && (forall a :: a != app ==> !IsPrimary(rows, op.id, a))
  {
    hide Valid, NextApp, NextPrimary, NameTaken;
    var d := if op.Create? then op.d else w.rows[op.id].(app := Some(app), primary := true);
    assert Apply(w, op).0.rows == Demoted(w.rows, app)[op.id := d];
  }

  /** A domain that is bound to an app goes only with the app; one that is not goes only when it is deleted
      and is not the panel's own. */
  lemma GoneIff(w: World, op: Op, id: string)
    requires id in w.rows
    ensures id !in Apply(w, op).0.rows <==>
      var d := w.rows[id];
      || (d.app.Some? && op == DropApp(d.app.value))
      || (op.Delete? && op.id == id && (d.app == None || d.app == Some("")) && !op.panel(d.name))
  {
  }

  /** The domain `id` disappears at operation `k` of the run. */
  ghost predicate GoesAt(w: World, ops: seq<Op>, k: nat, id: string)
    requires k < |ops|
  {
    id in Run(w, ops[..k]).rows && id !in Run(w, ops[..k + 1]).rows
  }

  /** Over whole runs: what goes while it is bound goes with its app, so the panel's own domain, once bound,
      outlives everything but that. */
  lemma BoundGoesWithApp(w: World, ops: seq<Op>, k: nat, id: string)
    requires k < |ops| && GoesAt(w, ops, k, id)
    ensures var d := Run(w, ops[..k]).rows[id];
      && (d.app.Some? && d.app.value != "" ==> ops[k] == DropApp(d.app.value))
      && (d.app.None? ==> ops[k].Delete? && ops[k].id == id && !ops[k].panel(d.name))
  {
    hide Apply;
    assert ops[..k + 1][..k] == ops[..k];
    GoneIff(Run(w, ops[..k]), ops[k], id);
  }

  /** The operation makes a domain of `app` its primary. */
  ghost predicate Promotes(w: World, op: Op, app: string) {
    match op
    case Create(_, d) => Apply(w, op).1 == Fine && d.primary && d.app == Some(app)
    case Update(_, seen, c) =>
      && Apply(w, op).1 != AppNotFound
      && (if c.primary.Some? then c.primary.value else seen.primary)
      && !c.clearApp && c.app != Some("") && (if c.app.Some? then c.app else seen.app) == Some(app)
    case _ => false
  }

  /** What an operation leaves of a domain that stays: its name and its redirect flag always; its app unless
      it is the one updated; and its primary flag unless it is that one or another is made primary instead. */
  lemma KeptRow(w: World, op: Op, id: string)
    requires id in w.rows && id in Apply(w, op).0.rows && (op.Create? ==> op.id != id)
    ensures var d, d' := w.rows[id], Apply(w, op).0.rows[id];
      && d'.name == d.name && d'.force == d.force
      && (!(op.Update? && op.id == id) ==>
        && d'.app == d.app
        && (d'.primary <==> d.primary && !(d.app.Some? && Promotes(w, op, d.app.value))))
  {
    hide NameTaken;
  }

  /** The answers to an update and what it makes of its row: an app asked for has to exist, nothing asked
      leaves the app as it was read, and a domain without an app is never primary. */
  lemma UpdateSays(w: World, id: string, seen: Domain, c: Change)
    ensures var (w', reply) := Updated(w, id, seen, c);
      var asked := !c.clearApp && c.app.Some? && c.app.value != "";
      && (reply == AppNotFound <==>
          || (asked && c.app.value !in w.apps)
          || (!c.clearApp && c.app.None? && seen.app.Some? && seen.app.value !in w.apps && id in w.rows))
      && (reply == AppNotFound ==> w' == w)
      && (reply == NotFound <==> reply != AppNotFound && id !in w.rows)
      && reply in {Fine, NotFound, AppNotFound}
      && (reply == Fine ==>
          var d := w'.rows[id];
          && (asked ==> d.app == c.app)
          && (c.clearApp || c.app == Some("") ==> d.app == None)
          && (!c.clearApp && c.app.None? ==> d.app == seen.app)
          && (d.app.None? ==> !d.primary)
          && (d.app.Some? ==> d.primary == if c.primary.Some? then c.primary.value else seen.primary))
  {
  }

  // ---------------------------------------------------------------------------
  // The service
  // ---------------------------------------------------------------------------

  /** Each method is one transaction; a refusal rolls its statements back. */
  class Domains {
    var rows: Table
    var apps: set<string>

    ghost function Now(): World
      reads this
    {
      World(rows, apps)
    }

    constructor (apps: set<string>)
      ensures Now() == World(map[], apps) && Valid(Now())
    {
      this.rows, this.apps := map[], apps;
    }

    method DemotePrimary(app: string)
      modifies this`rows
      ensures rows == Demoted(old(rows), app)
    {
      rows := map id | id in rows ::
        if rows[id].app == Some(app) && rows[id].primary then rows[id].(primary := false) else rows[id];
    }

    method CreateDomain(id: string, d: Domain) returns (reply: Reply)
      requires Valid(Now()) && id !in rows
      modifies this`rows
      ensures (Now(), reply) == Created(old(Now()), id, d) && Valid(Now())
      ensures reply == AppNotFound <==> d.app.Some? && d.app.value !in apps
      ensures reply == Duplicate <==> reply != AppNotFound && NameTaken(old(rows), d.name)
      ensures if reply == Fine then id in rows && rows[id] == d else rows == old(rows)
    {
      ApplyKeepsValid(Now(), Create(id, d));
      hide Valid;
      var saved := rows;
      if d.app.Some? {
        if d.app.value !in apps {
          return AppNotFound;
        }
        if d.primary {
          DemotePrimary(d.app.value);
        }
      }
      if exists x :: x in rows && rows[x].name == d.name {
        SameNames(saved, rows, d.name);
        rows := saved;
        return Duplicate;
      }
      SameNames(saved, rows, d.name);
      rows := rows[id := d];
      return Fine;
    }

    method UpdateDomain(id: string, seen: Domain, c: Change) returns (reply: Reply)
      requires Valid(Now())
      modifies this`rows
      ensures (Now(), reply) == Updated(old(Now()), id, seen, c) && Valid(Now())
    {
      ApplyKeepsValid(Now(), Update(id, seen, c));
      hide Valid;
      var saved := rows;
      var app := seen.app;
      if c.clearApp {
        app := None;
      } else if c.app.Some? {
        if c.app.value == "" {
          app := None;
        } else if c.app.value !in apps {
          return AppNotFound;
        } else {
          app := c.app;
        }
      }
      var primary := if c.primary.Some? then c.primary.value else seen.primary;
      if app.None? {
        primary := false;
      }
      if primary {
        DemotePrimary(app.value);
      }
      if id !in rows {
        return NotFound;
      }
      if app.Some? && app.value !in apps {
        rows := saved;
        return AppNotFound;
      }
      rows := rows[id := rows[id].(app := app, primary := primary)];
      return Fine;
    }

    method DeleteDomain(id: string, panel: string -> bool) returns (reply: Reply)
      requires Valid(Now())
      modifies this`rows
      ensures (Now(), reply) == Deleted(old(Now()), id, panel) && Valid(Now())
      ensures reply == NotFound <==> id !in old(rows)
      ensures reply == InUseByApp <==> id in old(rows) && old(rows)[id].app.Some? && old(rows)[id].app.value != ""
      ensures reply == InUseByPanel <==> reply !in {NotFound, InUseByApp} && panel(old(rows)[id].name)
      ensures rows == if reply == Fine then old(rows) - {id} else old(rows)
    {
      ApplyKeepsValid(Now(), Delete(id, panel));
      if id !in rows {
        return NotFound;
      }
      if rows[id].app.Some? && rows[id].app.value != "" {
        return InUseByApp;
      }
      if panel(rows[id].name) {
        return InUseByPanel;
      }
      rows := rows - {id};
      return Fine;
    }
  }

  lemma SameNames(rows: Table, rows': Table, name: string)
    requires rows'.Keys == rows.Keys && forall id :: id in rows ==> rows'[id].name == rows[id].name
    ensures NameTaken(rows', name) <==> NameTaken(rows, name)
  {
    if NameTaken(rows, name) {
      var id :| id in rows && rows[id].name == name;
      assert rows'[id].name == name;
    }
  }

  // ---------------------------------------------------------------------------
  // Reading it
  // ---------------------------------------------------------------------------

  /** The list without position `p`. */
  function Without(l: seq<Domain>, p: nat): seq<Domain>
    requires p < |l|
  {
    l[..p] + l[p + 1..]
  }

  function Names(l: seq<Domain>): seq<string> {
    seq(|l|, i requires 0 <= i < |l| => l[i].name)
  }

  /** The first domain flagged primary, or the first of all. */
  function Chosen(l: seq<Domain>): (p: nat)
    requires l != []
    ensures p < |l|
    ensures (exists i :: 0 <= i < |l| && l[i].primary) ==> l[p].primary && forall i :: 0 <= i < p ==> !l[i].primary
    ensures (forall i :: 0 <= i < |l| ==> !l[i].primary) ==> p == 0
  {
    var n := FirstPrimary(l);
    if n < |l| then n else 0
  }

  function FirstPrimary(l: seq<Domain>): (n: nat)
    ensures n <= |l| && (n < |l| ==> l[n].primary) && forall i :: 0 <= i < n ==> !l[i].primary
  {
    if l == [] then 0 else if l[0].primary then 0 else 1 + FirstPrimary(l[1..])
  }

  /** appDomains. Names are never empty. */
  method AppDomains(l: seq<Domain>) returns (primary: string, aliases: seq<string>, force: map<string, bool>)
    requires forall i :: 0 <= i < |l| ==> l[i].name != ""
    ensures l == [] ==> primary == "" && aliases == []
    ensures l != [] ==> primary == l[Chosen(l)].name && aliases == Names(Without(l, Chosen(l)))
    ensures force == Forced(l)
  {
    hide Names, Without, Forced;
    primary, aliases, force := "", [], map[];
    ghost var p := 0;
    NothingRead(l);
    for k := 0 to |l|
      invariant p <= k && (forall i :: 0 <= i < p ==> !l[i].primary)
      invariant force == Forced(l[..k])
      invariant p == k ==> primary == "" && aliases == Names(l[..k])
      invariant p < k ==> l[p].primary && primary == l[p].name && aliases == Names(Without(l[..k], p))
    {
      var d := l[k];
      ReadStep(l, k, p);
      force := force[d.name := d.force];
      if d.primary && primary == "" {
        primary := d.name;
        continue;
      }
      aliases := aliases + [d.name];
      if p == k {
        p := k + 1;
      }
    }
    assert l[..|l|] == l;
    AllRead(l);
    if primary == "" && |aliases| > 0 {
      primary := aliases[0];
      aliases := aliases[1..];
    }
  }

  lemma NothingRead(l: seq<Domain>)
    ensures Names(l[..0]) == [] && Forced(l[..0]) == map[]
  {
  }

  lemma ReadStep(l: seq<Domain>, k: nat, p: nat)
    requires p <= k < |l|
    ensures Forced(l[..k + 1]) == Forced(l[..k])[l[k].name := l[k].force]
    ensures Names(l[..k + 1]) == Names(l[..k]) + [l[k].name]
    ensures p == k ==> Names(Without(l[..k + 1], p)) == Names(l[..k])
    ensures p < k ==> Names(Without(l[..k + 1], p)) == Names(Without(l[..k], p)) + [l[k].name]
  {
    assert l[..k + 1][..k] == l[..k];
    if p < k {
      assert Without(l[..k + 1], p) == Without(l[..k], p) + [l[k]];
    } else {
      assert Without(l[..k + 1], p) == l[..k];
    }
  }

  lemma AllRead(l: seq<Domain>)
    ensures |Names(l)| == |l|
    ensures l != [] ==> Names(l)[0] == l[0].name && Names(l)[1..] == Names(Without(l, 0))
  {
    if l != [] {
      assert Without(l, 0) == l[1..];
    }
  }

  /** The redirect flag by host, the last one counting. */
  function Forced(l: seq<Domain>): map<string, bool> {
    if l == [] then map[] else Forced(l[..|l| - 1])[l[|l| - 1].name := l[|l| - 1].force]
  }

  /** `l` lists exactly the domains of `app`, each once. */
  ghost predicate ListsApp(l: seq<Domain>, ids: seq<string>, rows: Table, app: string) {
    && |ids| == |l|
    && (forall i :: 0 <= i < |l| ==> ids[i] in rows && rows[ids[i]] == l[i] && l[i].app == Some(app))
    && (forall i, j :: 0 <= i < j < |ids| ==> ids[i] != ids[j])
    && (forall id :: id in rows && rows[id].app == Some(app) ==> id in ids)
  }

  /** Primary and aliases together are the app's hosts, none twice; a domain flagged primary is the
      primary; and the redirect flag of every host is its own. */
  lemma AppDomainsPartition(w: World, app: string, l: seq<Domain>, ids: seq<string>)
    requires Valid(w) && ListsApp(l, ids, w.rows, app) && l != []
    ensures var primary, aliases := l[Chosen(l)].name, Names(Without(l, Chosen(l)));
      && (forall h :: (h == primary || h in aliases) <==>
            exists id :: id in w.rows && w.rows[id].app == Some(app) && w.rows[id].name == h)
      && primary !in aliases
      && (forall i, j :: 0 <= i < j < |aliases| ==> aliases[i] != aliases[j])
      && (forall id :: IsPrimary(w.rows, id, app) ==> w.rows[id].name == primary)
    ensures forall i :: 0 <= i < |l| ==> l[i].name in Forced(l) && Forced(l)[l[i].name] == l[i].force
  {
    hide Names, Without, Forced, OnePrimary;
    var p := Chosen(l);
    assert forall i, j :: 0 <= i < j < |l| ==> l[i].name != l[j].name;
    WithoutMembers(l, p);
    ForcedByHost(l);
    forall id | id in w.rows && w.rows[id].app == Some(app)
      ensures exists i :: 0 <= i < |l| && l[i] == w.rows[id] && ids[i] == id
    {
      var i :| 0 <= i < |ids| && ids[i] == id;
      assert l[i] == w.rows[id];
    }
    forall id | IsPrimary(w.rows, id, app)
      ensures id == ids[p]
    {
      var i :| 0 <= i < |l| && l[i] == w.rows[id] && ids[i] == id;
      assert l[i].primary && IsPrimary(w.rows, ids[p], app);
      SameOne(w.rows, id, ids[p], app);
    }
  }

  lemma SameOne(rows: Table, i: string, j: string, app: string)
    requires OnePrimary(rows) && IsPrimary(rows, i, app) && IsPrimary(rows, j, app)
    ensures i == j
  {
  }

  lemma WithoutMembers(l: seq<Domain>, p: nat)
    requires p < |l| && forall i, j :: 0 <= i < j < |l| ==> l[i].name != l[j].name
    ensures var names := Names(Without(l, p));
      && (forall i, j :: 0 <= i < j < |names| ==> names[i] != names[j])
      && (forall h :: h in names <==> exists i :: 0 <= i < |l| && i != p && l[i].name == h)
      && l[p].name !in names
  {
    var names := Names(Without(l, p));
    assert forall i :: 0 <= i < |names| ==> names[i] == l[if i < p then i else i + 1].name;
    forall i | 0 <= i < |l| && i != p
      ensures l[i].name in names
    {
      assert names[if i < p then i else i - 1] == l[i].name;
    }
  }

  lemma {:induction false} ForcedByHost(l: seq<Domain>)
    requires forall i, j :: 0 <= i < j < |l| ==> l[i].name != l[j].name
    ensures forall i :: 0 <= i < |l| ==> l[i].name in Forced(l) && Forced(l)[l[i].name] == l[i].force
  {
    if l != [] {
      var front := l[..|l| - 1];
      ForcedByHost(front);
      assert forall i :: 0 <= i < |front| ==> front[i] == l[i];
    }
  }
}
