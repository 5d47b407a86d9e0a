/** The zero-downtime container swap of a single-container app, one remote call per step.
    Every call may succeed, be refused, or take effect and still report an error. */
module Swap {
  import opened Docker
  import opened RouteMap

  datatype World = World(containers: Fleet, routes: Routes)

  /** What one swap works with. `hosts` is the primary domain followed by its aliases;
      `temp` is the candidate's name and `olds` the names the clean-up loop goes through. */
  datatype Config = Config(
    appName: string,
    containerName: string,
    temp: string,
    olds: seq<string>,
    image: string,
    port: int,
    hosts: seq<string>,
    force: map<string, bool>,
    labels: map<string, string>)
  {
    function Legacy(): string { "prexel-" + appName }
    predicate Force(h: string) { h in force && force[h] }
    predicate ForceAt(i: nat) { i < |hosts| && Force(hosts[i]) }
    function Candidate(): Container { Container({temp}, image, true, labels) }
    /** Where the two loops over the hosts point the routes. */
    function AtTemp(): Target { Target(temp, port) }
    function AtName(): Target { Target(containerName, port) }
    /** The names the app gives up or takes over in a swap. */
    function Gone(): set<string> { (set n | n in olds) + {temp, containerName} }
    /** The clean-up loop never names the candidate. */
    predicate WellNamed() { temp != containerName && temp !in olds }
  }

  /** The names a swap derives from the app row and the image's short sha. */
  function Configure(appName: string, rowName: string, shortSha: string, image: string, port: int,
                     hosts: seq<string>, force: map<string, bool>, labels: map<string, string>): Config
  {
    var name := if rowName == "" then appName else rowName;
    Config(appName, name, name + "-deploying-" + shortSha, Dedupe([name, "prexel-" + appName]),
           image, port, hosts, force, labels)
  }

  /** Names in order of first appearance, empty ones dropped. */
  function Dedupe(names: seq<string>): (r: seq<string>)
    ensures forall n :: n in r <==> n in names && n != ""
    ensures forall i, j :: 0 <= i < j < |r| ==> r[i] != r[j]
  {
    if names == [] then []
    else
      var front := Dedupe(names[..|names| - 1]);
      var n := names[|names| - 1];
      assert names == names[..|names| - 1] + [n];
      if n == "" || n in front then front else front + [n]
  }

  method LegacyDedupe(names: seq<string>) returns (out: seq<string>)
    ensures out == Dedupe(names)
  {
    var seen: set<string> := {};
    out := [];
    for i := 0 to |names|
      invariant out == Dedupe(names[..i])
      invariant seen == set n | n in out
    {
      assert names[..i + 1][..i] == names[..i];
      var n := names[i];
      if n != "" && n !in seen {
        seen := seen + {n};
        out := out + [n];
      }
    }
    assert names[..|names|] == names;
  }

  /** The candidate name differs from every name the clean-up loop removes exactly when it is
      not the legacy name, as it never is for an app whose container is named after it, with or
      without the old prefix. */
  lemma CandidateNameIsItsOwn(appName: string, rowName: string, shortSha: string, image: string, port: int,
                              hosts: seq<string>, force: map<string, bool>, labels: map<string, string>)
    ensures var cfg := Configure(appName, rowName, shortSha, image, port, hosts, force, labels);
      && cfg.containerName == (if rowName == "" then appName else rowName)
      && cfg.temp == cfg.containerName + "-deploying-" + shortSha
      && cfg.olds == (if cfg.containerName in {"", "prexel-" + appName} then ["prexel-" + appName]
                      else [cfg.containerName, "prexel-" + appName])
      && cfg == Config(appName, cfg.containerName, cfg.temp, cfg.olds, image, port, hosts, force, labels)
      && (cfg.WellNamed() <==> cfg.temp != cfg.Legacy())
      && (cfg.containerName in cfg.olds <==> cfg.containerName != "")
      && (rowName in {"", appName, cfg.Legacy()} ==> cfg.WellNamed())
  {
    var cfg := Configure(appName, rowName, shortSha, image, port, hosts, force, labels);
    assert |cfg.temp| == |cfg.containerName| + 11 + |shortSha|;
    assert |cfg.Legacy()| == 7 + |appName|;
    assert forall n :: n in [cfg.containerName, cfg.Legacy()] <==> n == cfg.containerName || n == cfg.Legacy();
    assert cfg.Legacy() != "";
    TwoNames(cfg.containerName, cfg.Legacy());
  }

  lemma TwoNames(a: string, b: string)
    requires b != ""
    ensures Dedupe([a, b]) == if a == "" || a == b then [b] else [a, b]
  {
    assert [a, b][..1] == [a] && [a][..0] == [];
    assert Dedupe([a]) == if a == "" then [] else [a];
  }

  datatype Stage = AtPrepare | AtRun | AtHealth | AtRoute | AtRename

  datatype Pc =
    | Prepare
    | PreStop(j: nat) | PreRemove(j: nat)
    | RemoveStale
    | CreateCandidate | StartCandidate | DropHalfCreated
    | HealthCheck | RollbackStop | RollbackRemove
    | RouteHost(i: nat) | RouteSibling(i: nat)
    | StopOld(j: nat) | RemoveOld(j: nat)
    | RenameCandidate
    | RerouteHost(i: nat) | RerouteSibling(i: nat)
    | Succeeded | Failed(stage: Stage)

  datatype State = State(pc: Pc, w: World)

  function ToPreStop(cfg: Config, j: nat): Pc { if j < |cfg.olds| then PreStop(j) else RemoveStale }
  function ToRoute(cfg: Config, i: nat): Pc { if i < |cfg.hosts| then RouteHost(i) else ToStopOld(cfg, 0) }
  function ToStopOld(cfg: Config, j: nat): Pc { if j < |cfg.olds| then StopOld(j) else RenameCandidate }
  function ToReroute(cfg: Config, i: nat): Pc { if i < |cfg.hosts| then RerouteHost(i) else Succeeded }

  predicate Halted(cfg: Config, pc: Pc) {
    match pc
    case Succeeded => true
    case Failed(_) => true
    case PreStop(j) => j >= |cfg.olds|
    case PreRemove(j) => j >= |cfg.olds|
    case StopOld(j) => j >= |cfg.olds|
    case RemoveOld(j) => j >= |cfg.olds|
    case RouteHost(i) => i >= |cfg.hosts|
    case RouteSibling(i) => i >= |cfg.hosts|
    case RerouteHost(i) => i >= |cfg.hosts|
    case RerouteSibling(i) => i >= |cfg.hosts|
    case _ => false
  }

  /** Where control goes after the call made at `pc` comes to `o`. */
  function NextPc(cfg: Config, pc: Pc, c: Fleet, o: Outcome): Pc {
    match pc
    case Prepare =>
      if !o.Done? then Failed(AtPrepare) else if cfg.hosts == [] then ToPreStop(cfg, 0) else RemoveStale
    case PreStop(j) => PreRemove(j)
    case PreRemove(j) => ToPreStop(cfg, j + 1)
    case RemoveStale => CreateCandidate
    case CreateCandidate => if o.Done? && CanCreate(c, cfg.temp) then StartCandidate else Failed(AtRun)
    case StartCandidate => if o.Done? then HealthCheck else DropHalfCreated
    case DropHalfCreated => Failed(AtRun)
    case HealthCheck => if o.Done? then ToRoute(cfg, 0) else RollbackStop
    case RollbackStop => RollbackRemove
    case RollbackRemove => Failed(AtHealth)
    case RouteHost(i) => if PutOk(o) then RouteSibling(i) else Failed(AtRoute)
    case RouteSibling(i) => if SiblingOk(cfg.ForceAt(i), o) then ToRoute(cfg, i + 1) else Failed(AtRoute)
    case StopOld(j) => RemoveOld(j)
    case RemoveOld(j) => ToStopOld(cfg, j + 1)
    case RenameCandidate =>
      if o.Done? && CanRename(c, cfg.temp, cfg.containerName) then ToReroute(cfg, 0) else Failed(AtRename)
    case RerouteHost(i) => if PutOk(o) then RerouteSibling(i) else ToReroute(cfg, i + 1)
    case RerouteSibling(i) => ToReroute(cfg, i + 1)
    case Succeeded => pc
    case Failed(_) => pc
  }

  /** What that call does to the containers. */
  function NextContainers(cfg: Config, pc: Pc, c: Fleet, o: Outcome): Fleet
    requires !Halted(cfg, pc)
  {
    match pc
    case PreStop(j) => Stop(c, cfg.olds[j], o)
    case PreRemove(j) => Remove(c, cfg.olds[j], o)
    case RemoveStale => Remove(c, cfg.temp, o)
    case CreateCandidate => Create(c, cfg.temp, cfg.Candidate(), o)
    case StartCandidate => Start(c, cfg.temp, o)
    case DropHalfCreated => Remove(c, cfg.temp, o)
    case RollbackStop => Stop(c, cfg.temp, o)
    case RollbackRemove => Remove(c, cfg.temp, o)
    case StopOld(j) => Stop(c, cfg.olds[j], o)
    case RemoveOld(j) => Remove(c, cfg.olds[j], o)
    case RenameCandidate => Rename(c, cfg.temp, cfg.containerName, o)
    case _ => c
  }

  /** What that call does to the routes. */
  function NextRoutes(cfg: Config, pc: Pc, r: Routes, o: Outcome): Routes
    requires !Halted(cfg, pc)
  {
    match pc
    case RouteHost(i) => PutRoute(r, cfg.hosts[i], Canonical, Target(cfg.temp, cfg.port), o)
    case RouteSibling(i) => PutSibling(r, cfg.hosts[i], cfg.Force(cfg.hosts[i]), Target(cfg.temp, cfg.port), o)
    case RerouteHost(i) => PutRoute(r, cfg.hosts[i], Canonical, Target(cfg.containerName, cfg.port), o)
    case RerouteSibling(i) => PutSibling(r, cfg.hosts[i], cfg.Force(cfg.hosts[i]),
      Target(cfg.containerName, cfg.port), o)
    case _ => r
  }

  function Next(cfg: Config, s: State, o: Outcome): State {
    if Halted(cfg, s.pc) then s
    else
      State(NextPc(cfg, s.pc, s.w.containers, o),
            World(NextContainers(cfg, s.pc, s.w.containers, o), NextRoutes(cfg, s.pc, s.w.routes, o)))
  }

  /** The state after `k` calls when the i-th call comes to `o(i)`. */
  function StateAt(cfg: Config, s0: State, o: nat -> Outcome, k: nat): State {
    if k == 0 then s0 else Next(cfg, StateAt(cfg, s0, o, k - 1), o(k - 1))
  }

  /** A bound on the calls still to come. */
  function CallsLeft(cfg: Config, pc: Pc): nat {
    var h, d := 2 * |cfg.hosts|, 2 * |cfg.olds|;
    if Halted(cfg, pc) then 0 else
    match pc
    case RerouteSibling(i) => h - 2 * i - 1
    case RerouteHost(i) => h - 2 * i
    case RenameCandidate => h + 1
    case RemoveOld(j) => h + d - 2 * j
    case StopOld(j) => h + d - 2 * j + 1
    case RouteSibling(i) => 2 * h + d - 2 * i + 1
    case RouteHost(i) => 2 * h + d - 2 * i + 2
    case RollbackRemove => 1
    case RollbackStop => 2
    case DropHalfCreated => 1
    case HealthCheck => 2 * h + d + 3
    case StartCandidate => 2 * h + d + 4
    case CreateCandidate => 2 * h + d + 5
    case RemoveStale => 2 * h + d + 6
    case PreRemove(j) => 2 * h + 2 * d - 2 * j + 6
    case PreStop(j) => 2 * h + 2 * d - 2 * j + 7
    case Prepare => 2 * h + 2 * d + 8
  }

  lemma RouteCallCounts(cfg: Config, pc: Pc, c: Fleet, o: Outcome)
    requires !Halted(cfg, pc)
    requires pc.RouteHost? || pc.RouteSibling? || pc.RerouteHost? || pc.RerouteSibling?
    ensures CallsLeft(cfg, NextPc(cfg, pc, c, o)) < CallsLeft(cfg, pc)
  {
  }

  lemma CleanupCallCounts(cfg: Config, pc: Pc, c: Fleet, o: Outcome)
    requires !Halted(cfg, pc)
    requires pc.PreStop? || pc.PreRemove? || pc.StopOld? || pc.RemoveOld?
    ensures CallsLeft(cfg, NextPc(cfg, pc, c, o)) < CallsLeft(cfg, pc)
  {
  }

  lemma EachCallCounts(cfg: Config, pc: Pc, c: Fleet, o: Outcome)
    requires !Halted(cfg, pc)
    ensures CallsLeft(cfg, NextPc(cfg, pc, c, o)) < CallsLeft(cfg, pc)
  {
    if pc.RouteHost? || pc.RouteSibling? || pc.RerouteHost? || pc.RerouteSibling? {
      RouteCallCounts(cfg, pc, c, o);
    } else if pc.PreStop? || pc.PreRemove? || pc.StopOld? || pc.RemoveOld? {
      CleanupCallCounts(cfg, pc, c, o);
    }
  }

  /** Where a swap standing at `s` before call `k` ends, and after how many calls in all. */
  function Finish(cfg: Config, s: State, o: nat -> Outcome, k: nat): (State, nat)
    decreases CallsLeft(cfg, s.pc)
  {
    if Halted(cfg, s.pc) then (s, k)
    else
      EachCallCounts(cfg, s.pc, s.w.containers, o(k));
      Finish(cfg, Next(cfg, s, o(k)), o, k + 1)
  }

  /** Every swap ends, and where it ends is a state of its run. */
  lemma {:induction false} FinishIsStateAt(cfg: Config, s0: State, o: nat -> Outcome, k: nat)
    ensures var (s, n) := Finish(cfg, StateAt(cfg, s0, o, k), o, k);
            StateAt(cfg, s0, o, n) == s && Halted(cfg, s.pc)
    decreases CallsLeft(cfg, StateAt(cfg, s0, o, k).pc)
  {
    var s := StateAt(cfg, s0, o, k);
    if !Halted(cfg, s.pc) {
      EachCallCounts(cfg, s.pc, s.w.containers, o(k));
      FinishIsStateAt(cfg, s0, o, k + 1);
    }
  }

  function Begin(w: World): State { State(Prepare, w) }

  /** Every route of every host of the app leads to a running container not named in `avoid`. */
  ghost predicate ServedAvoiding(hosts: seq<string>, w: World, avoid: set<string>) {
    forall h :: h in hosts ==> HostServed(w, h, avoid)
  }

  ghost predicate HostServed(w: World, h: string, avoid: set<string>) {
    && RouteKey(h, Canonical) in w.routes
    && forall k :: RouteKey(h, k) in w.routes ==>
                     ResolvesAvoiding(w.containers, w.routes[RouteKey(h, k)].upstream, avoid)
  }

  ghost predicate Served(hosts: seq<string>, w: World) { ServedAvoiding(hosts, w, {}) }

  // ---------------------------------------------------------------------------
  // Invariant of a swap that began in w0
  // ---------------------------------------------------------------------------

  /** Nothing but the candidate's own name has been touched. */
  predicate Untouched(cfg: Config, w0: World, w: World) {
    w.containers - {cfg.temp} == w0.containers - {cfg.temp}
  }

  predicate CandidateUp(cfg: Config, w: World) {
    cfg.temp in w.containers && w.containers[cfg.temp] == cfg.Candidate()
  }

  /** Nothing but the app's old names and the candidate's has been touched. */
  predicate OthersKept(cfg: Config, w0: World, w: World) {
    w.containers - cfg.Gone() == w0.containers - cfg.Gone()
  }

  predicate SameRoute(w0: World, w: World, key: RouteKey)
    requires key in w.routes
  {
    key in w0.routes && w.routes[key] == w0.routes[key]
  }

  /** Each route of the app is either as it was or already at the candidate. */
  ghost predicate RoutesMixed(cfg: Config, w0: World, w: World) {
    forall h :: h in cfg.hosts ==>
      && (RouteKey(h, Canonical) in w0.routes ==> RouteKey(h, Canonical) in w.routes)
      && forall k :: RouteKey(h, k) in w.routes ==>
           w.routes[RouteKey(h, k)] == cfg.AtTemp() || SameRoute(w0, w, RouteKey(h, k))
  }

  /** Host `h` has been gone through: each of its routes is one of `ups`, or, unless the run is
      plain, is shadowed and as it was; and a sibling that had to go is gone. */
  ghost predicate HostMoved(cfg: Config, w0: World, w: World, h: string, ups: set<Target>, plain: bool) {
    && RouteKey(h, Canonical) in w.routes
    && (cfg.Force(h) ==> RouteKey(h, HttpSibling) !in w.routes)
    && forall k :: RouteKey(h, k) in w.routes ==>
         w.routes[RouteKey(h, k)] in ups || (!plain && SameRoute(w0, w, RouteKey(h, k)))
  }

  ghost predicate MovedBefore(cfg: Config, w0: World, w: World, i: nat, plain: bool) {
    forall m :: 0 <= m < i && m < |cfg.hosts| ==> HostMoved(cfg, w0, w, cfg.hosts[m], {cfg.AtTemp()}, plain)
  }

  ghost predicate AllMoved(cfg: Config, w0: World, w: World, ups: set<Target>, plain: bool) {
    forall h :: h in cfg.hosts ==> HostMoved(cfg, w0, w, h, ups, plain)
  }

  predicate CanonicalUp(cfg: Config, w: World) {
    cfg.containerName in w.containers && w.containers[cfg.containerName] == cfg.Candidate()
  }

  /** Before the routes are touched. */
  predicate Before(cfg: Config, w0: World, w: World) {
    w.routes == w0.routes && (cfg.hosts != [] ==> Untouched(cfg, w0, w))
  }

  /** While they are. */
  ghost predicate During(cfg: Config, w0: World, w: World, i: nat, plain: bool) {
    && i < |cfg.hosts| && Untouched(cfg, w0, w) && CandidateUp(cfg, w)
    && RoutesMixed(cfg, w0, w) && MovedBefore(cfg, w0, w, i, plain)
  }

  /** After that, up to the rename and from the rename on. */
  ghost predicate Switched(cfg: Config, w0: World, w: World, plain: bool) {
    && (cfg.hosts != [] ==> OthersKept(cfg, w0, w))
    && AllMoved(cfg, w0, w, {cfg.AtTemp()}, plain)
  }

  ghost predicate Renamed(cfg: Config, w0: World, w: World, plain: bool) {
    && (cfg.hosts != [] ==> OthersKept(cfg, w0, w)) && CanonicalUp(cfg, w)
    && AllMoved(cfg, w0, w, {cfg.AtTemp(), cfg.AtName()}, plain)
  }

  /** What holds at each point of a swap that began in `w0`; in a plain run no upsert has been shadowed. */
  ghost predicate Inv(cfg: Config, w0: World, s: State, plain: bool) {
    var w := s.w;
    match s.pc
    case Prepare => w == w0
    case PreStop(_) => cfg.hosts == [] && w.routes == w0.routes
    case PreRemove(_) => cfg.hosts == [] && w.routes == w0.routes
    case RemoveStale => Before(cfg, w0, w)
    case CreateCandidate => Before(cfg, w0, w)
    case StartCandidate =>
      && Before(cfg, w0, w)
      && cfg.temp in w.containers && w.containers[cfg.temp] == cfg.Candidate().(running := false)
    case DropHalfCreated => Before(cfg, w0, w)
    case HealthCheck => Before(cfg, w0, w) && CandidateUp(cfg, w)
    case RollbackStop => Before(cfg, w0, w)
    case RollbackRemove => Before(cfg, w0, w)
    case RouteHost(i) => During(cfg, w0, w, i, plain)
    case RouteSibling(i) =>
      && During(cfg, w0, w, i, plain)
      && RouteKey(cfg.hosts[i], Canonical) in w.routes
      && (plain ==> w.routes[RouteKey(cfg.hosts[i], Canonical)] == cfg.AtTemp())
    case StopOld(j) => j < |cfg.olds| && CandidateUp(cfg, w) && Switched(cfg, w0, w, plain)
    case RemoveOld(j) => j < |cfg.olds| && CandidateUp(cfg, w) && Switched(cfg, w0, w, plain)
    case RenameCandidate => CandidateUp(cfg, w) && Switched(cfg, w0, w, plain)
    case RerouteHost(i) => i < |cfg.hosts| && Renamed(cfg, w0, w, plain)
    case RerouteSibling(i) => i < |cfg.hosts| && Renamed(cfg, w0, w, plain)
    case Succeeded => Renamed(cfg, w0, w, plain)
    case Failed(AtRoute) => Untouched(cfg, w0, w) && CandidateUp(cfg, w) && RoutesMixed(cfg, w0, w)
    case Failed(AtRename) => Switched(cfg, w0, w, plain) && (CandidateUp(cfg, w) || CanonicalUp(cfg, w))
    case Failed(AtPrepare) => w == w0
    case Failed(_) => Before(cfg, w0, w)
  }

  /** Publishing or dropping routes of one host keeps another one, or the same one, moved. */
  lemma PutKeepsMoved(cfg: Config, w0: World, w: World, h: string, g: string, k: Kind, t: Target, o: Outcome,
                      ups: set<Target>, plain: bool)
    requires HostMoved(cfg, w0, w, h, ups, plain) && t in ups && !(k.HttpSibling? && cfg.Force(g))
    ensures HostMoved(cfg, w0, w.(routes := PutRoute(w.routes, g, k, t, o)), h, ups, plain)
  {
  }

  lemma SiblingKeepsMoved(cfg: Config, w0: World, w: World, h: string, g: string, t: Target, o: Outcome,
                          ups: set<Target>, plain: bool)
    requires HostMoved(cfg, w0, w, h, ups, plain) && t in ups
    ensures HostMoved(cfg, w0, w.(routes := PutSibling(w.routes, g, cfg.Force(g), t, o)), h, ups, plain)
  {
  }

  lemma RouteHostKeepsInv(cfg: Config, w0: World, s: State, o: Outcome, plain: bool)
    requires Inv(cfg, w0, s, plain) && s.pc.RouteHost? && (plain ==> !o.Shadowed?)
    ensures Inv(cfg, w0, Next(cfg, s, o), plain)
  {
    var i, t, w := s.pc.i, Target(cfg.temp, cfg.port), Next(cfg, s, o).w;
    assert RoutesMixed(cfg, w0, w);
    forall m | 0 <= m < i
      ensures HostMoved(cfg, w0, w, cfg.hosts[m], {cfg.AtTemp()}, plain)
    {
      PutKeepsMoved(cfg, w0, s.w, cfg.hosts[m], cfg.hosts[i], Canonical, t, o, {cfg.AtTemp()}, plain);
    }
  }

  lemma RouteSiblingKeepsInv(cfg: Config, w0: World, s: State, o: Outcome, plain: bool)
    requires Inv(cfg, w0, s, plain) && s.pc.RouteSibling? && (plain ==> !o.Shadowed?)
    ensures Inv(cfg, w0, Next(cfg, s, o), plain)
  {
    var i, t, w := s.pc.i, Target(cfg.temp, cfg.port), Next(cfg, s, o).w;
    assert RoutesMixed(cfg, w0, w);
    forall m | 0 <= m < i
      ensures HostMoved(cfg, w0, w, cfg.hosts[m], {cfg.AtTemp()}, plain)
    {
      SiblingKeepsMoved(cfg, w0, s.w, cfg.hosts[m], cfg.hosts[i], t, o, {cfg.AtTemp()}, plain);
    }
    if SiblingOk(cfg.ForceAt(i), o) {
      SiblingMoves(cfg, w0, s.w, cfg.hosts[i], o, plain);
      assert MovedBefore(cfg, w0, w, i + 1, plain);
      if i + 1 == |cfg.hosts| {
        EveryHostMoved(cfg, w0, w, plain);
        UntouchedKeepsOthers(cfg, w0, w);
      }
    }
  }

  /** Both routes of a host having been published, it has been gone through. */
  lemma SiblingMoves(cfg: Config, w0: World, w: World, h: string, o: Outcome, plain: bool)
    requires RoutesMixed(cfg, w0, w) && h in cfg.hosts && RouteKey(h, Canonical) in w.routes
    requires plain ==> w.routes[RouteKey(h, Canonical)] == cfg.AtTemp() && !o.Shadowed?
    requires SiblingOk(cfg.Force(h), o)
    ensures HostMoved(cfg, w0, w.(routes := PutSibling(w.routes, h, cfg.Force(h), Target(cfg.temp, cfg.port), o)),
                      h, {cfg.AtTemp()}, plain)
  {
    var w' := w.(routes := PutSibling(w.routes, h, cfg.Force(h), Target(cfg.temp, cfg.port), o));
    assert w'.routes[RouteKey(h, Canonical)] == w.routes[RouteKey(h, Canonical)];
    forall k | RouteKey(h, k) in w'.routes
      ensures w'.routes[RouteKey(h, k)] in {cfg.AtTemp()} || (!plain && SameRoute(w0, w', RouteKey(h, k)))
    {
      assert k == Canonical || k == HttpSibling;
    }
  }

  lemma EveryHostMoved(cfg: Config, w0: World, w: World, plain: bool)
    requires MovedBefore(cfg, w0, w, |cfg.hosts|, plain)
    ensures AllMoved(cfg, w0, w, {cfg.AtTemp()}, plain)
  {
    forall h | h in cfg.hosts ensures HostMoved(cfg, w0, w, h, {cfg.AtTemp()}, plain) {
      var m :| 0 <= m < |cfg.hosts| && cfg.hosts[m] == h;
    }
  }

  lemma UntouchedKeepsOthers(cfg: Config, w0: World, w: World)
    requires Untouched(cfg, w0, w)
    ensures OthersKept(cfg, w0, w)
  {
    var gone := cfg.Gone();
    assert w.containers - gone == (w.containers - {cfg.temp}) - gone;
    assert w0.containers - gone == (w0.containers - {cfg.temp}) - gone;
  }

  predicate Early(pc: Pc) {
    || pc.Prepare? || pc.PreStop? || pc.PreRemove? || pc.RemoveStale? || pc.CreateCandidate?
    || pc.StartCandidate? || pc.DropHalfCreated? || pc.HealthCheck? || pc.RollbackStop? || pc.RollbackRemove?
  }

  lemma EarlyStepKeepsInv(cfg: Config, w0: World, s: State, o: Outcome, plain: bool)
    requires Inv(cfg, w0, s, plain) && Early(s.pc)
    ensures Inv(cfg, w0, Next(cfg, s, o), plain)
  {
    hide HostMoved, OthersKept;
  }

  lemma CleanupStepKeepsInv(cfg: Config, w0: World, s: State, o: Outcome, plain: bool)
    requires cfg.WellNamed() && Inv(cfg, w0, s, plain)
    requires s.pc.StopOld? || s.pc.RemoveOld?
    ensures Inv(cfg, w0, Next(cfg, s, o), plain)
  {
    var name, w := cfg.olds[s.pc.j], Next(cfg, s, o).w;
    assert name != cfg.temp && name in cfg.Gone();
    OthersStillKept(cfg, w0, s.w, w, name);
    SameRoutesMoved(cfg, w0, s.w, w, {cfg.AtTemp()}, plain);
    hide HostMoved, OthersKept, AllMoved;
  }

  /** A call that only concerns a name of the app's own. */
  lemma OthersStillKept(cfg: Config, w0: World, w: World, w': World, name: string)
    requires name in cfg.Gone() && w'.containers - {name} == w.containers - {name}
    ensures OthersKept(cfg, w0, w) ==> OthersKept(cfg, w0, w')
  {
    var gone := cfg.Gone();
    assert w.containers - gone == (w.containers - {name}) - gone;
    assert w'.containers - gone == (w'.containers - {name}) - gone;
  }

  lemma SameRoutesMoved(cfg: Config, w0: World, w: World, w': World, ups: set<Target>, plain: bool)
    requires w'.routes == w.routes
    ensures AllMoved(cfg, w0, w, ups, plain) ==> AllMoved(cfg, w0, w', ups, plain)
  {
    if AllMoved(cfg, w0, w, ups, plain) {
      forall h | h in cfg.hosts ensures HostMoved(cfg, w0, w', h, ups, plain) {
        assert HostMoved(cfg, w0, w, h, ups, plain);
      }
    }
  }

  lemma RenameKeepsInv(cfg: Config, w0: World, s: State, o: Outcome, plain: bool)
    requires cfg.WellNamed() && Inv(cfg, w0, s, plain) && s.pc.RenameCandidate?
    ensures Inv(cfg, w0, Next(cfg, s, o), plain)
  {
    var w, gone := Next(cfg, s, o).w, cfg.Gone();
    assert w.containers - gone == s.w.containers - gone;
    SameRoutesMoved(cfg, w0, s.w, w, {cfg.AtTemp()}, plain);
    MovedFurther(cfg, w0, w, plain);
    hide HostMoved, AllMoved;
  }

  lemma MovedFurther(cfg: Config, w0: World, w: World, plain: bool)
    ensures AllMoved(cfg, w0, w, {cfg.AtTemp()}, plain) ==> AllMoved(cfg, w0, w, {cfg.AtTemp(), cfg.AtName()}, plain)
  {
    if AllMoved(cfg, w0, w, {cfg.AtTemp()}, plain) {
      forall h | h in cfg.hosts ensures HostMoved(cfg, w0, w, h, {cfg.AtTemp(), cfg.AtName()}, plain) {
        assert HostMoved(cfg, w0, w, h, {cfg.AtTemp()}, plain);
      }
    }
  }

  lemma RerouteStepKeepsInv(cfg: Config, w0: World, s: State, o: Outcome, plain: bool)
    requires Inv(cfg, w0, s, plain) && (s.pc.RerouteHost? || s.pc.RerouteSibling?)
    ensures Inv(cfg, w0, Next(cfg, s, o), plain)
  {
    var g, t, w := cfg.hosts[s.pc.i], Target(cfg.containerName, cfg.port), Next(cfg, s, o).w;
    var ups := {cfg.AtTemp(), cfg.AtName()};
    forall h | h in cfg.hosts
      ensures HostMoved(cfg, w0, w, h, ups, plain)
    {
      assert HostMoved(cfg, w0, s.w, h, ups, plain);
      if s.pc.RerouteHost? {
        PutKeepsMoved(cfg, w0, s.w, h, g, Canonical, t, o, ups, plain);
      } else {
        SiblingKeepsMoved(cfg, w0, s.w, h, g, t, o, ups, plain);
      }
    }
    hide HostMoved, OthersKept;
  }

  /** One call, however it ends, keeps the invariant. */
  lemma NextKeepsInv(cfg: Config, w0: World, s: State, o: Outcome, plain: bool)
    requires cfg.WellNamed() && Inv(cfg, w0, s, plain) && (plain ==> !o.Shadowed?)
    ensures Inv(cfg, w0, Next(cfg, s, o), plain)
  {
    if Early(s.pc) {
      EarlyStepKeepsInv(cfg, w0, s, o, plain);
    } else if s.pc.RouteHost? {
      RouteHostKeepsInv(cfg, w0, s, o, plain);
    } else if s.pc.RouteSibling? {
      RouteSiblingKeepsInv(cfg, w0, s, o, plain);
    } else if s.pc.StopOld? || s.pc.RemoveOld? {
      CleanupStepKeepsInv(cfg, w0, s, o, plain);
    } else if s.pc.RenameCandidate? {
      RenameKeepsInv(cfg, w0, s, o, plain);
    } else if s.pc.RerouteHost? || s.pc.RerouteSibling? {
      RerouteStepKeepsInv(cfg, w0, s, o, plain);
    } else {
      assert Next(cfg, s, o) == s;
    }
  }

  /** No upsert ends shadowed. */
  ghost predicate Plain(o: nat -> Outcome) { forall i :: !o(i).Shadowed? }

  lemma {:induction false} InvAlongRun(cfg: Config, w0: World, o: nat -> Outcome, k: nat, plain: bool)
    requires cfg.WellNamed() && (plain ==> Plain(o))
    ensures Inv(cfg, w0, StateAt(cfg, Begin(w0), o, k), plain)
  {
    hide Inv, Next;
    if k == 0 {
      BeginInv(cfg, w0, plain);
    } else {
      InvAlongRun(cfg, w0, o, k - 1, plain);
      NextKeepsInv(cfg, w0, StateAt(cfg, Begin(w0), o, k - 1), o(k - 1), plain);
    }
  }

  lemma BeginInv(cfg: Config, w0: World, plain: bool)
    ensures Inv(cfg, w0, Begin(w0), plain)
  {
  }

  // ---------------------------------------------------------------------------
  // Zero downtime
  // ---------------------------------------------------------------------------

  /** The routes of `h` that stay if their upsert is shadowed do no harm: they lead to the candidate's
      name anyway, or to a container that is not one of the app's old ones. */
  ghost predicate Anchored(cfg: Config, w0: World, h: string, avoid: set<string>) {
    forall k :: RouteKey(h, k) in w0.routes && !(k.HttpSibling? && cfg.Force(h)) ==>
      var up := w0.routes[RouteKey(h, k)].upstream;
      up == cfg.temp || ResolvesAvoiding(w0.containers, up, avoid + cfg.Gone())
  }

  lemma RouteServed(cfg: Config, w0: World, s: State, avoid: set<string>, h: string, k: Kind, plain: bool)
    requires cfg.WellNamed() && Inv(cfg, w0, s, plain) && h in cfg.hosts
    requires HostServed(w0, h, avoid + {cfg.temp}) && (plain || Anchored(cfg, w0, h, avoid))
    requires cfg.temp !in avoid && cfg.containerName !in avoid
    requires RouteKey(h, k) in s.w.routes
    ensures ResolvesAvoiding(s.w.containers, s.w.routes[RouteKey(h, k)].upstream, avoid)
  {
    var key, c := RouteKey(h, k), s.w.containers;
    var up := s.w.routes[key].upstream;
    if SameRoute(w0, s.w, key) && Untouched(cfg, w0, s.w) {
      var n :| n in w0.containers && n !in avoid + {cfg.temp} && Answers(n, w0.containers[n], up);
      assert n in w0.containers - {cfg.temp};
      assert n in c && c[n] == w0.containers[n];
    } else if up == cfg.temp || (up == cfg.containerName && CanonicalUp(cfg, s.w)) {
      CandidateAnswers(cfg, w0, s, avoid, up, plain);
    } else {
      StuckRoute(cfg, w0, s, h, k, plain);
      var n :| n in w0.containers && n !in avoid + cfg.Gone() && Answers(n, w0.containers[n], up);
      assert n in w0.containers - cfg.Gone();
      assert n in c && c[n] == w0.containers[n];
    }
  }

  lemma CandidateAnswers(cfg: Config, w0: World, s: State, avoid: set<string>, up: string, plain: bool)
    requires Inv(cfg, w0, s, plain) && (CandidateUp(cfg, s.w) || CanonicalUp(cfg, s.w))
    requires cfg.temp !in avoid && cfg.containerName !in avoid
    requires up == cfg.temp || (up == cfg.containerName && CanonicalUp(cfg, s.w))
    ensures ResolvesAvoiding(s.w.containers, up, avoid)
  {
    if CanonicalUp(cfg, s.w) {
      assert Answers(cfg.containerName, s.w.containers[cfg.containerName], up);
    } else {
      assert Answers(cfg.temp, s.w.containers[cfg.temp], up);
    }
  }

  /** A route that is neither untouched nor at the candidate is one whose upsert was shadowed. */
  lemma StuckRoute(cfg: Config, w0: World, s: State, h: string, k: Kind, plain: bool)
    requires Inv(cfg, w0, s, plain) && h in cfg.hosts && RouteKey(h, k) in s.w.routes
    requires var up := s.w.routes[RouteKey(h, k)].upstream;
      up != cfg.temp && !(up == cfg.containerName && CanonicalUp(cfg, s.w))
    requires !(SameRoute(w0, s.w, RouteKey(h, k)) && Untouched(cfg, w0, s.w))
    ensures !plain && SameRoute(w0, s.w, RouteKey(h, k)) && !(k.HttpSibling? && cfg.Force(h))
      && OthersKept(cfg, w0, s.w)
  {
  }

  /** What the invariant gives for the outside world: whichever names other than the
      candidate's a host did not need before the swap it does not need during it either. */
  lemma InvServes(cfg: Config, w0: World, s: State, avoid: set<string>, h: string, plain: bool)
    requires cfg.WellNamed() && Inv(cfg, w0, s, plain) && h in cfg.hosts
    requires HostServed(w0, h, avoid + {cfg.temp}) && (plain || Anchored(cfg, w0, h, avoid))
    requires cfg.temp !in avoid && cfg.containerName !in avoid
    ensures HostServed(s.w, h, avoid)
  {
    CanonicalStays(cfg, w0, s, h, plain);
    hide Inv, ResolvesAvoiding, Anchored;
    forall k | RouteKey(h, k) in s.w.routes
      ensures ResolvesAvoiding(s.w.containers, s.w.routes[RouteKey(h, k)].upstream, avoid)
    {
      RouteServed(cfg, w0, s, avoid, h, k, plain);
    }
  }

  lemma CanonicalStays(cfg: Config, w0: World, s: State, h: string, plain: bool)
    requires Inv(cfg, w0, s, plain) && h in cfg.hosts && RouteKey(h, Canonical) in w0.routes
    ensures RouteKey(h, Canonical) in s.w.routes
  {
  }

  /** At every step, for every outcome of every call, a host of the app that is served keeps a container:
      on plain runs always, and on any run if its routes are anchored. */
  lemma AlwaysServed(cfg: Config, w0: World, o: nat -> Outcome, k: nat, avoid: set<string>, h: string)
    requires cfg.WellNamed() && h in cfg.hosts
    requires HostServed(w0, h, avoid + {cfg.temp}) && (Plain(o) || Anchored(cfg, w0, h, avoid))
    requires cfg.temp !in avoid && cfg.containerName !in avoid
    ensures HostServed(StateAt(cfg, Begin(w0), o, k).w, h, avoid)
  {
    InvAlongRun(cfg, w0, o, k, Plain(o));
    hide StateAt;
    InvServes(cfg, w0, StateAt(cfg, Begin(w0), o, k), avoid, h, Plain(o));
  }

  /** Host `h` is not down after any number of calls, however each call ends. */
  ghost predicate HostNeverDown(cfg: Config, w0: World, h: string) {
    forall o: nat -> Outcome, k: nat :: HostServed(StateAt(cfg, Begin(w0), o, k).w, h, {})
  }

  /** The same if no upsert is shadowed. */
  ghost predicate HostNeverDownPlain(cfg: Config, w0: World, h: string) {
    forall o: nat -> Outcome, k: nat :: Plain(o) ==> HostServed(StateAt(cfg, Begin(w0), o, k).w, h, {})
  }

  /** No host is down after any number of calls, however each call ends. */
  ghost predicate NeverDown(cfg: Config, w0: World) {
    forall o: nat -> Outcome, k: nat :: Served(cfg.hosts, StateAt(cfg, Begin(w0), o, k).w)
  }

  /** For each host: without shadowed upserts zero downtime holds on every run exactly when the host does
      not need a container that already bears the candidate's name. */
  lemma PlainZeroDowntimeIff(cfg: Config, w0: World, h: string)
    requires cfg.WellNamed() && h in cfg.hosts
    ensures HostNeverDownPlain(cfg, w0, h) <==> HostServed(w0, h, {cfg.temp})
  {
    if HostServed(w0, h, {cfg.temp}) {
      forall o: nat -> Outcome, k: nat | Plain(o)
        ensures HostServed(StateAt(cfg, Begin(w0), o, k).w, h, {})
      {
        assert {} + {cfg.temp} == {cfg.temp};
        AlwaysServed(cfg, w0, o, k, {}, h);
      }
    }
    if HostNeverDownPlain(cfg, w0, h) {
      var o := (i: nat) => Done;
      assert Plain(o);
      StaleRemovalExposes(cfg, w0, o, h);
    }
  }

  /** For each host, over all runs: zero downtime holds exactly when, besides, every route whose upsert
      may be shadowed leads to the candidate's name or to a container that is not one of the app's own. */
  lemma HostZeroDowntimeIff(cfg: Config, w0: World, h: string)
    requires cfg.WellNamed() && cfg.containerName in cfg.olds && h in cfg.hosts
    ensures HostNeverDown(cfg, w0, h) <==> HostServed(w0, h, {cfg.temp}) && Anchored(cfg, w0, h, {})
  {
    if HostServed(w0, h, {cfg.temp}) && Anchored(cfg, w0, h, {}) {
      forall o: nat -> Outcome, k: nat
        ensures HostServed(StateAt(cfg, Begin(w0), o, k).w, h, {})
      {
        assert {} + {cfg.temp} == {cfg.temp};
        AlwaysServed(cfg, w0, o, k, {}, h);
      }
    }
    if HostNeverDown(cfg, w0, h) {
      StaleRemovalExposes(cfg, w0, (i: nat) => Done, h);
      ShadowExposes(cfg, w0, h);
    }
  }

  /** For the app as a whole. */
  lemma ZeroDowntimeIff(cfg: Config, w0: World)
    requires cfg.WellNamed() && cfg.containerName in cfg.olds
    ensures NeverDown(cfg, w0) <==>
            ServedAvoiding(cfg.hosts, w0, {cfg.temp}) && forall h :: h in cfg.hosts ==> Anchored(cfg, w0, h, {})
  {
    hide StateAt, HostServed, Anchored;
    forall h | h in cfg.hosts
      ensures HostNeverDown(cfg, w0, h) <==> HostServed(w0, h, {cfg.temp}) && Anchored(cfg, w0, h, {})
    {
      HostZeroDowntimeIff(cfg, w0, h);
    }
    if forall h :: h in cfg.hosts ==> HostNeverDown(cfg, w0, h) {
      forall o: nat -> Outcome, k: nat
        ensures Served(cfg.hosts, StateAt(cfg, Begin(w0), o, k).w)
      {
      }
    }
    if NeverDown(cfg, w0) {
      forall h | h in cfg.hosts ensures HostNeverDown(cfg, w0, h) {
        forall o: nat -> Outcome, k: nat
          ensures HostServed(StateAt(cfg, Begin(w0), o, k).w, h, {})
        {
          assert Served(cfg.hosts, StateAt(cfg, Begin(w0), o, k).w);
        }
      }
    }
  }

  /** The run in which nothing fails removes the stale candidate second. */
  lemma StaleRemovalExposes(cfg: Config, w0: World, o: nat -> Outcome, h: string)
    requires h in cfg.hosts && o(0) == Done && o(1) == Done
    requires HostServed(StateAt(cfg, Begin(w0), o, 2).w, h, {})
    ensures HostServed(w0, h, {cfg.temp})
  {
    assert StateAt(cfg, Begin(w0), o, 0) == Begin(w0);
    assert StateAt(cfg, Begin(w0), o, 1) == State(RemoveStale, w0);
    var s2 := StateAt(cfg, Begin(w0), o, 2);
    assert s2.w == w0.(containers := w0.containers - {cfg.temp});
    forall k | RouteKey(h, k) in w0.routes
      ensures ResolvesAvoiding(w0.containers, w0.routes[RouteKey(h, k)].upstream, {cfg.temp})
    {
      var up := s2.w.routes[RouteKey(h, k)].upstream;
      var n :| n in s2.w.containers && n !in {} && Answers(n, s2.w.containers[n], up);
      assert n in w0.containers && n !in {cfg.temp} && Answers(n, w0.containers[n], up);
    }
  }

  // ---------------------------------------------------------------------------
  // The run in which every upsert is shadowed
  // ---------------------------------------------------------------------------

  /** Five calls bring a swap to its routes; then every upsert is shadowed, and all else works. */
  function AllShadowed(cfg: Config): nat -> Outcome {
    (n: nat) =>
      if n < 5 || n >= 5 + 2 * |cfg.hosts| || ((n - 5) % 2 == 1 && cfg.ForceAt((n - 5) / 2)) then Done else Shadowed
  }

  function WithCandidate(cfg: Config, w0: World): Fleet { (w0.containers - {cfg.temp})[cfg.temp := cfg.Candidate()] }

  /** The routes that were there, and did not have to go, are as they were. */
  ghost predicate Stuck(cfg: Config, w0: World, r: Routes) {
    forall h, k :: h in cfg.hosts && RouteKey(h, k) in w0.routes && !(k.HttpSibling? && cfg.Force(h)) ==>
      RouteKey(h, k) in r && r[RouteKey(h, k)] == w0.routes[RouteKey(h, k)]
  }

  lemma ReachesRoutes(cfg: Config, w0: World)
    requires cfg.hosts != []
    ensures StateAt(cfg, Begin(w0), AllShadowed(cfg), 5)
      == State(RouteHost(0), World(WithCandidate(cfg, w0), w0.routes))
  {
    var o, c := AllShadowed(cfg), w0.containers - {cfg.temp};
    assert StateAt(cfg, Begin(w0), o, 0) == Begin(w0);
    assert StateAt(cfg, Begin(w0), o, 1) == State(RemoveStale, w0);
    assert StateAt(cfg, Begin(w0), o, 2) == State(CreateCandidate, World(c, w0.routes));
    var created := World(c[cfg.temp := cfg.Candidate().(running := false)], w0.routes);
    assert StateAt(cfg, Begin(w0), o, 3) == State(StartCandidate, created);
    assert created.containers[cfg.temp := cfg.Candidate()] == WithCandidate(cfg, w0);
    assert StateAt(cfg, Begin(w0), o, 4) == State(HealthCheck, World(WithCandidate(cfg, w0), w0.routes));
  }

  lemma TwoCalls(cfg: Config, s0: State, o: nat -> Outcome, k: nat)
    ensures StateAt(cfg, s0, o, k + 2) == Next(cfg, Next(cfg, StateAt(cfg, s0, o, k), o(k)), o(k + 1))
  {
    hide Next;
    assert StateAt(cfg, s0, o, k + 1) == Next(cfg, StateAt(cfg, s0, o, k), o(k));
  }

  lemma UpsertOutcomes(cfg: Config, i: nat)
    requires i < |cfg.hosts|
    ensures AllShadowed(cfg)(5 + 2 * i) == Shadowed
    ensures AllShadowed(cfg)(5 + 2 * i + 1) == if cfg.ForceAt(i) then Done else Shadowed
  {
  }

  lemma {:induction false} RoutesStuck(cfg: Config, w0: World, i: nat)
    requires cfg.hosts != [] && i <= |cfg.hosts|
    ensures var s := StateAt(cfg, Begin(w0), AllShadowed(cfg), 5 + 2 * i);
      s.pc == ToRoute(cfg, i) && s.w.containers == WithCandidate(cfg, w0) && Stuck(cfg, w0, s.w.routes)
  {
    hide StateAt, Next, AllShadowed, WithCandidate;
    if i == 0 {
      ReachesRoutes(cfg, w0);
    } else {
      RoutesStuck(cfg, w0, i - 1);
      var o, k := AllShadowed(cfg), 5 + 2 * (i - 1);
      TwoCalls(cfg, Begin(w0), o, k);
      UpsertOutcomes(cfg, i - 1);
      ShadowedUpsert(cfg, w0, StateAt(cfg, Begin(w0), o, k), i - 1, o(k + 1));
    }
  }

  lemma ShadowedUpsert(cfg: Config, w0: World, s: State, i: nat, o: Outcome)
    requires i < |cfg.hosts| && s.pc == RouteHost(i) && Stuck(cfg, w0, s.w.routes)
    requires o == if cfg.ForceAt(i) then Done else Shadowed
    ensures var t := Next(cfg, Next(cfg, s, Shadowed), o);
      t.pc == ToRoute(cfg, i + 1) && t.w.containers == s.w.containers && Stuck(cfg, w0, t.w.routes)
  {
  }

  function FirstOlds(cfg: Config, j: nat): set<string>
    requires j <= |cfg.olds|
  {
    set n | n in cfg.olds[..j]
  }

  lemma OneMoreOld(cfg: Config, c: Fleet, j: nat)
    requires j < |cfg.olds|
    ensures (c - FirstOlds(cfg, j)) - {cfg.olds[j]} == c - FirstOlds(cfg, j + 1)
  {
    assert cfg.olds[..j + 1] == cfg.olds[..j] + [cfg.olds[j]];
    assert FirstOlds(cfg, j + 1) == FirstOlds(cfg, j) + {cfg.olds[j]};
  }

  lemma {:induction false} OldsDropped(cfg: Config, w0: World, j: nat)
    requires cfg.hosts != [] && j <= |cfg.olds|
    ensures var s := StateAt(cfg, Begin(w0), AllShadowed(cfg), 5 + 2 * |cfg.hosts| + 2 * j);
      && s.pc == ToStopOld(cfg, j) && s.w.containers == WithCandidate(cfg, w0) - FirstOlds(cfg, j)
      && Stuck(cfg, w0, s.w.routes)
  {
    hide StateAt, Next, WithCandidate;
    if j == 0 {
      RoutesStuck(cfg, w0, |cfg.hosts|);
      assert FirstOlds(cfg, 0) == {};
      assert WithCandidate(cfg, w0) - {} == WithCandidate(cfg, w0);
    } else {
      hide FirstOlds;
      OldsDropped(cfg, w0, j - 1);
      var o, k := AllShadowed(cfg), 5 + 2 * |cfg.hosts| + 2 * (j - 1);
      assert o(k) == Done && o(k + 1) == Done;
      hide AllShadowed;
      TwoCalls(cfg, Begin(w0), o, k);
      OneOldDropped(cfg, StateAt(cfg, Begin(w0), o, k), j - 1);
      OneMoreOld(cfg, WithCandidate(cfg, w0), j - 1);
    }
  }

  lemma OneOldDropped(cfg: Config, s: State, j: nat)
    requires j < |cfg.olds| && s.pc == StopOld(j)
    ensures Next(cfg, Next(cfg, s, Done), Done) ==
            State(ToStopOld(cfg, j + 1), World(s.w.containers - {cfg.olds[j]}, s.w.routes))
  {
    assert Stop(s.w.containers, cfg.olds[j], Done) - {cfg.olds[j]} == s.w.containers - {cfg.olds[j]};
  }

  /** There a shadowed route finds only the containers that were never the app's, and the candidate. */
  lemma ShadowExposes(cfg: Config, w0: World, h: string)
    requires cfg.containerName in cfg.olds && h in cfg.hosts && HostNeverDown(cfg, w0, h)
    ensures Anchored(cfg, w0, h, {})
  {
    hide StateAt, WithCandidate, FirstOlds, AllShadowed;
    OldsDropped(cfg, w0, |cfg.olds|);
    var s := StateAt(cfg, Begin(w0), AllShadowed(cfg), 5 + 2 * |cfg.hosts| + 2 * |cfg.olds|);
    assert HostServed(s.w, h, {});
    hide ResolvesAvoiding;
    forall k | RouteKey(h, k) in w0.routes && !(k.HttpSibling? && cfg.Force(h))
      && w0.routes[RouteKey(h, k)].upstream != cfg.temp
      ensures ResolvesAvoiding(w0.containers, w0.routes[RouteKey(h, k)].upstream, {} + cfg.Gone())
    {
      assert s.w.routes[RouteKey(h, k)] == w0.routes[RouteKey(h, k)];
      FoundElsewhere(cfg, w0, s.w.containers, w0.routes[RouteKey(h, k)].upstream);
    }
  }

  lemma FoundElsewhere(cfg: Config, w0: World, e: Fleet, up: string)
    requires cfg.containerName in cfg.olds && e == WithCandidate(cfg, w0) - FirstOlds(cfg, |cfg.olds|)
    requires up != cfg.temp && ResolvesAvoiding(e, up, {})
    ensures ResolvesAvoiding(w0.containers, up, {} + cfg.Gone())
  {
    assert cfg.olds[..|cfg.olds|] == cfg.olds;
    var n :| n in e && n !in {} && Answers(n, e[n], up);
    assert n != cfg.temp && n !in cfg.olds;
    assert n in w0.containers && w0.containers[n] == e[n];
  }

  // ---------------------------------------------------------------------------
  // Deploy after deploy
  // ---------------------------------------------------------------------------

  /** One deploy of the app: its configuration, how its calls end, and how many are made. */
  datatype Deploy = Deploy(cfg: Config, o: nat -> Outcome, steps: nat)

  ghost function After(ds: seq<Deploy>, w0: World): World {
    if ds == [] then w0
    else
      var w := After(ds[..|ds| - 1], w0);
      var d := ds[|ds| - 1];
      StateAt(d.cfg, Begin(w), d.o, d.steps).w
  }

  ghost function Temps(ds: seq<Deploy>): set<string> { set d | d in ds :: d.cfg.temp }

  /** The routes have not been touched yet, or not at all. */
  predicate Unrouted(pc: Pc) { Early(pc) || pc in {Failed(AtPrepare), Failed(AtRun), Failed(AtHealth)} }

  /** The candidate names a route may still depend on: a deploy that got as far as routing adds its
      own, and only a success clears them. */
  ghost function Danger(ds: seq<Deploy>, w0: World): set<string> {
    if ds == [] then {}
    else
      var front, d := ds[..|ds| - 1], ds[|ds| - 1];
      var pc := StateAt(d.cfg, Begin(After(front, w0)), d.o, d.steps).pc;
      if pc.Succeeded? then {}
      else if Unrouted(pc) then Danger(front, w0)
      else Danger(front, w0) + {d.cfg.temp}
  }

  /** Deploys of one app while it has the host `h`, whatever its other hosts are each time; no upsert is
      shadowed, and none reuses a candidate name a route may still depend on. */
  ghost predicate SafeDeploys(ds: seq<Deploy>, w0: World, name: string, h: string) {
    ds == [] ||
    var front, d := ds[..|ds| - 1], ds[|ds| - 1];
    && SafeDeploys(front, w0, name, h)
    && d.cfg.WellNamed() && d.cfg.containerName == name && h in d.cfg.hosts && Plain(d.o)
    && d.cfg.temp !in Danger(front, w0)
  }

  /** However many deploys there are, of new images or of old ones again, each cut off anywhere (a
      crash) or failing anywhere, a host once served stays so at every step of the last one, and without
      needing any candidate name but those in danger, as long as no deploy reuses one of those. */
  lemma {:induction false} DeploysStayServed(ds: seq<Deploy>, w0: World, name: string, h: string, all: set<string>)
    requires SafeDeploys(ds, w0, name, h)
    requires Temps(ds) <= all && name !in all && HostServed(w0, h, all)
    ensures HostServed(After(ds, w0), h, all - Danger(ds, w0))
  {
    if ds == [] {
      assert all - {} == all;
    } else {
      var front, d := ds[..|ds| - 1], ds[|ds| - 1];
      assert d in ds && d.cfg.temp in Temps(ds);
      assert Temps(front) <= Temps(ds) by { assert forall x :: x in front ==> x in ds; }
      DeploysStayServed(front, w0, name, h, all);
      hide StateAt, HostServed, Temps, Plain;
      OneMoreDeploy(d, After(front, w0), h, all, Danger(front, w0));
    }
  }

  lemma OneMoreDeploy(d: Deploy, w: World, h: string, all: set<string>, danger: set<string>)
    requires d.cfg.WellNamed() && d.cfg.temp in all && d.cfg.temp !in danger && d.cfg.containerName !in all
    requires h in d.cfg.hosts && Plain(d.o) && HostServed(w, h, all - danger)
    ensures var s := StateAt(d.cfg, Begin(w), d.o, d.steps);
      HostServed(s.w, h,
        if s.pc.Succeeded? then all else if Unrouted(s.pc) then all - danger else all - (danger + {d.cfg.temp}))
  {
    var cfg, s := d.cfg, StateAt(d.cfg, Begin(w), d.o, d.steps);
    InvAlongRun(cfg, w, d.o, d.steps, true);
    hide StateAt, Plain, HostServed;
    if s.pc.Succeeded? {
      InstalledServes(cfg, w, s.w, h, all);
    } else if Unrouted(s.pc) {
      UnroutedServes(cfg, w, s, h, all - danger);
    } else {
      var avoid := all - (danger + {cfg.temp});
      assert avoid + {cfg.temp} == all - danger;
      InvServes(cfg, w, s, avoid, h, true);
    }
  }

  lemma InstalledServes(cfg: Config, w0: World, w: World, h: string, avoid: set<string>)
    requires Renamed(cfg, w0, w, true) && h in cfg.hosts && cfg.containerName !in avoid
    ensures HostServed(w, h, avoid)
  {
    assert HostMoved(cfg, w0, w, h, {cfg.AtTemp(), cfg.AtName()}, true);
    assert Answers(cfg.containerName, w.containers[cfg.containerName], cfg.temp);
    assert Answers(cfg.containerName, w.containers[cfg.containerName], cfg.containerName);
  }

  lemma UnroutedServes(cfg: Config, w0: World, s: State, h: string, avoid: set<string>)
    requires Inv(cfg, w0, s, true) && Unrouted(s.pc) && cfg.temp in avoid && h in cfg.hosts && HostServed(w0, h, avoid)
    ensures HostServed(s.w, h, avoid)
  {
    assert s.w.routes == w0.routes && Untouched(cfg, w0, s.w);
    hide Inv;
    forall k | RouteKey(h, k) in s.w.routes
      ensures ResolvesAvoiding(s.w.containers, s.w.routes[RouteKey(h, k)].upstream, avoid)
    {
      assert w0.containers - avoid == (w0.containers - {cfg.temp}) - avoid;
      assert s.w.containers - avoid == (s.w.containers - {cfg.temp}) - avoid;
      ResolvesElsewhere(w0.containers, s.w.containers, s.w.routes[RouteKey(h, k)].upstream, avoid);
    }
  }

  lemma ResolvesElsewhere(e: Fleet, e': Fleet, upstream: string, avoid: set<string>)
    requires e - avoid == e' - avoid && ResolvesAvoiding(e, upstream, avoid)
    ensures ResolvesAvoiding(e', upstream, avoid)
  {
    var n :| n in e && n !in avoid && Answers(n, e[n], upstream);
    assert n in e - avoid;
    assert n in e' && e'[n] == e[n];
  }

  /** Trying again under the same candidate name after routing failed halfway takes down every
      host that had already been moved, unless some other container answers to that name. */
  lemma RetryAfterRouteFailure(cfg: Config, w0: World, o: nat -> Outcome, k: nat, h: string)
    requires cfg.WellNamed()
    requires !ResolvesAvoiding(w0.containers, cfg.temp, {cfg.temp})
    requires StateAt(cfg, Begin(w0), o, k).pc == Failed(AtRoute)
    requires h in cfg.hosts && RouteKey(h, Canonical) in StateAt(cfg, Begin(w0), o, k).w.routes
    requires StateAt(cfg, Begin(w0), o, k).w.routes[RouteKey(h, Canonical)].upstream == cfg.temp
    ensures !HostNeverDownPlain(cfg, StateAt(cfg, Begin(w0), o, k).w, h)
  {
    var w := StateAt(cfg, Begin(w0), o, k).w;
    InvAlongRun(cfg, w0, o, k, false);
    assert Untouched(cfg, w0, w);
    hide StateAt, Inv;
    if HostServed(w, h, {cfg.temp}) {
      ResolvesElsewhere(w.containers, w0.containers, cfg.temp, {cfg.temp});
    }
    PlainZeroDowntimeIff(cfg, w, h);
  }

  // ---------------------------------------------------------------------------
  // How a swap ends
  // ---------------------------------------------------------------------------

  /** A swap that reports success leaves the new image running under the app's own name. On a plain run
      every route of the app is at that container, by its name or by its candidate alias, and each host is
      ready for a next swap under any candidate name; on any other, a route may also be as it was before. */
  lemma SuccessInstallsCandidate(cfg: Config, w0: World, o: nat -> Outcome, k: nat)
    requires cfg.WellNamed()
    requires StateAt(cfg, Begin(w0), o, k).pc == Succeeded
    ensures var w := StateAt(cfg, Begin(w0), o, k).w;
      && cfg.containerName in w.containers
      && w.containers[cfg.containerName] == Container({cfg.temp}, cfg.image, true, cfg.labels)
      && (cfg.hosts != [] ==> w.containers - cfg.Gone() == w0.containers - cfg.Gone())
      && AllMoved(cfg, w0, w, {Target(cfg.temp, cfg.port), Target(cfg.containerName, cfg.port)}, Plain(o))
      && (Plain(o) ==> forall t, h :: t != cfg.containerName && h in cfg.hosts ==> HostServed(w, h, {t}))
  {
    InvAlongRun(cfg, w0, o, k, Plain(o));
    var w := StateAt(cfg, Begin(w0), o, k).w;
    assert Renamed(cfg, w0, w, Plain(o));
    hide StateAt, Inv, HostServed;
    forall t, h | Plain(o) && t != cfg.containerName && h in cfg.hosts
      ensures HostServed(w, h, {t})
    {
      InstalledServes(cfg, w0, w, h, {t});
    }
  }

  /** A candidate that never started or never became healthy leaves routes and every other
      container exactly as they were. */
  lemma RollbackRestores(cfg: Config, w0: World, o: nat -> Outcome, k: nat, stage: Stage)
    requires cfg.WellNamed() && cfg.hosts != []
    requires StateAt(cfg, Begin(w0), o, k).pc == Failed(stage)
    requires stage == AtPrepare || stage == AtRun || stage == AtHealth
    ensures var w := StateAt(cfg, Begin(w0), o, k).w;
      && w.routes == w0.routes
      && w.containers - {cfg.temp} == w0.containers - {cfg.temp}
      && (cfg.temp !in w.containers ==> w.containers == w0.containers - {cfg.temp})
  {
    InvAlongRun(cfg, w0, o, k, false);
    var w := StateAt(cfg, Begin(w0), o, k).w;
    if cfg.temp !in w.containers {
      assert w.containers == w.containers - {cfg.temp};
    }
  }

  /** A removal that takes effect, of a candidate that did not start or become healthy, leaves the containers
      as they were but for a stale one of that name. */
  lemma RollbackRemoves(cfg: Config, w0: World, o: nat -> Outcome, n: nat, k: nat)
    requires cfg.WellNamed() && cfg.hosts != [] && n < k && o(n).Effect()
    requires StateAt(cfg, Begin(w0), o, n).pc in {RollbackRemove, DropHalfCreated}
    ensures StateAt(cfg, Begin(w0), o, k).w == w0.(containers := w0.containers - {cfg.temp})
  {
    hide Inv, Next;
    var s := StateAt(cfg, Begin(w0), o, n);
    InvAlongRun(cfg, w0, o, n, false);
    RemovalRestores(cfg, w0, s, o(n));
    assert StateAt(cfg, Begin(w0), o, n + 1) == Next(cfg, s, o(n));
    hide StateAt;
    HaltedStays(cfg, Begin(w0), o, n + 1, k);
  }

  lemma RemovalRestores(cfg: Config, w0: World, s: State, o: Outcome)
    requires Inv(cfg, w0, s, false) && cfg.hosts != [] && o.Effect() && s.pc in {RollbackRemove, DropHalfCreated}
    ensures var t := Next(cfg, s, o);
      t.pc.Failed? && Halted(cfg, t.pc) && t.w == w0.(containers := w0.containers - {cfg.temp})
  {
    hide HostMoved, OthersKept;
  }

  /** And that removal is made: right after a start that failed, and after the stop that follows a failed
      health check. */
  lemma FailedCandidateRemoved(cfg: Config, w0: World, o: nat -> Outcome, n: nat, k: nat)
    requires cfg.WellNamed() && cfg.hosts != [] && !o(n).Done?
    requires var pc := StateAt(cfg, Begin(w0), o, n).pc;
      || (pc == StartCandidate && o(n + 1).Effect() && k >= n + 2)
      || (pc == HealthCheck && o(n + 2).Effect() && k >= n + 3)
    ensures StateAt(cfg, Begin(w0), o, k).w == w0.(containers := w0.containers - {cfg.temp})
  {
    hide NextContainers, NextRoutes;
    var s := StateAt(cfg, Begin(w0), o, n);
    assert StateAt(cfg, Begin(w0), o, n + 1) == Next(cfg, s, o(n));
    if s.pc == StartCandidate {
      RollbackRemoves(cfg, w0, o, n + 1, k);
    } else {
      assert StateAt(cfg, Begin(w0), o, n + 2) == Next(cfg, Next(cfg, s, o(n)), o(n + 1));
      RollbackRemoves(cfg, w0, o, n + 2, k);
    }
  }

  lemma {:induction false} HaltedStays(cfg: Config, s0: State, o: nat -> Outcome, n: nat, k: nat)
    requires n <= k && Halted(cfg, StateAt(cfg, s0, o, n).pc)
    ensures StateAt(cfg, s0, o, k) == StateAt(cfg, s0, o, n)
  {
    if n < k {
      HaltedStays(cfg, s0, o, n, k - 1);
    }
  }

  // ---------------------------------------------------------------------------
  // What a swap does to the routes
  // ---------------------------------------------------------------------------

  /** Every route is as it was, or a route of the app at the candidate's name or its own, at the app's port;
      and only the plain-HTTP route of a host that forces HTTPS is ever taken away. */
  ghost predicate RoutesOnlyMove(cfg: Config, r0: Routes, r: Routes) {
    && (forall key :: key in r ==>
          || (key in r0 && r[key] == r0[key])
          || (key.host in cfg.hosts
              && r[key] in {Target(cfg.temp, cfg.port), Target(cfg.containerName, cfg.port)}))
    && (forall key :: key in r0 && key !in r ==>
          key.host in cfg.hosts && key.kind == HttpSibling && cfg.Force(key.host))
  }

  lemma RoutesOnlyMoveNext(cfg: Config, r0: Routes, pc: Pc, r: Routes, o: Outcome)
    requires !Halted(cfg, pc) && RoutesOnlyMove(cfg, r0, r)
    ensures RoutesOnlyMove(cfg, r0, NextRoutes(cfg, pc, r, o))
  {
  }

  /** At every step of every run, whatever the calls come to. */
  lemma {:induction false} RoutesOnlyMoveAlways(cfg: Config, w0: World, o: nat -> Outcome, k: nat)
    ensures RoutesOnlyMove(cfg, w0.routes, StateAt(cfg, Begin(w0), o, k).w.routes)
  {
    if k > 0 {
      hide RoutesOnlyMove, NextPc, NextContainers, NextRoutes;
      RoutesOnlyMoveAlways(cfg, w0, o, k - 1);
      var s := StateAt(cfg, Begin(w0), o, k - 1);
      if !Halted(cfg, s.pc) {
        RoutesOnlyMoveNext(cfg, w0.routes, s.pc, s.w.routes, o(k - 1));
      }
    }
  }

  /** Host `h` is routed to the app's own name and port. */
  predicate AtHome(cfg: Config, r: Routes, h: string) {
    Routed(r, h, Target(cfg.containerName, cfg.port), cfg.Force(h))
  }

  predicate Rerouting(pc: Pc) { pc.RerouteHost? || pc.RerouteSibling? || pc.Succeeded? }

  lemma AtHomeNext(cfg: Config, s: State, o: Outcome, h: string)
    requires Rerouting(s.pc) && AtHome(cfg, s.w.routes, h)
    ensures var t := Next(cfg, s, o); Rerouting(t.pc) && AtHome(cfg, t.w.routes, h)
  {
  }

  lemma RerouteBrings(cfg: Config, s: State, i: nat)
    requires s.pc == RerouteHost(i) && i < |cfg.hosts|
    ensures var t := Next(cfg, Next(cfg, s, Done), Done);
      Rerouting(t.pc) && AtHome(cfg, t.w.routes, cfg.hosts[i])
  {
  }

  lemma {:induction false} StaysAtHome(cfg: Config, s0: State, o: nat -> Outcome, n: nat, k: nat, h: string)
    requires n <= k && Rerouting(StateAt(cfg, s0, o, n).pc) && AtHome(cfg, StateAt(cfg, s0, o, n).w.routes, h)
    ensures Rerouting(StateAt(cfg, s0, o, k).pc) && AtHome(cfg, StateAt(cfg, s0, o, k).w.routes, h)
  {
    hide Next, AtHome;
    if n < k {
      StaysAtHome(cfg, s0, o, n, k - 1, h);
      AtHomeNext(cfg, StateAt(cfg, s0, o, k - 1), o(k - 1), h);
    }
  }

  /** A host whose two calls after the rename succeed ends up routed to the app's own name and port, over
      plain HTTP exactly if HTTPS is not forced. */
  lemma ReroutedHostIsHome(cfg: Config, s0: State, o: nat -> Outcome, n: nat, k: nat, i: nat)
    requires n + 2 <= k && i < |cfg.hosts| && StateAt(cfg, s0, o, n).pc == RerouteHost(i)
    requires o(n).Done? && o(n + 1).Done?
    ensures AtHome(cfg, StateAt(cfg, s0, o, k).w.routes, cfg.hosts[i])
  {
    hide Next, AtHome, StateAt;
    TwoCalls(cfg, s0, o, n);
    RerouteBrings(cfg, StateAt(cfg, s0, o, n), i);
    StaysAtHome(cfg, s0, o, n + 2, k, cfg.hosts[i]);
  }

  // ---------------------------------------------------------------------------
  // Which calls decide
  // ---------------------------------------------------------------------------

  /** The calls whose failure fails the swap. */
  predicate Essential(pc: Pc) {
    || pc.Prepare? || pc.CreateCandidate? || pc.StartCandidate? || pc.HealthCheck?
    || pc.RouteHost? || pc.RouteSibling? || pc.RenameCandidate?
  }

  function StageOf(pc: Pc): Stage
    requires Essential(pc)
  {
    match pc
    case Prepare => AtPrepare
    case CreateCandidate => AtRun
    case StartCandidate => AtRun
    case HealthCheck => AtHealth
    case RenameCandidate => AtRename
    case _ => AtRoute
  }

  /** The call made at `s` reports an error. A container is not created under a taken name and not renamed
      to one, and only an upsert can be shadowed. */
  predicate Reports(cfg: Config, s: State, o: Outcome) {
    match s.pc
    case CreateCandidate => o != Done || cfg.temp in s.w.containers
    case RenameCandidate => o != Done || cfg.temp !in s.w.containers || cfg.containerName in s.w.containers
    case RouteHost(i) => o == Refused || o == Lost
    case RouteSibling(i) => o == Refused || o == Lost || (o == Shadowed && cfg.ForceAt(i))
    case _ => o != Done
  }

  /** The stage a swap that stands at `pc` is going to fail in, if it is. */
  function Doom(pc: Pc): (d: set<Stage>) {
    match pc
    case DropHalfCreated => {AtRun}
    case RollbackStop => {AtHealth}
    case RollbackRemove => {AtHealth}
    case Failed(stage) => {stage}
    case _ => {}
  }

  ghost predicate FailsAt(cfg: Config, s0: State, o: nat -> Outcome, n: nat, stage: Stage) {
    var s := StateAt(cfg, s0, o, n);
    !Halted(cfg, s.pc) && Essential(s.pc) && Reports(cfg, s, o(n)) && StageOf(s.pc) == stage
  }

  lemma DoomNext(cfg: Config, s: State, o: Outcome)
    ensures Doom(Next(cfg, s, o).pc) ==
      if !Halted(cfg, s.pc) && Essential(s.pc) && Reports(cfg, s, o) then {StageOf(s.pc)} else Doom(s.pc)
  {
    hide NextContainers, NextRoutes;
  }

  lemma DoomedIsNotEssential(cfg: Config, pc: Pc)
    ensures Doom(pc) != {} ==> Halted(cfg, pc) || !Essential(pc)
  {
  }

  lemma {:induction false} DoomIff(cfg: Config, w0: World, o: nat -> Outcome, k: nat, stage: Stage)
    ensures stage in Doom(StateAt(cfg, Begin(w0), o, k).pc) <==>
      exists n :: 0 <= n < k && FailsAt(cfg, Begin(w0), o, n, stage)
  {
    hide Next, Reports, Doom, Essential, StageOf;
    if k == 0 {
      BeginsWell(w0);
    } else {
      var s := StateAt(cfg, Begin(w0), o, k - 1);
      DoomIff(cfg, w0, o, k - 1, stage);
      DoomNext(cfg, s, o(k - 1));
      DoomedIsNotEssential(cfg, s.pc);
      assert FailsAt(cfg, Begin(w0), o, k - 1, stage) <==>
        !Halted(cfg, s.pc) && Essential(s.pc) && Reports(cfg, s, o(k - 1)) && StageOf(s.pc) == stage;
      hide StateAt, FailsAt;
      if n :| 0 <= n < k && FailsAt(cfg, Begin(w0), o, n, stage) {
        assert n == k - 1 || n < k - 1;
      }
    }
  }

  lemma BeginsWell(w0: World)
    ensures Doom(Begin(w0).pc) == {}
  {
  }

  /** A swap that has ended failed in a stage exactly if an essential call of that stage reported an error,
      and succeeded exactly if none did; what the clean-up and the second round of upserts report does not count. */
  lemma FailsIff(cfg: Config, w0: World, o: nat -> Outcome, k: nat)
    requires StateAt(cfg, Begin(w0), o, k).pc.Failed? || StateAt(cfg, Begin(w0), o, k).pc.Succeeded?
    ensures var pc := StateAt(cfg, Begin(w0), o, k).pc;
      && (forall stage :: pc == Failed(stage) <==> exists n :: 0 <= n < k && FailsAt(cfg, Begin(w0), o, n, stage))
      && (pc == Succeeded <==> forall n, stage :: 0 <= n < k ==> !FailsAt(cfg, Begin(w0), o, n, stage))
  {
    hide StateAt, FailsAt;
    var pc := StateAt(cfg, Begin(w0), o, k).pc;
    forall stage
      ensures pc == Failed(stage) <==> exists n :: 0 <= n < k && FailsAt(cfg, Begin(w0), o, n, stage)
    {
      DoomIff(cfg, w0, o, k, stage);
      assert stage in Doom(pc) <==> pc == Failed(stage);
    }
    if pc.Failed? {
      var stage := pc.stage;
      assert pc == Failed(stage);
    }
    forall n, stage | 0 <= n < k && FailsAt(cfg, Begin(w0), o, n, stage) ensures pc == Failed(stage) {}
  }

  /** No route is touched before the candidate has been found healthy. */
  lemma {:induction false} RoutedAfterHealth(cfg: Config, w0: World, o: nat -> Outcome, k: nat)
    requires !Unrouted(StateAt(cfg, Begin(w0), o, k).pc) || StateAt(cfg, Begin(w0), o, k).w.routes != w0.routes
    ensures exists n :: 0 <= n < k && StateAt(cfg, Begin(w0), o, n).pc == HealthCheck && o(n).Done?
  {
    hide Next;
    if k > 0 {
      var s := StateAt(cfg, Begin(w0), o, k - 1);
      UnroutedNext(cfg, s, o(k - 1));
      if !(s.pc == HealthCheck && o(k - 1).Done?) {
        RoutedAfterHealth(cfg, w0, o, k - 1);
      }
      hide StateAt;
    }
  }

  lemma UnroutedNext(cfg: Config, s: State, o: Outcome)
    ensures var t := Next(cfg, s, o);
      Unrouted(s.pc) ==> t.w.routes == s.w.routes && (Unrouted(t.pc) || (s.pc == HealthCheck && o.Done?))
  {
  }

  // ---------------------------------------------------------------------------
  // The run in which nothing fails
  // ---------------------------------------------------------------------------

  /** The containers a swap starts its candidate beside: without a domain the old ones go first. */
  function Base(cfg: Config, e: Fleet): Fleet { if cfg.hosts == [] then e - FirstOlds(cfg, |cfg.olds|) else e }

  function Beside(cfg: Config, e: Fleet): Fleet { (Base(cfg, e) - {cfg.temp})[cfg.temp := cfg.Candidate()] }

  /** The containers at each point of such a run that began with `e0`. */
  predicate Smooth(cfg: Config, e0: Fleet, pc: Pc, e: Fleet) {
    match pc
    case Prepare => e == e0
    case PreStop(j) => cfg.hosts == [] && j < |cfg.olds| && e == e0 - FirstOlds(cfg, j)
    case PreRemove(j) => cfg.hosts == [] && j < |cfg.olds| && e - {cfg.olds[j]} == e0 - FirstOlds(cfg, j + 1)
    case RemoveStale => e == Base(cfg, e0)
    case CreateCandidate => e == Base(cfg, e0) - {cfg.temp}
    case StartCandidate => e == (Base(cfg, e0) - {cfg.temp})[cfg.temp := cfg.Candidate().(running := false)]
    case HealthCheck => e == Beside(cfg, e0)
    case RouteHost(i) => i < |cfg.hosts| && e == Beside(cfg, e0)
    case RouteSibling(i) => i < |cfg.hosts| && e == Beside(cfg, e0)
    case StopOld(j) => j < |cfg.olds| && e == Beside(cfg, e0) - FirstOlds(cfg, j)
    case RemoveOld(j) => j < |cfg.olds| && e - {cfg.olds[j]} == Beside(cfg, e0) - FirstOlds(cfg, j + 1)
    case RenameCandidate => e == Beside(cfg, e0) - FirstOlds(cfg, |cfg.olds|)
    case RerouteHost(i) => i < |cfg.hosts| && e == Installed(cfg, e0)
    case RerouteSibling(i) => i < |cfg.hosts| && e == Installed(cfg, e0)
    case Succeeded => e == Installed(cfg, e0)
    case _ => false
  }

  /** The old containers gone, the candidate under the app's own name, everything else as it was. */
  function Installed(cfg: Config, e0: Fleet): Fleet {
    (e0 - (set n | n in cfg.olds) - {cfg.temp})[cfg.containerName := Container({cfg.temp}, cfg.image, true, cfg.labels)]
  }

  lemma SmoothEarly(cfg: Config, e0: Fleet, pc: Pc, e: Fleet)
    requires cfg.WellNamed() && Smooth(cfg, e0, pc, e) && Early(pc) && !pc.PreStop? && !pc.PreRemove?
    ensures Smooth(cfg, e0, NextPc(cfg, pc, e, Done), NextContainers(cfg, pc, e, Done))
  {
    hide FirstOlds;
    NoOlds(cfg, e0);
    NoOlds(cfg, Beside(cfg, e0));
    if pc.StartCandidate? {
      assert NextContainers(cfg, pc, e, Done) == Beside(cfg, e0);
    }
  }

  lemma NoOlds(cfg: Config, e: Fleet)
    ensures e - FirstOlds(cfg, 0) == e
  {
    assert FirstOlds(cfg, 0) == {};
  }

  lemma SmoothPre(cfg: Config, e0: Fleet, pc: Pc, e: Fleet)
    requires Smooth(cfg, e0, pc, e) && (pc.PreStop? || pc.PreRemove?)
    ensures Smooth(cfg, e0, NextPc(cfg, pc, e, Done), NextContainers(cfg, pc, e, Done))
  {
    hide FirstOlds, Beside, Installed;
    OneMoreOld(cfg, e0, pc.j);
    assert Stop(e, cfg.olds[pc.j], Done) - {cfg.olds[pc.j]} == e - {cfg.olds[pc.j]};
  }

  lemma SmoothCleanup(cfg: Config, e0: Fleet, pc: Pc, e: Fleet)
    requires Smooth(cfg, e0, pc, e) && (pc.StopOld? || pc.RemoveOld?)
    ensures Smooth(cfg, e0, NextPc(cfg, pc, e, Done), NextContainers(cfg, pc, e, Done))
  {
    hide FirstOlds, Base, Beside, Installed;
    OneMoreOld(cfg, Beside(cfg, e0), pc.j);
    assert Stop(e, cfg.olds[pc.j], Done) - {cfg.olds[pc.j]} == e - {cfg.olds[pc.j]};
  }

  lemma SmoothRename(cfg: Config, e0: Fleet, e: Fleet)
    requires cfg.WellNamed() && cfg.containerName in cfg.olds && Smooth(cfg, e0, RenameCandidate, e)
    ensures CanRename(e, cfg.temp, cfg.containerName)
    ensures Rename(e, cfg.temp, cfg.containerName, Done) == Installed(cfg, e0)
  {
    var olds := set n | n in cfg.olds;
    assert cfg.olds[..|cfg.olds|] == cfg.olds;
    assert FirstOlds(cfg, |cfg.olds|) == olds;
    assert cfg.containerName in olds && cfg.temp !in olds;
    hide FirstOlds;
    assert e - {cfg.temp} == e0 - olds - {cfg.temp};
  }

  lemma SmoothNext(cfg: Config, e0: Fleet, pc: Pc, e: Fleet)
    requires cfg.WellNamed() && cfg.containerName in cfg.olds && Smooth(cfg, e0, pc, e)
    ensures pc == Succeeded || (!Halted(cfg, pc)
      && Smooth(cfg, e0, NextPc(cfg, pc, e, Done), NextContainers(cfg, pc, e, Done)))
  {
    hide FirstOlds, Base, Beside, Installed;
    NoOlds(cfg, Beside(cfg, e0));
    if pc.PreStop? || pc.PreRemove? {
      SmoothPre(cfg, e0, pc, e);
    } else if Early(pc) {
      SmoothEarly(cfg, e0, pc, e);
    } else if pc.StopOld? || pc.RemoveOld? {
      SmoothCleanup(cfg, e0, pc, e);
    } else if pc.RenameCandidate? {
      SmoothRename(cfg, e0, e);
    }
  }

  /** The hosts already dealt with by the last loop are at home. */
  ghost predicate HomeSoFar(cfg: Config, s: State) {
    match s.pc
    case RerouteHost(i) => HomeBefore(cfg, s.w.routes, i)
    case RerouteSibling(i) =>
      && HomeBefore(cfg, s.w.routes, i)
      && (i < |cfg.hosts| ==>
        var key := RouteKey(cfg.hosts[i], Canonical);
        key in s.w.routes && s.w.routes[key] == Target(cfg.containerName, cfg.port))
    case Succeeded => HomeBefore(cfg, s.w.routes, |cfg.hosts|)
    case _ => true
  }

  ghost predicate HomeBefore(cfg: Config, r: Routes, i: nat) {
    forall m :: 0 <= m < i && m < |cfg.hosts| ==> AtHome(cfg, r, cfg.hosts[m])
  }

  lemma HomeNext(cfg: Config, s: State)
    requires HomeSoFar(cfg, s)
    ensures HomeSoFar(cfg, Next(cfg, s, Done))
  {
    var t := Next(cfg, s, Done);
    if (s.pc.RerouteHost? || s.pc.RerouteSibling?) && s.pc.i < |cfg.hosts| {
      forall m | 0 <= m < s.pc.i ensures AtHome(cfg, t.w.routes, cfg.hosts[m]) {
        AtHomeNext(cfg, s, Done, cfg.hosts[m]);
      }
    }
  }

  lemma {:induction false} SmoothRun(cfg: Config, w0: World, o: nat -> Outcome, k: nat)
    requires cfg.WellNamed() && cfg.containerName in cfg.olds && forall n :: 0 <= n < k ==> o(n) == Done
    ensures var s := StateAt(cfg, Begin(w0), o, k);
      Smooth(cfg, w0.containers, s.pc, s.w.containers) && HomeSoFar(cfg, s)
  {
    if k > 0 {
      hide Smooth, NextPc, NextContainers, NextRoutes, HomeSoFar;
      SmoothRun(cfg, w0, o, k - 1);
      var s := StateAt(cfg, Begin(w0), o, k - 1);
      SmoothNext(cfg, w0.containers, s.pc, s.w.containers);
      HomeNext(cfg, s);
    }
  }

  /** A swap in which every call works succeeds, and this is what it leaves: the old containers and a stale
      candidate gone, the new image running under the app's own name with the labels asked for, every other
      container as it was, and every host routed to that name at the app's port. */
  lemma SmoothSwap(cfg: Config, w0: World, o: nat -> Outcome, k: nat)
    requires cfg.WellNamed() && cfg.containerName in cfg.olds && forall n :: 0 <= n < k ==> o(n) == Done
    requires Halted(cfg, StateAt(cfg, Begin(w0), o, k).pc)
    ensures var s := StateAt(cfg, Begin(w0), o, k);
      && s.pc == Succeeded
      && s.w.containers == (w0.containers - (set n | n in cfg.olds) - {cfg.temp})
           [cfg.containerName := Container({cfg.temp}, cfg.image, true, cfg.labels)]
      && forall h :: h in cfg.hosts ==> Routed(s.w.routes, h, Target(cfg.containerName, cfg.port), cfg.Force(h))
  {
    SmoothRun(cfg, w0, o, k);
    hide StateAt, Base, Beside;
    var s := StateAt(cfg, Begin(w0), o, k);
    forall h | h in cfg.hosts ensures AtHome(cfg, s.w.routes, h) {
      var m :| 0 <= m < |cfg.hosts| && cfg.hosts[m] == h;
    }
  }

  /** The clean-up loop after its first `j` names. */
  function DropFirst(e: Fleet, names: seq<string>, j: nat, o: nat -> Outcome, k: nat): Fleet
    requires j <= |names|
  {
    if j == 0 then e
    else
      var e' := DropFirst(e, names, j - 1, o, k);
      Remove(Stop(e', names[j - 1], o(k + 2 * j - 2)), names[j - 1], o(k + 2 * j - 1))
  }

  function Dropped(cfg: Config, w: World, j: nat, o: nat -> Outcome, k: nat): World
    requires j <= |cfg.olds|
  {
    World(DropFirst(w.containers, cfg.olds, j, o, k), w.routes)
  }

  lemma NoCall(cfg: Config, s: State, o: nat -> Outcome, k: nat)
    requires Halted(cfg, s.pc)
    ensures Finish(cfg, s, o, k) == (s, k)
  {
  }

  lemma OneCall(cfg: Config, s: State, o: nat -> Outcome, k: nat, t: State)
    requires !Halted(cfg, s.pc) && Next(cfg, s, o(k)) == t
    ensures Finish(cfg, s, o, k) == Finish(cfg, t, o, k + 1)
  {
  }

  lemma {:induction false} PreDropIsRun(cfg: Config, o: nat -> Outcome, k: nat, w: World, j: nat)
    requires j <= |cfg.olds|
    ensures Finish(cfg, State(ToPreStop(cfg, 0), w), o, k)
         == Finish(cfg, State(ToPreStop(cfg, j), Dropped(cfg, w, j, o, k)), o, k + 2 * j)
  {
    hide Finish;
    if j > 0 {
      PreDropIsRun(cfg, o, k, w, j - 1);
      var m, w' := k + 2 * j - 2, Dropped(cfg, w, j - 1, o, k);
      var stopped := World(Stop(w'.containers, cfg.olds[j - 1], o(m)), w'.routes);
      OneCall(cfg, State(PreStop(j - 1), w'), o, m, State(PreRemove(j - 1), stopped));
      OneCall(cfg, State(PreRemove(j - 1), stopped), o, m + 1, State(ToPreStop(cfg, j), Dropped(cfg, w, j, o, k)));
    }
  }

  lemma {:induction false} DropIsRun(cfg: Config, o: nat -> Outcome, k: nat, w: World, j: nat)
    requires j <= |cfg.olds|
    ensures Finish(cfg, State(ToStopOld(cfg, 0), w), o, k)
         == Finish(cfg, State(ToStopOld(cfg, j), Dropped(cfg, w, j, o, k)), o, k + 2 * j)
  {
    hide Finish;
    if j > 0 {
      DropIsRun(cfg, o, k, w, j - 1);
      var m, w' := k + 2 * j - 2, Dropped(cfg, w, j - 1, o, k);
      var stopped := World(Stop(w'.containers, cfg.olds[j - 1], o(m)), w'.routes);
      OneCall(cfg, State(StopOld(j - 1), w'), o, m, State(RemoveOld(j - 1), stopped));
      OneCall(cfg, State(RemoveOld(j - 1), stopped), o, m + 1, State(ToStopOld(cfg, j), Dropped(cfg, w, j, o, k)));
    }
  }

  // ---------------------------------------------------------------------------
  // The swap as the engine runs it
  // ---------------------------------------------------------------------------

  class Engine {
    var containers: Fleet
    var routes: Routes

    ghost function Now(): World
      reads this
    {
      World(containers, routes)
    }

    constructor (w: World)
      ensures Now() == w
    {
      containers, routes := w.containers, w.routes;
    }

    /** UpsertRoute: the canonical route, then its plain-HTTP sibling, call `k` and `k + 1`. */
    method UpsertRoute(cfg: Config, host: string, upstream: string, o: nat -> Outcome, k: nat)
        returns (ok: bool, used: nat)
      modifies this`routes
      ensures var t, force := Target(upstream, cfg.port), cfg.Force(host);
        var r := PutRoute(old(routes), host, Canonical, t, o(k));
        if PutOk(o(k))
        then used == 2 && ok == SiblingOk(force, o(k + 1)) && routes == PutSibling(r, host, force, t, o(k + 1))
        else used == 1 && !ok && routes == r
    {
      var t := Target(upstream, cfg.port);
      if o(k).Effect() || (o(k).Shadowed? && RouteKey(host, Canonical) !in routes) {
        routes := routes[RouteKey(host, Canonical) := t];
      }
      if !PutOk(o(k)) {
        return false, 1;
      }
      if cfg.Force(host) {
        if o(k + 1).Effect() {
          routes := routes - {RouteKey(host, HttpSibling)};
        }
        return o(k + 1).Done?, 2;
      }
      if o(k + 1).Effect() || (o(k + 1).Shadowed? && RouteKey(host, HttpSibling) !in routes) {
        routes := routes[RouteKey(host, HttpSibling) := t];
      }
      return PutOk(o(k + 1)), 2;
    }

    /** Stop and remove every old container, failures only logged. */
    method DropOld(names: seq<string>, o: nat -> Outcome, k0: nat) returns (k: nat)
      modifies this`containers
      ensures k == k0 + 2 * |names|
      ensures containers == DropFirst(old(containers), names, |names|, o, k0)
    {
      k := k0;
      for j := 0 to |names|
        invariant k == k0 + 2 * j
        invariant containers == DropFirst(old(containers), names, j, o, k0)
      {
        containers := Stop(containers, names[j], o(k));
        containers := Remove(containers, names[j], o(k + 1));
        k := k + 2;
      }
    }

    /** RunContainer: create and start; a candidate that fails to start is removed again. */
    method RunContainer(cfg: Config, o: nat -> Outcome, k0: nat) returns (ok: bool, k: nat)
      modifies this`containers
      ensures Finish(cfg, State(CreateCandidate, old(Now())), o, k0)
           == Finish(cfg, State(if ok then HealthCheck else Failed(AtRun), Now()), o, k)
    {
      hide Finish;
      ghost var s := State(CreateCandidate, Now());
      ok := o(k0).Done? && CanCreate(containers, cfg.temp);
      containers := Create(containers, cfg.temp, cfg.Candidate(), o(k0));
      OneCall(cfg, s, o, k0, State(if ok then StartCandidate else Failed(AtRun), Now()));
      k := k0 + 1;
      if ok {
        s := State(StartCandidate, Now());
        ok := o(k).Done?;
        containers := Start(containers, cfg.temp, o(k));
        OneCall(cfg, s, o, k, State(if ok then HealthCheck else DropHalfCreated, Now()));
        k := k + 1;
        if !ok {
          s := State(DropHalfCreated, Now());
          containers := Remove(containers, cfg.temp, o(k));
          OneCall(cfg, s, o, k, State(Failed(AtRun), Now()));
          k := k + 1;
        }
      }
    }

    /** Wait for the candidate to become healthy; if it does not, take it down again. */
    method AwaitHealthy(cfg: Config, o: nat -> Outcome, k0: nat) returns (ok: bool, k: nat)
      modifies this`containers
      ensures Finish(cfg, State(HealthCheck, old(Now())), o, k0)
           == Finish(cfg, State(if ok then ToRoute(cfg, 0) else Failed(AtHealth), Now()), o, k)
    {
      hide Finish;
      ghost var s := State(HealthCheck, Now());
      ok := o(k0).Done?;
      OneCall(cfg, s, o, k0, State(if ok then ToRoute(cfg, 0) else RollbackStop, Now()));
      k := k0 + 1;
      if !ok {
        s := State(RollbackStop, Now());
        containers := Stop(containers, cfg.temp, o(k));
        OneCall(cfg, s, o, k, State(RollbackRemove, Now()));
        s := State(RollbackRemove, Now());
        containers := Remove(containers, cfg.temp, o(k + 1));
        OneCall(cfg, s, o, k + 1, State(Failed(AtHealth), Now()));
        k := k + 2;
      }
    }

    /** Clear a stale candidate, then start the new one and wait for it. */
    method RunCandidate(cfg: Config, o: nat -> Outcome, k0: nat) returns (ok: bool, stage: Stage, k: nat)
      modifies this`containers
      ensures Finish(cfg, State(RemoveStale, old(Now())), o, k0)
           == Finish(cfg, State(if ok then ToRoute(cfg, 0) else Failed(stage), Now()), o, k)
    {
      hide Finish;
      ghost var s := State(RemoveStale, Now());
      containers := Remove(containers, cfg.temp, o(k0));
      OneCall(cfg, s, o, k0, State(CreateCandidate, Now()));
      stage := AtRun;
      ok, k := RunContainer(cfg, o, k0 + 1);
      if ok {
        stage := AtHealth;
        ok, k := AwaitHealthy(cfg, o, k);
      }
    }

    /** Point every host at the candidate; the first error ends the loop. */
    method RouteAll(cfg: Config, o: nat -> Outcome, k0: nat) returns (ok: bool, k: nat)
      modifies this`routes
      ensures Finish(cfg, State(ToRoute(cfg, 0), old(Now())), o, k0)
           == Finish(cfg, State(if ok then ToStopOld(cfg, 0) else Failed(AtRoute), Now()), o, k)
    {
      hide Finish;
      k := k0;
      for i := 0 to |cfg.hosts|
        invariant Finish(cfg, State(ToRoute(cfg, 0), old(Now())), o, k0)
          == Finish(cfg, State(ToRoute(cfg, i), Now()), o, k)
      {
        ghost var s := State(RouteHost(i), Now());
        var routed, used := UpsertRoute(cfg, cfg.hosts[i], cfg.temp, o, k);
        ghost var end := State(if routed then ToRoute(cfg, i + 1) else Failed(AtRoute), Now());
        if used == 1 {
          OneCall(cfg, s, o, k, end);
        } else {
          ghost var t := Next(cfg, s, o(k));
          OneCall(cfg, s, o, k, t);
          OneCall(cfg, t, o, k + 1, end);
        }
        k := k + used;
        if !routed {
          return false, k;
        }
      }
      ok := true;
    }

    /** Point every host at the app's own name; an error leaves the host at the candidate alias. */
    method RerouteAll(cfg: Config, o: nat -> Outcome, k0: nat) returns (k: nat)
      modifies this`routes
      ensures Finish(cfg, State(ToReroute(cfg, 0), old(Now())), o, k0) == Finish(cfg, State(Succeeded, Now()), o, k)
    {
      hide Finish;
      k := k0;
      for i := 0 to |cfg.hosts|
        invariant Finish(cfg, State(ToReroute(cfg, 0), old(Now())), o, k0)
          == Finish(cfg, State(ToReroute(cfg, i), Now()), o, k)
      {
        ghost var s := State(RerouteHost(i), Now());
        var _, used := UpsertRoute(cfg, cfg.hosts[i], cfg.containerName, o, k);
        if used == 1 {
          OneCall(cfg, s, o, k, State(ToReroute(cfg, i + 1), Now()));
        } else {
          ghost var t := Next(cfg, s, o(k));
          OneCall(cfg, s, o, k, t);
          OneCall(cfg, t, o, k + 1, State(ToReroute(cfg, i + 1), Now()));
        }
        k := k + used;
      }
    }

    /** Drop the old containers and give the candidate the app's own name. */
    method TakeName(cfg: Config, o: nat -> Outcome, k0: nat) returns (ok: bool, k: nat)
      modifies this`containers
      ensures Finish(cfg, State(ToStopOld(cfg, 0), old(Now())), o, k0)
           == Finish(cfg, State(if ok then ToReroute(cfg, 0) else Failed(AtRename), Now()), o, k)
    {
      hide Finish;
      DropIsRun(cfg, o, k0, Now(), |cfg.olds|);
      k := DropOld(cfg.olds, o, k0);
      ghost var s := State(RenameCandidate, Now());
      assert Finish(cfg, State(ToStopOld(cfg, 0), old(Now())), o, k0) == Finish(cfg, s, o, k);
      ok := o(k).Done? && CanRename(containers, cfg.temp, cfg.containerName);
      containers := Rename(containers, cfg.temp, cfg.containerName, o(k));
      OneCall(cfg, s, o, k, State(if ok then ToReroute(cfg, 0) else Failed(AtRename), Now()));
      k := k + 1;
    }

    /** From a healthy candidate on: route to it, drop the old containers, rename, route again. */
    method SwitchOver(cfg: Config, o: nat -> Outcome, k0: nat) returns (ok: bool, stage: Stage, k: nat)
      modifies this
      ensures Finish(cfg, State(ToRoute(cfg, 0), old(Now())), o, k0)
        == (State(if ok then Succeeded else Failed(stage), Now()), k)
    {
      hide Finish;
      stage := AtRoute;
      ok, k := RouteAll(cfg, o, k0);
      if ok {
        stage := AtRename;
        ok, k := TakeName(cfg, o, k);
      }
      if ok {
        k := RerouteAll(cfg, o, k);
      }
      NoCall(cfg, State(if ok then Succeeded else Failed(stage), Now()), o, k);
    }

    /** The whole swap. Its `k` calls are the steps of the protocol, none more and none fewer. Every route is as
        it was or leads to the app's port; one whose two calls after the rename work ends up at the app's own
        name; and if every call works the swap succeeds and leaves exactly the new container and its routes. */
    method Swap(cfg: Config, o: nat -> Outcome) returns (ok: bool, stage: Stage, k: nat)
      modifies this
      ensures Finish(cfg, Begin(old(Now())), o, 0) == (State(if ok then Succeeded else Failed(stage), Now()), k)
      ensures RoutesOnlyMove(cfg, old(routes), routes)
      ensures forall n: nat, i: nat ::
        n + 2 <= k && i < |cfg.hosts| && StateAt(cfg, Begin(old(Now())), o, n).pc == RerouteHost(i)
        && o(n).Done? && o(n + 1).Done? ==>
          Routed(routes, cfg.hosts[i], Target(cfg.containerName, cfg.port), cfg.Force(cfg.hosts[i]))
      ensures cfg.WellNamed() && cfg.containerName in cfg.olds && (forall n :: 0 <= n < k ==> o(n) == Done) ==>
        && ok
        && containers == (old(containers) - (set n | n in cfg.olds) - {cfg.temp})
             [cfg.containerName := Container({cfg.temp}, cfg.image, true, cfg.labels)]
        && forall h :: h in cfg.hosts ==> Routed(routes, h, Target(cfg.containerName, cfg.port), cfg.Force(h))
    {
      ok, stage, k := RunSwap(cfg, o);
      ghost var w0 := old(Now());
      FinishIsStateAt(cfg, Begin(w0), o, 0);
      assert StateAt(cfg, Begin(w0), o, 0) == Begin(w0);
      RoutesOnlyMoveAlways(cfg, w0, o, k);
      hide StateAt, Finish;
      forall n: nat, i: nat | n + 2 <= k && i < |cfg.hosts| && StateAt(cfg, Begin(w0), o, n).pc == RerouteHost(i)
        && o(n).Done? && o(n + 1).Done?
        ensures Routed(routes, cfg.hosts[i], Target(cfg.containerName, cfg.port), cfg.Force(cfg.hosts[i]))
      {
        ReroutedHostIsHome(cfg, Begin(w0), o, n, k, i);
      }
      if cfg.WellNamed() && cfg.containerName in cfg.olds && forall n :: 0 <= n < k ==> o(n) == Done {
        SmoothSwap(cfg, w0, o, k);
      }
    }

    method RunSwap(cfg: Config, o: nat -> Outcome) returns (ok: bool, stage: Stage, k: nat)
      modifies this
      ensures Finish(cfg, Begin(old(Now())), o, 0) == (State(if ok then Succeeded else Failed(stage), Now()), k)
    {
      hide Finish;
      ghost var s := Begin(Now());
      if !o(0).Done? {
        OneCall(cfg, s, o, 0, State(Failed(AtPrepare), Now()));
        NoCall(cfg, State(Failed(AtPrepare), Now()), o, 1);
        return false, AtPrepare, 1;
      }
      OneCall(cfg, s, o, 0, State(if cfg.hosts == [] then ToPreStop(cfg, 0) else RemoveStale, Now()));
      k := 1;
      if cfg.hosts == [] {
        PreDropIsRun(cfg, o, 1, Now(), |cfg.olds|);
        k := DropOld(cfg.olds, o, 1);
      }
      ok, stage, k := RunCandidate(cfg, o, k);
      if ok {
        ok, stage, k := SwitchOver(cfg, o, k);
      } else {
        NoCall(cfg, State(Failed(stage), Now()), o, k);
      }
    }
  }
}
