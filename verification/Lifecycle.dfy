/** Admission of deploys by a per-app lock and an instance-wide semaphore, the deployment row
    and app status each one moves through, and recovery after a crash. Requests interleave
    freely; each lock operation and each database write is one step. A write may be refused, as it
    is once the deploy's context has expired, and the engine goes on regardless. */
module Lifecycle {
  import opened Wrappers
  import opened Decimal

  datatype AppStatus = Idle | Building | Deploying | Running | Stopped | Errored | Unreachable

  datatype RowStatus = RowPending | RowBuilding | RowDeploying | RowSuccess | RowFailed

  datatype Row = Row(app: string, status: RowStatus, created: int)

  predicate Busy(s: AppStatus) { s == Building || s == Deploying }

  predicate Unfinished(s: RowStatus) { s == RowPending || s == RowBuilding || s == RowDeploying }

  /** The instance-wide cap; the engine raises a cap below one to one. */
  datatype Limit = Unlimited | Limited(configured: int)
  {
    function Capacity(): nat
      requires Limited?
    {
      if configured < 1 then 1 else configured
    }
  }

  /** How far a request has got. */
  datatype Pc =
    | Locked              // holds the app lock, asking for a slot
    | Admitted            // holds lock and slot, no row yet
    | Inserted            // row inserted
    | BuildRow            // row marked building
    | BuildApp            // app marked building, build running
    | SwapRow             // row marked deploying
    | SwapApp             // app marked deploying, swap running
    | RowDone(won: bool)  // row marked success or failed
    | Finishing           // about to give the slot back
    | SlotReturned        // about to unlock

  predicate HoldsSlot(pc: Pc) { !pc.Locked? && !pc.SlotReturned? }
  predicate OwnsOpenRow(pc: Pc) { pc.Inserted? || pc.BuildRow? || pc.BuildApp? || pc.SwapRow? || pc.SwapApp? }
  predicate HasRow(pc: Pc) { OwnsOpenRow(pc) || pc.RowDone? }
  predicate MayBeBusy(pc: Pc) { pc.BuildApp? || pc.SwapRow? || pc.SwapApp? || pc.RowDone? }

  datatype Request = Request(app: string, pc: Pc, dep: string)

  /** `used` are the row ids handed out so far. `leftRows` and `leftApps` keep account of what refused
      writes have left behind: rows a finished deploy did not close, apps it left building or deploying. */
  datatype State = State(
    apps: map<string, AppStatus>,
    rows: map<string, Row>,
    locks: set<string>,
    slots: nat,
    requests: map<nat, Request>,
    up: bool,
    used: set<string>,
    leftRows: set<string>,
    leftApps: set<string>)

  /** `written` says whether the step's write to the database takes effect, `read` whether its query does. */
  datatype Op =
    | Arrive(id: nat, app: string)
    | TakeSlot(id: nat)
    | GiveUp(id: nat)
    | Insert(id: nat, dep: string, rollback: bool, now: int)
    | LogFails(id: nat, written: bool)
    | StartBuild(id: nat, written: bool)
    | MarkBuilding(id: nat, written: bool)
    | StartSwap(id: nat, written: bool)
    | MarkDeploying(id: nat, written: bool)
    | FailRow(id: nat, written: bool)
    | SucceedRow(id: nat, written: bool)
    | Settle(id: nat, read: bool, written: bool)
    | ReturnSlot(id: nat)
    | Unlock(id: nat)
    | LoseServer(app: string)
    | StopApp(app: string)
    | CreateApp(app: string)
    | DeleteApp(app: string)
    | Crash
    | Reconcile(inspected: map<string, AppStatus>)

  /** The status loop owns "unreachable": only "running" may replace it. */
  function SetStatus(apps: map<string, AppStatus>, app: string, s: AppStatus): map<string, AppStatus> {
    if app !in apps || (apps[app] == Unreachable && s != Running) then apps else apps[app := s]
  }

  predicate IsSuccess(r: Row, app: string) { r.app == app && r.status == RowSuccess }

  predicate HasSuccess(rows: map<string, Row>, app: string, except: string) {
    exists d :: d in rows && d != except && IsSuccess(rows[d], app)
  }

  function FailPending(rows: map<string, Row>): map<string, Row> {
    map d | d in rows :: if Unfinished(rows[d].status) then rows[d].(status := RowFailed) else rows[d]
  }

  /** What inspection can report: running, stopped, or error; an app it cannot inspect errs. */
  function Inspected(inspected: map<string, AppStatus>, app: string): AppStatus {
    if app in inspected && inspected[app] in {Running, Stopped} then inspected[app] else Errored
  }

  function ReconcileApps(apps: map<string, AppStatus>, inspected: map<string, AppStatus>): map<string, AppStatus> {
    map a | a in apps :: if Busy(apps[a]) then Inspected(inspected, a) else apps[a]
  }

  function At(s: State, id: nat, pc: Pc): State
    requires id in s.requests
  {
    s.(requests := s.requests[id := s.requests[id].(pc := pc)])
  }

  /** A write to the request's row, which may be refused or find the row gone with its app. */
  function RowStep(s: State, id: nat, st: RowStatus, pc: Pc, written: bool): State
    requires id in s.requests
  {
    var d := s.requests[id].dep;
    var s1 :=
      if d !in s.rows then s
      else if written then s.(rows := s.rows[d := s.rows[d].(status := st)])
      else if OwnsOpenRow(pc) then s
      else s.(leftRows := s.leftRows + {d});
    At(s1, id, pc)
  }

  function Release(s: State, id: nat): State
    requires id in s.requests
  {
    s.(requests := s.requests - {id}, locks := s.locks - {s.requests[id].app})
  }

  /** A write to the app's status. */
  function AppStep(s: State, id: nat, st: AppStatus, pc: Pc, written: bool): State
    requires id in s.requests
  {
    var a := s.requests[id].app;
    var s1 :=
      if a !in s.apps then s
      else if written then Statused(s, a, SetStatus(s.apps, a, st)[a])
      else if MayBeBusy(pc) || !Busy(s.apps[a]) then s
      else s.(leftApps := s.leftApps + {a});
    At(s1, id, pc)
  }

  function Statused(s: State, a: string, st: AppStatus): State {
    s.(apps := s.apps[a := st], leftApps := if Busy(st) then s.leftApps else s.leftApps - {a})
  }

  predicate Standing(s: State, id: nat, pc: Pc) { s.up && id in s.requests && s.requests[id].pc == pc }

  predicate FullUp(limit: Limit, s: State) { limit.Limited? && s.slots >= limit.Capacity() }

  /** Requests start and move only while the process is up; an op that does not apply does nothing. */
  function Apply(limit: Limit, s: State, op: Op): State {
    match op
    case Arrive(id, app) =>
      if s.up && id !in s.requests && app in s.apps && app !in s.locks
      then s.(locks := s.locks + {app}, requests := s.requests[id := Request(app, Locked, "")]) else s
    case TakeSlot(id) =>
      if !Standing(s, id, Locked) then s
      else if FullUp(limit, s) then Release(s, id)
      else At(if limit.Limited? then s.(slots := s.slots + 1) else s, id, Admitted)
    case GiveUp(id) => if Standing(s, id, Admitted) then At(s, id, Finishing) else s
    case Insert(id, dep, rollback, now) =>
      if !Standing(s, id, Admitted) || (dep in s.used && dep !in s.rows) then s
      else
        var r := s.requests[id];
        if dep in s.rows || r.app !in s.apps then At(s, id, Finishing)
        else
          s.(rows := s.rows[dep := Row(r.app, if rollback then RowDeploying else RowPending, now)],
             requests := s.requests[id := Request(r.app, Inserted, dep)],
             used := s.used + {dep})
    case LogFails(id, written) => if Standing(s, id, Inserted) then RowStep(s, id, RowFailed, Finishing, written) else s
    case StartBuild(id, written) => if Standing(s, id, Inserted) then RowStep(s, id, RowBuilding, BuildRow, written)
      else s
    case MarkBuilding(id, written) => if Standing(s, id, BuildRow) then AppStep(s, id, Building, BuildApp, written)
      else s
    case StartSwap(id, written) =>
      if Standing(s, id, Inserted) || Standing(s, id, BuildApp) then RowStep(s, id, RowDeploying, SwapRow, written)
        else s
    case MarkDeploying(id, written) => if Standing(s, id, SwapRow) then AppStep(s, id, Deploying, SwapApp, written)
      else s
    case FailRow(id, written) =>
      if Standing(s, id, Inserted) || Standing(s, id, BuildApp) || Standing(s, id, SwapApp)
      then RowStep(s, id, RowFailed, RowDone(false), written) else s
    case SucceedRow(id, written) =>
      if Standing(s, id, SwapApp) then RowStep(s, id, RowSuccess, RowDone(true), written) else s
    case Settle(id, read, written) =>
      if Standing(s, id, RowDone(true)) || Standing(s, id, RowDone(false))
      then AppStep(s, id, Verdict(s, s.requests[id], read), Finishing, written) else s
    case ReturnSlot(id) =>
      if Standing(s, id, Finishing)
      then At(if limit.Limited? && s.slots > 0 then s.(slots := s.slots - 1) else s, id, SlotReturned) else s
    case Unlock(id) => if Standing(s, id, SlotReturned) then Release(s, id) else s
    case LoseServer(app) => if app in s.apps then Statused(s, app, Unreachable) else s
    case StopApp(app) => if app in s.apps then Statused(s, app, SetStatus(s.apps, app, Stopped)[app]) else s
    case CreateApp(app) => if app in s.apps then s else Statused(s, app, Idle)
    case DeleteApp(app) => Deleted(s, app)
    case Crash => s.(locks := {}, slots := 0, requests := map[], up := false, leftRows := {}, leftApps := {})
    case Reconcile(inspected) =>
      if s.up then s else s.(rows := FailPending(s.rows), apps := ReconcileApps(s.apps, inspected), up := true)
  }

  function Deleted(s: State, app: string): State {
    s.(apps := s.apps - {app}, leftApps := s.leftApps - {app},
       rows := Without(s.rows, app), leftRows := set d | d in s.leftRows && d in Without(s.rows, app))
  }

  /** Rows go with their app. */
  function Without(rows: map<string, Row>, app: string): map<string, Row> {
    map d | d in rows && rows[d].app != app :: rows[d]
  }

  /** The status the app gets once its deploy is over: a success, this one or an earlier one it can
      still find, keeps it running. */
  function Verdict(s: State, r: Request, read: bool): AppStatus
    requires r.pc.RowDone?
  {
    if r.pc.won || (read && HasSuccess(s.rows, r.app, r.dep)) then Running else Errored
  }

  // ---------------------------------------------------------------------------
  // Invariants
  // ---------------------------------------------------------------------------

  /** Requests and held app locks match one to one. */
  ghost predicate LocksMatch(s: State) {
    && (forall i :: i in s.requests ==> s.requests[i].app in s.locks)
    && (forall i, j :: i in s.requests && j in s.requests && s.requests[i].app == s.requests[j].app ==> i == j)
    && (forall a :: a in s.locks ==> exists i :: i in s.requests && s.requests[i].app == a)
  }

  function Holders(s: State): set<nat> {
    set i | i in s.requests && HoldsSlot(s.requests[i].pc)
  }

  ghost predicate SlotsMatch(limit: Limit, s: State) {
    limit.Limited? ==> s.slots == |Holders(s)| <= limit.Capacity()
  }

  /** Ids are never handed out twice, so no two requests share a row. */
  ghost predicate IdsApart(s: State) {
    && s.rows.Keys <= s.used
    && (forall i :: i in s.requests && HasRow(s.requests[i].pc) ==> s.requests[i].dep in s.used)
    && (forall i, j :: i in s.requests && j in s.requests ==> SameRow(s.requests[i], s.requests[j]) ==> i == j)
  }

  predicate SameRow(q: Request, r: Request) { HasRow(q.pc) && HasRow(r.pc) && q.dep == r.dep }

  /** What a request's own row says, as long as it is there. */
  predicate RowAgrees(s: State, r: Request) {
    HasRow(r.pc) && r.dep in s.rows ==>
      && s.rows[r.dep].app == r.app
      && (OwnsOpenRow(r.pc) ==> Unfinished(s.rows[r.dep].status) && r.dep !in s.leftRows)
      && (r.pc.RowDone? && r.dep !in s.leftRows ==> s.rows[r.dep].status == if r.pc.won then RowSuccess else RowFailed)
  }

  /** Every open row has its request in flight or was left behind, unless a crash awaits reconciling. */
  ghost predicate RowsOwned(s: State) {
    && (forall i :: i in s.requests ==> RowAgrees(s, s.requests[i]))
    && (s.up ==> forall d :: d in s.rows && Unfinished(s.rows[d].status) ==> HasOwner(s, d) || d in s.leftRows)
    && (forall d :: d in s.leftRows ==> d in s.rows && Unfinished(s.rows[d].status))
  }

  ghost predicate HasOwner(s: State, d: string) {
    exists i :: i in s.requests && OwnsOpenRow(s.requests[i].pc) && s.requests[i].dep == d
  }

  /** A busy app has a request past the point of marking it or was left behind, likewise. */
  ghost predicate BusyOwned(s: State) {
    && (s.up ==> forall a :: a in s.apps && Busy(s.apps[a]) ==> HasWorker(s, a) || a in s.leftApps)
    && (forall a :: a in s.leftApps ==> a in s.apps && Busy(s.apps[a]))
  }

  ghost predicate HasWorker(s: State, a: string) {
    exists i :: i in s.requests && MayBeBusy(s.requests[i].pc) && s.requests[i].app == a
  }

  ghost predicate Inv(limit: Limit, s: State) {
    && LocksMatch(s) && SlotsMatch(limit, s) && IdsApart(s) && RowsOwned(s) && BusyOwned(s)
    && (!s.up ==> s.requests == map[] && s.leftRows == {} && s.leftApps == {})
  }

  // ---------------------------------------------------------------------------
  // What a step can do
  // ---------------------------------------------------------------------------

  /** Request `id` becomes `r`, with the row and app writes that go with the move. */
  ghost predicate Moves(limit: Limit, s: State, t: State, id: nat, r: Request) {
    && s.up && t.up && id in s.requests && r.app == s.requests[id].app
    && t.requests == s.requests[id := r] && t.locks == s.locks
    && SlotMove(limit, s, t, HoldsSlot(s.requests[id].pc), HoldsSlot(r.pc))
    && RowMove(s, t, s.requests[id], r)
    && AppMove(s, t, s.requests[id], r)
  }

  predicate SlotMove(limit: Limit, s: State, t: State, held: bool, holds: bool) {
    if !limit.Limited? || held == holds then t.slots == s.slots
    else if holds then s.slots < limit.Capacity() && t.slots == s.slots + 1
    else t.slots == if s.slots > 0 then s.slots - 1 else 0
  }

  ghost predicate RowMove(s: State, t: State, q: Request, r: Request) {
    || RowKept(s, t, q, r) || RowAdded(s, t, q, r) || RowWritten(s, t, q, r) || RowRefused(s, t, q, r)
  }

  predicate RowKept(s: State, t: State, q: Request, r: Request) {
    && t.rows == s.rows && t.used == s.used && t.leftRows == s.leftRows && r.dep == q.dep
    && (OwnsOpenRow(r.pc) ==> OwnsOpenRow(q.pc))
    && (OwnsOpenRow(q.pc) && !OwnsOpenRow(r.pc) ==> r.dep !in s.rows)
    && (r.pc.RowDone? ==> (q.pc == r.pc || r.dep !in s.rows) && HasRow(q.pc))
  }

  predicate RowAdded(s: State, t: State, q: Request, r: Request) {
    && r.dep !in s.used && !HasRow(q.pc) && OwnsOpenRow(r.pc) && t.used == s.used + {r.dep} && t.leftRows == s.leftRows
    && r.dep in t.rows && t.rows[r.dep].app == r.app && Unfinished(t.rows[r.dep].status)
    && t.rows == s.rows[r.dep := t.rows[r.dep]]
  }

  predicate RowWritten(s: State, t: State, q: Request, r: Request) {
    && r.dep == q.dep && OwnsOpenRow(q.pc) && r.dep in s.rows && r.dep in t.rows && t.used == s.used
      && t.leftRows == s.leftRows
    && t.rows == s.rows[r.dep := t.rows[r.dep]] && t.rows[r.dep].app == s.rows[r.dep].app
    && OwnsOpenRow(r.pc) == Unfinished(t.rows[r.dep].status)
    && (r.pc.RowDone? ==> t.rows[r.dep].status == if r.pc.won then RowSuccess else RowFailed)
  }

  predicate RowRefused(s: State, t: State, q: Request, r: Request) {
    && r.dep == q.dep && OwnsOpenRow(q.pc) && r.dep in s.rows && t.rows == s.rows && t.used == s.used
    && t.leftRows == if OwnsOpenRow(r.pc) then s.leftRows else s.leftRows + {r.dep}
  }

  /** The app's status stays or is written; a busy one is left behind only by a refused write. */
  predicate AppMove(s: State, t: State, q: Request, r: Request) {
    || (t.apps == s.apps && t.leftApps == s.leftApps
        && (MayBeBusy(q.pc) && !MayBeBusy(r.pc) ==> r.app !in s.apps || !Busy(s.apps[r.app])))
    || (t.apps == s.apps && r.app in s.apps && Busy(s.apps[r.app]) && t.leftApps == s.leftApps + {r.app})
    || (&& r.app in s.apps && r.app in t.apps && t.apps == s.apps[r.app := t.apps[r.app]]
        && t.leftApps == (if Busy(t.apps[r.app]) then s.leftApps else s.leftApps - {r.app})
        && (Busy(t.apps[r.app]) ==> MayBeBusy(r.pc)))
  }

  /** Only the status of app `a` changes, to one that is not busy. */
  predicate AppsOnly(s: State, t: State, a: string) {
    a in t.apps && !Busy(t.apps[a]) && t == Statused(s, a, t.apps[a])
  }

  predicate Enters(s: State, t: State, id: nat, app: string) {
    && s.up && id !in s.requests && app !in s.locks
    && t == s.(locks := s.locks + {app}, requests := s.requests[id := Request(app, Locked, "")])
  }

  predicate Leaves(s: State, t: State, id: nat) {
    && s.up && id in s.requests && !HoldsSlot(s.requests[id].pc) && t == Release(s, id)
  }

  predicate RowOp(op: Op) { op.LogFails? || op.StartBuild? || op.StartSwap? || op.FailRow? || op.SucceedRow? }

  predicate AppOp(op: Op) { op.MarkBuilding? || op.MarkDeploying? || op.Settle? }

  predicate SlotOp(op: Op) { op.TakeSlot? || op.GiveUp? || op.ReturnSlot? || op.Unlock? }

  predicate StatusOp(op: Op) { op.LoseServer? || op.StopApp? || op.CreateApp? }

  lemma RowStepMoves(limit: Limit, s: State, id: nat, st: RowStatus, pc: Pc, written: bool)
    requires s.up && id in s.requests && OwnsOpenRow(s.requests[id].pc) && HoldsSlot(pc)
    requires OwnsOpenRow(pc) == Unfinished(st) && (MayBeBusy(s.requests[id].pc) ==> MayBeBusy(pc))
    requires pc.RowDone? ==> st == if pc.won then RowSuccess else RowFailed
    ensures var t := RowStep(s, id, st, pc, written); Moves(limit, s, t, id, t.requests[id])
  {
    var t := RowStep(s, id, st, pc, written);
    var q, r := s.requests[id], t.requests[id];
    if q.dep !in s.rows {
      assert RowKept(s, t, q, r);
    } else if written {
      assert RowWritten(s, t, q, r);
    } else {
      assert RowRefused(s, t, q, r);
    }
  }

  lemma RowOpMoves(limit: Limit, s: State, op: Op)
    requires RowOp(op)
    ensures var t := Apply(limit, s, op);
      t == s || (op.id in t.requests && Moves(limit, s, t, op.id, t.requests[op.id]))
  {
    var t := Apply(limit, s, op);
    if t != s {
      hide Moves;
      var pc, st :=
        if op.LogFails? then Finishing else if op.StartBuild? then BuildRow else if op.StartSwap? then SwapRow
        else if op.FailRow? then RowDone(false) else RowDone(true),
        if op.StartBuild? then RowBuilding else if op.StartSwap? then RowDeploying
        else if op.SucceedRow? then RowSuccess else RowFailed;
      assert t == RowStep(s, op.id, st, pc, op.written);
      RowStepMoves(limit, s, op.id, st, pc, op.written);
    }
  }

  lemma InsertMoves(limit: Limit, s: State, op: Op)
    requires op.Insert? && s.rows.Keys <= s.used
    ensures var t := Apply(limit, s, op);
      t == s || (op.id in t.requests && Moves(limit, s, t, op.id, t.requests[op.id]))
  {
    var t := Apply(limit, s, op);
    if t != s && t.rows != s.rows {
      assert RowAdded(s, t, s.requests[op.id], t.requests[op.id]);
    }
  }

  lemma AppStepMoves(limit: Limit, s: State, id: nat, st: AppStatus, pc: Pc, written: bool)
    requires s.up && id in s.requests && HoldsSlot(s.requests[id].pc) && HoldsSlot(pc)
    requires OwnsOpenRow(pc) == OwnsOpenRow(s.requests[id].pc) && !pc.RowDone? && (Busy(st) ==> MayBeBusy(pc))
    ensures var t := AppStep(s, id, st, pc, written); Moves(limit, s, t, id, t.requests[id])
  {
    var t := AppStep(s, id, st, pc, written);
    var q, r := s.requests[id], t.requests[id];
    assert RowKept(s, t, q, r);
    if r.app in s.apps && written {
      assert t.apps == s.apps[r.app := t.apps[r.app]];
    }
  }

  lemma AppOpMoves(limit: Limit, s: State, op: Op)
    requires AppOp(op)
    ensures var t := Apply(limit, s, op);
      t == s || (op.id in t.requests && Moves(limit, s, t, op.id, t.requests[op.id]))
  {
    var t := Apply(limit, s, op);
    if t != s {
      hide Moves, HasSuccess;
      var st :=
        if op.MarkBuilding? then Building else if op.MarkDeploying? then Deploying
        else Verdict(s, s.requests[op.id], op.read);
      var pc := if op.MarkBuilding? then BuildApp else if op.MarkDeploying? then SwapApp else Finishing;
      assert t == AppStep(s, op.id, st, pc, op.written);
      AppStepMoves(limit, s, op.id, st, pc, op.written);
    }
  }

  lemma SlotOpMoves(limit: Limit, s: State, op: Op)
    requires SlotOp(op)
    ensures var t := Apply(limit, s, op);
      t == s || Leaves(s, t, op.id) || (op.id in t.requests && Moves(limit, s, t, op.id, t.requests[op.id]))
  {
    var t := Apply(limit, s, op);
    if t != s && op.id in t.requests {
      assert RowKept(s, t, s.requests[op.id], t.requests[op.id]);
    }
  }

  lemma StatusOpMoves(limit: Limit, s: State, op: Op)
    requires StatusOp(op)
    ensures var t := Apply(limit, s, op); t == s || AppsOnly(s, t, op.app)
  {
  }

  // ---------------------------------------------------------------------------
  // Every step keeps the invariant
  // ---------------------------------------------------------------------------

  lemma MoveKeepsInv(limit: Limit, s: State, t: State, id: nat, r: Request)
    requires Inv(limit, s) && Moves(limit, s, t, id, r)
    ensures Inv(limit, t)
  {
    hide LocksMatch, SlotsMatch, IdsApart, RowsOwned, BusyOwned, RowMove, AppMove, SlotMove;
    MoveKeepsLocks(limit, s, t, id, r);
    MoveKeepsSlots(limit, s, t, id, r);
    MoveKeepsIds(limit, s, t, id, r);
    MoveKeepsRows(limit, s, t, id, r);
    MoveKeepsBusy(limit, s, t, id, r);
  }

  lemma MoveKeepsLocks(limit: Limit, s: State, t: State, id: nat, r: Request)
    requires LocksMatch(s) && Moves(limit, s, t, id, r)
    ensures LocksMatch(t)
  {
    forall a | a in t.locks
      ensures exists i :: i in t.requests && t.requests[i].app == a
    {
      var i :| i in s.requests && s.requests[i].app == a;
      assert i in t.requests && t.requests[i].app == a;
    }
  }

  lemma MoveKeepsSlots(limit: Limit, s: State, t: State, id: nat, r: Request)
    requires SlotsMatch(limit, s) && Moves(limit, s, t, id, r)
    ensures SlotsMatch(limit, t)
  {
    hide RowMove, AppMove;
    if HoldsSlot(r.pc) {
      assert Holders(t) == Holders(s) + {id};
    } else {
      assert Holders(t) == Holders(s) - {id};
    }
  }

  lemma MoveKeepsIds(limit: Limit, s: State, t: State, id: nat, r: Request)
    requires IdsApart(s) && Moves(limit, s, t, id, r)
    ensures IdsApart(t)
  {
    hide AppMove, SlotMove;
    assert HasRow(r.pc) ==> (HasRow(s.requests[id].pc) && r.dep == s.requests[id].dep) || r.dep !in s.used;
    assert r.dep in t.used || !HasRow(r.pc);
  }

  lemma MoveKeepsRows(limit: Limit, s: State, t: State, id: nat, r: Request)
    requires IdsApart(s) && RowsOwned(s) && Moves(limit, s, t, id, r)
    ensures RowsOwned(t)
  {
    hide AppMove, SlotMove;
    RequestsAgree(limit, s, t, id, r);
    forall d | d in t.rows && Unfinished(t.rows[d].status) && d !in t.leftRows
      ensures HasOwner(t, d)
    {
      if d == r.dep && OwnsOpenRow(r.pc) {
        assert id in t.requests && t.requests[id] == r;
      } else {
        OwnerKept(limit, s, t, id, r, d);
      }
    }
    assert forall d :: d in t.leftRows ==> d in s.leftRows || (d == r.dep && RowAgrees(s, s.requests[id]));
  }

  lemma RequestsAgree(limit: Limit, s: State, t: State, id: nat, r: Request)
    requires IdsApart(s) && RowsOwned(s) && Moves(limit, s, t, id, r)
    ensures forall i :: i in t.requests ==> RowAgrees(t, t.requests[i])
  {
    hide AppMove, SlotMove, HasOwner;
    assert RowAgrees(s, s.requests[id]);
    assert HasRow(r.pc) ==> RowAgrees(t, r);
    forall i | i in t.requests && i != id
      ensures RowAgrees(t, t.requests[i])
    {
      assert RowAgrees(s, s.requests[i]);
      assert !SameRow(s.requests[i], s.requests[id]);
    }
  }

  lemma OwnerKept(limit: Limit, s: State, t: State, id: nat, r: Request, d: string)
    requires RowsOwned(s) && Moves(limit, s, t, id, r)
    requires d in t.rows && Unfinished(t.rows[d].status) && d !in t.leftRows && !(d == r.dep && OwnsOpenRow(r.pc))
    ensures HasOwner(t, d)
  {
    hide AppMove, SlotMove;
    assert d in s.rows && Unfinished(s.rows[d].status) && d !in s.leftRows;
    assert HasOwner(s, d);
    var i :| i in s.requests && OwnsOpenRow(s.requests[i].pc) && s.requests[i].dep == d;
    assert i != id;
    assert i in t.requests && OwnsOpenRow(t.requests[i].pc) && t.requests[i].dep == d;
  }

  lemma MoveKeepsBusy(limit: Limit, s: State, t: State, id: nat, r: Request)
    requires BusyOwned(s) && LocksMatch(s) && Moves(limit, s, t, id, r)
    ensures BusyOwned(t)
  {
    hide RowMove, SlotMove;
    forall a | a in t.apps && Busy(t.apps[a]) && a !in t.leftApps
      ensures HasWorker(t, a)
    {
      if a == r.app && MayBeBusy(r.pc) {
        assert id in t.requests && t.requests[id] == r;
      } else {
        assert HasWorker(s, a);
        var i :| i in s.requests && MayBeBusy(s.requests[i].pc) && s.requests[i].app == a;
        assert i in t.requests && MayBeBusy(t.requests[i].pc) && t.requests[i].app == a;
      }
    }
  }

  lemma EnterKeepsInv(limit: Limit, s: State, t: State, id: nat, app: string)
    requires Inv(limit, s) && Enters(s, t, id, app)
    ensures Inv(limit, t)
  {
    hide LocksMatch, SlotsMatch, IdsApart, RowsOwned, BusyOwned;
    EnterKeepsLocks(s, t, id, app);
    EnterKeepsPlaces(limit, s, t, id, app);
    EnterKeepsOwned(s, t, id, app);
  }

  lemma EnterKeepsPlaces(limit: Limit, s: State, t: State, id: nat, app: string)
    requires SlotsMatch(limit, s) && IdsApart(s) && Enters(s, t, id, app)
    ensures SlotsMatch(limit, t) && IdsApart(t)
  {
    assert Holders(t) == Holders(s);
  }

  lemma EnterKeepsOwned(s: State, t: State, id: nat, app: string)
    requires RowsOwned(s) && BusyOwned(s) && Enters(s, t, id, app)
    ensures RowsOwned(t) && BusyOwned(t)
  {
    hide HasOwner, HasWorker, RowAgrees;
    OwnersStay(s, t);
    AgreesOn(s, t);
  }

  lemma EnterKeepsLocks(s: State, t: State, id: nat, app: string)
    requires LocksMatch(s) && Enters(s, t, id, app)
    ensures LocksMatch(t)
  {
    forall a | a in t.locks
      ensures exists i :: i in t.requests && t.requests[i].app == a
    {
      if a == app {
        assert id in t.requests && t.requests[id].app == app;
      } else {
        var i :| i in s.requests && s.requests[i].app == a;
        assert i in t.requests && t.requests[i].app == a;
      }
    }
  }

  lemma LeaveKeepsInv(limit: Limit, s: State, t: State, id: nat)
    requires Inv(limit, s) && Leaves(s, t, id)
    ensures Inv(limit, t)
  {
    hide LocksMatch, SlotsMatch, IdsApart, RowsOwned, BusyOwned;
    LeaveKeepsLocks(s, t, id);
    LeaveKeepsPlaces(limit, s, t, id);
    LeaveKeepsOwned(s, t, id);
  }

  lemma LeaveKeepsPlaces(limit: Limit, s: State, t: State, id: nat)
    requires SlotsMatch(limit, s) && IdsApart(s) && Leaves(s, t, id)
    ensures SlotsMatch(limit, t) && IdsApart(t)
  {
    assert Holders(t) == Holders(s);
  }

  lemma LeaveKeepsOwned(s: State, t: State, id: nat)
    requires RowsOwned(s) && BusyOwned(s) && Leaves(s, t, id)
    ensures RowsOwned(t) && BusyOwned(t)
  {
    hide HasOwner, HasWorker, RowAgrees;
    OwnersStay(s, t);
    AgreesOn(s, t);
  }

  lemma AgreesOn(s: State, t: State)
    requires t.rows == s.rows && t.leftRows == s.leftRows
    ensures forall r :: RowAgrees(t, r) == RowAgrees(s, r)
    ensures forall r: Request :: !HasRow(r.pc) ==> RowAgrees(t, r)
  {
  }

  lemma LeaveKeepsLocks(s: State, t: State, id: nat)
    requires LocksMatch(s) && Leaves(s, t, id)
    ensures LocksMatch(t)
  {
    forall a | a in t.locks
      ensures exists i :: i in t.requests && t.requests[i].app == a
    {
      var i :| i in s.requests && s.requests[i].app == a;
      assert i in t.requests && t.requests[i].app == a;
    }
  }

  /** Owners and workers survive a step that keeps every request holding a slot. */
  lemma OwnersStay(s: State, t: State)
    requires forall i :: i in s.requests && HoldsSlot(s.requests[i].pc) ==>
      i in t.requests && t.requests[i] == s.requests[i]
    ensures forall d :: HasOwner(s, d) ==> HasOwner(t, d)
    ensures forall a :: HasWorker(s, a) ==> HasWorker(t, a)
  {
    forall d | HasOwner(s, d) ensures HasOwner(t, d) {
      var i :| i in s.requests && OwnsOpenRow(s.requests[i].pc) && s.requests[i].dep == d;
      assert i in t.requests && t.requests[i] == s.requests[i];
    }
    forall a | HasWorker(s, a) ensures HasWorker(t, a) {
      var i :| i in s.requests && MayBeBusy(s.requests[i].pc) && s.requests[i].app == a;
      assert i in t.requests && t.requests[i] == s.requests[i];
    }
  }

  lemma StatusKeepsInv(limit: Limit, s: State, t: State, a: string)
    requires Inv(limit, s) && AppsOnly(s, t, a)
    ensures Inv(limit, t)
  {
    hide LocksMatch, SlotsMatch, IdsApart, RowsOwned, BusyOwned;
    StatusKeepsPlaces(limit, s, t, a);
    StatusKeepsOwned(s, t, a);
  }

  lemma StatusKeepsPlaces(limit: Limit, s: State, t: State, a: string)
    requires LocksMatch(s) && SlotsMatch(limit, s) && IdsApart(s) && AppsOnly(s, t, a)
    ensures LocksMatch(t) && SlotsMatch(limit, t) && IdsApart(t)
  {
    assert Holders(t) == Holders(s);
  }

  lemma StatusKeepsOwned(s: State, t: State, a: string)
    requires RowsOwned(s) && BusyOwned(s) && AppsOnly(s, t, a)
    ensures RowsOwned(t) && BusyOwned(t)
  {
    hide HasOwner, HasWorker, RowAgrees;
    OwnersStay(s, t);
    AgreesOn(s, t);
  }

  lemma DeleteKeepsInv(limit: Limit, s: State, app: string)
    requires Inv(limit, s)
    ensures Inv(limit, Apply(limit, s, DeleteApp(app)))
  {
    assert Apply(limit, s, DeleteApp(app)) == Deleted(s, app);
    hide Apply, LocksMatch, SlotsMatch, IdsApart, RowsOwned, BusyOwned;
    DeleteKeepsPlaces(limit, s, app);
    DeleteKeepsRows(s, app);
    DeleteKeepsBusy(s, app);
  }

  lemma DeleteKeepsPlaces(limit: Limit, s: State, app: string)
    requires LocksMatch(s) && SlotsMatch(limit, s) && IdsApart(s)
    ensures var t := Deleted(s, app); LocksMatch(t) && SlotsMatch(limit, t) && IdsApart(t)
  {
    assert Holders(Deleted(s, app)) == Holders(s);
  }

  lemma DeleteKeepsRows(s: State, app: string)
    requires RowsOwned(s)
    ensures RowsOwned(Deleted(s, app))
  {
    hide HasOwner;
    OwnersStay(s, Deleted(s, app));
    FewerRowsAgree(s, app);
    hide RowAgrees;
  }

  lemma DeleteKeepsBusy(s: State, app: string)
    requires BusyOwned(s)
    ensures BusyOwned(Deleted(s, app))
  {
    hide HasWorker;
    OwnersStay(s, Deleted(s, app));
  }

  lemma FewerRowsAgree(s: State, app: string)
    ensures forall r :: RowAgrees(s, r) ==> RowAgrees(Deleted(s, app), r)
  {
  }

  lemma CrashKeepsInv(limit: Limit, s: State)
    requires Inv(limit, s)
    ensures Inv(limit, Apply(limit, s, Crash))
  {
    assert Holders(Apply(limit, s, Crash)) == {};
  }

  lemma ReconcileKeepsInv(limit: Limit, s: State, inspected: map<string, AppStatus>)
    requires Inv(limit, s)
    ensures Inv(limit, Apply(limit, s, Reconcile(inspected)))
  {
    assert Holders(Apply(limit, s, Reconcile(inspected))) == Holders(s);
  }

  /** Every step of every request, refused or not, every deletion, crash and restart. */
  lemma ApplyKeepsInv(limit: Limit, s: State, op: Op)
    requires Inv(limit, s)
    ensures Inv(limit, Apply(limit, s, op))
  {
    var t := Apply(limit, s, op);
    assert s.rows.Keys <= s.used;
    hide Apply, Moves, AppsOnly, Enters, Leaves, Inv;
    if op.Crash? {
      CrashKeepsInv(limit, s);
    } else if op.Reconcile? {
      ReconcileKeepsInv(limit, s, op.inspected);
    } else if op.DeleteApp? {
      DeleteKeepsInv(limit, s, op.app);
    } else if op.Arrive? {
      if t != s {
        ArriveEnters(limit, s, op.id, op.app);
        EnterKeepsInv(limit, s, t, op.id, op.app);
      }
    } else if StatusOp(op) {
      StatusOpMoves(limit, s, op);
      if t != s {
        StatusKeepsInv(limit, s, t, op.app);
      }
    } else {
      if RowOp(op) {
        RowOpMoves(limit, s, op);
      } else if op.Insert? {
        InsertMoves(limit, s, op);
      } else if AppOp(op) {
        AppOpMoves(limit, s, op);
      } else {
        SlotOpMoves(limit, s, op);
      }
      if Leaves(s, t, op.id) {
        LeaveKeepsInv(limit, s, t, op.id);
      } else if t != s {
        MoveKeepsInv(limit, s, t, op.id, t.requests[op.id]);
      }
    }
  }

  lemma ArriveEnters(limit: Limit, s: State, id: nat, app: string)
    requires Apply(limit, s, Arrive(id, app)) != s
    ensures Enters(s, Apply(limit, s, Arrive(id, app)), id, app)
  {
  }

  // ---------------------------------------------------------------------------
  // Runs
  // ---------------------------------------------------------------------------

  /** A process starting on whatever the last one left in the database. */
  function Boot(apps: map<string, AppStatus>, rows: map<string, Row>): State {
    State(apps, rows, {}, 0, map[], false, rows.Keys, {}, {})
  }

  function After(limit: Limit, s0: State, ops: seq<Op>, n: nat): State
    requires n <= |ops|
  {
    if n == 0 then s0 else Apply(limit, After(limit, s0, ops, n - 1), ops[n - 1])
  }

  /** `s` is reached from some boot by some interleaving of requests, crashes and restarts. */
  ghost predicate Reachable(limit: Limit, s: State) {
    exists apps, rows, ops: seq<Op> :: After(limit, Boot(apps, rows), ops, |ops|) == s
  }

  lemma {:induction false} InvAlongRun(limit: Limit, apps: map<string, AppStatus>, rows: map<string, Row>,
      ops: seq<Op>, n: nat)
    requires n <= |ops|
    ensures Inv(limit, After(limit, Boot(apps, rows), ops, n))
  {
    hide Apply, Inv;
    if n == 0 {
      BootInv(limit, apps, rows);
    } else {
      InvAlongRun(limit, apps, rows, ops, n - 1);
      ApplyKeepsInv(limit, After(limit, Boot(apps, rows), ops, n - 1), ops[n - 1]);
    }
  }

  lemma BootInv(limit: Limit, apps: map<string, AppStatus>, rows: map<string, Row>)
    ensures Inv(limit, Boot(apps, rows))
  {
    assert Holders(Boot(apps, rows)) == {};
  }

  lemma ReachableInv(limit: Limit, s: State)
    requires Reachable(limit, s)
    ensures Inv(limit, s)
  {
    var apps, rows, ops: seq<Op> :| After(limit, Boot(apps, rows), ops, |ops|) == s;
    hide After, Inv;
    InvAlongRun(limit, apps, rows, ops, |ops|);
  }

  /** In every reachable state: an app has at most one deploy in flight and its lock is held
      exactly while it has one; the slots held are the deploys past admission and never exceed the cap. */
  lemma DeploysAreExclusive(limit: Limit, s: State)
    requires Reachable(limit, s)
    ensures forall i, j :: i in s.requests && j in s.requests && s.requests[i].app == s.requests[j].app ==> i == j
    ensures s.locks == set i | i in s.requests :: s.requests[i].app
    ensures limit.Limited? ==> s.slots == |Holders(s)| <= if limit.configured < 1 then 1 else limit.configured
  {
    ReachableInv(limit, s);
  }

  /** Who gets in: a request enters exactly if its app is known and no other request of the app is in
      flight, and then gets a slot exactly if there is no cap or fewer deploys hold one than the cap. */
  lemma AdmittedIff(limit: Limit, s: State, id: nat, app: string)
    requires Reachable(limit, s) && s.up && id !in s.requests
    ensures var t := Apply(limit, s, Arrive(id, app));
      && (id in t.requests <==> app in s.apps && forall i :: i in s.requests ==> s.requests[i].app != app)
      && (id in t.requests ==>
        t == s.(locks := s.locks + {app}, requests := s.requests[id := Request(app, Locked, "")]))
  {
    ReachableInv(limit, s);
  }

  lemma SlotIff(limit: Limit, s: State, id: nat)
    requires Reachable(limit, s) && Standing(s, id, Locked)
    ensures var t := Apply(limit, s, TakeSlot(id));
      if limit == Unlimited || |Holders(s)| < (if limit.configured < 1 then 1 else limit.configured)
      then Standing(t, id, Admitted) && Holders(t) == Holders(s) + {id}
      else id !in t.requests && s.requests[id].app !in t.locks && Holders(t) == Holders(s)
  {
    DeploysAreExclusive(limit, s);
    hide Reachable, Apply;
    SlotTaken(limit, s, id);
    var t := Apply(limit, s, TakeSlot(id));
    if FullUp(limit, s) {
      assert Holders(t) == Holders(s);
    } else {
      assert Holders(t) == Holders(s) + {id};
    }
  }

  lemma SlotTaken(limit: Limit, s: State, id: nat)
    requires Standing(s, id, Locked)
    ensures var t := Apply(limit, s, TakeSlot(id));
      && t.up
      && (FullUp(limit, s) ==> t.requests == s.requests - {id} && s.requests[id].app !in t.locks)
      && (!FullUp(limit, s) ==> t.requests == s.requests[id := s.requests[id].(pc := Admitted)])
  {
  }

  /** While the process is up, what has no deploy in flight is what the account of things left names. */
  lemma LeftIsGhost(limit: Limit, s: State)
    requires Inv(limit, s) && s.up
    ensures forall d :: d in s.rows && Unfinished(s.rows[d].status) ==> (!HasOwner(s, d) <==> d in s.leftRows)
    ensures forall a :: a !in s.locks ==> ((a in s.apps && Busy(s.apps[a])) <==> a in s.leftApps)
    ensures forall d :: d in s.leftRows ==> d in s.rows && Unfinished(s.rows[d].status)
  {
    forall d | d in s.leftRows ensures !HasOwner(s, d) {
      forall i | i in s.requests && OwnsOpenRow(s.requests[i].pc) ensures s.requests[i].dep != d {
        assert RowAgrees(s, s.requests[i]);
      }
    }
    forall a | a in s.apps && Busy(s.apps[a]) && a !in s.leftApps ensures a in s.locks {
      assert HasWorker(s, a);
    }
  }

  /** Something is left behind only by a refused write: the closing of a row, or the last status. */
  lemma LeftByRefusedWrite(limit: Limit, s: State, op: Op)
    ensures var t := Apply(limit, s, op);
      && (t.leftRows <= s.leftRows || ((op.LogFails? || op.FailRow? || op.SucceedRow?) && !op.written))
      && (t.leftApps <= s.leftApps || (op.Settle? && !op.written))
  {
    hide HasSuccess, Verdict, FailPending, ReconcileApps, FullUp;
  }

  /** The closing write of the deploy with row `d` is refused. */
  predicate RowRefusedAt(s: State, op: Op, d: string) {
    && (op.LogFails? || op.FailRow? || op.SucceedRow?) && !op.written
    && s.up && op.id in s.requests && s.requests[op.id].dep == d && d in s.rows
    && match op
       case LogFails(_, _) => s.requests[op.id].pc.Inserted?
       case FailRow(_, _) => s.requests[op.id].pc in {Inserted, BuildApp, SwapApp}
       case _ => s.requests[op.id].pc.SwapApp?
  }

  /** The last status write of a deploy of app `a` is refused while the app is building or deploying. */
  predicate StatusRefusedAt(s: State, op: Op, a: string) {
    && op.Settle? && !op.written && s.up && op.id in s.requests && s.requests[op.id].pc.RowDone?
    && s.requests[op.id].app == a && a in s.apps && Busy(s.apps[a])
  }

  lemma LeftRowStep(limit: Limit, s: State, op: Op, d: string)
    requires Inv(limit, s)
    ensures var t := Apply(limit, s, op);
      && (d in t.leftRows <==>
            RowRefusedAt(s, op, d) || (d in s.leftRows && op != Crash && op != DeleteApp(s.rows[d].app)))
      && (d in s.rows && d in t.rows ==> t.rows[d].app == s.rows[d].app)
  {
    LeftIsKnown(limit, s);
    hide Inv, HasSuccess, Verdict, ReconcileApps, FullUp, SetStatus;
    if RowOp(op) {
      LeftByRowOp(limit, s, op, d);
    } else {
      KeptByOthers(limit, s, op, d);
    }
  }

  lemma LeftByRowOp(limit: Limit, s: State, op: Op, d: string)
    requires RowOp(op)
    ensures var t := Apply(limit, s, op);
      && (d in t.leftRows <==> RowRefusedAt(s, op, d) || d in s.leftRows)
      && (d in s.rows && d in t.rows ==> t.rows[d].app == s.rows[d].app)
  {
    hide RowStep, AppStep, Deleted, FailPending, ReconcileApps, Release, At, Verdict, Statused, FullUp, HasSuccess;
    if op.id in s.requests {
      var w := op.written;
      RowStepLeft(s, op.id, RowFailed, Finishing, w, d);
      RowStepLeft(s, op.id, RowBuilding, BuildRow, w, d);
      RowStepLeft(s, op.id, RowDeploying, SwapRow, w, d);
      RowStepLeft(s, op.id, RowFailed, RowDone(false), w, d);
      RowStepLeft(s, op.id, RowSuccess, RowDone(true), w, d);
    }
  }

  predicate RowStepLeaves(s: State, id: nat, st: RowStatus, pc: Pc, written: bool, d: string)
    requires id in s.requests
  {
    var t := RowStep(s, id, st, pc, written);
    && (d in t.leftRows <==>
          d in s.leftRows || (!written && !OwnsOpenRow(pc) && d == s.requests[id].dep && d in s.rows))
    && (d in s.rows && d in t.rows ==> t.rows[d].app == s.rows[d].app)
  }

  lemma RowStepLeft(s: State, id: nat, st: RowStatus, pc: Pc, written: bool, d: string)
    requires id in s.requests
    ensures RowStepLeaves(s, id, st, pc, written, d)
  {
  }

  lemma KeptByOthers(limit: Limit, s: State, op: Op, d: string)
    requires !RowOp(op) && (d in s.leftRows ==> d in s.rows)
    ensures var t := Apply(limit, s, op);
      && (d in t.leftRows <==> d in s.leftRows && op != Crash && op != DeleteApp(s.rows[d].app))
      && (d in s.rows && d in t.rows ==> t.rows[d].app == s.rows[d].app)
  {
    hide HasSuccess, Verdict, ReconcileApps, FullUp, SetStatus;
  }

  lemma LeftAppStep(limit: Limit, s: State, op: Op, a: string)
    requires Inv(limit, s)
    ensures var t := Apply(limit, s, op);
      a in t.leftApps <==>
        StatusRefusedAt(s, op, a) || (a in s.leftApps && op != Crash && a in t.apps && Busy(t.apps[a]))
  {
    assert a in s.leftApps ==> a in s.apps && Busy(s.apps[a]) && s.up;
    hide Inv, HasSuccess, FailPending, FullUp, Verdict, ReconcileApps;
    LeftAppMove(limit, s, op, a);
  }

  lemma LeftAppMove(limit: Limit, s: State, op: Op, a: string)
    requires a in s.leftApps ==> a in s.apps && Busy(s.apps[a]) && s.up
    ensures var t := Apply(limit, s, op);
      a in t.leftApps <==>
        StatusRefusedAt(s, op, a) || (a in s.leftApps && op != Crash && a in t.apps && Busy(t.apps[a]))
  {
    if AppOp(op) {
      LeftByAppOp(limit, s, op, a);
    } else {
      hide HasSuccess, FailPending, FullUp, ReconcileApps, Without, Verdict, AppStep, SetStatus;
      assert !StatusRefusedAt(s, op, a);
      LeftByOtherOp(limit, s, op, a);
    }
  }

  lemma LeftByAppOp(limit: Limit, s: State, op: Op, a: string)
    requires AppOp(op) && (a in s.leftApps ==> a in s.apps && Busy(s.apps[a]))
    ensures var t := Apply(limit, s, op);
      a in t.leftApps <==> StatusRefusedAt(s, op, a) || (a in s.leftApps && a in t.apps && Busy(t.apps[a]))
  {
    hide HasSuccess;
  }

  lemma LeftByOtherOp(limit: Limit, s: State, op: Op, a: string)
    requires !AppOp(op) && (a in s.leftApps ==> a in s.apps && Busy(s.apps[a]) && s.up)
    ensures var t := Apply(limit, s, op);
      a in t.leftApps <==> a in s.leftApps && op != Crash && a in t.apps && Busy(t.apps[a])
  {
    hide HasSuccess, FailPending, FullUp, ReconcileApps, Without, Verdict, AppStep;
  }

  function StateAt(limit: Limit, apps: map<string, AppStatus>, rows: map<string, Row>, ops: seq<Op>, n: nat): State
    requires n <= |ops|
  {
    After(limit, Boot(apps, rows), ops, n)
  }

  /** At step `m` the closing of row `d` was refused, and since then there was no crash and its app was
      not deleted. */
  ghost predicate RowLeftAt(limit: Limit, apps: map<string, AppStatus>, rows: map<string, Row>, ops: seq<Op>,
                            m: nat, n: nat, d: string)
    requires m < n <= |ops|
  {
    var s := StateAt(limit, apps, rows, ops, m);
    && RowRefusedAt(s, ops[m], d)
    && forall k :: m < k < n ==> ops[k] != Crash && ops[k] != DeleteApp(s.rows[d].app)
  }

  /** At step `m` the last status of app `a` was refused, and since then there was no crash and the app has
      been building or deploying all the time. */
  ghost predicate AppLeftAt(limit: Limit, apps: map<string, AppStatus>, rows: map<string, Row>, ops: seq<Op>,
                            m: nat, n: nat, a: string)
    requires m < n <= |ops|
  {
    && StatusRefusedAt(StateAt(limit, apps, rows, ops, m), ops[m], a)
    && forall k :: m < k < n ==> StillBusy(limit, apps, rows, ops, k, a)
  }

  /** Step `k` is no crash and leaves app `a` building or deploying. */
  predicate StillBusy(limit: Limit, apps: map<string, AppStatus>, rows: map<string, Row>, ops: seq<Op>, k: nat,
      a: string)
    requires k < |ops|
  {
    var t := StateAt(limit, apps, rows, ops, k + 1);
    ops[k] != Crash && a in t.apps && Busy(t.apps[a])
  }

  lemma {:induction false} RowLeftSince(limit: Limit, apps: map<string, AppStatus>, rows: map<string, Row>,
      ops: seq<Op>,
                                        m: nat, n: nat, d: string)
    requires m < n <= |ops| && RowLeftAt(limit, apps, rows, ops, m, n, d)
    ensures var s, t := StateAt(limit, apps, rows, ops, m), StateAt(limit, apps, rows, ops, n);
      d in t.leftRows && d in t.rows && t.rows[d].app == s.rows[d].app
  {
    hide Apply, Inv, RowRefusedAt;
    InvAlongRun(limit, apps, rows, ops, n - 1);
    InvAlongRun(limit, apps, rows, ops, n);
    LeftIsKnown(limit, StateAt(limit, apps, rows, ops, n));
    LeftRowStep(limit, StateAt(limit, apps, rows, ops, n - 1), ops[n - 1], d);
    if m + 1 < n {
      RowLeftSince(limit, apps, rows, ops, m, n - 1, d);
    } else {
      RefusedIsKnown(StateAt(limit, apps, rows, ops, m), ops[m], d);
    }
  }

  lemma LeftIsKnown(limit: Limit, s: State)
    requires Inv(limit, s)
    ensures forall d :: d in s.leftRows ==> d in s.rows
  {
  }

  lemma RefusedIsKnown(s: State, op: Op, d: string)
    requires RowRefusedAt(s, op, d)
    ensures d in s.rows
  {
  }

  lemma {:induction false} RowLeftFrom(limit: Limit, apps: map<string, AppStatus>, rows: map<string, Row>, ops: seq<Op>,
                                       n: nat, d: string)
    returns (m: nat)
    requires n <= |ops| && d in StateAt(limit, apps, rows, ops, n).leftRows
    ensures m < n && RowLeftAt(limit, apps, rows, ops, m, n, d)
  {
    hide Apply, Inv, RowRefusedAt;
    InvAlongRun(limit, apps, rows, ops, n - 1);
    var s := StateAt(limit, apps, rows, ops, n - 1);
    LeftIsKnown(limit, s);
    LeftRowStep(limit, s, ops[n - 1], d);
    if RowRefusedAt(s, ops[n - 1], d) {
      RefusedIsKnown(s, ops[n - 1], d);
      m := n - 1;
    } else {
      m := RowLeftFrom(limit, apps, rows, ops, n - 1, d);
      RowLeftSince(limit, apps, rows, ops, m, n - 1, d);
    }
  }

  lemma {:induction false} AppLeftIff(limit: Limit, apps: map<string, AppStatus>, rows: map<string, Row>, ops: seq<Op>,
                                      n: nat, a: string)
    requires n <= |ops|
    ensures a in StateAt(limit, apps, rows, ops, n).leftApps <==>
            exists m :: 0 <= m < n && AppLeftAt(limit, apps, rows, ops, m, n, a)
  {
    hide Apply, Inv, StatusRefusedAt, AppLeftAt;
    if n > 0 {
      AppLeftIff(limit, apps, rows, ops, n - 1, a);
      InvAlongRun(limit, apps, rows, ops, n - 1);
      var s := StateAt(limit, apps, rows, ops, n - 1);
      LeftAppStep(limit, s, ops[n - 1], a);
      AppLeftNow(limit, apps, rows, ops, n, a);
      assert a in StateAt(limit, apps, rows, ops, n).leftApps <==>
             StatusRefusedAt(s, ops[n - 1], a) || (a in s.leftApps && StillBusy(limit, apps, rows, ops, n - 1, a));
      hide StateAt, StillBusy;
      var p := n - 1;
      if m :| 0 <= m < p && AppLeftAt(limit, apps, rows, ops, m, p, a) && StillBusy(limit, apps, rows, ops, p, a) {
        AppLeftLonger(limit, apps, rows, ops, m, n, a);
      }
      if m :| 0 <= m < n && AppLeftAt(limit, apps, rows, ops, m, n, a) {
        if m < n - 1 {
          AppLeftLonger(limit, apps, rows, ops, m, n, a);
        }
      }
    }
  }

  lemma AppLeftNow(limit: Limit, apps: map<string, AppStatus>, rows: map<string, Row>, ops: seq<Op>, n: nat, a: string)
    requires 0 < n <= |ops|
    ensures AppLeftAt(limit, apps, rows, ops, n - 1, n, a) <==>
            StatusRefusedAt(StateAt(limit, apps, rows, ops, n - 1), ops[n - 1], a)
  {
  }

  lemma AppLeftLonger(limit: Limit, apps: map<string, AppStatus>, rows: map<string, Row>, ops: seq<Op>,
                      m: nat, n: nat, a: string)
    requires m + 1 < n <= |ops|
    ensures AppLeftAt(limit, apps, rows, ops, m, n, a) <==>
            AppLeftAt(limit, apps, rows, ops, m, n - 1, a) && StillBusy(limit, apps, rows, ops, n - 1, a)
  {
    hide StillBusy, StatusRefusedAt, StateAt;
  }

  /** In every state of every run of a live process: an unfinished row has no deploy in flight if and only
      if the closing write of its deploy was refused, with no crash and no deletion of its app since; and an
      app whose lock is free is building or deploying if and only if the last status write of a deploy was
      refused, with no crash and no other status since. */
  lemma GhostsIff(limit: Limit, apps: map<string, AppStatus>, rows: map<string, Row>, ops: seq<Op>)
    ensures var n := |ops|;
      var s := StateAt(limit, apps, rows, ops, n);
      s.up ==>
        && (forall d :: (d in s.rows && Unfinished(s.rows[d].status) && !HasOwner(s, d)) <==>
              exists m :: 0 <= m < n && RowLeftAt(limit, apps, rows, ops, m, n, d))
        && (forall a :: a !in s.locks ==>
              ((a in s.apps && Busy(s.apps[a])) <==>
                 exists m :: 0 <= m < n && AppLeftAt(limit, apps, rows, ops, m, n, a)))
  {
    hide Apply, Inv, RowLeftAt, AppLeftAt, After, HasOwner;
    var n := |ops|;
    var s := StateAt(limit, apps, rows, ops, n);
    InvAlongRun(limit, apps, rows, ops, n);
    if s.up {
      LeftIsGhost(limit, s);
      forall d
        ensures d in s.leftRows <==> exists m :: 0 <= m < n && RowLeftAt(limit, apps, rows, ops, m, n, d)
      {
        if d in s.leftRows {
          var m := RowLeftFrom(limit, apps, rows, ops, n, d);
        }
        if m :| 0 <= m < n && RowLeftAt(limit, apps, rows, ops, m, n, d) {
          RowLeftSince(limit, apps, rows, ops, m, n, d);
        }
      }
      forall a
        ensures a in s.leftApps <==> exists m :: 0 <= m < n && AppLeftAt(limit, apps, rows, ops, m, n, a)
      {
        AppLeftIff(limit, apps, rows, ops, n, a);
      }
    }
  }

  /** A closing write, and whether it took effect. */
  predicate Effective(op: Op) {
    (op.LogFails? || op.FailRow? || op.SucceedRow? || op.Settle?) ==> op.written
  }

  lemma {:induction false} NothingLeft(limit: Limit, apps: map<string, AppStatus>, rows: map<string, Row>,
      ops: seq<Op>, n: nat)
    requires n <= |ops| && forall i :: 0 <= i < n ==> Effective(ops[i])
    ensures var s := After(limit, Boot(apps, rows), ops, n); s.leftRows == {} && s.leftApps == {}
  {
    if n > 0 {
      hide Apply;
      NothingLeft(limit, apps, rows, ops, n - 1);
      LeftByRefusedWrite(limit, After(limit, Boot(apps, rows), ops, n - 1), ops[n - 1]);
    }
  }

  /** So when the closing writes take effect, an app is building or deploying only under its lock, and
      an unfinished row always belongs to a deploy of its app that is in flight. */
  lemma NoGhostState(limit: Limit, apps: map<string, AppStatus>, rows: map<string, Row>, ops: seq<Op>)
    requires forall i :: 0 <= i < |ops| ==> Effective(ops[i])
    ensures var s := After(limit, Boot(apps, rows), ops, |ops|);
      s.up ==>
        && (forall a :: a in s.apps && Busy(s.apps[a]) ==> a in s.locks)
        && (forall d :: d in s.rows && Unfinished(s.rows[d].status) ==> s.rows[d].app in s.locks)
  {
    hide After;
    var s := After(limit, Boot(apps, rows), ops, |ops|);
    InvAlongRun(limit, apps, rows, ops, |ops|);
    NothingLeft(limit, apps, rows, ops, |ops|);
    if s.up {
      forall a | a in s.apps && Busy(s.apps[a]) ensures a in s.locks {
        assert HasWorker(s, a);
      }
      forall d | d in s.rows && Unfinished(s.rows[d].status) ensures s.rows[d].app in s.locks {
        var i :| i in s.requests && OwnsOpenRow(s.requests[i].pc) && s.requests[i].dep == d;
        assert RowAgrees(s, s.requests[i]);
      }
    }
  }

  /** The first steps of a redeploy: it stands in its swap, with row and app deploying. */
  lemma ReachesSwap(limit: Limit, s: State, id: nat, app: string, dep: string)
    requires s.up && id !in s.requests && app in s.apps && app !in s.locks && !FullUp(limit, s)
    requires dep !in s.used && s.rows.Keys <= s.used && s.apps[app] != Unreachable
    ensures var t := After(limit, s, [Arrive(id, app), TakeSlot(id), Insert(id, dep, true, 0), StartSwap(id, true),
      MarkDeploying(id, true)], 5);
      Standing(t, id, SwapApp) && t.requests[id] == Request(app, SwapApp, dep)
      && dep in t.rows && t.rows[dep].status == RowDeploying && app in t.apps && t.apps[app] == Deploying
  {
    var ops := [Arrive(id, app), TakeSlot(id), Insert(id, dep, true, 0), StartSwap(id, true), MarkDeploying(id, true)];
    hide Apply;
    assert After(limit, s, ops, 1) == Apply(limit, s, ops[0]);
    assert After(limit, s, ops, 2) == Apply(limit, After(limit, s, ops, 1), ops[1]);
    assert After(limit, s, ops, 3) == Apply(limit, After(limit, s, ops, 2), ops[2]);
    assert After(limit, s, ops, 4) == Apply(limit, After(limit, s, ops, 3), ops[3]);
    assert After(limit, s, ops, 5) == Apply(limit, After(limit, s, ops, 4), ops[4]);
    hide After;
    IsAdmitted(limit, s, id, app);
    IsInserted(limit, After(limit, s, ops, 2), id, dep);
    IsMarked(limit, After(limit, s, ops, 3), id);
  }

  /** A deploy that is admitted and goes through: its row and its app go through building and deploying
      to success and running, its lock and its slot come back, and nothing else has changed. */
  lemma DeploySucceeds(limit: Limit, s: State, id: nat, app: string, dep: string, now: int)
    requires s.up && id !in s.requests && app in s.apps && app !in s.locks && !FullUp(limit, s)
    requires dep !in s.used && s.rows.Keys <= s.used && app !in s.leftApps && s.apps[app] != Unreachable
    ensures var ops := [Arrive(id, app), TakeSlot(id), Insert(id, dep, false, now), StartBuild(id, true),
        MarkBuilding(id, true), StartSwap(id, true), MarkDeploying(id, true), SucceedRow(id, true),
        Settle(id, true, true), ReturnSlot(id), Unlock(id)];
      && After(limit, s, ops, 3).rows == s.rows[dep := Row(app, RowPending, now)]
      && After(limit, s, ops, 5).rows == s.rows[dep := Row(app, RowBuilding, now)]
      && After(limit, s, ops, 5).apps == s.apps[app := Building]
      && After(limit, s, ops, 7).rows == s.rows[dep := Row(app, RowDeploying, now)]
      && After(limit, s, ops, 7).apps == s.apps[app := Deploying]
      && After(limit, s, ops, 11) ==
        s.(rows := s.rows[dep := Row(app, RowSuccess, now)], apps := s.apps[app := Running], used := s.used + {dep})
  {
    var ops := [Arrive(id, app), TakeSlot(id), Insert(id, dep, false, now), StartBuild(id, true),
      MarkBuilding(id, true), StartSwap(id, true), MarkDeploying(id, true), SucceedRow(id, true),
      Settle(id, true, true), ReturnSlot(id), Unlock(id)];
    hide Apply;
    assert After(limit, s, ops, 1) == Apply(limit, s, ops[0]);
    assert After(limit, s, ops, 2) == Apply(limit, After(limit, s, ops, 1), ops[1]);
    assert After(limit, s, ops, 3) == Apply(limit, After(limit, s, ops, 2), ops[2]);
    assert After(limit, s, ops, 4) == Apply(limit, After(limit, s, ops, 3), ops[3]);
    assert After(limit, s, ops, 5) == Apply(limit, After(limit, s, ops, 4), ops[4]);
    assert After(limit, s, ops, 6) == Apply(limit, After(limit, s, ops, 5), ops[5]);
    assert After(limit, s, ops, 7) == Apply(limit, After(limit, s, ops, 6), ops[6]);
    assert After(limit, s, ops, 8) == Apply(limit, After(limit, s, ops, 7), ops[7]);
    assert After(limit, s, ops, 9) == Apply(limit, After(limit, s, ops, 8), ops[8]);
    assert After(limit, s, ops, 10) == Apply(limit, After(limit, s, ops, 9), ops[9]);
    assert After(limit, s, ops, 11) == Apply(limit, After(limit, s, ops, 10), ops[10]);
    hide After;
    GetsIn(limit, s, id, app);
    GetsRow(limit, s, id, app, dep, now);
    RowMovesOn(limit, s, id, Inserted, dep, Row(app, RowPending, now), s.apps[app], ops[3]);
    AppMovesOn(limit, s, id, BuildRow, dep, Row(app, RowBuilding, now), s.apps[app], ops[4]);
    RowMovesOn(limit, s, id, BuildApp, dep, Row(app, RowBuilding, now), Building, ops[5]);
    AppMovesOn(limit, s, id, SwapRow, dep, Row(app, RowDeploying, now), Building, ops[6]);
    RowMovesOn(limit, s, id, SwapApp, dep, Row(app, RowDeploying, now), Deploying, ops[7]);
    AppMovesOn(limit, s, id, RowDone(true), dep, Row(app, RowSuccess, now), Deploying, ops[8]);
    GetsOut(limit, s, id, app, dep, Row(app, RowSuccess, now), Running);
  }

  /** State `s` with a deploy of `app` under way. */
  function During(limit: Limit, s: State, id: nat, pc: Pc, dep: string, row: Row, st: AppStatus): State {
    s.(locks := s.locks + {row.app}, slots := s.slots + (if limit.Limited? then 1 else 0),
       requests := s.requests[id := Request(row.app, pc, dep)],
       rows := s.rows[dep := row], used := s.used + {dep}, apps := s.apps[row.app := st])
  }

  lemma GetsIn(limit: Limit, s: State, id: nat, app: string)
    requires s.up && id !in s.requests && app in s.apps && app !in s.locks && !FullUp(limit, s)
    ensures Apply(limit, Apply(limit, s, Arrive(id, app)), TakeSlot(id)) ==
      s.(locks := s.locks + {app}, slots := s.slots + (if limit.Limited? then 1 else 0),
         requests := s.requests[id := Request(app, Admitted, "")])
  {
    var t := Apply(limit, s, Arrive(id, app));
    assert t.requests[id := Request(app, Admitted, "")] == s.requests[id := Request(app, Admitted, "")];
  }

  lemma GetsRow(limit: Limit, s: State, id: nat, app: string, dep: string, now: int)
    requires s.up && id !in s.requests && app in s.apps && dep !in s.used && dep !in s.rows
    ensures var t := s.(locks := s.locks + {app}, slots := s.slots + (if limit.Limited? then 1 else 0),
        requests := s.requests[id := Request(app, Admitted, "")]);
      && Apply(limit, t, Insert(id, dep, false, now)) ==
         During(limit, s, id, Inserted, dep, Row(app, RowPending, now), s.apps[app])
      && Apply(limit, t, Insert(id, dep, true, now)) ==
         During(limit, s, id, Inserted, dep, Row(app, RowDeploying, now), s.apps[app])
  {
    assert s.apps[app := s.apps[app]] == s.apps;
    Overwrites(s.requests, id);
  }

  /** One effective write to the row. */
  lemma RowMovesOn(limit: Limit, s: State, id: nat, pc: Pc, dep: string, row: Row, st: AppStatus, op: Op)
    requires s.up && row.app in s.apps
    ensures var t := Apply(limit, During(limit, s, id, pc, dep, row, st), op);
      && (pc == Inserted && op == StartBuild(id, true) ==>
        t == During(limit, s, id, BuildRow, dep, row.(status := RowBuilding), st))
      && (pc == BuildApp && op == StartSwap(id, true) ==>
        t == During(limit, s, id, SwapRow, dep, row.(status := RowDeploying), st))
      && (pc == SwapApp && op == SucceedRow(id, true) ==>
        t == During(limit, s, id, RowDone(true), dep, row.(status := RowSuccess), st))
  {
    Overwrites(s.requests, id);
    Overwrites(s.rows, dep);
    hide HasSuccess, FullUp, SetStatus;
  }

  /** One effective write to the app's status. */
  lemma AppMovesOn(limit: Limit, s: State, id: nat, pc: Pc, dep: string, row: Row, st: AppStatus, op: Op)
    requires s.up && row.app in s.apps && row.app !in s.leftApps && st != Unreachable
    ensures var t := Apply(limit, During(limit, s, id, pc, dep, row, st), op);
      && (pc == BuildRow && op == MarkBuilding(id, true) ==> t == During(limit, s, id, BuildApp, dep, row, Building))
      && (pc == SwapRow && op == MarkDeploying(id, true) ==> t == During(limit, s, id, SwapApp, dep, row, Deploying))
      && (pc == RowDone(true) && op == Settle(id, true, true) ==>
        t == During(limit, s, id, Finishing, dep, row, Running))
  {
    StatusWritten(limit, s, id, pc, dep, row, st, Building, BuildApp);
    StatusWritten(limit, s, id, pc, dep, row, st, Deploying, SwapApp);
    StatusWritten(limit, s, id, pc, dep, row, st, Running, Finishing);
    hide AppStep, HasSuccess, FullUp;
  }

  lemma StatusWritten(limit: Limit, s: State, id: nat, pc: Pc, dep: string, row: Row, st: AppStatus, st': AppStatus,
      pc': Pc)
    requires s.up && row.app in s.apps && row.app !in s.leftApps && st != Unreachable
    ensures AppStep(During(limit, s, id, pc, dep, row, st), id, st', pc', true) ==
      During(limit, s, id, pc', dep, row, st')
  {
    Overwrites(s.requests, id);
    Overwrites(s.apps, row.app);
  }

  lemma Overwrites<K, V>(m: map<K, V>, k: K)
    ensures forall v, w {:trigger m[k := v][k := w]} :: m[k := v][k := w] == m[k := w]
  {
  }

  lemma GetsOut(limit: Limit, s: State, id: nat, app: string, dep: string, row: Row, st: AppStatus)
    requires s.up && id !in s.requests && app !in s.locks && row.app == app
    ensures Apply(limit, Apply(limit, During(limit, s, id, Finishing, dep, row, st), ReturnSlot(id)), Unlock(id)) ==
      s.(rows := s.rows[dep := row], apps := s.apps[app := st], used := s.used + {dep})
  {
    Overwrites(s.requests, id);
    var t := During(limit, s, id, SlotReturned, dep, row, st).(slots := s.slots);
    assert Apply(limit, During(limit, s, id, Finishing, dep, row, st), ReturnSlot(id)) == t;
    assert t.locks - {app} == s.locks;
    assert t.requests - {id} == s.requests;
    assert Apply(limit, t, Unlock(id)) == Release(t, id);
    hide Apply;
  }

  lemma IsAdmitted(limit: Limit, s: State, id: nat, app: string)
    requires s.up && id !in s.requests && app in s.apps && app !in s.locks && !FullUp(limit, s)
    ensures var t := Apply(limit, Apply(limit, s, Arrive(id, app)), TakeSlot(id));
      Standing(t, id, Admitted) && t.requests[id].app == app && t.apps == s.apps && t.rows == s.rows && t.used == s.used
  {
  }

  lemma IsInserted(limit: Limit, s: State, id: nat, dep: string)
    requires Standing(s, id, Admitted) && s.requests[id].app in s.apps && dep !in s.used && dep !in s.rows
    ensures var t := Apply(limit, s, Insert(id, dep, true, 0));
      Standing(t, id, Inserted) && t.requests[id] == Request(s.requests[id].app, Inserted, dep) && t.apps == s.apps
        && dep in t.rows
  {
  }

  lemma IsMarked(limit: Limit, s: State, id: nat)
    requires Standing(s, id, Inserted) && s.requests[id].dep in s.rows && s.requests[id].app in s.apps
    requires s.apps[s.requests[id].app] != Unreachable
    ensures var r, t := s.requests[id], Apply(limit, Apply(limit, s, StartSwap(id, true)), MarkDeploying(id, true));
      Standing(t, id, SwapApp) && t.requests[id] == r.(pc := SwapApp)
      && r.dep in t.rows && t.rows[r.dep].status == RowDeploying && r.app in t.apps && t.apps[r.app] == Deploying
  {
  }

  lemma RefusedClosing(limit: Limit, s: State, id: nat, read: bool)
    requires Standing(s, id, SwapApp) && s.requests[id].dep in s.rows && s.requests[id].app in s.apps
    requires Busy(s.apps[s.requests[id].app])
    ensures Apply(limit, Apply(limit, s, FailRow(id, false)), Settle(id, read, false)) ==
            s.(requests := s.requests[id := s.requests[id].(pc := Finishing)],
               leftRows := s.leftRows + {s.requests[id].dep}, leftApps := s.leftApps + {s.requests[id].app})
  {
    var r := s.requests[id];
    var t := s.(requests := s.requests[id := r.(pc := RowDone(false))], leftRows := s.leftRows + {r.dep});
    assert Apply(limit, s, FailRow(id, false)) == t;
    assert t.requests[id := r.(pc := Finishing)] == s.requests[id := r.(pc := Finishing)];
  }

  lemma Departs(limit: Limit, s: State, id: nat)
    requires Standing(s, id, Finishing)
    ensures var t := Apply(limit, Apply(limit, s, ReturnSlot(id)), Unlock(id));
      && t.apps == s.apps && t.rows == s.rows && t.up && id !in t.requests && s.requests[id].app !in t.locks
      && t.leftRows == s.leftRows && t.leftApps == s.leftApps
  {
  }

  /** A deploy that gives up before its row, or whose row is refused because the id is taken or the app is gone,
      lets go of slot and lock and leaves rows and apps as they were. */
  lemma NoRowLeaves(limit: Limit, s: State, id: nat, op: Op)
    requires Standing(s, id, Admitted)
    requires op == GiveUp(id) || (op.Insert? && op.id == id
      && (op.dep in s.rows || (op.dep !in s.used && s.requests[id].app !in s.apps)))
    ensures var t := Apply(limit, Apply(limit, Apply(limit, s, op), ReturnSlot(id)), Unlock(id));
      && t.apps == s.apps && t.rows == s.rows && t.up && id !in t.requests && s.requests[id].app !in t.locks
      && t.leftRows == s.leftRows && t.leftApps == s.leftApps
  {
    assert Apply(limit, s, op) == At(s, id, Finishing);
    hide Apply;
    Departs(limit, At(s, id, Finishing), id);
  }

  /** If its context expires during the swap, row and app stay deploying although the deploy is over,
      its lock free and its slot given back. */
  lemma ExpiredDeployLeavesGhosts(limit: Limit, s: State, id: nat, read: bool)
    requires Standing(s, id, SwapApp) && s.requests[id].dep in s.rows && s.requests[id].app in s.apps
    requires Busy(s.apps[s.requests[id].app])
    ensures var t := After(limit, s, [FailRow(id, false), Settle(id, read, false), ReturnSlot(id), Unlock(id)], 4);
      && t.up && id !in t.requests && s.requests[id].app !in t.locks
      && t.rows == s.rows && t.apps == s.apps && s.requests[id].dep in t.leftRows && s.requests[id].app in t.leftApps
  {
    var ops := [FailRow(id, false), Settle(id, read, false), ReturnSlot(id), Unlock(id)];
    hide Apply;
    assert After(limit, s, ops, 1) == Apply(limit, s, ops[0]);
    assert After(limit, s, ops, 2) == Apply(limit, After(limit, s, ops, 1), ops[1]);
    assert After(limit, s, ops, 3) == Apply(limit, After(limit, s, ops, 2), ops[2]);
    assert After(limit, s, ops, 4) == Apply(limit, After(limit, s, ops, 3), ops[3]);
    hide After;
    RefusedClosing(limit, s, id, read);
    Departs(limit, After(limit, s, ops, 2), id);
  }

  /** A restart clears all of it: from any reachable state, a crash and a reconciliation leave no lock,
      slot or request, every row of a deploy in flight and every row left behind failed, every final row
      as it was, and every busy app with what inspection found. */
  lemma RestartClears(limit: Limit, s: State, inspected: map<string, AppStatus>)
    requires Reachable(limit, s)
    ensures var t := Apply(limit, Apply(limit, s, Crash), Reconcile(inspected));
      && t.up && t.locks == {} && t.slots == 0 && t.requests == map[] && t.leftRows == {} && t.leftApps == {}
      && t.rows.Keys == s.rows.Keys && t.apps.Keys == s.apps.Keys
      && (forall i :: i in s.requests && OwnsOpenRow(s.requests[i].pc) && s.requests[i].dep in s.rows ==>
            t.rows[s.requests[i].dep].status == RowFailed)
      && (forall d :: d in s.leftRows ==> d in t.rows && t.rows[d].status == RowFailed)
      && (forall d :: d in s.rows && !Unfinished(s.rows[d].status) ==> t.rows[d] == s.rows[d])
      && (forall d :: d in t.rows ==> !Unfinished(t.rows[d].status))
      && (forall a :: a in s.apps && !Busy(s.apps[a]) ==> t.apps[a] == s.apps[a])
      && (forall a :: a in s.apps && Busy(s.apps[a]) ==> SettledBy(inspected, a, t.apps[a]))
  {
    OpenRowsAreOpen(limit, s);
    assert Apply(limit, Apply(limit, s, Crash), Reconcile(inspected)) ==
           State(ReconcileApps(s.apps, inspected), FailPending(s.rows), {}, 0, map[], true, s.used, {}, {});
    hide Apply, Reachable;
  }

  /** Recovery gives an app the status its inspection found: running, stopped, or else an error. */
  predicate SettledBy(inspected: map<string, AppStatus>, a: string, st: AppStatus) {
    && (st == Running <==> a in inspected && inspected[a] == Running)
    && (st == Stopped <==> a in inspected && inspected[a] == Stopped)
    && (st == Running || st == Stopped || st == Errored)
  }

  lemma OpenRowsAreOpen(limit: Limit, s: State)
    requires Reachable(limit, s)
    ensures forall i :: i in s.requests && OwnsOpenRow(s.requests[i].pc) && s.requests[i].dep in s.rows ==>
      Unfinished(s.rows[s.requests[i].dep].status)
    ensures forall d :: d in s.leftRows ==> d in s.rows && Unfinished(s.rows[d].status)
  {
    ReachableInv(limit, s);
    hide Reachable, LocksMatch, SlotsMatch, IdsApart, BusyOwned, HasOwner;
    forall i | i in s.requests && OwnsOpenRow(s.requests[i].pc) && s.requests[i].dep in s.rows
      ensures Unfinished(s.rows[s.requests[i].dep].status)
    {
      assert RowAgrees(s, s.requests[i]);
    }
  }

  /** One step leaves a final row alone, or removes it with its app; and an id is not used again. */
  lemma FinalRowStep(limit: Limit, s: State, op: Op, d: string)
    requires Inv(limit, s) && d in s.used && (d in s.rows ==> !Unfinished(s.rows[d].status))
    ensures var t := Apply(limit, s, op);
      && d in t.used && (d in t.rows <==> d in s.rows && op != DeleteApp(s.rows[d].app))
      && (d in t.rows ==> t.rows[d] == s.rows[d])
  {
    hide HasSuccess, Verdict, ReconcileApps, FullUp, LocksMatch, SlotsMatch, BusyOwned, HasOwner, SetStatus;
    if RowOp(op) {
      if op.id in s.requests {
        assert RowAgrees(s, s.requests[op.id]);
      }
      FinalRowWrite(limit, s, op, d);
    } else {
      OtherRowStep(limit, s, op, d);
    }
  }

  lemma OtherRowStep(limit: Limit, s: State, op: Op, d: string)
    requires !RowOp(op) && d in s.used && (d in s.rows ==> !Unfinished(s.rows[d].status))
    ensures var t := Apply(limit, s, op);
      && d in t.used && (d in t.rows <==> d in s.rows && op != DeleteApp(s.rows[d].app))
      && (d in t.rows ==> t.rows[d] == s.rows[d])
  {
    hide HasSuccess, Verdict, ReconcileApps, FullUp, SetStatus;
  }

  lemma FinalRowWrite(limit: Limit, s: State, op: Op, d: string)
    requires RowOp(op) && d in s.used && (d in s.rows ==> !Unfinished(s.rows[d].status))
    requires op.id in s.requests ==> RowAgrees(s, s.requests[op.id])
    ensures var t := Apply(limit, s, op);
      d in t.used && (d in t.rows <==> d in s.rows) && (d in t.rows ==> t.rows[d] == s.rows[d])
  {
  }

  ghost predicate DeletedBetween(ops: seq<Op>, app: string, m: nat, n: nat) {
    exists k :: m <= k < n && k < |ops| && ops[k] == DeleteApp(app)
  }

  /** A row that is success or failed stays as it is through every later step, crash and restart, until
      its app is deleted, and then it is gone for good. */
  lemma {:induction false} FinalRowsStay(limit: Limit, apps: map<string, AppStatus>, rows: map<string, Row>,
                                         ops: seq<Op>, m: nat, n: nat, d: string)
    requires m <= n <= |ops|
    requires var s := After(limit, Boot(apps, rows), ops, m); d in s.rows && !Unfinished(s.rows[d].status)
    ensures var s, t := After(limit, Boot(apps, rows), ops, m), After(limit, Boot(apps, rows), ops, n);
      && d in t.used && (d in t.rows <==> !DeletedBetween(ops, s.rows[d].app, m, n))
      && (d in t.rows ==> t.rows[d] == s.rows[d])
  {
    hide Apply, Inv;
    if m == n {
      InvAlongRun(limit, apps, rows, ops, n);
      KnownIsUsed(limit, After(limit, Boot(apps, rows), ops, n), d);
    } else {
      FinalRowsStay(limit, apps, rows, ops, m, n - 1, d);
      InvAlongRun(limit, apps, rows, ops, n - 1);
      FinalRowStep(limit, After(limit, Boot(apps, rows), ops, n - 1), ops[n - 1], d);
      var app := After(limit, Boot(apps, rows), ops, m).rows[d].app;
      assert DeletedBetween(ops, app, m, n) <==> DeletedBetween(ops, app, m, n - 1) || ops[n - 1] == DeleteApp(app);
    }
  }

  lemma KnownIsUsed(limit: Limit, s: State, d: string)
    requires Inv(limit, s) && d in s.rows
    ensures d in s.used
  {
  }

  /** A request that finds no slot leaves the state exactly as it was before it came, and one that
      finds the lock taken never enters. */
  lemma RefusalLeavesNothing(limit: Limit, s: State, id: nat, app: string)
    requires Reachable(limit, s) && id !in s.requests
    ensures FullUp(limit, s) ==> Apply(limit, Apply(limit, s, Arrive(id, app)), TakeSlot(id)) == s
    ensures (exists i :: i in s.requests && s.requests[i].app == app) ==> Apply(limit, s, Arrive(id, app)) == s
  {
    ReachableInv(limit, s);
    var t := Apply(limit, s, Arrive(id, app));
    if t != s && FullUp(limit, s) {
      assert t.requests - {id} == s.requests && t.locks - {app} == s.locks;
    }
  }

  /** A row becomes a success only by the closing write of a deploy that stands in its swap, and the
      row of every other deploy that ends fails. */
  lemma SuccessOnlyBySwap(limit: Limit, s: State, op: Op, d: string)
    requires var t := Apply(limit, s, op);
      d in s.rows && d in t.rows && Unfinished(s.rows[d].status) && !Unfinished(t.rows[d].status)
    ensures var t := Apply(limit, s, op);
      && t.rows[d].app == s.rows[d].app && t.rows[d].created == s.rows[d].created
      && t.rows[d].status == (if op.SucceedRow? then RowSuccess else RowFailed)
      && (op.SucceedRow? ==> Standing(s, op.id, SwapApp) && s.requests[op.id].dep == d && op.written)
  {
    hide HasSuccess, ReconcileApps, FullUp, SetStatus;
  }

  /** Only a lost server makes an app unreachable, and nothing but a verdict of running, or its
      deletion, ends that; a stop is refused. */
  lemma UnreachableUntilRunning(limit: Limit, s: State, op: Op, a: string)
    requires a in s.apps
    ensures var t := Apply(limit, s, op);
      && (a in t.apps <==> op != DeleteApp(a))
      && (a in t.apps && s.apps[a] == Unreachable ==>
        t.apps[a] == Unreachable
        || (t.apps[a] == Running && op.Settle? && op.id in s.requests && s.requests[op.id].app == a))
      && (a in t.apps && s.apps[a] != Unreachable ==> (t.apps[a] == Unreachable <==> op == LoseServer(a)))
      && (op == StopApp(a) && s.apps[a] != Unreachable ==> t.apps == s.apps[a := Stopped])
  {
    hide HasSuccess, FailPending, FullUp, Without;
  }

  /** Once its deploy is over, and its closing writes took effect, a reachable app is marked running
      exactly when that deploy or an earlier one succeeded; an unreachable app comes back only by a
      success. A deploy that cannot look for an earlier one counts its own result alone. */
  lemma VerdictByHistory(limit: Limit, s: State, id: nat)
    requires Reachable(limit, s) && s.up && id in s.requests && s.requests[id].pc.RowDone?
    requires s.requests[id].app in s.apps && s.requests[id].dep in s.rows && s.requests[id].dep !in s.leftRows
    ensures var r, t := s.requests[id], Apply(limit, s, Settle(id, true, true));
      var succeeded := exists d :: d in s.rows && IsSuccess(s.rows[d], r.app);
      && r.app in t.apps
      && (s.apps[r.app] != Unreachable ==> t.apps[r.app] == if succeeded then Running else Errored)
      && (s.apps[r.app] == Unreachable ==> t.apps[r.app] == if succeeded then Running else Unreachable)
    ensures var r, t := s.requests[id], Apply(limit, s, Settle(id, false, true));
      s.apps[r.app] != Unreachable ==> r.app in t.apps && t.apps[r.app] == if r.pc.won then Running else Errored
  {
    OwnRowSays(limit, s, id);
    hide Reachable, RowAgrees, HasSuccess, IsSuccess;
    SuccessBy(s.rows, s.requests[id].app, s.requests[id].dep);
  }

  lemma OwnRowSays(limit: Limit, s: State, id: nat)
    requires Reachable(limit, s) && id in s.requests && s.requests[id].pc.RowDone?
    requires s.requests[id].dep in s.rows && s.requests[id].dep !in s.leftRows
    ensures var r := s.requests[id];
      s.rows[r.dep].app == r.app && s.rows[r.dep].status == if r.pc.won then RowSuccess else RowFailed
  {
    ReachableInv(limit, s);
    assert RowAgrees(s, s.requests[id]);
  }

  lemma OwnRowApart(rows: map<string, Row>, app: string, dep: string, r: Row)
    ensures HasSuccess(rows[dep := r], app, dep) == HasSuccess(rows, app, dep)
  {
    var rows' := rows[dep := r];
    assert forall d :: d != dep ==> (d in rows' <==> d in rows) && (d in rows ==> rows'[d] == rows[d]);
  }

  lemma SuccessBy(rows: map<string, Row>, app: string, dep: string)
    requires dep in rows && rows[dep].app == app
    ensures (rows[dep].status == RowSuccess || HasSuccess(rows, app, dep)) <==>
            exists d :: d in rows && IsSuccess(rows[d], app)
  {
    if rows[dep].status == RowSuccess {
      assert IsSuccess(rows[dep], app);
    }
  }

  // ---------------------------------------------------------------------------
  // The engine's own steps
  // ---------------------------------------------------------------------------

  /** The engine's in-memory admission state. */
  class Admission {
    const limit: Limit
    var locks: set<string>
    var slots: nat

    constructor (limit: Limit)
      ensures this.limit == limit && locks == {} && slots == 0
    {
      this.limit := limit;
      locks, slots := {}, 0;
    }

    method AcquireLock(app: string) returns (ok: bool)
      modifies this`locks
      ensures ok == (app !in old(locks)) && locks == old(locks) + {app}
    {
      ok := app !in locks;
      if ok {
        locks := locks + {app};
      }
    }

    method AcquireGlobalSlot() returns (ok: bool)
      modifies this`slots
      ensures ok <==> limit == Unlimited || old(slots) < 1 || old(slots) < limit.configured
      ensures slots == if ok && limit.Limited? then old(slots) + 1 else old(slots)
    {
      if limit.Unlimited? {
        return true;
      }
      var capacity := limit.configured;
      if capacity < 1 {
        capacity := 1;
      }
      if slots >= capacity {
        return false;
      }
      slots := slots + 1;
      return true;
    }

    /** The admission part of Deploy and Rollback: both or neither, and what each refusal leaves. */
    method Admit(app: string) returns (lockFree: bool, slotFree: bool)
      modifies this
      ensures lockFree == (app !in old(locks))
      ensures slotFree <==> lockFree && (limit == Unlimited || old(slots) < 1 || old(slots) < limit.configured)
      ensures slotFree ==> locks == old(locks) + {app} && slots == old(slots) + (if limit.Limited? then 1 else 0)
      ensures !slotFree ==> locks == old(locks) && slots == old(slots)
    {
      slotFree := false;
      lockFree := AcquireLock(app);
      if lockFree {
        slotFree := AcquireGlobalSlot();
        if !slotFree {
          locks := locks - {app};
        }
      }
    }
  }

  predicate Later(rows: map<string, Row>, d: string, e: string)
    requires d in rows && e in rows
  {
    rows[d].created > rows[e].created || (rows[d].created == rows[e].created && LexLess(e, d))
  }

  lemma LaterTotal(rows: map<string, Row>, d: string, e: string)
    requires d in rows && e in rows && d != e
    ensures Later(rows, d, e) || Later(rows, e, d)
  {
    LexTotal(d, e);
  }

  lemma LaterTransitive(rows: map<string, Row>, d: string, e: string, f: string)
    requires d in rows && e in rows && f in rows && Later(rows, d, e) && Later(rows, e, f)
    ensures Later(rows, d, f)
  {
    if LexLess(f, e) && LexLess(e, d) {
      LexTransitive(f, e, d);
    }
  }

  /** The two tables the engine writes. */
  class Database {
    var apps: map<string, AppStatus>
    var rows: map<string, Row>

    constructor (apps: map<string, AppStatus>, rows: map<string, Row>)
      ensures this.apps == apps && this.rows == rows
    {
      this.apps, this.rows := apps, rows;
    }

    method UpdateStatus(app: string, s: AppStatus)
      modifies this`apps
      ensures apps == SetStatus(old(apps), app, s)
    {
      if app in apps && !(apps[app] == Unreachable && s != Running) {
        apps := apps[app := s];
      }
    }

    /** A row needs a fresh id and an app that is still there. */
    method InsertRow(dep: string, app: string, s: RowStatus, now: int) returns (ok: bool)
      modifies this`rows
      ensures ok == (dep !in old(rows) && app in apps)
      ensures rows == if ok then old(rows)[dep := Row(app, s, now)] else old(rows)
    {
      ok := dep !in rows && app in apps;
      if ok {
        rows := rows[dep := Row(app, s, now)];
      }
    }

    method UpdateRow(dep: string, s: RowStatus)
      modifies this`rows
      ensures rows == if dep in old(rows) then old(rows)[dep := old(rows)[dep].(status := s)] else old(rows)
    {
      if dep in rows {
        rows := rows[dep := rows[dep].(status := s)];
      }
    }

    /** The most recent success of the app, by creation time and then by id. */
    method LastSuccess(app: string, except: string) returns (last: Option<string>)
      ensures last.None? <==> !HasSuccess(rows, app, except)
      ensures last.Some? ==> last.value in rows && last.value != except && IsSuccess(rows[last.value], app)
      ensures last.Some? ==> forall d :: d in rows && d != except && IsSuccess(rows[d], app) && d != last.value ==>
        rows[d].created < rows[last.value].created
        || (rows[d].created == rows[last.value].created && LexLess(d, last.value))
    {
      var todo := rows.Keys;
      last := None;
      while todo != {}
        invariant todo <= rows.Keys
        invariant last.None? ==> forall d :: d in rows && d !in todo && d != except ==> !IsSuccess(rows[d], app)
        invariant last.Some? ==> last.value in rows && last.value != except && IsSuccess(rows[last.value], app)
        invariant last.Some? ==>
          forall d :: d in rows && d !in todo && d != except && IsSuccess(rows[d], app) && d != last.value ==>
            Later(rows, last.value, d)
        decreases todo
      {
        hide Later;
        var d :| d in todo;
        todo := todo - {d};
        if d != except && IsSuccess(rows[d], app) {
          if last.None? {
            last := Some(d);
          } else if Later(rows, d, last.value) {
            ghost var best := last.value;
            forall e | e in rows && Later(rows, best, e) ensures Later(rows, d, e) {
              LaterTransitive(rows, d, best, e);
            }
            last := Some(d);
          } else if d != last.value {
            LaterTotal(rows, d, last.value);
          }
        }
      }
    }

    /** failDeploy: the row fails, and the app keeps running only on an earlier success. With an expired
        context (`alive` false) none of its statements takes effect. */
    method FailDeploy(app: string, dep: string, alive: bool)
      requires app in apps && dep in rows && rows[dep].app == app
      modifies this
      ensures !alive ==> rows == old(rows) && apps == old(apps)
      ensures alive ==> rows == old(rows)[dep := old(rows)[dep].(status := RowFailed)]
      ensures alive ==> apps == SetStatus(old(apps), app, if HasSuccess(old(rows), app, dep) then Running else Errored)
    {
      if !alive {
        return;
      }
      UpdateRow(dep, RowFailed);
      var last := LastSuccess(app, dep);
      OwnRowApart(old(rows), app, dep, rows[dep]);
      UpdateStatus(app, if last.Some? then Running else Errored);
    }

    method FailPendingRows()
      modifies this`rows
      ensures rows == FailPending(old(rows))
    {
      var todo := rows.Keys;
      while todo != {}
        invariant todo <= rows.Keys == old(rows).Keys
        invariant forall d :: d in rows ==> rows[d] == if d in todo then old(rows)[d] else FailPending(old(rows))[d]
        decreases todo
      {
        var d :| d in todo;
        todo := todo - {d};
        if Unfinished(rows[d].status) {
          rows := rows[d := rows[d].(status := RowFailed)];
        }
      }
    }

    /** Reconcile walks a snapshot of the apps, so each busy app is settled exactly once. */
    method ReconcileAll(inspected: map<string, AppStatus>)
      modifies this
      ensures rows == FailPending(old(rows)) && apps == ReconcileApps(old(apps), inspected)
      ensures rows.Keys == old(rows).Keys && apps.Keys == old(apps).Keys
      ensures forall d :: d in rows ==>
        rows[d] == old(rows)[d].(status := if Unfinished(old(rows)[d].status) then RowFailed else old(rows)[d].status)
      ensures forall a :: a in apps ==>
        if Busy(old(apps)[a]) then SettledBy(inspected, a, apps[a]) else apps[a] == old(apps)[a]
    {
      var snapshot := apps;
      FailPendingRows();
      var todo := snapshot.Keys;
      while todo != {}
        invariant rows == FailPending(old(rows))
        invariant todo <= apps.Keys == snapshot.Keys
        invariant forall a :: a in apps ==> apps[a] == if a in todo then snapshot[a]
          else ReconcileApps(snapshot, inspected)[a]
        decreases todo
      {
        var a :| a in todo;
        todo := todo - {a};
        if Busy(snapshot[a]) {
          UpdateStatus(a, Inspected(inspected, a));
        }
      }
    }
  }
}
