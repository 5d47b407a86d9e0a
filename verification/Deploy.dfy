/** A redeploy of an existing image, end to end: its row, the swap, and what is left when the
    swap fails. */
module Deploy {
  import opened Docker
  import S = Swap
  import L = Lifecycle
  import R = RouteMap

  datatype Ending = NoRow | NoLog | Swapped | Failed(stage: S.Stage)

  /** What the caller of a swap may conclude from how it ended. */
  lemma SwapEnds(cfg: S.Config, w0: S.World, o: nat -> Outcome, ok: bool, stage: S.Stage, w: S.World, k: nat)
    requires cfg.WellNamed()
    requires S.Finish(cfg, S.Begin(w0), o, 0) == (S.State(if ok then S.Succeeded else S.Failed(stage), w), k)
    ensures ok ==> S.CanonicalUp(cfg, w)
    ensures !ok && cfg.hosts != [] && stage in {S.AtPrepare, S.AtRun, S.AtHealth} ==> Restored(cfg, w0, w)
  {
    hide S.Finish, S.Next;
    assert S.StateAt(cfg, S.Begin(w0), o, 0) == S.Begin(w0);
    S.FinishIsStateAt(cfg, S.Begin(w0), o, 0);
    if ok {
      S.SuccessInstallsCandidate(cfg, w0, o, k);
    } else if cfg.hosts != [] && stage in {S.AtPrepare, S.AtRun, S.AtHealth} {
      S.RollbackRestores(cfg, w0, o, k, stage);
    }
  }

  /** Routes and containers as before, but for containers bearing the candidate's name. */
  predicate Restored(cfg: S.Config, w0: S.World, w: S.World) {
    && w.routes == w0.routes
    && w.containers - {cfg.temp} == w0.containers - {cfg.temp}
    && (cfg.temp !in w.containers ==> w.containers == w0.containers - {cfg.temp})
  }

  /** The names are as the engine derives them for its apps, and every call works. */
  ghost predicate Smooth(cfg: S.Config, o: nat -> Outcome) {
    cfg.WellNamed() && cfg.containerName in cfg.olds && forall n: nat :: o(n) == Done
  }

  class Pipeline {
    const engine: S.Engine
    const db: L.Database

    constructor (engine: S.Engine, db: L.Database)
      ensures this.engine == engine && this.db == db
    {
      this.engine, this.db := engine, db;
    }

    /** runFromImage. The last clauses are the rollback promise: when the candidate never started
        or never became healthy, routes and every other container are as before, exactly the
        candidate being gone once its removal took effect, the row is failed, and a reachable app
        is marked running exactly when an earlier deployment succeeded. With a context that has
        expired by then (`alive` false) the row and the app stay deploying instead. */
    method RunFromImage(app: string, dep: string, now: int, logOpens: bool, cfg: S.Config, o: nat -> Outcome,
        alive: bool)
      returns (end: Ending)
      requires app in db.apps
      modifies engine, db
      ensures end.NoRow? <==> dep in old(db.rows)
      ensures end.NoRow? ==> db.rows == old(db.rows)
      ensures end.NoLog? <==> dep !in old(db.rows) && !logOpens
      ensures end.NoRow? || end.NoLog? ==> engine.Now() == old(engine.Now()) && db.apps == old(db.apps)
      ensures !end.NoRow? ==> db.rows == old(db.rows)[dep := L.Row(app, Final(end, alive), now)]
      ensures end.Swapped? && alive ==> db.apps == old(db.apps)[app := L.Running]
      ensures end.Swapped? && cfg.WellNamed() ==> S.CanonicalUp(cfg, engine.Now())
      ensures dep !in old(db.rows) && logOpens && Smooth(cfg, o) ==>
        && end == Swapped
        && engine.containers == (old(engine.containers) - (set n | n in cfg.olds) - {cfg.temp})
             [cfg.containerName := Container({cfg.temp}, cfg.image, true, cfg.labels)]
        && forall h :: h in cfg.hosts ==>
          R.Routed(engine.routes, h, R.Target(cfg.containerName, cfg.port), cfg.Force(h))
      ensures end.Failed? && alive && old(db.apps)[app] != L.Unreachable ==>
        db.apps == old(db.apps)[app := if L.HasSuccess(old(db.rows), app, dep) then L.Running else L.Errored]
      ensures (end.Failed? || end.Swapped?) && !alive && old(db.apps)[app] != L.Unreachable ==>
        db.apps == old(db.apps)[app := L.Deploying]
      ensures end.Failed? && cfg.WellNamed() && cfg.hosts != [] && end.stage in {S.AtPrepare, S.AtRun, S.AtHealth} ==>
        Restored(cfg, old(engine.Now()), engine.Now())
    {
      hide S.Finish, S.CanonicalUp, L.HasSuccess, Restored;
      var inserted := db.InsertRow(dep, app, L.RowDeploying, now);
      if !inserted {
        return NoRow;
      }
      if !logOpens {
        if alive {
          db.UpdateRow(dep, L.RowFailed);
        }
        return NoLog;
      }
      db.UpdateRow(dep, L.RowDeploying);
      db.UpdateStatus(app, L.Deploying);
      assert db.rows == old(db.rows)[dep := L.Row(app, L.RowDeploying, now)];
      L.OwnRowApart(old(db.rows), app, dep, L.Row(app, L.RowDeploying, now));
      ghost var w0 := engine.Now();
      var ok, stage, k := engine.Swap(cfg, o);
      if cfg.WellNamed() {
        SwapEnds(cfg, w0, o, ok, stage, engine.Now(), k);
      }
      if ok {
        if alive {
          db.UpdateRow(dep, L.RowSuccess);
          db.UpdateStatus(app, L.Running);
        }
        return Swapped;
      }
      db.FailDeploy(app, dep, alive);
      return Failed(stage);
    }
  }

  /** What the row ends up as. */
  function Final(end: Ending, alive: bool): L.RowStatus {
    if !alive then L.RowDeploying else if end.Swapped? then L.RowSuccess else L.RowFailed
  }
}
