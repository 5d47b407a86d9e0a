/** The swap of a multi-service app: start a candidate per service, give each the service's canonical
    name, route its domains to it, and remove what no longer belongs to the app. Every remote call
    may fail. */
module Compose {
  import opened Docker
  import opened RouteMap
  import opened ComposeNames

  // ---------------------------------------------------------------------------
  // The phases
  // ---------------------------------------------------------------------------

  /** How the engine calls made for one service end. */
  datatype Calls = Calls(
    stale: Outcome, create: Outcome, start: Outcome, cleanup: Outcome,
    backStop: Outcome, backRemove: Outcome,
    stop: Outcome, remove: Outcome, legacyStop: Outcome, legacyRemove: Outcome, rename: Outcome)
  {
    predicate RemovalsWork() {
      stale.Effect() && cleanup.Effect() && backRemove.Effect() && remove.Effect() && legacyRemove.Effect()
    }
  }

  type Oracle = nat -> Calls

  ghost predicate RemovalsWork(o: Oracle, n: nat) { forall i :: 0 <= i < n ==> o(i).RemovalsWork() }

  /** startComposeCandidate: clear the temporary name, create, start; undo a start that failed. */
  function StartOne(c: Fleet, s: Slot, k: Calls): (Fleet, bool) {
    var c1 := Remove(c, s.temp, k.stale);
    var c2 := Create(c1, s.temp, s.cand, k.create);
    if !(CanCreate(c1, s.temp) && k.create.Done?) then (c2, false)
    else
      var c3 := Start(c2, s.temp, k.start);
      if k.start.Done? then (c3, true) else (Remove(c3, s.temp, k.cleanup), false)
  }

  /** The first `i` services, stopping at the first that does not start. */
  function StartFirst(c: Fleet, slots: seq<Slot>, o: Oracle, i: nat): (Fleet, bool)
    requires i <= |slots|
  {
    if i == 0 then (c, true)
    else
      var (c', ok) := StartFirst(c, slots, o, i - 1);
      if ok then StartOne(c', slots[i - 1], o(i - 1)) else (c', false)
  }

  function RollBackFirst(c: Fleet, slots: seq<Slot>, o: Oracle, i: nat): Fleet
    requires i <= |slots|
  {
    if i == 0 then c
    else
      var c' := RollBackFirst(c, slots, o, i - 1);
      Remove(Stop(c', slots[i - 1].temp, o(i - 1).backStop), slots[i - 1].temp, o(i - 1).backRemove)
  }

  function SwapOne(c: Fleet, s: Slot, k: Calls): (Fleet, bool) {
    var c1 := Remove(Stop(c, s.canonical, k.stop), s.canonical, k.remove);
    var c2 := Remove(Stop(c1, s.legacy, k.legacyStop), s.legacy, k.legacyRemove);
    (Rename(c2, s.temp, s.canonical, k.rename), k.rename.Done? && CanRename(c2, s.temp, s.canonical))
  }

  function SwapFirst(c: Fleet, slots: seq<Slot>, o: Oracle, i: nat): (Fleet, bool)
    requires i <= |slots|
  {
    if i == 0 then (c, true)
    else
      var (c', ok) := SwapFirst(c, slots, o, i - 1);
      if ok then SwapOne(c', slots[i - 1], o(i - 1)) else (c', false)
  }

  function LabelOf(c: Container, key: string): string { if key in c.labels then c.labels[key] else "" }

  /** A container of the app whose service is not among the live ones. */
  predicate Orphan(c: Container, appId: string, live: set<string>) {
    LabelOf(c, "prexel.app_id") == appId && LabelOf(c, "prexel.service") != "" && LabelOf(c, "prexel.service") !in live
  }

  // ---------------------------------------------------------------------------
  // What they come to
  // ---------------------------------------------------------------------------

  ghost predicate Orderly(slots: seq<Slot>) { TempsDistinct(slots) && CanonicalsDistinct(slots) && InOrder(slots) }

  ghost function Temps(slots: seq<Slot>, i: nat): set<string>
    requires i <= |slots|
  {
    set j | 0 <= j < i :: slots[j].temp
  }

  ghost function Canonicals(slots: seq<Slot>, i: nat): set<string>
    requires i <= |slots|
  {
    set j | 0 <= j < i :: slots[j].canonical
  }

  ghost function Legacies(slots: seq<Slot>, i: nat): set<string>
    requires i <= |slots|
  {
    set j | 0 <= j < i :: slots[j].legacy
  }

  /** Every name the first services have had or give up. */
  ghost function Replaced(slots: seq<Slot>, i: nat): set<string>
    requires i <= |slots|
  {
    Canonicals(slots, i) + Legacies(slots, i) + Temps(slots, i)
  }

  lemma ReplacedStep(slots: seq<Slot>, i: nat)
    requires i < |slots|
    ensures Temps(slots, i + 1) == Temps(slots, i) + {slots[i].temp}
    ensures Canonicals(slots, i + 1) == Canonicals(slots, i) + {slots[i].canonical}
    ensures Replaced(slots, i + 1) == Replaced(slots, i) + {slots[i].temp, slots[i].canonical, slots[i].legacy}
  {
    assert Legacies(slots, i + 1) == Legacies(slots, i) + {slots[i].legacy};
  }

  lemma NextNamesUnused(slots: seq<Slot>, i: nat)
    requires i < |slots| && Orderly(slots)
    ensures slots[i].temp !in Replaced(slots, i) && slots[i].temp !in Canonicals(slots, i)
    ensures slots[i].canonical !in Canonicals(slots, i)
    ensures slots[i].legacy !in Canonicals(slots, i)
  {
  }

  /** The candidates under their temporary names. */
  ghost function Candidates(slots: seq<Slot>, i: nat): Fleet
    requires i <= |slots|
  {
    if i == 0 then map[] else Candidates(slots, i - 1)[slots[i - 1].temp := slots[i - 1].cand]
  }

  /** The candidates under their canonical names. */
  ghost function Installed(slots: seq<Slot>, i: nat): Fleet
    requires i <= |slots|
  {
    if i == 0 then map[] else Installed(slots, i - 1)[slots[i - 1].canonical := slots[i - 1].cand]
  }

  lemma {:induction false} CandidateKeys(slots: seq<Slot>, i: nat)
    requires i <= |slots| && TempsDistinct(slots)
    ensures Candidates(slots, i).Keys == Temps(slots, i)
    ensures forall j :: 0 <= j < i ==> Candidates(slots, i)[slots[j].temp] == slots[j].cand
  {
    if i > 0 {
      CandidateKeys(slots, i - 1);
      assert Temps(slots, i) == Temps(slots, i - 1) + {slots[i - 1].temp};
    }
  }

  lemma {:induction false} InstalledKeys(slots: seq<Slot>, i: nat)
    requires i <= |slots| && CanonicalsDistinct(slots)
    ensures Installed(slots, i).Keys == Canonicals(slots, i)
    ensures forall j :: 0 <= j < i ==> Installed(slots, i)[slots[j].canonical] == slots[j].cand
  {
    if i > 0 {
      InstalledKeys(slots, i - 1);
      assert Canonicals(slots, i) == Canonicals(slots, i - 1) + {slots[i - 1].canonical};
    }
  }

  ghost predicate Running(slots: seq<Slot>) { forall i :: 0 <= i < |slots| ==> slots[i].cand.running }

  /** A started candidate stands under its temporary name and nothing else has changed. */
  lemma StartOneAdds(c: Fleet, s: Slot, k: Calls)
    requires s.cand.running
    ensures var (c', ok) := StartOne(c, s, k);
      && (ok ==> c' == c[s.temp := s.cand])
      && (!ok ==> c' - {s.temp} == c - {s.temp})
      && (!ok && k.stale.Effect() && k.cleanup.Effect() ==> (c' == c - {s.temp} <==> !k.create.Lost?))
  {
    var c1 := Remove(c, s.temp, k.stale);
    var c2 := Create(c1, s.temp, s.cand, k.create);
    if CanCreate(c1, s.temp) && k.create.Effect() {
      assert c2 == c1[s.temp := s.cand.(running := false)];
      assert c2 - {s.temp} == c - {s.temp};
      assert Start(c2, s.temp, Done) == c[s.temp := s.cand];
    }
  }

  lemma {:induction false} StartFirstAdds(c: Fleet, slots: seq<Slot>, o: Oracle, i: nat)
    requires i <= |slots| && TempsDistinct(slots) && Running(slots)
    ensures StartFirst(c, slots, o, i).1 ==> StartFirst(c, slots, o, i).0 == c + Candidates(slots, i)
  {
    hide StartOne;
    if i > 0 && StartFirst(c, slots, o, i).1 {
      StartFirstAdds(c, slots, o, i - 1);
      StartOneAdds(StartFirst(c, slots, o, i - 1).0, slots[i - 1], o(i - 1));
    }
  }

  /** The candidates of the first `n` services are created and started without an error. */
  ghost predicate StartsWork(o: Oracle, n: nat) { forall i :: 0 <= i < n ==> o(i).create.Done? && o(i).start.Done? }

  /** With the temporary names cleared, a start fails only by an error of its own calls. */
  lemma {:induction false} StartsIff(c: Fleet, slots: seq<Slot>, o: Oracle, i: nat)
    requires i <= |slots| && RemovalsWork(o, i)
    ensures StartFirst(c, slots, o, i).1 <==> StartsWork(o, i)
  {
    if i > 0 {
      StartsIff(c, slots, o, i - 1);
      assert o(i - 1).RemovalsWork();
    }
  }

  /** Rolling back touches only temporary names, and clears them when the removals work. */
  lemma {:induction false} RollBackClears(c: Fleet, slots: seq<Slot>, o: Oracle, i: nat)
    requires i <= |slots|
    ensures RollBackFirst(c, slots, o, i) - Temps(slots, i) == c - Temps(slots, i)
    ensures RemovalsWork(o, i) ==> RollBackFirst(c, slots, o, i) == c - Temps(slots, i)
  {
    if i > 0 {
      RollBackClears(c, slots, o, i - 1);
      var t := slots[i - 1].temp;
      assert Temps(slots, i) == Temps(slots, i - 1) + {t};
      StopRemove(RollBackFirst(c, slots, o, i - 1), t, o(i - 1).backStop, o(i - 1).backRemove, Temps(slots, i));
      RemovedAll(RollBackFirst(c, slots, o, i - 1), c, Temps(slots, i - 1), t);
    }
  }

  lemma StopRemove(c: Fleet, n: string, s: Outcome, r: Outcome, names: set<string>)
    requires n in names
    ensures Remove(Stop(c, n, s), n, r) - names == c - names
    ensures r.Effect() ==> Remove(Stop(c, n, s), n, r) == c - {n}
  {
  }

  lemma RemovedAll(x: Fleet, c: Fleet, names: set<string>, n: string)
    ensures x - names == c - names ==> x - (names + {n}) == c - (names + {n})
    ensures x == c - names ==> x - {n} == c - (names + {n})
  {
    assert x - (names + {n}) == (x - names) - {n};
    assert c - (names + {n}) == (c - names) - {n};
  }

  /** Where a failed start leaves the engine: everything but temporary names is as it was, however
      the calls end; and if the removals work nothing is left over, unless the failing creation took
      effect after all. */
  lemma StartFailureRestores(c: Fleet, slots: seq<Slot>, o: Oracle, i: nat)
    requires i < |slots| && TempsDistinct(slots) && Running(slots)
    requires StartFirst(c, slots, o, i).1 && !StartFirst(c, slots, o, i + 1).1
    ensures var c' := RollBackFirst(StartFirst(c, slots, o, i + 1).0, slots, o, i);
      && c' - Temps(slots, i + 1) == c - Temps(slots, i + 1)
      && (RemovalsWork(o, i + 1) ==> (c' == c - Temps(slots, i + 1) <==> !o(i).create.Lost?))
  {
    hide StartOne, RollBackFirst;
    var s, k := slots[i], o(i);
    var started, failed := StartFirst(c, slots, o, i).0, StartFirst(c, slots, o, i + 1).0;
    var c', temps := RollBackFirst(failed, slots, o, i), Temps(slots, i);
    StartFirstAdds(c, slots, o, i);
    CandidateKeys(slots, i);
    StartOneAdds(started, s, k);
    RollBackClears(failed, slots, o, i);
    assert Temps(slots, i + 1) == temps + {s.temp};
    assert s.temp !in temps;
    RestoredFrom(c, Candidates(slots, i), failed, c', temps, s.temp);
    if RemovalsWork(o, i + 1) {
      assert RemovalsWork(o, i) && k.RemovalsWork();
    }
  }

  lemma RestoredFrom(c: Fleet, cands: Fleet, failed: Fleet, c': Fleet, temps: set<string>, t: string)
    requires cands.Keys == temps && t !in temps && c' - temps == failed - temps
    requires failed - {t} == (c + cands) - {t}
    ensures c' - (temps + {t}) == c - (temps + {t})
    ensures c' == failed - temps ==> (c' == c - (temps + {t}) <==> failed == (c + cands) - {t})
  {
    forall n | n !in temps + {t}
      ensures (n in c' <==> n in c) && (n in c ==> c'[n] == c[n])
    {
      assert n in c' <==> n in c' - temps;
      assert n in failed <==> n in failed - temps;
      assert n in failed <==> n in failed - {t};
    }
    if c' == failed - temps {
      assert t in c' <==> t in failed;
      if failed == (c + cands) - {t} {
        assert c' == c - (temps + {t});
      }
      if c' == c - (temps + {t}) {
        assert t !in failed;
        assert failed == failed - {t};
      }
    }
  }

  /** The calls of a rollback after the deploy was cancelled: they are made with the cancelled
      context, so none is even sent. */
  function Cancelled(o: Oracle): Oracle {
    (i: nat) => o(i).(backStop := Refused, backRemove := Refused)
  }

  /** Hence a cancellation while the candidates settle rolls nothing back: all of them stay, running,
      beside the containers they were to replace. */
  lemma InterruptLeavesCandidates(c: Fleet, slots: seq<Slot>, o: Oracle)
    requires TempsDistinct(slots) && Running(slots) && StartFirst(c, slots, o, |slots|).1
    ensures var c' := RollBackFirst(StartFirst(c, slots, o, |slots|).0, slots, Cancelled(o), |slots|);
      c' == c + Candidates(slots, |slots|) && CandidatesAt(c', slots)
  {
    hide StartFirst;
    StartFirstAdds(c, slots, o, |slots|);
    NothingRolledBack(StartFirst(c, slots, o, |slots|).0, slots, o, |slots|);
    CandidatesReady(c, slots);
  }

  lemma {:induction false} NothingRolledBack(c: Fleet, slots: seq<Slot>, o: Oracle, i: nat)
    requires i <= |slots|
    ensures RollBackFirst(c, slots, Cancelled(o), i) == c
  {
    if i > 0 {
      NothingRolledBack(c, slots, o, i - 1);
    }
  }

  /** One service switched over. */
  lemma SwapOneInstalls(c: Fleet, s: Slot, k: Calls)
    requires s.temp in c && s.temp != s.canonical && s.temp != s.legacy
    requires k.remove.Effect() && k.legacyRemove.Effect()
    ensures SwapOne(c, s, k).1 <==> k.rename.Done?
    ensures k.rename.Done? ==> SwapOne(c, s, k).0 == (c - {s.temp, s.canonical, s.legacy})[s.canonical := c[s.temp]]
  {
    StopRemove(c, s.canonical, k.stop, k.remove, {s.canonical});
    var c1 := c - {s.canonical};
    StopRemove(c1, s.legacy, k.legacyStop, k.legacyRemove, {s.legacy});
    var c2 := c1 - {s.legacy};
    assert Remove(Stop(c1, s.legacy, k.legacyStop), s.legacy, k.legacyRemove) == c2;
    assert c2 - {s.temp} == c - {s.temp, s.canonical, s.legacy};
  }

  ghost predicate CandidatesAt(c: Fleet, slots: seq<Slot>) {
    forall j :: 0 <= j < |slots| ==> slots[j].temp in c && c[slots[j].temp] == slots[j].cand
  }

  lemma {:induction false} SwapFirstInstalls(c: Fleet, slots: seq<Slot>, o: Oracle, i: nat)
    requires i <= |slots| && Orderly(slots) && CandidatesAt(c, slots) && RemovalsWork(o, i)
    ensures SwapFirst(c, slots, o, i).1 <==> forall j :: 0 <= j < i ==> o(j).rename.Done?
    ensures SwapFirst(c, slots, o, i).1 ==>
      SwapFirst(c, slots, o, i).0 == (c - Replaced(slots, i)) + Installed(slots, i)
  {
    hide SwapOne, Orderly, Replaced, Installed, CandidatesAt;
    if i == 0 {
      NoneInstalled(c, slots);
    } else {
      SlotApart(slots, i - 1);
      SwapFirstInstalls(c, slots, o, i - 1);
      if SwapFirst(c, slots, o, i - 1).1 {
        TempSurvives(c, slots, i - 1);
        SwapOneInstalls(SwapFirst(c, slots, o, i - 1).0, slots[i - 1], o(i - 1));
        NextInstalled(c, slots, i - 1);
      }
    }
  }

  lemma NoneInstalled(c: Fleet, slots: seq<Slot>)
    ensures (c - Replaced(slots, 0)) + Installed(slots, 0) == c
  {
  }

  lemma SlotApart(slots: seq<Slot>, i: nat)
    requires i < |slots| && Orderly(slots)
    ensures slots[i].temp != slots[i].canonical && slots[i].temp != slots[i].legacy
  {
  }

  lemma TempSurvives(c: Fleet, slots: seq<Slot>, i: nat)
    requires i < |slots| && Orderly(slots) && CandidatesAt(c, slots)
    ensures var c' := (c - Replaced(slots, i)) + Installed(slots, i);
      slots[i].temp in c' && c'[slots[i].temp] == slots[i].cand
  {
    InstalledKeys(slots, i);
    NextNamesUnused(slots, i);
    hide Orderly, Canonicals, Legacies, Temps, Installed;
  }

  lemma NextInstalled(c: Fleet, slots: seq<Slot>, i: nat)
    requires i < |slots| && Orderly(slots)
    ensures var s, c' := slots[i], (c - Replaced(slots, i)) + Installed(slots, i);
      (c' - {s.temp, s.canonical, s.legacy})[s.canonical := s.cand]
        == (c - Replaced(slots, i + 1)) + Installed(slots, i + 1)
  {
    hide Orderly, Canonicals, Legacies, Temps, Replaced, CanonicalsDistinct;
    InstalledKeys(slots, i) by { assert CanonicalsDistinct(slots) by { CanonicalsAre(slots); } }
    NextNamesUnused(slots, i);
    ReplacedStep(slots, i);
    MovedOver(c, Replaced(slots, i), Canonicals(slots, i), Installed(slots, i), slots[i]);
  }

  lemma CanonicalsAre(slots: seq<Slot>)
    requires Orderly(slots)
    ensures CanonicalsDistinct(slots) && TempsDistinct(slots)
  {
  }

  lemma MovedOver(c: Fleet, names: set<string>, canonicals: set<string>, done: Fleet, s: Slot)
    requires done.Keys == canonicals && s.temp !in canonicals && s.canonical !in canonicals && s.legacy !in canonicals
    ensures ((c - names) + done - {s.temp, s.canonical, s.legacy})[s.canonical := s.cand]
         == (c - (names + {s.temp, s.canonical, s.legacy})) + done[s.canonical := s.cand]
  {
    assert done - {s.temp, s.canonical, s.legacy} == done;
  }

  /** What a switch that worked did to the names. */
  lemma SwapOneMoves(c: Fleet, s: Slot, k: Calls)
    requires k.remove.Effect() && k.legacyRemove.Effect() && SwapOne(c, s, k).1
    ensures s.temp in c && s.temp != s.canonical && s.temp != s.legacy
    ensures SwapOne(c, s, k).0.Keys == (c.Keys - {s.temp, s.legacy}) + {s.canonical}
  {
    StopRemove(c, s.canonical, k.stop, k.remove, {s.canonical});
    StopRemove(c - {s.canonical}, s.legacy, k.legacyStop, k.legacyRemove, {s.legacy});
  }

  lemma {:induction false} SwappedBefore(c: Fleet, slots: seq<Slot>, o: Oracle, i: nat, n: nat)
    requires i <= n <= |slots| && SwapFirst(c, slots, o, n).1
    ensures SwapFirst(c, slots, o, i).1
  {
    if i < n {
      SwappedBefore(c, slots, o, i, n - 1);
    }
  }

  /** The switch of service `i`, in a swap that gets as far as `n`. */
  lemma StepMoves(c: Fleet, slots: seq<Slot>, o: Oracle, i: nat, n: nat)
    requires i < n <= |slots| && RemovalsWork(o, n) && SwapFirst(c, slots, o, n).1
    ensures var before, after, s := SwapFirst(c, slots, o, i).0.Keys, SwapFirst(c, slots, o, i + 1).0.Keys, slots[i];
      && s.temp in before && s.temp != s.canonical && s.temp != s.legacy
      && after == (before - {s.temp, s.legacy}) + {s.canonical}
  {
    SwappedBefore(c, slots, o, i, n);
    SwappedBefore(c, slots, o, i + 1, n);
    hide SwapOne;
    SwapOneMoves(SwapFirst(c, slots, o, i).0, slots[i], o(i));
  }

  /** A name that is gone stays gone while no service takes it. */
  lemma {:induction false} StaysGone(c: Fleet, slots: seq<Slot>, o: Oracle, i: nat, m: nat, n: nat, name: string)
    requires i <= m <= n <= |slots| && RemovalsWork(o, n) && SwapFirst(c, slots, o, n).1
    requires forall k :: i <= k < m ==> slots[k].canonical != name
    requires name !in SwapFirst(c, slots, o, i).0
    ensures name !in SwapFirst(c, slots, o, m).0
  {
    hide SwapFirst, RemovalsWork;
    if i < m {
      StaysGone(c, slots, o, i, m - 1, n, name);
      StepMoves(c, slots, o, m - 1, n);
    }
  }

  /** Service `j` takes away a name of an earlier service for good. */
  lemma NameLost(c: Fleet, slots: seq<Slot>, o: Oracle, i: nat, j: nat)
    requires i < j < |slots| && CanonicalsDistinct(slots) && RemovalsWork(o, |slots|)
      && SwapFirst(c, slots, o, |slots|).1
    requires slots[j].legacy == slots[i].canonical || slots[j].temp == slots[i].canonical
    ensures slots[i].canonical !in SwapFirst(c, slots, o, |slots|).0
  {
    hide SwapFirst, RemovalsWork;
    StepMoves(c, slots, o, j, |slots|);
    StaysGone(c, slots, o, j + 1, |slots|, |slots|, slots[i].canonical);
  }

  /** A candidate whose temporary name an earlier switch removes is not there when its turn comes. */
  lemma TempLost(c: Fleet, slots: seq<Slot>, o: Oracle, i: nat, j: nat)
    requires i <= j < |slots| && RemovalsWork(o, |slots|)
    requires slots[j].temp == slots[i].legacy || (i == j && slots[j].temp == slots[j].canonical)
    requires forall k :: 0 <= k < j ==> slots[j].temp != slots[k].canonical
    ensures !SwapFirst(c, slots, o, |slots|).1
  {
    hide SwapFirst, RemovalsWork;
    if SwapFirst(c, slots, o, |slots|).1 {
      StepMoves(c, slots, o, j, |slots|);
      StepMoves(c, slots, o, i, |slots|);
      StaysGone(c, slots, o, i + 1, j, |slots|, slots[j].temp);
    }
  }

  /** With every removal and rename working, every service ends up under its canonical name if and
      only if the names are in order. */
  lemma SwapInstallsIff(c: Fleet, slots: seq<Slot>, o: Oracle)
    requires TempsDistinct(slots) && CanonicalsDistinct(slots) && CandidatesAt(c, slots)
    requires RemovalsWork(o, |slots|) && forall j :: 0 <= j < |slots| ==> o(j).rename.Done?
    ensures SwapFirst(c, slots, o, |slots|).1 && AllPresent(SwapFirst(c, slots, o, |slots|).0, slots)
      <==> InOrder(slots)
  {
    hide SwapFirst, SwapOne;
    var n := |slots|;
    if InOrder(slots) {
      SwapFirstInstalls(c, slots, o, n);
      InstalledKeys(slots, n);
      assert forall i :: 0 <= i < n ==> slots[i].canonical in Canonicals(slots, n);
    } else if SwapFirst(c, slots, o, n).1 {
      OutOfOrder(c, slots, o);
    }
  }

  ghost predicate AllPresent(c: Fleet, slots: seq<Slot>) {
    forall i :: 0 <= i < |slots| ==> slots[i].canonical in c
  }

  lemma OutOfOrder(c: Fleet, slots: seq<Slot>, o: Oracle)
    requires CanonicalsDistinct(slots) && !InOrder(slots) && RemovalsWork(o, |slots|)
      && SwapFirst(c, slots, o, |slots|).1
    ensures !AllPresent(SwapFirst(c, slots, o, |slots|).0, slots)
  {
    hide SwapFirst, RemovalsWork;
    if i, j :| 0 <= i < j < |slots| && (slots[j].legacy == slots[i].canonical || slots[j].temp == slots[i].canonical) {
      NameLost(c, slots, o, i, j);
    } else {
      var i, j :| 0 <= i <= j < |slots| && (slots[j].temp == slots[i].legacy
        || (i == j && slots[j].temp == slots[j].canonical));
      TempLost(c, slots, o, i, j);
    }
  }

  /** For the services of an app: all of them are installed if and only if none clashes with a later
      one, which besides temporary names takes an app called prexel, or prexel-prexel, and so on, with
      a service `prexel-x` listed before a service `x`. */
  lemma ServicesInstalledIff(c: Fleet, a: App, deploy: string, services: seq<Service>, o: Oracle)
    requires DistinctNames(services) && RemovalsWork(o, |services|)
    requires forall j :: 0 <= j < |services| ==> o(j).rename.Done?
    requires StartFirst(c, SlotsFor(a, deploy, services), o, |services|).1
    ensures var slots := SlotsFor(a, deploy, services);
      var (swapped, ok) := SwapFirst(StartFirst(c, slots, o, |slots|).0, slots, o, |slots|);
      (ok && AllPresent(swapped, slots)) <==>
      forall i, j :: 0 <= i < j < |services| ==> !Clash(a.name, deploy, services[i].name, services[j].name)
  {
    var slots := SlotsFor(a, deploy, services);
    NamesDistinct(a, deploy, services);
    SlotsWellFormed(a, deploy, services);
    InOrderIff(a, deploy, services);
    hide StartFirst, SwapFirst, InOrder, Clash, TempsDistinct, CanonicalsDistinct, CandidatesAt, AllPresent, SlotFor,
      Candidates, Running, Labelled;
    StartFirstAdds(c, slots, o, |slots|);
    CandidatesReady(c, slots);
    SwapInstallsIff(StartFirst(c, slots, o, |slots|).0, slots, o);
  }

  /** In particular, in such an app the order decides. */
  lemma EchoingAppLosesService(c: Fleet, a: App, deploy: string, services: seq<Service>, o: Oracle, i: nat, j: nat)
    requires DistinctNames(services) && RemovalsWork(o, |services|)
    requires forall k :: 0 <= k < |services| ==> o(k).rename.Done?
    requires StartFirst(c, SlotsFor(a, deploy, services), o, |services|).1
    requires Echoing(a.name) && i < j < |services| && services[i].name == "prexel-" + services[j].name
    ensures var slots := SlotsFor(a, deploy, services);
      var (swapped, ok) := SwapFirst(StartFirst(c, slots, o, |slots|).0, slots, o, |slots|);
      ok ==> !AllPresent(swapped, slots)
  {
    assert Clash(a.name, deploy, services[i].name, services[j].name) by { hide Echoing, ShortDeployId; }
    hide *;
    ServicesInstalledIff(c, a, deploy, services, o);
  }

  // ---------------------------------------------------------------------------
  // Orphans
  // ---------------------------------------------------------------------------

  /** How the stop and the removal of an orphan end, by its name. */
  datatype PruneCalls = PruneCalls(stop: string -> Outcome, remove: string -> Outcome)

  predicate Prunable(seen: Fleet, name: string, live: set<string>)
    requires name in seen
  {
    var svc := LabelOf(seen[name], "prexel.service");
    svc != "" && svc !in live && name != ""
  }

  function PruneFirst(c: Fleet, seen: Fleet, list: seq<string>, live: set<string>, k: PruneCalls, i: nat): Fleet
    requires i <= |list| && forall n :: n in list ==> n in seen
  {
    if i == 0 then c
    else
      var c', n := PruneFirst(c, seen, list, live, k, i - 1), list[i - 1];
      if Prunable(seen, n, live) then Remove(Stop(c', n, k.stop(n)), n, k.remove(n)) else c'
  }

  ghost function OrphanNames(c: Fleet, appId: string, live: set<string>): set<string> {
    set n | n in c && n != "" && Orphan(c[n], appId, live)
  }

  /** The listing holds exactly the app's containers. */
  ghost predicate Lists(list: seq<string>, c: Fleet, appId: string) {
    forall n :: n in list <==> n in c && LabelOf(c[n], "prexel.app_id") == appId
  }

  lemma {:induction false} PruneFirstRemoves(c: Fleet, list: seq<string>, live: set<string>, k: PruneCalls, i: nat)
    requires i <= |list| && forall n :: n in list ==> n in c
    requires forall n :: k.remove(n).Effect()
    ensures PruneFirst(c, c, list, live, k, i) == c - set n | n in list[..i] && Prunable(c, n, live)
  {
    if i > 0 {
      PruneFirstRemoves(c, list, live, k, i - 1);
      var n, gone := list[i - 1], set n | n in list[..i - 1] && Prunable(c, n, live);
      var gone' := set n | n in list[..i] && Prunable(c, n, live);
      assert list[..i] == list[..i - 1] + [n];
      assert gone' == if Prunable(c, n, live) then gone + {n} else gone;
      StopRemove(c - gone, n, k.stop(n), k.remove(n), {n});
      RemovedAll(c - gone, c, gone, n);
    }
  }

  lemma PruneRemovesOrphans(c: Fleet, list: seq<string>, appId: string, live: set<string>, k: PruneCalls)
    requires Lists(list, c, appId) && forall n :: k.remove(n).Effect()
    ensures PruneFirst(c, c, list, live, k, |list|) == c - OrphanNames(c, appId, live)
  {
    PruneFirstRemoves(c, list, live, k, |list|);
    assert list[..|list|] == list;
    assert (set n | n in list && Prunable(c, n, live)) == OrphanNames(c, appId, live);
  }

  /** However the calls end: only orphans are touched, and one is gone exactly if its removal took effect. */
  ghost predicate Pruned(c: Fleet, c': Fleet, orphans: set<string>, k: PruneCalls) {
    && c' - orphans == c - orphans
    && forall n :: n in orphans ==> (n in c' <==> !k.remove(n).Effect())
  }

  ghost function PrunedNames(c: Fleet, list: seq<string>, live: set<string>, i: nat): set<string>
    requires i <= |list| && forall n :: n in list ==> n in c
  {
    set n | n in list[..i] && Prunable(c, n, live)
  }

  lemma {:induction false} PruneFirstIs(c: Fleet, list: seq<string>, live: set<string>, k: PruneCalls, i: nat)
    requires i <= |list| && forall n :: n in list ==> n in c
    ensures Pruned(c, PruneFirst(c, c, list, live, k, i), PrunedNames(c, list, live, i), k)
  {
    if i > 0 {
      PruneFirstIs(c, list, live, k, i - 1);
      var n, gone := list[i - 1], PrunedNames(c, list, live, i - 1);
      assert list[..i] == list[..i - 1] + [n];
      assert PrunedNames(c, list, live, i) == if Prunable(c, n, live) then gone + {n} else gone;
      hide PrunedNames;
      if Prunable(c, n, live) {
        PruneOne(c, PruneFirst(c, c, list, live, k, i - 1), gone, n, k);
      }
    }
  }

  lemma PruneOne(c: Fleet, c': Fleet, gone: set<string>, n: string, k: PruneCalls)
    requires Pruned(c, c', gone, k) && n in c
    ensures Pruned(c, Remove(Stop(c', n, k.stop(n)), n, k.remove(n)), gone + {n}, k)
  {
    var c'' := Remove(Stop(c', n, k.stop(n)), n, k.remove(n));
    assert c'' - (gone + {n}) == (c' - gone) - {n};
    assert c - (gone + {n}) == (c - gone) - {n};
    assert n !in gone ==> (n in c' <==> n in c' - gone);
  }

  lemma PruneExactly(c: Fleet, list: seq<string>, appId: string, live: set<string>, k: PruneCalls)
    requires Lists(list, c, appId)
    ensures Pruned(c, PruneFirst(c, c, list, live, k, |list|), OrphanNames(c, appId, live), k)
  {
    hide Pruned;
    PruneFirstIs(c, list, live, k, |list|);
    assert list[..|list|] == list;
    assert PrunedNames(c, list, live, |list|) == OrphanNames(c, appId, live);
  }

  // ---------------------------------------------------------------------------
  // A successful swap
  // ---------------------------------------------------------------------------

  ghost predicate Labelled(slots: seq<Slot>) {
    forall i :: 0 <= i < |slots| ==> LabelOf(slots[i].cand, "prexel.service") == slots[i].service
  }

  ghost function Live(slots: seq<Slot>): set<string> { set i | 0 <= i < |slots| :: slots[i].service }

  lemma SlotsWellFormed(a: App, deploy: string, services: seq<Service>)
    ensures Labelled(SlotsFor(a, deploy, services)) && Running(SlotsFor(a, deploy, services))
  {
    hide CanonicalName, LegacyName, TempName;
  }

  /** The whole new state: the candidates under their canonical names, no old, legacy or temporary
      container of these services, no orphan, and everything else as before. */
  ghost predicate Installs(c: Fleet, c': Fleet, slots: seq<Slot>, appId: string) {
    && (forall i :: 0 <= i < |slots| ==> slots[i].canonical in c' && c'[slots[i].canonical] == slots[i].cand)
    && (forall n :: n in c' && n !in Canonicals(slots, |slots|) ==> n !in Replaced(slots, |slots|))
    && (forall n :: n in c' && n != "" ==> !Orphan(c'[n], appId, Live(slots)))
    && (forall n :: n !in Replaced(slots, |slots|) ==>
          && (n in c' <==> n in c && (n == "" || !Orphan(c[n], appId, Live(slots))))
          && (n in c' ==> c'[n] == c[n]))
  }

  lemma SuccessInstalls(c: Fleet, slots: seq<Slot>, o: Oracle, appId: string)
    requires Orderly(slots) && Running(slots) && Labelled(slots)
    requires RemovalsWork(o, |slots|) && StartFirst(c, slots, o, |slots|).1
    ensures var (swapped, ok) := SwapFirst(StartFirst(c, slots, o, |slots|).0, slots, o, |slots|);
      && (ok <==> forall j :: 0 <= j < |slots| ==> o(j).rename.Done?)
      && (ok ==> Installs(c, swapped - OrphanNames(swapped, appId, Live(slots)), slots, appId))
  {
    hide StartFirst, SwapFirst, Installs, Orderly, Running, Labelled, Replaced, Installed, CandidatesAt, OrphanNames,
      Candidates, CanonicalsDistinct, TempsDistinct;
    var n, started := |slots|, StartFirst(c, slots, o, |slots|).0;
    CanonicalsAre(slots);
    StartFirstAdds(c, slots, o, n);
    CandidatesReady(c, slots);
    SwapFirstInstalls(started, slots, o, n);
    InstalledIsAll(c, slots, appId);
  }

  lemma CandidatesReady(c: Fleet, slots: seq<Slot>)
    requires TempsDistinct(slots)
    ensures CandidatesAt(c + Candidates(slots, |slots|), slots)
    ensures (c + Candidates(slots, |slots|)) - Replaced(slots, |slots|) == c - Replaced(slots, |slots|)
  {
    hide TempsDistinct, Candidates, Temps, Replaced, CandidatesAt;
    CandidateKeys(slots, |slots|);
    TempsCovered(slots);
    CandidatesThere(c, slots);
    var cands, gone := Candidates(slots, |slots|), Replaced(slots, |slots|);
    assert (c + cands) - gone == c - gone;
  }

  lemma CandidatesThere(c: Fleet, slots: seq<Slot>)
    requires TempsDistinct(slots)
    ensures CandidatesAt(c + Candidates(slots, |slots|), slots)
  {
    hide TempsDistinct, Candidates, Temps, Replaced;
    CandidateKeys(slots, |slots|);
    TempsCovered(slots);
  }

  lemma TempsCovered(slots: seq<Slot>)
    ensures Temps(slots, |slots|) <= Replaced(slots, |slots|)
    ensures forall j :: 0 <= j < |slots| ==> slots[j].temp in Temps(slots, |slots|)
  {
  }

  /** A refused rename stops the swap half-way: the services before it are switched over, this one is
      left under its temporary name only, and those after it still have their old containers. */
  ghost function HalfSwapped(c: Fleet, slots: seq<Slot>, i: nat): Fleet
    requires i < |slots|
  {
    ((c + Candidates(slots, |slots|)) - Replaced(slots, i) + Installed(slots, i)) - {slots[i].canonical,
      slots[i].legacy}
  }

  lemma RenameFailureLeaves(c: Fleet, slots: seq<Slot>, o: Oracle, i: nat)
    requires Orderly(slots) && Running(slots) && i < |slots|
    requires RemovalsWork(o, |slots|) && StartFirst(c, slots, o, |slots|).1
    requires SwapFirst(StartFirst(c, slots, o, |slots|).0, slots, o, i).1
    requires !SwapFirst(StartFirst(c, slots, o, |slots|).0, slots, o, i + 1).1
    ensures !o(i).rename.Done? && forall j :: 0 <= j < i ==> o(j).rename.Done?
    ensures o(i).rename.Refused? ==>
      SwapFirst(StartFirst(c, slots, o, |slots|).0, slots, o, i + 1).0 == HalfSwapped(c, slots, i)
  {
    hide StartFirst, Orderly, Running, Replaced, Installed, CandidatesAt, Candidates, CanonicalsDistinct,
      TempsDistinct, SwapOne;
    var started := StartFirst(c, slots, o, |slots|).0;
    CanonicalsAre(slots);
    SlotApart(slots, i);
    StartFirstAdds(c, slots, o, |slots|);
    CandidatesReady(c, slots);
    SwapFirstInstalls(started, slots, o, i);
    SwapFirstInstalls(started, slots, o, i + 1);
    if o(i).rename.Refused? {
      SwapOneRefused(SwapFirst(started, slots, o, i).0, slots[i], o(i));
    }
  }

  lemma SwapOneRefused(c: Fleet, s: Slot, k: Calls)
    requires k.remove.Effect() && k.legacyRemove.Effect() && k.rename.Refused?
    ensures SwapOne(c, s, k).0 == c - {s.canonical, s.legacy}
  {
    StopRemove(c, s.canonical, k.stop, k.remove, {s.canonical});
    StopRemove(c - {s.canonical}, s.legacy, k.legacyStop, k.legacyRemove, {s.legacy});
    assert c - {s.canonical} - {s.legacy} == c - {s.canonical, s.legacy};
  }

  lemma InstalledIsAll(c: Fleet, slots: seq<Slot>, appId: string)
    requires CanonicalsDistinct(slots) && Labelled(slots)
    ensures var swapped := (c - Replaced(slots, |slots|)) + Installed(slots, |slots|);
      Installs(c, swapped - OrphanNames(swapped, appId, Live(slots)), slots, appId)
  {
    hide Temps, Legacies, Canonicals, Live, Labelled, CanonicalsDistinct, Orphan, Replaced, Installed, OrphanNames;
    var n := |slots|;
    InstalledKeys(slots, n);
    CanonicalsReplaced(slots);
    OthersStay(c, Replaced(slots, n), Installed(slots, n), appId, Live(slots));
    forall i | 0 <= i < n
      ensures var swapped := (c - Replaced(slots, n)) + Installed(slots, n);
        var c' := swapped - OrphanNames(swapped, appId, Live(slots));
        slots[i].canonical in c' && c'[slots[i].canonical] == slots[i].cand
    {
      CandidateStands(c - Replaced(slots, n), slots, i, appId);
    }
  }

  lemma CanonicalsReplaced(slots: seq<Slot>)
    ensures Canonicals(slots, |slots|) <= Replaced(slots, |slots|)
  {
  }

  lemma CandidateStands(rest: Fleet, slots: seq<Slot>, i: nat, appId: string)
    requires CanonicalsDistinct(slots) && Labelled(slots) && i < |slots|
    ensures var swapped := rest + Installed(slots, |slots|);
      var c' := swapped - OrphanNames(swapped, appId, Live(slots));
      slots[i].canonical in c' && c'[slots[i].canonical] == slots[i].cand
  {
    InstalledKeys(slots, |slots|);
    CandidateIsNoOrphan(slots, i, appId);
    assert slots[i].canonical in Canonicals(slots, |slots|);
    hide Orphan, Labelled, CanonicalsDistinct, Canonicals, Live, Installed;
  }

  lemma CandidateIsNoOrphan(slots: seq<Slot>, i: nat, appId: string)
    requires i < |slots| && Labelled(slots)
    ensures !Orphan(slots[i].cand, appId, Live(slots))
  {
    assert slots[i].service in Live(slots);
  }

  lemma OthersStay(c: Fleet, names: set<string>, new_: Fleet, appId: string, live: set<string>)
    requires new_.Keys <= names
    ensures var swapped := (c - names) + new_;
      var c' := swapped - OrphanNames(swapped, appId, live);
      && (forall n :: n in c' && n !in new_.Keys ==> n !in names)
      && (forall n :: n in c' && n != "" ==> !Orphan(c'[n], appId, live))
      && (forall n :: n !in names ==>
            && (n in c' <==> n in c && (n == "" || !Orphan(c[n], appId, live)))
            && (n in c' ==> c'[n] == c[n]))
  {
    hide Orphan;
  }

  // ---------------------------------------------------------------------------
  // Routes
  // ---------------------------------------------------------------------------

  /** A domain bound to a service, with the port it was given or 0. */
  datatype Binding = Binding(host: string, port: int)

  /** How the two halves of an upsert end. */
  datatype RouteCalls = RouteCalls(main: Outcome, sibling: Outcome)

  /** The port given, or else the first the service exposes, or else none. */
  function PortFor(s: Slot, b: Binding): int {
    if b.port > 0 then b.port else if s.ports != [] then s.ports[0] else 0
  }

  predicate Force(force: map<string, bool>, h: string) { h in force && force[h] }

  function RouteBinding(r: Routes, s: Slot, b: Binding, force: map<string, bool>, k: RouteCalls): Routes {
    if PortFor(s, b) == 0 then r
    else Upserted(r, b.host, Target(s.canonical, PortFor(s, b)), Force(force, b.host), k.main, k.sibling)
  }

  /** The bindings in the order the two loops go through them: service by service. */
  function Work(slots: seq<Slot>, bound: map<string, seq<Binding>>): seq<(Slot, Binding)> {
    if slots == [] then [] else Work(slots[..|slots| - 1], bound) + Own(slots[|slots| - 1], bound)
  }

  function BindingsOf(s: Slot, bound: map<string, seq<Binding>>): seq<Binding> {
    if s.service in bound then bound[s.service] else []
  }

  function Own(s: Slot, bound: map<string, seq<Binding>>): seq<(Slot, Binding)> {
    var bs := BindingsOf(s, bound);
    seq(|bs|, i requires 0 <= i < |bs| => (s, bs[i]))
  }

  function RouteFirst(r: Routes, work: seq<(Slot, Binding)>, force: map<string, bool>, k: nat -> RouteCalls,
      i: nat): Routes
    requires i <= |work|
  {
    if i == 0 then r
    else RouteBinding(RouteFirst(r, work, force, k, i - 1), work[i - 1].0, work[i - 1].1, force, k(i - 1))
  }

  /** Routes of hosts that are not bound do not change, whatever fails; and those of each bound host,
      named once, are what the upsert of its binding alone makes of them, however it ends. */
  lemma {:induction false} RoutesByBinding(r: Routes, work: seq<(Slot, Binding)>, force: map<string, bool>,
                                           k: nat -> RouteCalls, n: nat)
    requires n <= |work| && HostsOnce(work)
    ensures var r' := RouteFirst(r, work, force, k, n);
      && (forall h :: (forall i :: 0 <= i < n ==> work[i].1.host != h) ==> SameAt(r, r', h))
      && forall i :: 0 <= i < n ==> SameAt(RouteBinding(r, work[i].0, work[i].1, force, k(i)), r', work[i].1.host)
  {
    if n > 0 {
      RoutesByBinding(r, work, force, k, n - 1);
      var before, s, b := RouteFirst(r, work, force, k, n - 1), work[n - 1].0, work[n - 1].1;
      var r' := RouteFirst(r, work, force, k, n);
      BindingLocally(r, before, s, b, force, k(n - 1));
      hide RouteBinding, SameAt, OnlyHost;
      forall h | forall i :: 0 <= i < n ==> work[i].1.host != h ensures SameAt(r, r', h) {
        assert work[n - 1].1.host != h;
        OnlyHostSame(before, r', b.host, h);
        SameAtBoth(r, before, r', h);
      }
      forall i | 0 <= i < n
        ensures SameAt(RouteBinding(r, work[i].0, work[i].1, force, k(i)), r', work[i].1.host)
      {
        if i < n - 1 {
          OnlyHostSame(before, r', b.host, work[i].1.host);
          SameAtBoth(RouteBinding(r, work[i].0, work[i].1, force, k(i)), before, r', work[i].1.host);
        }
      }
    }
  }

  ghost predicate HostsOnce(work: seq<(Slot, Binding)>) {
    forall i, j :: 0 <= i < j < |work| ==> work[i].1.host != work[j].1.host
  }

  lemma SameAtBoth(a: Routes, b: Routes, c: Routes, h: string)
    requires SameAt(a, b, h) && SameAt(b, c, h)
    ensures SameAt(a, c, h)
  {
  }

  lemma BindingLocally(r: Routes, before: Routes, s: Slot, b: Binding, force: map<string, bool>, k: RouteCalls)
    requires SameAt(r, before, b.host)
    ensures OnlyHost(before, RouteBinding(before, s, b, force, k), b.host)
    ensures SameAt(RouteBinding(r, s, b, force, k), RouteBinding(before, s, b, force, k), b.host)
  {
    var t := Target(s.canonical, PortFor(s, b));
    UpsertedRoutes(before, b.host, t, Force(force, b.host), k.main, k.sibling);
    UpsertedLocally(r, before, b.host, t, Force(force, b.host), k.main, k.sibling);
  }

  /** The port a domain leads to: the one it was given, or else the first one its service exposes. */
  predicate LeadsTo(s: Slot, b: Binding, p: int) {
    (b.port > 0 && p == b.port) || (b.port <= 0 && |s.ports| > 0 && p == s.ports[0])
  }

  /** What a binding promises of the routes: with a port and an upsert that worked, the host leads to its
      service; if the upsert was shadowed, a route that was there still leads where it did; and without a
      port its routes are left alone. */
  ghost predicate Reached(r: Routes, r': Routes, s: Slot, b: Binding, force: map<string, bool>, k: RouteCalls) {
    && (forall p :: LeadsTo(s, b, p) && b.host != "" && s.canonical != "" && 0 < p <= 65535 ==>
          var c := RouteKey(b.host, Canonical);
          && (k.main.Done? && k.sibling.Done? ==>
                Routed(r', b.host, Target(s.canonical, p), b.host in force && force[b.host]))
          && (k.main.Shadowed? && c in r ==> c in r' && r'[c] == r[c]))
    && (b.port <= 0 && s.ports == [] ==> SameAt(r, r', b.host))
  }

  lemma RoutesReachServices(r: Routes, work: seq<(Slot, Binding)>, force: map<string, bool>, k: nat -> RouteCalls,
      i: nat)
    requires HostsOnce(work) && i < |work|
    ensures Reached(r, RouteFirst(r, work, force, k, |work|), work[i].0, work[i].1, force, k(i))
  {
    var r', s, b := RouteFirst(r, work, force, k, |work|), work[i].0, work[i].1;
    RoutesByBinding(r, work, force, k, |work|);
    var t := Target(s.canonical, PortFor(s, b));
    UpsertedRoutes(r, b.host, t, Force(force, b.host), k(i).main, k(i).sibling);
    assert forall p :: LeadsTo(s, b, p) ==> p == PortFor(s, b);
    assert b.port <= 0 && s.ports == [] ==> PortFor(s, b) == 0;
    hide RouteFirst, PortFor, LeadsTo;
    var own := RouteBinding(r, s, b, force, k(i));
    assert SameAt(own, r', b.host);
    assert RouteKey(b.host, Canonical) in own <==> RouteKey(b.host, Canonical) in r';
    assert RouteKey(b.host, HttpSibling) in own <==> RouteKey(b.host, HttpSibling) in r';
  }

  lemma {:induction false} WorkHas(slots: seq<Slot>, bound: map<string, seq<Binding>>, i: nat, j: nat) returns (m: nat)
    requires i < |slots| && slots[i].service in bound && j < |bound[slots[i].service]|
    ensures m < |Work(slots, bound)| && Work(slots, bound)[m] == (slots[i], bound[slots[i].service][j])
  {
    var n := |slots| - 1;
    if i < n {
      m := WorkHas(slots[..n], bound, i, j);
    } else {
      m := |Work(slots[..n], bound)| + j;
    }
  }

  /** In terms of the services: the domain bound to a service leads to the container named after the app and
      the service, at the port it was given or else the first one the service exposes. */
  lemma BoundHostReachesService(r: Routes, a: App, deploy: string, services: seq<Service>,
      bound: map<string, seq<Binding>>, force: map<string, bool>, k: nat -> RouteCalls, i: nat, j: nat)
      returns (m: nat)
    requires HostsOnce(Work(SlotsFor(a, deploy, services), bound))
    requires i < |services| && services[i].name in bound && j < |bound[services[i].name]|
    ensures var work, s, b := Work(SlotsFor(a, deploy, services), bound), services[i], bound[services[i].name][j];
      var r' := RouteFirst(r, work, force, k, |work|);
      && m < |work| && work[m].1 == b
      && (b.host != "" && k(m).main.Done? && k(m).sibling.Done? ==>
          && (0 < b.port <= 65535 ==>
            Routed(r', b.host, Target(a.name + "-" + s.name, b.port), b.host in force && force[b.host]))
          && (b.port <= 0 && |s.ports| > 0 && 0 < s.ports[0] <= 65535 ==>
            Routed(r', b.host, Target(a.name + "-" + s.name, s.ports[0]), b.host in force && force[b.host])))
      && (b.port <= 0 && s.ports == [] ==> SameAt(r, r', b.host))
  {
    var slots := SlotsFor(a, deploy, services);
    var work := Work(slots, bound);
    assert slots[i].canonical == a.name + "-" + services[i].name && slots[i].service == services[i].name
      && slots[i].ports == services[i].ports;
    m := WorkHas(slots, bound, i, j);
    hide Work, RouteFirst, SlotsFor, HostsOnce, Routed, SameAt;
    RoutesReachServices(r, work, force, k, m);
    var b := bound[services[i].name][j];
    assert b.port > 0 ==> LeadsTo(slots[i], b, b.port);
    assert b.port <= 0 && |services[i].ports| > 0 ==> LeadsTo(slots[i], b, services[i].ports[0]);
  }

  /** The container of a service after a deploy: named after the app and the service, running the service's
      image, known on the network by the service's name too, and labelled with app, deploy and service. */
  ghost predicate ServiceUp(c: Fleet, a: App, deploy: string, s: Service) {
    var name := a.name + "-" + s.name;
    && name in c && c[name].running && c[name].image == s.image
    && c[name].aliases == {s.name, name, name + "-deploying-" + ShortDeployId(deploy)}
    && (forall l :: l in a.dockerLabels && l !in Reserved() ==>
          l in c[name].labels && c[name].labels[l] == a.dockerLabels[l])
    && LabelOf(c[name], "prexel.app_id") == a.id && LabelOf(c[name], "prexel.app_name") == a.name
    && LabelOf(c[name], "prexel.deployment") == deploy && LabelOf(c[name], "prexel.role") == "candidate"
    && LabelOf(c[name], "prexel.compose") == "true" && LabelOf(c[name], "prexel.service") == s.name
    && LabelOf(c[name], "com.docker.compose.project") == a.name
    && LabelOf(c[name], "com.docker.compose.service") == s.name
  }

  /** The labels the engine sets itself. */
  function Reserved(): set<string> {
    {"prexel.app_id", "prexel.app_name", "prexel.deployment", "prexel.role", "prexel.compose", "prexel.service",
     "com.docker.compose.project", "com.docker.compose.service", "com.docker.compose.container-number",
     "com.docker.compose.oneoff"}
  }

  /** What a successful swap installs, in terms of the services. */
  lemma InstallsServices(c: Fleet, c': Fleet, a: App, deploy: string, services: seq<Service>)
    requires Installs(c, c', SlotsFor(a, deploy, services), a.id)
    ensures forall i :: 0 <= i < |services| ==> ServiceUp(c', a, deploy, services[i])
  {
    hide LabelsFor, ShortDeployId, Reserved, LabelOf, Orphan, Replaced, Canonicals, Live;
    var slots := SlotsFor(a, deploy, services);
    forall i | 0 <= i < |services| ensures ServiceUp(c', a, deploy, services[i]) {
      assert slots[i].canonical in c' && c'[slots[i].canonical] == slots[i].cand;
      LabelsAre(a, deploy, services[i].name, slots[i].cand);
    }
  }

  lemma LabelsAre(a: App, deploy: string, service: string, c: Container)
    requires c.labels == LabelsFor(a, deploy, service)
    ensures forall l :: l in a.dockerLabels && l !in Reserved() ==> l in c.labels && c.labels[l] == a.dockerLabels[l]
    ensures LabelOf(c, "prexel.app_id") == a.id && LabelOf(c, "prexel.app_name") == a.name
    ensures LabelOf(c, "prexel.deployment") == deploy && LabelOf(c, "prexel.role") == "candidate"
    ensures LabelOf(c, "prexel.compose") == "true" && LabelOf(c, "prexel.service") == service
    ensures LabelOf(c, "com.docker.compose.project") == a.name
    ensures LabelOf(c, "com.docker.compose.service") == service
  {
    OwnLabels(a, deploy, service, c);
    GivenLabels(a, deploy, service);
    hide LabelsFor, Reserved, LabelOf;
  }

  lemma OwnLabels(a: App, deploy: string, service: string, c: Container)
    requires c.labels == LabelsFor(a, deploy, service)
    ensures LabelOf(c, "prexel.app_id") == a.id && LabelOf(c, "prexel.app_name") == a.name
    ensures LabelOf(c, "prexel.deployment") == deploy && LabelOf(c, "prexel.role") == "candidate"
    ensures LabelOf(c, "prexel.compose") == "true" && LabelOf(c, "prexel.service") == service
    ensures LabelOf(c, "com.docker.compose.project") == a.name
    ensures LabelOf(c, "com.docker.compose.service") == service
  {
  }

  lemma GivenLabels(a: App, deploy: string, service: string)
    ensures forall l :: l in a.dockerLabels && l !in Reserved() ==>
      l in LabelsFor(a, deploy, service) && LabelsFor(a, deploy, service)[l] == a.dockerLabels[l]
  {
  }

  // ---------------------------------------------------------------------------
  // The engine
  // ---------------------------------------------------------------------------

  datatype Result = NoServices | StartFailed(i: nat) | Interrupted | RenameFailed(at: nat) | Swapped

  /** What each ending of a swap guarantees about the containers before and after. */
  ghost predicate Keeps(r: Result, c: Fleet, c': Fleet, slots: seq<Slot>, o: Oracle, settled: bool, listed: bool,
      k: PruneCalls,
                        appId: string)
  {
    match r
    case NoServices => c' == c
    case StartFailed(i) =>
      && i < |slots|
      && c' - Temps(slots, i + 1) == c - Temps(slots, i + 1)
      && (RemovalsWork(o, i + 1) ==> (c' == c - Temps(slots, i + 1) <==> !o(i).create.Lost?))
    case Interrupted => !settled && c' == c + Candidates(slots, |slots|)
    case RenameFailed(i) =>
      && i < |slots|
      && (InOrder(slots) && RemovalsWork(o, |slots|) ==>
            && !o(i).rename.Done?
            && (forall j :: 0 <= j < i ==> o(j).rename.Done?)
            && (o(i).rename.Refused? ==> c' == HalfSwapped(c, slots, i)))
    case Swapped =>
      RemovalsWork(o, |slots|) && listed && (forall n :: k.remove(n).Effect()) ==>
        if InOrder(slots) then Installs(c, c', slots, appId) else !AllPresent(c', slots)
  }

  /** A swap that got through installs every service, or has lost one for good. */
  lemma EndsSwapped(c: Fleet, slots: seq<Slot>, o: Oracle, appId: string)
    requires TempsDistinct(slots) && CanonicalsDistinct(slots) && Running(slots) && Labelled(slots)
    requires RemovalsWork(o, |slots|) && StartFirst(c, slots, o, |slots|).1
    ensures var (swapped, ok) := SwapFirst(StartFirst(c, slots, o, |slots|).0, slots, o, |slots|);
      var c' := swapped - OrphanNames(swapped, appId, Live(slots));
      ok ==> if InOrder(slots) then Installs(c, c', slots, appId) else !AllPresent(c', slots)
  {
    hide StartFirst, SwapFirst, Installs, TempsDistinct, CanonicalsDistinct, InOrder, Running, Labelled, RemovalsWork;
    var started := StartFirst(c, slots, o, |slots|).0;
    if InOrder(slots) {
      SuccessInstalls(c, slots, o, appId);
    } else if SwapFirst(started, slots, o, |slots|).1 {
      OutOfOrder(started, slots, o);
    }
  }

  class Engine {
    var containers: Fleet
    var routes: Routes

    constructor (c: Fleet, r: Routes)
      ensures containers == c && routes == r
    {
      containers, routes := c, r;
    }

    method StartCandidate(s: Slot, k: Calls) returns (ok: bool)
      modifies this`containers
      ensures (containers, ok) == StartOne(old(containers), s, k)
    {
      containers := Remove(containers, s.temp, k.stale);
      ok := CanCreate(containers, s.temp) && k.create.Done?;
      containers := Create(containers, s.temp, s.cand, k.create);
      if !ok {
        return;
      }
      containers := Start(containers, s.temp, k.start);
      ok := k.start.Done?;
      if !ok {
        containers := Remove(containers, s.temp, k.cleanup);
      }
    }

    method RollBack(slots: seq<Slot>, o: Oracle, n: nat)
      requires n <= |slots|
      modifies this`containers
      ensures containers == RollBackFirst(old(containers), slots, o, n)
    {
      for i := 0 to n
        invariant containers == RollBackFirst(old(containers), slots, o, i)
      {
        containers := Stop(containers, slots[i].temp, o(i).backStop);
        containers := Remove(containers, slots[i].temp, o(i).backRemove);
      }
    }

    method StartCandidates(slots: seq<Slot>, o: Oracle) returns (started: nat)
      modifies this`containers
      ensures started <= |slots| && StartFirst(old(containers), slots, o, started).1
      ensures started == |slots| ==> containers == StartFirst(old(containers), slots, o, started).0
      ensures started < |slots| ==>
        && !StartFirst(old(containers), slots, o, started + 1).1
        && containers == RollBackFirst(StartFirst(old(containers), slots, o, started + 1).0, slots, o, started)
    {
      hide StartOne, RollBackFirst;
      started := 0;
      while started < |slots|
        invariant started <= |slots| && StartFirst(old(containers), slots, o, started) == (containers, true)
      {
        var ok := StartCandidate(slots[started], o(started));
        if !ok {
          RollBack(slots, o, started);
          return;
        }
        started := started + 1;
      }
    }

    method SwapServices(slots: seq<Slot>, o: Oracle) returns (done: nat)
      modifies this`containers
      ensures done <= |slots| && SwapFirst(old(containers), slots, o, done).1
      ensures done == |slots| ==> containers == SwapFirst(old(containers), slots, o, done).0
      ensures done < |slots| ==> SwapFirst(old(containers), slots, o, done + 1) == (containers, false)
    {
      hide Rename, CanRename, Stop, Remove;
      done := 0;
      while done < |slots|
        invariant done <= |slots| && SwapFirst(old(containers), slots, o, done) == (containers, true)
      {
        var s, k := slots[done], o(done);
        ghost var before := containers;
        containers := Stop(containers, s.canonical, k.stop);
        containers := Remove(containers, s.canonical, k.remove);
        containers := Stop(containers, s.legacy, k.legacyStop);
        containers := Remove(containers, s.legacy, k.legacyRemove);
        var ok := k.rename.Done? && CanRename(containers, s.temp, s.canonical);
        containers := Rename(containers, s.temp, s.canonical, k.rename);
        assert (containers, ok) == SwapOne(before, s, k);
        if !ok {
          return;
        }
        done := done + 1;
      }
    }

    /** The names of the app's containers, in some order. */
    method ListContainers(appId: string) returns (list: seq<string>)
      ensures Lists(list, containers, appId)
    {
      list := [];
      var rest := containers.Keys;
      while rest != {}
        invariant rest <= containers.Keys
        invariant forall n :: n in list <==>
          n in containers && n !in rest && LabelOf(containers[n], "prexel.app_id") == appId
        decreases |rest|
      {
        var n :| n in rest;
        rest := rest - {n};
        if LabelOf(containers[n], "prexel.app_id") == appId {
          list := list + [n];
        }
      }
    }

    method PruneOrphans(appId: string, live: set<string>, listed: bool, k: PruneCalls)
      modifies this`containers
      ensures !listed ==> containers == old(containers)
      ensures listed ==> Pruned(old(containers), containers, OrphanNames(old(containers), appId, live), k)
      ensures listed && (forall n :: k.remove(n).Effect()) ==>
        containers == old(containers) - OrphanNames(old(containers), appId, live)
    {
      if !listed {
        return;
      }
      var list := ListContainers(appId);
      var seen := containers;
      for i := 0 to |list|
        invariant containers == PruneFirst(seen, seen, list, live, k, i)
      {
        var svc := LabelOf(seen[list[i]], "prexel.service");
        if svc == "" || svc in live || list[i] == "" {
          continue;
        }
        containers := Stop(containers, list[i], k.stop(list[i]));
        containers := Remove(containers, list[i], k.remove(list[i]));
      }
      PruneExactly(seen, list, appId, live, k);
      hide Pruned;
      if forall n :: k.remove(n).Effect() {
        PruneRemovesOrphans(seen, list, appId, live, k);
      }
    }

    /** Point the domains bound to one service at it; failures are only logged. */
    method RouteService(s: Slot, bs: seq<Binding>, force: map<string, bool>, k: nat -> RouteCalls, m: nat,
                        ghost before: seq<(Slot, Binding)>, ghost own: seq<(Slot, Binding)>,
                        ghost work: seq<(Slot, Binding)>, ghost r0: Routes)
      requires m == |before| && before + own <= work
      requires |own| == |bs| && forall j :: 0 <= j < |bs| ==> own[j] == (s, bs[j])
      requires routes == RouteFirst(r0, work, force, k, m)
      modifies this`routes
      ensures routes == RouteFirst(r0, work, force, k, m + |bs|)
    {
      hide Upserted, PortFor, Force, RouteFirst, RouteBinding;
      PrefixAt(before, own, work);
      for j := 0 to |bs|
        invariant routes == RouteFirst(r0, work, force, k, m + j)
      {
        ghost var r := routes;
        assert work[m + j] == (s, bs[j]);
        var port := PortFor(s, bs[j]);
        if port != 0 {
          var t, calls := Target(s.canonical, port), k(m + j);
          routes := Upserted(routes, bs[j].host, t, Force(force, bs[j].host), calls.main, calls.sibling);
        }
        OneMoreBinding(r0, r, routes, work, force, k, m + j);
      }
    }

    method RouteServices(slots: seq<Slot>, bound: map<string, seq<Binding>>, force: map<string, bool>,
                         k: nat -> RouteCalls)
      modifies this`routes
      ensures var work := Work(slots, bound); routes == RouteFirst(old(routes), work, force, k, |work|)
    {
      hide RouteFirst, Work, Own;
      ghost var work := Work(slots, bound);
      var m := 0;
      NoWorkYet(routes, slots, bound, force, k);
      for i := 0 to |slots|
        invariant m == |Work(slots[..i], bound)| <= |work|
        invariant routes == RouteFirst(old(routes), work, force, k, m)
      {
        var s, bs := slots[i], BindingsOf(slots[i], bound);
        WorkStep(slots, bound, i);
        OwnIs(s, bound);
        RouteService(s, bs, force, k, m, Work(slots[..i], bound), Own(s, bound), work, old(routes));
        m := m + |bs|;
      }
      assert slots[..|slots|] == slots;
    }

    /** swapCompose. `settled` is false when the deploy is cancelled while the candidates settle;
        `listed` when the listing for the orphan clean-up failed. */
    method SwapCompose(a: App, deploy: string, services: seq<Service>, o: Oracle, settled: bool,
                       bound: map<string, seq<Binding>>, force: map<string, bool>, rk: nat -> RouteCalls,
                       listed: bool, k: PruneCalls)
      returns (r: Result)
      requires DistinctNames(services)
      modifies this
      ensures r.NoServices? <==> services == []
      ensures Keeps(r, old(containers), containers, SlotsFor(a, deploy, services), o, settled, listed, k, a.id)
      ensures RemovalsWork(o, |services|) && services != [] ==>
        && (r.StartFailed? <==> !StartsWork(o, |services|)) && (r.StartFailed? ==> StartsWork(o, r.i))
        && (r.Interrupted? <==> StartsWork(o, |services|) && !settled)
        && (r.Swapped? && InOrder(SlotsFor(a, deploy, services)) ==>
          && (forall i :: 0 <= i < |services| ==> o(i).rename.Done?)
          && (listed && (forall n :: k.remove(n).Effect()) ==>
            forall i :: 0 <= i < |services| ==> ServiceUp(containers, a, deploy, services[i])))
      ensures routes == if !r.Swapped? then old(routes) else
        var work := Work(SlotsFor(a, deploy, services), bound); RouteFirst(old(routes), work, force, rk, |work|)
    {
      if services == [] {
        return NoServices;
      }
      NamesDistinct(a, deploy, services);
      SlotsWellFormed(a, deploy, services);
      hide *;
      ghost var slots := SlotsFor(a, deploy, services);
      assert |slots| == |services| by { OneSlotEach(a, deploy, services); }
      r := SwapSlots(SlotsFor(a, deploy, services), o, settled, bound, force, rk, listed, k, a.id);
      if r.Swapped? && RemovalsWork(o, |slots|) && InOrder(slots) && listed && forall n :: k.remove(n).Effect() {
        KeepsInstalls(old(containers), containers, slots, o, settled, listed, k, a.id);
        InstallsServices(old(containers), containers, a, deploy, services);
      }
    }

    method SwapSlots(slots: seq<Slot>, o: Oracle, settled: bool,
                     bound: map<string, seq<Binding>>, force: map<string, bool>, rk: nat -> RouteCalls,
                     listed: bool, k: PruneCalls, appId: string)
      returns (r: Result)
      requires TempsDistinct(slots) && CanonicalsDistinct(slots) && Running(slots) && Labelled(slots)
      modifies this
      ensures !r.NoServices?
      ensures Keeps(r, old(containers), containers, slots, o, settled, listed, k, appId)
      ensures RemovalsWork(o, |slots|) ==>
        && (r.StartFailed? <==> !StartsWork(o, |slots|)) && (r.StartFailed? ==> StartsWork(o, r.i))
        && (r.Interrupted? <==> StartsWork(o, |slots|) && !settled)
        && (r.Swapped? && InOrder(slots) ==> forall i :: 0 <= i < |slots| ==> o(i).rename.Done?)
      ensures routes == if !r.Swapped? then old(routes) else
        var work := Work(slots, bound); RouteFirst(old(routes), work, force, rk, |work|)
    {
      hide StartFirst, RollBackFirst, SwapFirst, InOrder, CanonicalsDistinct, TempsDistinct, Running, Labelled,
        Installs, Orphan, Temps,
        RemovalsWork, StartsWork, OrphanNames, Live, HalfSwapped, AllPresent, Candidates, CandidatesAt, Cancelled,
        RouteFirst, Work;
      ghost var c := containers;
      var started := StartCandidates(slots, o);
      if RemovalsWork(o, |slots|) {
        StartedIff(c, slots, o, started);
      }
      if started < |slots| {
        StartFailureRestores(c, slots, o, started);
        return StartFailed(started);
      }
      if !settled {
        InterruptLeavesCandidates(c, slots, o);
        RollBack(slots, Cancelled(o), |slots|);
        return Interrupted;
      }
      var done := SwapServices(slots, o);
      if RemovalsWork(o, |slots|) {
        EndsSwapped(c, slots, o, appId);
        if InOrder(slots) && done == |slots| {
          SuccessInstalls(c, slots, o, appId);
        }
        if InOrder(slots) && done < |slots| {
          RenameFailureLeaves(c, slots, o, done);
        }
      }
      if done < |slots| {
        return RenameFailed(done);
      }
      RouteServices(slots, bound, force, rk);
      LiveIs(slots);
      PruneOrphans(appId, set s | s in slots :: s.service, listed, k);
      return Swapped;
    }
  }

  /** How many candidates started decides, and is decided by, their own calls. */
  lemma StartedIff(c: Fleet, slots: seq<Slot>, o: Oracle, started: nat)
    requires RemovalsWork(o, |slots|) && started <= |slots| && StartFirst(c, slots, o, started).1
    requires started < |slots| ==> !StartFirst(c, slots, o, started + 1).1
    ensures StartsWork(o, started) && (started < |slots| <==> !StartsWork(o, |slots|))
  {
    hide StartFirst;
    StartsIff(c, slots, o, started);
    if started < |slots| {
      StartsIff(c, slots, o, started + 1);
    }
  }

  lemma OneSlotEach(a: App, deploy: string, services: seq<Service>)
    ensures |SlotsFor(a, deploy, services)| == |services|
  {
  }

  lemma KeepsInstalls(c: Fleet, c': Fleet, slots: seq<Slot>, o: Oracle, settled: bool, listed: bool, k: PruneCalls,
      appId: string)
    requires Keeps(Swapped, c, c', slots, o, settled, listed, k, appId)
    requires RemovalsWork(o, |slots|) && InOrder(slots) && listed && forall n :: k.remove(n).Effect()
    ensures Installs(c, c', slots, appId)
  {
    hide Installs, RemovalsWork, InOrder, AllPresent;
  }

  lemma NoWorkYet(r: Routes, slots: seq<Slot>, bound: map<string, seq<Binding>>, force: map<string, bool>,
      k: nat -> RouteCalls)
    ensures Work(slots[..0], bound) == [] && RouteFirst(r, Work(slots, bound), force, k, 0) == r
  {
  }

  lemma {:induction false} WorkPrefix(slots: seq<Slot>, bound: map<string, seq<Binding>>, i: nat)
    requires i <= |slots|
    ensures Work(slots[..i], bound) <= Work(slots, bound)
    decreases |slots| - i
  {
    if i < |slots| {
      WorkPrefix(slots, bound, i + 1);
      assert slots[..i + 1][..i] == slots[..i];
    } else {
      assert slots[..i] == slots;
    }
  }

  lemma WorkStep(slots: seq<Slot>, bound: map<string, seq<Binding>>, i: nat)
    requires i < |slots|
    ensures Work(slots[..i + 1], bound) == Work(slots[..i], bound) + Own(slots[i], bound) <= Work(slots, bound)
    ensures |Work(slots[..i + 1], bound)| == |Work(slots[..i], bound)| + |Own(slots[i], bound)|
  {
    hide Work, Own;
    WorkPrefix(slots, bound, i + 1);
    WorkSnoc(slots, bound, i);
  }

  lemma OwnIs(s: Slot, bound: map<string, seq<Binding>>)
    ensures var bs := BindingsOf(s, bound);
      |Own(s, bound)| == |bs| && forall j :: 0 <= j < |bs| ==> Own(s, bound)[j] == (s, bs[j])
  {
    hide BindingsOf;
  }

  lemma OneMoreBinding(r0: Routes, r: Routes, r': Routes, work: seq<(Slot, Binding)>, force: map<string, bool>,
                       k: nat -> RouteCalls, n: nat)
    requires n < |work| && r == RouteFirst(r0, work, force, k, n)
    requires var s, b := work[n].0, work[n].1;
      r' == if PortFor(s, b) == 0 then r
            else Upserted(r, b.host, Target(s.canonical, PortFor(s, b)), Force(force, b.host), k(n).main, k(n).sibling)
    ensures r' == RouteFirst(r0, work, force, k, n + 1)
  {
    hide Upserted, PortFor, Force;
  }

  lemma WorkSnoc(slots: seq<Slot>, bound: map<string, seq<Binding>>, i: nat)
    requires i < |slots|
    ensures Work(slots[..i + 1], bound) == Work(slots[..i], bound) + Own(slots[i], bound)
  {
    assert slots[..i + 1][..i] == slots[..i];
  }

  lemma PrefixAt<T>(before: seq<T>, own: seq<T>, whole: seq<T>)
    requires before + own <= whole
    ensures |before| + |own| <= |whole| && forall j :: 0 <= j < |own| ==> whole[|before| + j] == own[j]
  {
    assert forall j :: 0 <= j < |own| ==> (before + own)[|before| + j] == own[j];
  }

  /** So a domain routed after a swap that installed its services reaches the service's container. */
  lemma RoutedHostsAreServed(c: Fleet, c': Fleet, slots: seq<Slot>, appId: string, r: Routes, r': Routes, i: nat,
                             b: Binding, p: int, force: map<string, bool>, k: RouteCalls)
    requires Installs(c, c', slots, appId) && Running(slots) && i < |slots|
    requires Reached(r, r', slots[i], b, force, k)
    requires b.host != "" && slots[i].canonical != "" && LeadsTo(slots[i], b, p) && 0 < p <= 65535
    requires k.main.Done? && k.sibling.Done?
    ensures RouteKey(b.host, Canonical) in r' && ResolvesAvoiding(c', r'[RouteKey(b.host, Canonical)].upstream, {})
  {
    hide Orphan, Replaced, Canonicals, Live, LeadsTo;
    assert Answers(slots[i].canonical, c'[slots[i].canonical], slots[i].canonical);
  }

  lemma LiveIs(slots: seq<Slot>)
    ensures (set s | s in slots :: s.service) == Live(slots)
  {
    forall x | x in set s | s in slots :: s.service
      ensures x in Live(slots)
    {
      var s :| s in slots && s.service == x;
      var i :| 0 <= i < |slots| && slots[i] == s;
    }
  }
}
