/** The life of a domain row under DNS checks, forced checks, retries and the TLS monitor with its
    in-memory failure tracker. Each check is one step. */
module DomainStatus {
  import opened Wrappers

  const MAX_DNS_CHECKS: nat := 96
  const MAX_ATTEMPTS: nat := 3
  /** Ten minutes, in nanoseconds. */
  const FAIL_DURATION: int := 600_000_000_000

  datatype Status = Pending | Issuing | Active | Failed
  datatype Row = Row(status: Status, verified: bool, count: nat)

  const NEW_ROW := Row(Pending, false, 0)

  /** What the tracker knows of one domain. */
  datatype Tracker = Tracker(attempts: nat, firstSeen: Option<int>)

  const NO_FAILURES := Tracker(0, None)

  datatype State = State(row: Row, tracker: Tracker)

  datatype Event =
    | Check(at: int, matches: bool)      // the background DNS pass
    | Verify(at: int, matches: bool)     // a check forced by the user
    | Retry(at: int)
    | Handshake(at: int, good: bool)     // the TLS monitor, in production mode
    | DevPass(at: int)                   // the TLS monitor, in self-signed mode
    | Restart(at: int)                   // the tracker lives in memory only

  // ---------------------------------------------------------------------------
  // Steps
  // ---------------------------------------------------------------------------

  /** runDNSCheckOnce: a miss is counted, in whatever status, and the 96th fails the domain. */
  function DnsChecked(r: Row, matches: bool): Row {
    if matches then r.(verified := true, status := Issuing)
    else
      var r1 := r.(count := r.count + 1);
      if r1.count >= MAX_DNS_CHECKS then r1.(status := Failed) else r1
  }

  predicate DueForDns(r: Row) { r.status == Pending && r.count < MAX_DNS_CHECKS }

  predicate Monitored(r: Row) { r.status == Issuing || r.status == Active }

  function Recorded(t: Tracker, now: int): Tracker {
    Tracker(t.attempts + 1, if t.firstSeen.None? then Some(now) else t.firstSeen)
  }

  /** recordSSLFailure */
  function FailureRecorded(s: State, now: int): State {
    var t := Recorded(s.tracker, now);
    if s.row.status == Issuing && t.attempts >= MAX_ATTEMPTS && now - t.firstSeen.value >= FAIL_DURATION
    then State(s.row.(status := Failed), NO_FAILURES)
    else s.(tracker := t)
  }

  function Step(s: State, e: Event): State {
    match e
    case Check(_, matches) => if DueForDns(s.row) then s.(row := DnsChecked(s.row, matches)) else s
    case Verify(_, matches) => s.(row := DnsChecked(s.row, matches))
    case Retry(_) => s.(row := NEW_ROW)
    case Handshake(at, good) =>
      if !Monitored(s.row) then s
      else if good then State(s.row.(status := Active), NO_FAILURES)
      else FailureRecorded(s, at)
    case DevPass(_) => if s.row.status == Issuing then State(s.row.(status := Active), NO_FAILURES) else s
    case Restart(_) => s.(tracker := NO_FAILURES)
  }

  function After(s: State, es: seq<Event>): State {
    if es == [] then s else Step(After(s, es[..|es| - 1]), es[|es| - 1])
  }

  function Run(es: seq<Event>): State { After(State(NEW_ROW, NO_FAILURES), es) }

  // ---------------------------------------------------------------------------
  // What every run keeps
  // ---------------------------------------------------------------------------

  predicate Sound(r: Row) {
    && (r.status == Pending ==> !r.verified && r.count < MAX_DNS_CHECKS)
    && (Monitored(r) ==> r.verified)
  }

  /** Pending means unverified and fewer than 96 failed checks; issuing or active means verified. */
  lemma {:induction false} RowsStaySound(es: seq<Event>)
    ensures Sound(Run(es).row)
  {
    if es != [] {
      RowsStaySound(es[..|es| - 1]);
    }
  }

  predicate IsCheck(e: Event) { e.Check? || e.Verify? }

  function Checks(es: seq<Event>): nat {
    if es == [] then 0 else Checks(es[..|es| - 1]) + if IsCheck(es[|es| - 1]) then 1 else 0
  }

  /** All checks so far missed. */
  ghost predicate AllMissed(es: seq<Event>) { forall i :: 0 <= i < |es| && IsCheck(es[i]) ==> !es[i].matches }

  /** Without a retry, a pending domain is still pending after a run of events exactly when no check
      in it matched and fewer than 96 - count were made. */
  lemma {:induction false} StillPendingIff(s: State, es: seq<Event>)
    requires s.row.status == Pending && Sound(s.row)
    requires forall i :: 0 <= i < |es| ==> !es[i].Retry?
    ensures After(s, es).row.status == Pending <==> AllMissed(es) && Checks(es) < MAX_DNS_CHECKS - s.row.count
    ensures After(s, es).row.status == Pending ==> After(s, es).row == s.row.(count := s.row.count + Checks(es))
  {
    if es != [] {
      var front, e := es[..|es| - 1], es[|es| - 1];
      StillPendingIff(s, front);
      AllMissedStep(es);
      hide AllMissed;
    }
  }

  lemma AllMissedStep(es: seq<Event>)
    requires es != []
    ensures var e := es[|es| - 1]; AllMissed(es) <==> AllMissed(es[..|es| - 1]) && (IsCheck(e) ==> !e.matches)
  {
    var front := es[..|es| - 1];
    assert forall i :: 0 <= i < |front| ==> front[i] == es[i];
    assert es == front + [es[|es| - 1]];
  }

  /** So it leaves pending within 96 - count checks, whatever else happens in between. */
  lemma LeavesPending(s: State, es: seq<Event>)
    requires s.row.status == Pending && Sound(s.row)
    requires forall i :: 0 <= i < |es| ==> !es[i].Retry?
    requires Checks(es) >= MAX_DNS_CHECKS - s.row.count
    ensures After(s, es).row.status != Pending
  {
    StillPendingIff(s, es);
  }

  // ---------------------------------------------------------------------------
  // The monitor
  // ---------------------------------------------------------------------------

  /** The times of the handshake failures that nothing has cleared yet. */
  function Log(es: seq<Event>): seq<int> {
    if es == [] then []
    else
      var front, e := es[..|es| - 1], es[|es| - 1];
      var row, log := Run(front).row, Log(front);
      match e
      case Handshake(at, good) =>
        if !Monitored(row) then log
        else if good || GivesUp(row, log, at) then [] else log + [at]
      case DevPass(_) => if row.status == Issuing then [] else log
      case Restart(_) => []
      case _ => log
  }

  /** Giving up takes a third failure at least, ten minutes after the first one not cleared. */
  predicate GivesUp(row: Row, log: seq<int>, now: int) {
    row.status == Issuing && |log| + 1 >= MAX_ATTEMPTS && now - (if log == [] then now else log[0]) >= FAIL_DURATION
  }

  ghost predicate Tracks(t: Tracker, log: seq<int>) {
    t.attempts == |log| && t.firstSeen == if log == [] then None else Some(log[0])
  }

  lemma {:induction false} TrackerIsLog(es: seq<Event>)
    ensures Tracks(Run(es).tracker, Log(es))
  {
    if es != [] {
      TrackerIsLog(es[..|es| - 1]);
    }
  }

  /** The monitor moves a domain to failed exactly when it is issuing and at least three uncleared
      failures, this one included, span at least ten minutes. */
  lemma MonitorFailsIff(es: seq<Event>, at: int, good: bool)
    ensures var before, after := Run(es).row, Run(es + [Handshake(at, good)]).row;
      (before.status != Failed && after.status == Failed) <==> !good && GivesUp(before, Log(es), at)
  {
    var all := es + [Handshake(at, good)];
    assert all[..|all| - 1] == es;
    TrackerIsLog(es);
  }

  /** Nothing but the monitor and the DNS checks fails a domain. */
  lemma FailsOnlyBy(es: seq<Event>, e: Event)
    requires Run(es).row.status != Failed && Run(es + [e]).row.status == Failed
    ensures e.Handshake? || (IsCheck(e) && !e.matches && Run(es).row.count == MAX_DNS_CHECKS - 1)
      || (e.Verify? && !e.matches && Run(es).row.count >= MAX_DNS_CHECKS)
  {
    assert (es + [e])[..|es + [e]| - 1] == es;
  }

  /** The logged failures are handshakes that failed while the domain was monitored. */
  lemma {:induction false} LogIsHistory(es: seq<Event>, k: nat) returns (i: nat)
    requires k < |Log(es)|
    ensures i < |es| && es[i].Handshake? && !es[i].good && es[i].at == Log(es)[k] && Monitored(Run(es[..i]).row)
  {
    var n := |es| - 1;
    var front := es[..n];
    if k < |Log(front)| && Log(es)[k] == Log(front)[k] {
      i := LogIsHistory(front, k);
      assert front[i] == es[i] && front[..i] == es[..i];
    } else {
      i := n;
    }
  }

  // ---------------------------------------------------------------------------
  // Statuses by history
  // ---------------------------------------------------------------------------

  function At(es: seq<Event>, n: nat): State
    requires n <= |es|
  {
    Run(es[..n])
  }

  lemma AtStep(es: seq<Event>, n: nat)
    requires n < |es|
    ensures At(es, n + 1) == Step(At(es, n), es[n]) && Sound(At(es, n).row)
    ensures At(es, 0) == State(NEW_ROW, NO_FAILURES)
  {
    assert es[..n + 1][..n] == es[..n];
    RowsStaySound(es[..n]);
  }

  /** Event `i` is a check that missed and was counted: a forced one always is, one of the background
      pass only while the domain is pending. */
  predicate Missed(es: seq<Event>, i: nat)
    requires i < |es|
  {
    IsCheck(es[i]) && !es[i].matches && (es[i].Verify? || At(es, i).row.status == Pending)
  }

  /** The misses counted since the last retry. */
  function Misses(es: seq<Event>, n: nat): nat
    requires n <= |es|
  {
    if n == 0 || es[n - 1].Retry? then 0 else Misses(es, n - 1) + if Missed(es, n - 1) then 1 else 0
  }

  /** The stored count is the number of misses since the last retry. */
  lemma {:induction false} CountByHistory(es: seq<Event>, n: nat)
    requires n <= |es|
    ensures At(es, n).row.count == Misses(es, n)
  {
    hide Run;
    if n > 0 {
      CountByHistory(es, n - 1);
      AtStep(es, n - 1);
    } else {
      assert Run([]) == State(NEW_ROW, NO_FAILURES) by { StartsNew(); }
      assert es[..0] == [];
    }
  }

  lemma StartsNew()
    ensures Run([]) == State(NEW_ROW, NO_FAILURES)
  {
  }

  /** Event `i` is a good handshake with a monitored domain or a self-signed pass over an issuing one. */
  predicate Activates(es: seq<Event>, i: nat)
    requires i < |es|
  {
    match es[i]
    case Handshake(_, good) => good && At(es, i).row.status in {Issuing, Active}
    case DevPass(_) => At(es, i).row.status == Issuing
    case _ => false
  }

  /** Event `j` is a retry or a forced check that matched. */
  predicate Reopens(es: seq<Event>, j: nat)
    requires j < |es|
  {
    es[j].Retry? || (es[j].Verify? && es[j].matches)
  }

  /** Event `i` is a counted miss that brings the count to 96. */
  predicate HitsCeiling(es: seq<Event>, i: nat)
    requires i < |es|
  {
    Missed(es, i) && Misses(es, i + 1) >= 96
  }

  /** Event `i` is a failed handshake with a monitored domain. */
  predicate HandshakeFails(es: seq<Event>, i: nat)
    requires i < |es|
  {
    es[i].Handshake? && !es[i].good && At(es, i).row.status in {Issuing, Active}
  }

  /** The failed handshakes before event `n` that no restart, no activation and no giving up has cleared. */
  ghost function Uncleared(es: seq<Event>, n: nat): set<nat>
    requires n <= |es|
    decreases n, 0
  {
    set i: nat | i < n && HandshakeFails(es, i) && forall j :: i <= j < n ==> !Clears(es, j)
  }

  ghost predicate Clears(es: seq<Event>, j: nat)
    requires j < |es|
    decreases j, 2
  {
    es[j].Restart? || Activates(es, j) || Abandons(es, j)
  }

  ghost predicate First(s: set<nat>, i: nat) { i in s && forall j :: j in s ==> i <= j }

  /** Event `i` is a failed handshake of an issuing domain: at least the third uncleared failure, and
      ten minutes after the first. */
  ghost predicate Abandons(es: seq<Event>, i: nat)
    requires i < |es|
    decreases i, 1
  {
    && HandshakeFails(es, i) && At(es, i).row.status == Issuing
    && |Uncleared(es, i)| + 1 >= 3
    && exists f: nat | First(Uncleared(es, i), f) :: es[i].at - es[f].at >= 600_000_000_000
  }

  /** The log holds the uncleared failures, the earliest first. */
  ghost predicate LogIs(es: seq<Event>, n: nat)
    requires n <= |es|
  {
    var log, open := Log(es[..n]), Uncleared(es, n);
    (forall i :: i in open ==> i < n) && LogMatches(es, log, open)
  }

  ghost predicate LogMatches(es: seq<Event>, log: seq<int>, open: set<nat>) {
    |log| == |open| && (log != [] ==> exists f: nat :: f < |es| && First(open, f) && log[0] == es[f].at)
  }

  lemma AbandonsIff(es: seq<Event>, n: nat)
    requires n < |es| && LogIs(es, n)
    ensures Abandons(es, n) <==> HandshakeFails(es, n) && GivesUp(At(es, n).row, Log(es[..n]), es[n].at)
  {
    hide Run, Log, Uncleared, HandshakeFails;
  }

  lemma LogStep(es: seq<Event>, n: nat)
    requires n < |es| && LogIs(es, n)
    ensures Log(es[..n + 1]) == if Clears(es, n) then []
      else Log(es[..n]) + if HandshakeFails(es, n) then [es[n].at] else []
  {
    hide Run, Uncleared;
    AbandonsIff(es, n);
    assert es[..n + 1][..n] == es[..n];
  }

  lemma UnclearedStep(es: seq<Event>, n: nat)
    requires n < |es|
    ensures Uncleared(es, n + 1) == if Clears(es, n) then {}
      else Uncleared(es, n) + if HandshakeFails(es, n) then {n} else {}
  {
    hide Run, HandshakeFails, Abandons, Activates;
  }

  /** The tracker's log is the uncleared failures. */
  lemma {:induction false} LogByHistory(es: seq<Event>, n: nat)
    requires n <= |es|
    ensures LogIs(es, n)
  {
    if n == 0 {
      assert Uncleared(es, 0) == {};
    } else {
      hide Run, Log, Uncleared, HandshakeFails, Clears, LogMatches, Abandons, Activates;
      LogByHistory(es, n - 1);
      LogStep(es, n - 1);
      UnclearedStep(es, n - 1);
      LogGrows(es, Log(es[..n - 1]), Uncleared(es, n - 1), n - 1);
      NoLog(es);
    }
  }

  lemma NoLog(es: seq<Event>)
    ensures LogMatches(es, [], {})
  {
  }

  lemma LogGrows(es: seq<Event>, log: seq<int>, open: set<nat>, n: nat)
    requires n < |es| && LogMatches(es, log, open) && forall i :: i in open ==> i < n
    ensures LogMatches(es, log + [es[n].at], open + {n})
  {
    assert n !in open && |open + {n}| == |open| + 1;
    if log == [] {
      assert First(open + {n}, n);
    } else {
      var f: nat :| f < |es| && First(open, f) && log[0] == es[f].at;
      assert First(open + {n}, f);
    }
  }

  lemma ActiveStep(es: seq<Event>, n: nat)
    requires n < |es|
    ensures At(es, n + 1).row.status == Active <==>
      Activates(es, n) || (At(es, n).row.status == Active && !Reopens(es, n) && !HitsCeiling(es, n))
  {
    hide Run, Misses;
    AtStep(es, n);
    CountByHistory(es, n + 1);
  }

  /** Active, from the events alone: a good handshake of a monitored domain or a self-signed pass
      over an issuing one, and since then no retry, no forced check that matched and no forced
      miss that brought the count to 96. */
  lemma {:induction false} ActiveIff(es: seq<Event>, n: nat)
    requires n <= |es|
    ensures At(es, n).row.status == Active <==>
      exists i :: 0 <= i < n && Activates(es, i)
        && forall j :: i < j < n ==> !Reopens(es, j) && !HitsCeiling(es, j)
  {
    hide Run, Activates, HitsCeiling, Reopens;
    StartsNew();
    assert es[..0] == [];
    if n > 0 {
      ActiveIff(es, n - 1);
      ActiveStep(es, n - 1);
      if At(es, n).row.status == Active && !Activates(es, n - 1) {
        var i :| 0 <= i < n - 1 && Activates(es, i)
          && forall j :: i < j < n - 1 ==> !Reopens(es, j) && !HitsCeiling(es, j);
        assert forall j :: i < j < n ==> !Reopens(es, j) && !HitsCeiling(es, j);
      }
    }
  }

  lemma FailedStep(es: seq<Event>, n: nat)
    requires n < |es|
    ensures At(es, n + 1).row.status == Failed <==>
      HitsCeiling(es, n) || Abandons(es, n) || (At(es, n).row.status == Failed && !Reopens(es, n))
  {
    LogByHistory(es, n);
    AbandonsIff(es, n);
    hide Run, Misses, Log, Abandons, LogIs;
    AtStep(es, n);
    CountByHistory(es, n + 1);
    TrackerIsLog(es[..n]);
  }

  /** Failed: a counted miss brought the count to 96 or the monitor gave the domain up, and since then
      no retry and no forced check that matched. */
  lemma {:induction false} FailedIff(es: seq<Event>, n: nat)
    requires n <= |es|
    ensures At(es, n).row.status == Failed <==>
      exists i :: 0 <= i < n && (HitsCeiling(es, i) || Abandons(es, i)) && forall j :: i < j < n ==> !Reopens(es, j)
  {
    hide Run, Abandons, HitsCeiling, Reopens;
    StartsNew();
    assert es[..0] == [];
    if n > 0 {
      FailedIff(es, n - 1);
      FailedStep(es, n - 1);
      if At(es, n).row.status == Failed && !HitsCeiling(es, n - 1) && !Abandons(es, n - 1) {
        var i :| 0 <= i < n - 1 && (HitsCeiling(es, i) || Abandons(es, i))
          && forall j :: i < j < n - 1 ==> !Reopens(es, j);
        assert forall j :: i < j < n ==> !Reopens(es, j);
      }
    }
  }

  /** A life of the domain begins before event `i`. */
  predicate Begins(es: seq<Event>, i: nat)
    requires i <= |es|
  {
    i == 0 || es[i - 1].Retry?
  }

  lemma PendingStep(es: seq<Event>, n: nat)
    requires n < |es|
    ensures At(es, n + 1).row.status == Pending <==>
      || es[n].Retry?
      || (At(es, n).row.status == Pending && !(IsCheck(es[n]) && es[n].matches) && !HitsCeiling(es, n))
  {
    hide Run, Misses;
    AtStep(es, n);
    CountByHistory(es, n + 1);
  }

  /** Pending: from the creation or a retry on, no check matched and none brought the count to 96.
      What is in none of the three is issuing. */
  lemma {:induction false} PendingIff(es: seq<Event>, n: nat)
    requires n <= |es|
    ensures At(es, n).row.status == Pending <==>
      exists i :: 0 <= i <= n && Begins(es, i)
        && forall j :: i <= j < n ==> !(IsCheck(es[j]) && es[j].matches) && !HitsCeiling(es, j)
  {
    hide Run, HitsCeiling;
    StartsNew();
    assert es[..0] == [] && Begins(es, 0);
    if n > 0 {
      PendingIff(es, n - 1);
      PendingStep(es, n - 1);
      if At(es, n).row.status == Pending && !es[n - 1].Retry? {
        var i :| 0 <= i <= n - 1 && Begins(es, i)
          && forall j :: i <= j < n - 1 ==> !(IsCheck(es[j]) && es[j].matches) && !HitsCeiling(es, j);
        assert forall j :: i <= j < n ==> !(IsCheck(es[j]) && es[j].matches) && !HitsCeiling(es, j);
      }
      assert es[n - 1].Retry? ==> Begins(es, n);
    }
  }

  /** Verified: a check that matched was made, by force or while pending, with no retry since. */
  lemma {:induction false} VerifiedIff(es: seq<Event>, n: nat)
    requires n <= |es|
    ensures At(es, n).row.verified <==>
      exists i :: 0 <= i < n && IsCheck(es[i]) && es[i].matches && (es[i].Verify? || At(es, i).row.status == Pending)
        && forall j :: i < j < n ==> !es[j].Retry?
  {
    hide Run;
    StartsNew();
    assert es[..0] == [];
    if n > 0 {
      VerifiedIff(es, n - 1);
      AtStep(es, n - 1);
      hide Step;
    }
  }

  // ---------------------------------------------------------------------------
  // Ten minutes in issuing?
  // ---------------------------------------------------------------------------

  /** Events in order of time, none before `since`. */
  ghost predicate From(es: seq<Event>, since: int) {
    && (forall i :: 0 <= i < |es| ==> since <= es[i].at)
    && (forall i, j :: 0 <= i < j < |es| ==> es[i].at <= es[j].at)
  }

  /** The last of these events is a handshake at which the monitor gives an issuing domain up. */
  ghost predicate GivenUpBy(s: State, es: seq<Event>) {
    && es != [] && es[|es| - 1].Handshake?
    && After(s, es[..|es| - 1]).row.status == Issuing && After(s, es).row.status == Failed
  }

  /** A domain in issuing at time `since` is sure of ten minutes from then on, whatever happens to it,
      exactly when no failure from before that time is still uncleared. */
  lemma GraceIff(s: State, log: seq<int>, since: int)
    requires s.row.status == Issuing && Tracks(s.tracker, log)
    ensures (forall es: seq<Event> :: From(es, since) && GivenUpBy(s, es) ==> es[|es| - 1].at - since >= FAIL_DURATION)
       <==> log == [] || log[0] >= since
  {
    if log == [] || log[0] >= since {
      forall es: seq<Event> | From(es, since) && GivenUpBy(s, es)
        ensures es[|es| - 1].at - since >= FAIL_DURATION
      {
        FirstSeenStays(s, es[..|es| - 1], since);
      }
    } else {
      var t := if since >= log[0] + FAIL_DURATION then since else log[0] + FAIL_DURATION;
      var es := if |log| >= 2 then [Handshake(t, false)] else [Handshake(t, false), Handshake(t, false)];
      GivesUpSoon(s, log, t, es);
      assert From(es, since) && GivenUpBy(s, es) && es[|es| - 1].at - since < FAIL_DURATION;
    }
  }

  /** The first failure a tracker knows of only ever moves forward. */
  lemma {:induction false} FirstSeenStays(s: State, es: seq<Event>, since: int)
    requires From(es, since) && (s.tracker.firstSeen.Some? ==> s.tracker.firstSeen.value >= since)
    ensures var t := After(s, es).tracker; t.firstSeen.Some? ==> t.firstSeen.value >= since
  {
    if es != [] {
      FirstSeenStays(s, es[..|es| - 1], since);
    }
  }

  lemma GivesUpSoon(s: State, log: seq<int>, t: int, es: seq<Event>)
    requires s.row.status == Issuing && Tracks(s.tracker, log) && log != [] && t >= log[0] + FAIL_DURATION
    requires es == if |log| >= 2 then [Handshake(t, false)] else [Handshake(t, false), Handshake(t, false)]
    ensures GivenUpBy(s, es)
  {
    var one := [Handshake(t, false)];
    assert one[..0] == [] && After(s, []) == s;
    assert After(s, one) == Step(s, Handshake(t, false));
    if |log| == 1 {
      assert es[..1] == one;
      assert After(s, es) == Step(After(s, one), Handshake(t, false));
    }
    hide After;
  }

  /** Failures seen while active survive a retry: here the domain is given up one second after it
      entered issuing, at the first failure there. */
  lemma GivenUpAtOnce()
    ensures var s := 1_000_000_000;
      var es := [Check(0, true), Handshake(s, true), Handshake(2 * s, false), Handshake(3 * s, false),
        Retry(700 * s), Check(800 * s, true)];
      Run(es).row.status == Issuing && Run(es + [Handshake(801 * s, false)]).row.status == Failed
  {
    var s := 1_000_000_000;
    var es := [Check(0, true), Handshake(s, true), Handshake(2 * s, false), Handshake(3 * s, false), Retry(700 * s),
      Check(800 * s, true)];
    var start := State(NEW_ROW, NO_FAILURES);
    assert Run(es[..1]) == State(Row(Issuing, true, 0), NO_FAILURES) by {
      assert es[..1][..0] == [] && After(start, []) == start;
      assert After(start, es[..1]) == Step(After(start, es[..1][..0]), es[..1][0]);
    }
    assert Run(es[..2]) == State(Row(Active, true, 0), NO_FAILURES) by { assert es[..2][..1] == es[..1]; }
    assert Run(es[..3]) == State(Row(Active, true, 0), Tracker(1, Some(2 * s))) by { assert es[..3][..2] == es[..2]; }
    assert Run(es[..4]) == State(Row(Active, true, 0), Tracker(2, Some(2 * s))) by { assert es[..4][..3] == es[..3]; }
    assert Run(es[..5]) == State(NEW_ROW, Tracker(2, Some(2 * s))) by { assert es[..5][..4] == es[..4]; }
    assert Run(es) == State(Row(Issuing, true, 0), Tracker(2, Some(2 * s))) by { assert es[..|es| - 1] == es[..5]; }
    var all := es + [Handshake(801 * s, false)];
    assert all[..|all| - 1] == es;
  }

  // ---------------------------------------------------------------------------
  // The service
  // ---------------------------------------------------------------------------

  class Service {
    var rows: map<string, Row>
    var attempts: map<string, nat>
    var firstSeen: map<string, int>

    /** The state of one domain. */
    function StateOf(id: string): State
      requires id in rows
      reads this
    {
      State(rows[id], Tracker(if id in attempts then attempts[id] else 0, if id in firstSeen then Some(firstSeen[id])
        else None))
    }

    /** Only the domain `id` has changed, to `s`. */
    twostate predicate Became(id: string, s: State)
      requires id in old(rows)
      reads this
    {
      && rows.Keys == old(rows.Keys)
      && StateOf(id) == s
      && forall x :: x in rows && x != id ==> StateOf(x) == old(StateOf(x))
    }

    constructor ()
      ensures rows == map[] && attempts == map[] && firstSeen == map[]
    {
      rows, attempts, firstSeen := map[], map[], map[];
    }

    method Record(id: string, now: int) returns (n: nat, elapsed: int)
      requires id in rows
      modifies this`attempts, this`firstSeen
      ensures Became(id, old(StateOf(id)).(tracker := Recorded(old(StateOf(id)).tracker, now)))
      ensures var t := Recorded(old(StateOf(id)).tracker, now); n == t.attempts && elapsed == now - t.firstSeen.value
    {
      attempts := attempts[id := (if id in attempts then attempts[id] else 0) + 1];
      if id !in firstSeen {
        firstSeen := firstSeen[id := now];
      }
      return attempts[id], now - firstSeen[id];
    }

    method Clear(id: string)
      requires id in rows
      modifies this`attempts, this`firstSeen
      ensures Became(id, old(StateOf(id)).(tracker := NO_FAILURES))
    {
      attempts := attempts - {id};
      firstSeen := firstSeen - {id};
    }

    method MarkStatus(id: string, status: Status)
      requires id in rows
      modifies this`rows
      ensures rows == old(rows)[id := old(rows)[id].(status := status)]
    {
      rows := rows[id := rows[id].(status := status)];
    }

    method RunDnsCheckOnce(id: string, matches: bool)
      requires id in rows
      modifies this`rows
      ensures Became(id, Step(old(StateOf(id)), Verify(0, matches)))
    {
      if !matches {
        rows := rows[id := rows[id].(count := rows[id].count + 1)];
        if rows[id].count >= MAX_DNS_CHECKS {
          MarkStatus(id, Failed);
        }
        return;
      }
      rows := rows[id := rows[id].(verified := true, status := Issuing)];
    }

    method ResetForRetry(id: string)
      requires id in rows
      modifies this`rows
      ensures Became(id, Step(old(StateOf(id)), Retry(0)))
    {
      rows := rows[id := NEW_ROW];
    }

    method RecordSslFailure(id: string, now: int)
      requires id in rows
      modifies this
      ensures Became(id, FailureRecorded(old(StateOf(id)), now))
    {
      var n, elapsed := Record(id, now);
      if rows[id].status != Issuing {
        return;
      }
      if n >= MAX_ATTEMPTS && elapsed >= FAIL_DURATION {
        MarkStatus(id, Failed);
        Clear(id);
      }
    }

    method HandleProdMode(id: string, good: bool, now: int)
      requires id in rows && Monitored(rows[id])
      modifies this
      ensures Became(id, Step(old(StateOf(id)), Handshake(now, good)))
    {
      if !good {
        RecordSslFailure(id, now);
        return;
      }
      MarkStatus(id, Active);
      Clear(id);
    }

    method HandleDevMode(id: string, now: int)
      requires id in rows
      modifies this
      ensures Became(id, Step(old(StateOf(id)), DevPass(now)))
    {
      if rows[id].status != Issuing {
        return;
      }
      MarkStatus(id, Active);
      Clear(id);
    }

    /** One pass of the DNS loop over the domains that are due, in any order. */
    method RunDnsCheckPass(matches: map<string, bool>, now: int)
      requires rows.Keys <= matches.Keys
      modifies this`rows
      ensures rows.Keys == old(rows.Keys)
      ensures forall id :: id in rows ==> StateOf(id) == Step(old(StateOf(id)), Check(now, matches[id]))
    {
      var rest := set id | id in rows && DueForDns(rows[id]);
      while rest != {}
        invariant rows.Keys == old(rows.Keys) && rest <= rows.Keys
        invariant forall id :: id in rest ==> DueForDns(old(rows)[id])
        invariant forall id :: id in rows ==>
          StateOf(id) == if id in rest then old(StateOf(id)) else Step(old(StateOf(id)), Check(now, matches[id]))
        decreases |rest|
      {
        var id :| id in rest;
        RunDnsCheckOnce(id, matches[id]);
        rest := rest - {id};
      }
    }

    /** One pass of the TLS monitor over the issuing and active domains, in any order. */
    method RunSslPass(devMode: bool, good: map<string, bool>, now: int)
      requires rows.Keys <= good.Keys
      modifies this
      ensures rows.Keys == old(rows.Keys)
      ensures forall id :: id in rows ==>
        StateOf(id) == Step(old(StateOf(id)), if devMode then DevPass(now) else Handshake(now, good[id]))
    {
      var rest := set id | id in rows && Monitored(rows[id]);
      while rest != {}
        invariant rows.Keys == old(rows.Keys) && rest <= rows.Keys
        invariant forall id :: id in rest ==> Monitored(old(rows)[id])
        invariant forall id :: id in rows ==>
          StateOf(id) == if id in rest then old(StateOf(id))
                         else Step(old(StateOf(id)), if devMode then DevPass(now) else Handshake(now, good[id]))
        decreases |rest|
      {
        var id :| id in rest;
        if devMode {
          HandleDevMode(id, now);
        } else {
          HandleProdMode(id, good[id], now);
        }
        rest := rest - {id};
      }
    }
  }
}
