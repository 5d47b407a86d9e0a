/** Pending second-factor challenges under concurrent verification. A call of VerifyChallenge is two
    critical sections, with the check of the code in between; sections of any number of calls
    interleave freely with creations and clean-up passes. */
module Challenge {

  /** Five minutes, in nanoseconds; the fifth wrong code ends a challenge. */
  const TTL: int := 300_000_000_000
  const MAX_ATTEMPTS: nat := 5

  datatype Challenge = Challenge(user: string, expires: int, attempts: nat)
  type Items = map<string, Challenge>

  datatype Error = NotFound | Expired | Exhausted
  datatype Result = Ok(c: Challenge) | Err(error: Error)

  function Get(items: Items, id: string, now: int): (Items, Result) {
    if id !in items then (items, Err(NotFound))
    else if now > items[id].expires then (items - {id}, Err(Expired))
    else (items, Ok(items[id]))
  }

  function IncrementAttempts(items: Items, id: string, now: int): (Items, Result) {
    if id !in items then (items, Err(NotFound))
    else if now > items[id].expires then (items - {id}, Err(Expired))
    else
      var c := items[id].(attempts := items[id].attempts + 1);
      if c.attempts >= MAX_ATTEMPTS then (items - {id}, Err(Exhausted)) else (items[id := c], Ok(c))
  }

  function Consume(items: Items, id: string, now: int): (Items, Result) {
    if id !in items then (items, Err(NotFound))
    else (items - {id}, if now > items[id].expires then Err(Expired) else Ok(items[id]))
  }

  function Swept(items: Items, now: int): Items {
    map id | id in items && !(now > items[id].expires) :: items[id]
  }

  // ---------------------------------------------------------------------------
  // Runs
  // ---------------------------------------------------------------------------

  /** What the check of a code found: right, wrong, or it could not tell. */
  datatype Verdict = Right | Wrong | Fault

  /** A step, with the time at which it happens. A call keeps the id it was given and the user
      that Get returned. */
  datatype Event =
    | Create(at: int, id: string, user: string)
    | Begin(at: int, call: nat, id: string)
    | End(at: int, call: nat, verdict: Verdict)
    | Cleanup(at: int)

  datatype Pending = Pending(id: string, user: string)

  datatype Reply =
    | Nothing
    | Admitted
    | Granted(id: string, user: string)
    | Counted(id: string, last: bool)
    | Denied

  datatype State = State(items: Items, calls: map<nat, Pending>)

  function Step(s: State, e: Event): (State, Reply) {
    match e
    case Create(at, id, user) => (s.(items := s.items[id := Challenge(user, at + TTL, 0)]), Nothing)
    case Cleanup(at) => (s.(items := Swept(s.items, at)), Nothing)
    case Begin(at, call, id) =>
      var (items, r) := Get(s.items, id, at);
      if r.Ok? then (State(items, s.calls[call := Pending(id, r.c.user)]), Admitted)
      else (State(items, s.calls - {call}), Denied)
    case End(at, call, verdict) =>
      if call !in s.calls then (s, Nothing)
      else
        var p, calls := s.calls[call], s.calls - {call};
        match verdict
        case Fault => (s.(calls := calls), Denied)
        case Wrong =>
          var (items, r) := IncrementAttempts(s.items, p.id, at);
          (State(items, calls), if r.Ok? || r.error.Exhausted? then Counted(p.id, r.Err?) else Denied)
        case Right =>
          var (items, r) := Consume(s.items, p.id, at);
          (State(items, calls), if r.Ok? then Granted(p.id, p.user) else Denied)
  }

  function Run(es: seq<Event>): State {
    if es == [] then State(map[], map[]) else Step(Run(es[..|es| - 1]), es[|es| - 1]).0
  }

  /** The reply to step `i`. */
  function ReplyAt(es: seq<Event>, i: nat): Reply
    requires i < |es|
  {
    Step(Run(es[..i]), es[i]).1
  }

  /** Time does not run backwards and ids are never handed out twice. */
  ghost predicate Realistic(es: seq<Event>) {
    && (forall i, j :: 0 <= i < j < |es| ==> es[i].at <= es[j].at)
    && (forall i, j :: 0 <= i < j < |es| && es[i].Create? && es[j].Create? ==> es[i].id != es[j].id)
  }

  // ---------------------------------------------------------------------------
  // The reference: a ledger that forgets nothing
  // ---------------------------------------------------------------------------

  datatype Entry = Entry(user: string, expires: int, wrong: nat, used: bool)
  {
    predicate Live(now: int) { !used && wrong < MAX_ATTEMPTS && now <= expires }
  }

  datatype Ledger = Ledger(entries: map<string, Entry>, calls: map<nat, Pending>)
  {
    predicate Live(id: string, now: int) { id in entries && entries[id].Live(now) }
  }

  /** A challenge admits, counts and grants exactly while it is unused, has fewer than five wrong
      codes against it and has not expired. */
  function LedgerStep(l: Ledger, e: Event): (Ledger, Reply) {
    match e
    case Create(at, id, user) => (l.(entries := l.entries[id := Entry(user, at + TTL, 0, false)]), Nothing)
    case Cleanup(at) => (l, Nothing)
    case Begin(at, call, id) =>
      if l.Live(id, at) then (l.(calls := l.calls[call := Pending(id, l.entries[id].user)]), Admitted)
      else (l.(calls := l.calls - {call}), Denied)
    case End(at, call, verdict) =>
      if call !in l.calls then (l, Nothing)
      else
        var id, calls := l.calls[call].id, l.calls - {call};
        if verdict.Fault? || !l.Live(id, at) then (l.(calls := calls), Denied)
        else
          var x := l.entries[id];
          if verdict.Right? then (Ledger(l.entries[id := x.(used := true)], calls), Granted(id, x.user))
          else (Ledger(l.entries[id := x.(wrong := x.wrong + 1)], calls), Counted(id, x.wrong + 1 == MAX_ATTEMPTS))
  }

  function LedgerRun(es: seq<Event>): Ledger {
    if es == [] then Ledger(map[], map[]) else LedgerStep(LedgerRun(es[..|es| - 1]), es[|es| - 1]).0
  }

  /** The store holds every live challenge of the ledger, and nothing the ledger has closed. */
  ghost predicate Matches(s: State, l: Ledger, now: int) {
    && s.calls == l.calls
    && (forall c :: c in l.calls ==> l.calls[c].id in l.entries && l.calls[c].user == l.entries[l.calls[c].id].user)
    && (forall id :: id in s.items ==>
          && id in l.entries && !l.entries[id].used && l.entries[id].wrong < MAX_ATTEMPTS
          && s.items[id] == Challenge(l.entries[id].user, l.entries[id].expires, l.entries[id].wrong))
    && (forall id :: l.Live(id, now) ==> id in s.items)
  }

  lemma StepMatches(s: State, l: Ledger, now: int, e: Event)
    requires Matches(s, l, now) && now <= e.at && (e.Create? ==> e.id !in l.entries)
    ensures Matches(Step(s, e).0, LedgerStep(l, e).0, e.at) && Step(s, e).1 == LedgerStep(l, e).1
  {
    LaterMatches(s, l, now, e.at);
    if e.End? {
      EndMatches(s, l, e);
    } else if e.Begin? {
      BeginMatches(s, l, e);
    } else {
      OtherMatches(s, l, e);
    }
  }

  lemma LaterMatches(s: State, l: Ledger, now: int, later: int)
    requires Matches(s, l, now) && now <= later
    ensures Matches(s, l, later)
  {
    assert forall id :: l.Live(id, later) ==> l.Live(id, now);
  }

  lemma OtherMatches(s: State, l: Ledger, e: Event)
    requires Matches(s, l, e.at) && (e.Create? || e.Cleanup?) && (e.Create? ==> e.id !in l.entries)
    ensures Matches(Step(s, e).0, LedgerStep(l, e).0, e.at) && Step(s, e).1 == LedgerStep(l, e).1
  {
    if e.Create? {
      var l' := LedgerStep(l, e).0;
      assert forall id :: id != e.id ==> (l'.Live(id, e.at) <==> l.Live(id, e.at));
    }
  }

  lemma BeginMatches(s: State, l: Ledger, e: Event)
    requires Matches(s, l, e.at) && e.Begin?
    ensures Matches(Step(s, e).0, LedgerStep(l, e).0, e.at) && Step(s, e).1 == LedgerStep(l, e).1
  {
    InStoreIffLive(s, l, e.at, e.id);
    var (s', l') := (Step(s, e).0, LedgerStep(l, e).0);
    assert s'.items == s.items || s'.items == s.items - {e.id};
    assert forall id :: l'.Live(id, e.at) <==> l.Live(id, e.at);
  }

  lemma InStoreIffLive(s: State, l: Ledger, now: int, id: string)
    requires Matches(s, l, now)
    ensures l.Live(id, now) <==> id in s.items && now <= s.items[id].expires
  {
  }

  lemma EndMatches(s: State, l: Ledger, e: Event)
    requires Matches(s, l, e.at) && e.End?
    ensures Matches(Step(s, e).0, LedgerStep(l, e).0, e.at) && Step(s, e).1 == LedgerStep(l, e).1
  {
    if e.call in l.calls && e.verdict.Right? {
      RightMatches(s, l, e);
    } else if e.call in l.calls && e.verdict.Wrong? {
      WrongMatches(s, l, e);
    }
  }

  lemma RightMatches(s: State, l: Ledger, e: Event)
    requires Matches(s, l, e.at) && e.End? && e.call in l.calls && e.verdict.Right?
    ensures Matches(Step(s, e).0, LedgerStep(l, e).0, e.at) && Step(s, e).1 == LedgerStep(l, e).1
  {
    var id := l.calls[e.call].id;
    InStoreIffLive(s, l, e.at, id);
    OnlyThis(l, LedgerStep(l, e).0, id, e.at);
  }

  lemma WrongMatches(s: State, l: Ledger, e: Event)
    requires Matches(s, l, e.at) && e.End? && e.call in l.calls && e.verdict.Wrong?
    ensures Matches(Step(s, e).0, LedgerStep(l, e).0, e.at) && Step(s, e).1 == LedgerStep(l, e).1
  {
    var id := l.calls[e.call].id;
    InStoreIffLive(s, l, e.at, id);
    OnlyThis(l, LedgerStep(l, e).0, id, e.at);
  }

  lemma OnlyThis(l: Ledger, l': Ledger, id: string, now: int)
    ensures forall x :: x != id && l'.entries - {id} == l.entries - {id} ==> (l'.Live(x, now) <==> l.Live(x, now))
  {
    if l'.entries - {id} == l.entries - {id} {
      forall x | x != id ensures l'.Live(x, now) <==> l.Live(x, now) {
        assert x in l'.entries <==> x in l'.entries - {id};
        assert x in l.entries <==> x in l.entries - {id};
      }
    }
  }

  ghost function Clock(es: seq<Event>): int
    requires es != []
  {
    es[|es| - 1].at
  }

  lemma {:induction false} RunMatches(es: seq<Event>)
    requires Realistic(es)
    ensures es == [] ==> Matches(Run(es), LedgerRun(es), 0)
    ensures es != [] ==> Matches(Run(es), LedgerRun(es), Clock(es))
    ensures forall id :: id in LedgerRun(es).entries <==> exists i :: 0 <= i < |es| && es[i].Create? && es[i].id == id
  {
    if es != [] {
      var front, e := es[..|es| - 1], es[|es| - 1];
      RunMatches(front);
      hide Matches, Step, LedgerStep;
      if front == [] {
        EmptyMatches(e.at);
      }
      StepMatches(Run(front), LedgerRun(front), if front == [] then e.at else Clock(front), e);
      EntriesGrow(LedgerRun(front), e);
      forall id
        ensures id in LedgerRun(es).entries <==> exists i :: 0 <= i < |es| && es[i].Create? && es[i].id == id
      {
        assert forall i :: 0 <= i < |front| ==> front[i] == es[i];
        assert e.Create? && e.id == id ==> es[|es| - 1].Create? && es[|es| - 1].id == id;
      }
    }
  }

  lemma EmptyMatches(now: int)
    ensures Matches(Run([]), LedgerRun([]), now)
  {
  }

  lemma EntriesGrow(l: Ledger, e: Event)
    requires forall c :: c in l.calls ==> l.calls[c].id in l.entries
    ensures LedgerStep(l, e).0.entries.Keys == l.entries.Keys + (if e.Create? then {e.id} else {})
  {
  }

  // ---------------------------------------------------------------------------
  // What every run keeps
  // ---------------------------------------------------------------------------

  /** How often challenge `id` was granted, and how many wrong codes were counted against it. */
  function Grants(es: seq<Event>, id: string): nat {
    if es == [] then 0
    else
      var r := ReplyAt(es, |es| - 1);
      Grants(es[..|es| - 1], id) + if r.Granted? && r.id == id then 1 else 0
  }

  function Misses(es: seq<Event>, id: string): nat {
    if es == [] then 0
    else
      var r := ReplyAt(es, |es| - 1);
      Misses(es[..|es| - 1], id) + if r.Counted? && r.id == id then 1 else 0
  }

  lemma RealisticPrefix(es: seq<Event>, n: nat)
    requires Realistic(es) && n <= |es|
    ensures Realistic(es[..n])
  {
  }

  /** One more step of a run: both forms give the same reply. */
  lemma LastReply(es: seq<Event>)
    requires Realistic(es) && es != []
    ensures var front, e := es[..|es| - 1], es[|es| - 1];
      && LedgerStep(LedgerRun(front), e) == (LedgerRun(es), ReplyAt(es, |es| - 1))
      && (e.Create? ==> e.id !in LedgerRun(front).entries)
  {
    var front, e := es[..|es| - 1], es[|es| - 1];
    RealisticPrefix(es, |es| - 1);
    RunMatches(front);
    hide Matches, Step, LedgerStep;
    if front == [] {
      EmptyMatches(e.at);
    }
    StepMatches(Run(front), LedgerRun(front), if front == [] then e.at else Clock(front), e);
  }

  /** The ledger's entry is what the replies so far say. */
  lemma {:induction false} EntryByHistory(es: seq<Event>, id: string)
    requires Realistic(es)
    ensures var entries := LedgerRun(es).entries;
      if id in entries
      then entries[id].wrong == Misses(es, id) <= MAX_ATTEMPTS && Grants(es, id) == if entries[id].used then 1 else 0
      else Misses(es, id) == 0 && Grants(es, id) == 0
  {
    if es != [] {
      var front := es[..|es| - 1];
      RealisticPrefix(es, |es| - 1);
      EntryByHistory(front, id);
      LastReply(es);
      hide Realistic, Step, Run;
      EntryStep(LedgerRun(front), es[|es| - 1], id);
    }
  }

  lemma EntryStep(l: Ledger, e: Event, id: string)
    requires e.Create? ==> e.id !in l.entries
    ensures var (l', r) := LedgerStep(l, e);
      var (x, x') := (if id in l.entries then l.entries[id]
        else Entry("", 0, 0, false), if id in l'.entries then l'.entries[id] else Entry("", 0, 0, false));
      && (id in l.entries ==> id in l'.entries && x'.user == x.user && x'.expires == x.expires)
      && x'.wrong == x.wrong + (if r.Counted? && r.id == id then 1 else 0)
      && (r.Counted? && r.id == id ==> x.wrong < MAX_ATTEMPTS)
      && (x'.used <==> x.used || (r.Granted? && r.id == id))
      && (r.Granted? && r.id == id ==> !x.used)
  {
  }

  /** Its user and expiry are those of its creation. */
  lemma {:induction false} EntryByCreation(es: seq<Event>, k: nat)
    requires Realistic(es) && k < |es| && es[k].Create?
    ensures var entries := LedgerRun(es).entries;
      es[k].id in entries && entries[es[k].id].user == es[k].user && entries[es[k].id].expires == es[k].at + TTL
  {
    RealisticPrefix(es, |es| - 1);
    LastReply(es);
    var front := es[..|es| - 1];
    if k < |front| {
      EntryByCreation(front, k);
      assert front[k] == es[k];
      hide Realistic, Step, Run;
      EntryStep(LedgerRun(front), es[|es| - 1], es[k].id);
    }
  }

  /** Under any interleaving, a challenge is granted at most once and at most five wrong codes are
      counted against it. */
  lemma OnceAndAtMostFive(es: seq<Event>, id: string)
    requires Realistic(es)
    ensures Grants(es, id) <= 1 && Misses(es, id) <= 5
  {
    EntryByHistory(es, id);
  }

  /** A call in progress belongs to a challenge that was created, and to that challenge's user. */
  lemma PendingWasCreated(es: seq<Event>, call: nat) returns (k: nat)
    requires Realistic(es) && call in Run(es).calls
    ensures k < |es| && es[k].Create? && es[k].id == Run(es).calls[call].id && es[k].user == Run(es).calls[call].user
  {
    RunMatches(es);
    assert Run(es).calls[call].id in LedgerRun(es).entries;
    k :| 0 <= k < |es| && es[k].Create? && es[k].id == Run(es).calls[call].id;
    EntryByCreation(es, k);
  }

  /** Event `j` starts or ends call `call`. */
  predicate Concerns(e: Event, call: nat) { (e.Begin? || e.End?) && e.call == call }

  /** Event `b` is the admission of the call that is now in progress under that number. */
  ghost predicate Opened(es: seq<Event>, b: nat, call: nat)
    requires b < |es|
  {
    && es[b].Begin? && es[b].call == call && ReplyAt(es, b) == Admitted
    && forall j :: b < j < |es| ==> !Concerns(es[j], call)
  }

  /** A call is in progress exactly if it was admitted and nothing has ended or restarted it since, and
      it carries the id it was admitted with; so a call that has ended has no second end. */
  lemma {:induction false} InProgressIff(es: seq<Event>, call: nat)
    ensures call in Run(es).calls <==> exists b :: 0 <= b < |es| && Opened(es, b, call)
    ensures forall b :: 0 <= b < |es| && Opened(es, b, call) ==>
      call in Run(es).calls && Run(es).calls[call].id == es[b].id
  {
    if es != [] {
      var n := |es| - 1;
      var front, e := es[..n], es[n];
      InProgressIff(front, call);
      forall b | 0 <= b < n
        ensures Opened(es, b, call) <==> Opened(front, b, call) && !Concerns(e, call)
      {
        OpenedLonger(es, b, call);
      }
      CallStep(Run(front), e, call);
      assert Opened(es, n, call) <==> e.Begin? && e.call == call && ReplyAt(es, n) == Admitted;
      hide Step, Opened, ReplyAt;
      if call in Run(es).calls && !Concerns(e, call) {
        var b :| 0 <= b < |front| && Opened(front, b, call);
        assert Opened(es, b, call) && front[b] == es[b];
      }
      forall b | 0 <= b < |es| && Opened(es, b, call)
        ensures call in Run(es).calls && Run(es).calls[call].id == es[b].id
      {
        if b < n {
          assert Opened(front, b, call) && front[b] == es[b];
        }
      }
    }
  }

  lemma OpenedLonger(es: seq<Event>, b: nat, call: nat)
    requires b < |es| - 1
    ensures Opened(es, b, call) <==> Opened(es[..|es| - 1], b, call) && !Concerns(es[|es| - 1], call)
  {
    var front := es[..|es| - 1];
    assert front[..b] == es[..b] && front[b] == es[b];
    assert forall j :: 0 <= j < |front| ==> front[j] == es[j];
    hide Step, Run;
  }

  lemma CallStep(s: State, e: Event, call: nat)
    ensures var (s', reply) := Step(s, e);
      && (!Concerns(e, call) ==>
          (call in s'.calls <==> call in s.calls) && (call in s.calls ==> s'.calls[call] == s.calls[call]))
      && (Concerns(e, call) ==> (call in s'.calls <==> e.Begin? && reply == Admitted))
      && (e.Begin? && e.call == call && reply == Admitted ==> s'.calls[call].id == e.id)
  {
  }

  /** Challenge `es[k]` still stands at time `now`, after the run `es`. */
  ghost predicate Stands(es: seq<Event>, k: nat, now: int)
    requires k < |es| && es[k].Create?
  {
    Grants(es, es[k].id) == 0 && Misses(es, es[k].id) < 5 && now <= es[k].at + 300_000_000_000
  }

  /** Exactly when a call that ends is granted, and when a wrong code is counted: while the challenge
      has not been granted, has fewer than five wrong codes and has not expired. Evictions and
      clean-up passes never show. */
  lemma EndsIff(es: seq<Event>, k: nat, e: Event)
    requires Realistic(es + [e]) && k < |es| && es[k].Create?
    requires e.End? && e.call in Run(es).calls && Run(es).calls[e.call].id == es[k].id
    ensures ReplyAt(es + [e], |es|) ==
      if e.verdict.Fault? || !Stands(es, k, e.at) then Denied
      else if e.verdict.Right? then Granted(es[k].id, es[k].user)
      else Counted(es[k].id, Misses(es, es[k].id) + 1 == 5)
  {
    var all := es + [e];
    assert all[..|es|] == es && all[..|all| - 1] == es;
    LastReply(all);
    RealisticPrefix(all, |es|);
    SameCalls(es);
    EntryByCreation(es, k);
    EntryByHistory(es, es[k].id);
    hide Realistic, Step, Run, LedgerRun, Grants, Misses;
  }

  lemma SameCalls(es: seq<Event>)
    requires Realistic(es)
    ensures Run(es).calls == LedgerRun(es).calls
  {
    RunMatches(es);
  }

  /** So does admission of a new call. */
  lemma AdmittedIff(es: seq<Event>, e: Event)
    requires Realistic(es + [e]) && e.Begin?
    ensures ReplyAt(es + [e], |es|) == Admitted <==>
            exists k :: 0 <= k < |es| && es[k].Create? && es[k].id == e.id && Stands(es, k, e.at)
  {
    var all := es + [e];
    assert all[..|es|] == es && all[..|all| - 1] == es;
    LastReply(all);
    RealisticPrefix(all, |es|);
    RunMatches(es);
    EntryByHistory(es, e.id);
    hide Realistic, Step, Run, LedgerRun, Grants, Misses, Matches;
    forall k | 0 <= k < |es| && es[k].Create? && es[k].id == e.id
      ensures Stands(es, k, e.at) <==> LedgerRun(es).Live(e.id, e.at)
    {
      EntryByCreation(es, k);
    }
    if LedgerRun(es).Live(e.id, e.at) {
      var k :| 0 <= k < |es| && es[k].Create? && es[k].id == e.id;
      assert Stands(es, k, e.at);
    }
  }

  // ---------------------------------------------------------------------------
  // The store
  // ---------------------------------------------------------------------------

  class ChallengeStore {
    var items: Items

    constructor ()
      ensures items == map[]
    {
      items := map[];
    }

    method CreateChallenge(id: string, user: string, now: int)
      modifies this
      ensures items == Step(State(old(items), map[]), Create(now, id, user)).0.items
    {
      items := items[id := Challenge(user, now + TTL, 0)];
    }

    method GetChallenge(id: string, now: int) returns (r: Result)
      modifies this
      ensures (items, r) == Get(old(items), id, now)
      ensures r == Err(NotFound) <==> id !in old(items)
      ensures r == Err(Expired) <==> id in old(items) && now > old(items)[id].expires
    {
      if id !in items {
        return Err(NotFound);
      }
      var c := items[id];
      if now > c.expires {
        items := items - {id};
        return Err(Expired);
      }
      return Ok(c);
    }

    method CountAttempt(id: string, now: int) returns (r: Result)
      modifies this
      ensures (items, r) == IncrementAttempts(old(items), id, now)
      ensures r == Err(NotFound) <==> id !in old(items)
      ensures r == Err(Expired) <==> id in old(items) && now > old(items)[id].expires
      ensures r == Err(Exhausted) <==>
        id in old(items) && now <= old(items)[id].expires && old(items)[id].attempts >= 4
    {
      if id !in items {
        return Err(NotFound);
      }
      var c := items[id];
      if now > c.expires {
        items := items - {id};
        return Err(Expired);
      }
      c := c.(attempts := c.attempts + 1);
      items := items[id := c];
      if c.attempts >= MAX_ATTEMPTS {
        items := items - {id};
        assert items == old(items) - {id};
        return Err(Exhausted);
      }
      return Ok(c);
    }

    method ConsumeChallenge(id: string, now: int) returns (r: Result)
      modifies this
      ensures (items, r) == Consume(old(items), id, now)
      ensures r == Err(NotFound) <==> id !in old(items)
      ensures r == Err(Expired) <==> id in old(items) && now > old(items)[id].expires
    {
      if id !in items {
        return Err(NotFound);
      }
      var c := items[id];
      items := items - {id};
      if now > c.expires {
        return Err(Expired);
      }
      return Ok(c);
    }

    method CleanupPass(now: int)
      modifies this
      ensures items == Swept(old(items), now)
    {
      var rest := items.Keys;
      ghost var was := items;
      while rest != {}
        invariant rest <= was.Keys
        invariant items == map id | id in was && (id in rest || !(now > was[id].expires)) :: was[id]
        decreases |rest|
      {
        var id :| id in rest;
        rest := rest - {id};
        if now > items[id].expires {
          items := items - {id};
        }
      }
    }

    /** VerifyChallenge run on its own: its two sections are the two steps. */
    method VerifyChallenge(id: string, verdict: Verdict, got: int, ended: int) returns (user: string, reply: Reply)
      modifies this
      ensures var s1 := Step(State(old(items), map[]), Begin(got, 0, id));
        if s1.1.Denied? then items == s1.0.items && reply == Denied
        else items == Step(s1.0, End(ended, 0, verdict)).0.items && reply == Step(s1.0, End(ended, 0, verdict)).1
      ensures reply.Granted? ==> id in old(items) && user == old(items)[id].user == reply.user && id !in items
    {
      var r := GetChallenge(id, got);
      if r.Err? {
        return "", Denied;
      }
      var c := r.c;
      match verdict
      case Fault =>
        return "", Denied;
      case Wrong =>
        r := CountAttempt(id, ended);
        return "", if r.Ok? || r.error.Exhausted? then Counted(id, r.Err?) else Denied;
      case Right =>
        r := ConsumeChallenge(id, ended);
        if r.Err? {
          return "", Denied;
        }
        return c.user, Granted(id, c.user);
    }
  }
}
