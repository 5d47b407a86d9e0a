/** Token buckets per client with lazy refill and a cleanup that forgets idle clients.
    Times are nanoseconds from a clock that never goes back; float64 is read as real. */
module RateLimit {

  const MINUTE: int := 60_000_000_000

  /** The two limiters differ in their constants and in what spends a token. */
  datatype Kind = Login | Refresh
  {
    function Burst(): real { if Login? then 5.0 else 30.0 }
    function Window(): int { if Login? then 15 * MINUTE else MINUTE }
    function CleanupTTL(): int { if Login? then 30 * MINUTE else 5 * MINUTE }
    /** Tokens earned in `elapsed` nanoseconds. */
    function Earned(elapsed: int): real { Burst() * (elapsed as real / Window() as real) }
  }

  datatype Bucket = Bucket(tokens: real, lastSeen: int)

  type Buckets = map<string, Bucket>

  function Min(a: real, b: real): real { if a <= b then a else b }

  /** The tokens a call by `ip` at time `now` finds: a client without a bucket finds a full one. */
  function Available(k: Kind, bs: Buckets, ip: string, now: int): real {
    if ip !in bs then k.Burst()
    else if now - bs[ip].lastSeen > 0 then Min(k.Burst(), bs[ip].tokens + k.Earned(now - bs[ip].lastSeen))
    else bs[ip].tokens
  }

  function Refilled(k: Kind, bs: Buckets, ip: string, now: int): Buckets {
    bs[ip := Bucket(Available(k, bs, ip, now), now)]
  }

  /** What a call does: a login check spends nothing, a counted failure and a refresh spend one. */
  datatype Op = Check(ip: string) | Failure(ip: string) | Spend(ip: string) | Cleanup

  function Apply(k: Kind, bs: Buckets, op: Op, now: int): Buckets {
    match op
    case Check(ip) => Refilled(k, bs, ip, now)
    case Failure(ip) =>
      var t := Available(k, bs, ip, now) - 1.0;
      bs[ip := Bucket(if t < 0.0 then 0.0 else t, now)]
    case Spend(ip) =>
      var t := Available(k, bs, ip, now);
      bs[ip := Bucket(if t < 1.0 then t else t - 1.0, now)]
    case Cleanup => Evicted(k, bs, now)
  }

  function Evicted(k: Kind, bs: Buckets, now: int): Buckets {
    map ip | ip in bs && !(bs[ip].lastSeen < now - k.CleanupTTL()) :: bs[ip]
  }

  /** Whether a call is let through. */
  predicate Answer(k: Kind, bs: Buckets, op: Op, now: int) {
    match op
    case Check(ip) => Available(k, bs, ip, now) >= 1.0
    case Spend(ip) => Available(k, bs, ip, now) >= 1.0
    case _ => true
  }

  // ---------------------------------------------------------------------------
  // Runs
  // ---------------------------------------------------------------------------

  datatype Event = Event(op: Op, at: int)

  ghost predicate Ordered(es: seq<Event>) {
    forall i, j :: 0 <= i <= j < |es| ==> es[i].at <= es[j].at
  }

  /** The buckets after the first `n` events. */
  function After(k: Kind, es: seq<Event>, n: nat): Buckets
    requires n <= |es|
  {
    if n == 0 then map[] else Apply(k, After(k, es, n - 1), es[n - 1].op, es[n - 1].at)
  }

  /** Every bucket is within bounds and was last seen no later than `now`. */
  ghost predicate Valid(k: Kind, bs: Buckets, now: int) {
    forall ip :: ip in bs ==> 0.0 <= bs[ip].tokens <= k.Burst() && bs[ip].lastSeen <= now
  }

  lemma EarnedFacts(k: Kind, d: int, e: int)
    requires d >= 0 && e >= 0
    ensures k.Earned(d) >= 0.0
    ensures k.Earned(d + e) == k.Earned(d) + k.Earned(e)
    ensures d >= k.Window() ==> k.Earned(d) >= k.Burst()
  {
  }

  lemma AvailableBounds(k: Kind, bs: Buckets, ip: string, now: int)
    requires Valid(k, bs, now)
    ensures 0.0 <= Available(k, bs, ip, now) <= k.Burst()
  {
    if ip in bs {
      EarnedFacts(k, now - bs[ip].lastSeen, 0);
    }
  }

  lemma ApplyKeepsValid(k: Kind, bs: Buckets, op: Op, now: int)
    requires Valid(k, bs, now)
    ensures Valid(k, Apply(k, bs, op, now), now)
  {
    if !op.Cleanup? {
      AvailableBounds(k, bs, op.ip, now);
    }
  }

  /** Tokens stay within [0, burst] on every run. */
  lemma {:induction false} TokensStayInBounds(k: Kind, es: seq<Event>, n: nat)
    requires Ordered(es) && n <= |es|
    ensures forall now :: (n > 0 ==> now >= es[n - 1].at) ==> Valid(k, After(k, es, n), now)
  {
    if n > 0 {
      TokensStayInBounds(k, es, n - 1);
      var bs := After(k, es, n - 1);
      assert n > 1 ==> es[n - 1].at >= es[n - 2].at;
      assert Valid(k, bs, es[n - 1].at);
      ApplyKeepsValid(k, bs, es[n - 1].op, es[n - 1].at);
    }
  }

  // ---------------------------------------------------------------------------
  // Eviction is unobservable
  // ---------------------------------------------------------------------------

  /** Two limiters no call from `now` on can tell apart. */
  ghost predicate Same(k: Kind, a: Buckets, b: Buckets, now: int) {
    forall ip, t :: t >= now ==> Available(k, a, ip, t) == Available(k, b, ip, t)
  }

  lemma EvictionInvisible(k: Kind, bs: Buckets, now: int)
    requires Valid(k, bs, now)
    ensures Same(k, Evicted(k, bs, now), bs, now)
  {
    forall ip, t | t >= now
      ensures Available(k, Evicted(k, bs, now), ip, t) == Available(k, bs, ip, t)
    {
      if ip in bs && ip !in Evicted(k, bs, now) {
        EarnedFacts(k, t - bs[ip].lastSeen, 0);
      }
    }
  }

  lemma ApplyKeepsSame(k: Kind, a: Buckets, b: Buckets, op: Op, now: int)
    requires Same(k, a, b, now) && !op.Cleanup?
    ensures Same(k, Apply(k, a, op, now), Apply(k, b, op, now), now)
    ensures Answer(k, a, op, now) == Answer(k, b, op, now)
  {
    var a', b' := Apply(k, a, op, now), Apply(k, b, op, now);
    assert Available(k, a, op.ip, now) == Available(k, b, op.ip, now);
    forall ip, t | t >= now
      ensures Available(k, a', ip, t) == Available(k, b', ip, t)
    {
      if ip != op.ip {
        assert Available(k, a, ip, t) == Available(k, b, ip, t);
      }
    }
  }

  /** The same run on a limiter that never forgets a client. */
  function Keeping(k: Kind, es: seq<Event>, n: nat): Buckets
    requires n <= |es|
  {
    if n == 0 then map[]
    else if es[n - 1].op.Cleanup? then Keeping(k, es, n - 1)
    else Apply(k, Keeping(k, es, n - 1), es[n - 1].op, es[n - 1].at)
  }

  lemma {:induction false} KeepingSimulates(k: Kind, es: seq<Event>, n: nat, now: int)
    requires Ordered(es) && n <= |es| && (n > 0 ==> now >= es[n - 1].at)
    ensures Same(k, After(k, es, n), Keeping(k, es, n), now)
  {
    if n > 0 {
      var e := es[n - 1];
      assert n > 1 ==> es[n - 2].at <= e.at;
      KeepingSimulates(k, es, n - 1, e.at);
      TokensStayInBounds(k, es, n - 1);
      if e.op.Cleanup? {
        EvictionInvisible(k, After(k, es, n - 1), e.at);
      } else {
        ApplyKeepsSame(k, After(k, es, n - 1), Keeping(k, es, n - 1), e.op, e.at);
      }
    }
  }

  /** Wherever cleanups fall in a run, every call gets the answer it would get from a limiter
      that never evicts. */
  lemma EvictionUnobservable(k: Kind, es: seq<Event>, n: nat)
    requires Ordered(es) && n < |es|
    ensures Answer(k, After(k, es, n), es[n].op, es[n].at) == Answer(k, Keeping(k, es, n), es[n].op, es[n].at)
  {
    assert n > 0 ==> es[n - 1].at <= es[n].at;
    KeepingSimulates(k, es, n, es[n].at);
    if !es[n].op.Cleanup? {
      ApplyKeepsSame(k, After(k, es, n), Keeping(k, es, n), es[n].op, es[n].at);
    }
  }

  // ---------------------------------------------------------------------------
  // Admission bound
  // ---------------------------------------------------------------------------

  /** Event `n` takes a whole token from `ip`: an admitted refresh, or a failure counted while
      a token was there to pay for it. */
  predicate Funded(k: Kind, es: seq<Event>, n: nat, ip: string)
    requires n < |es|
  {
    es[n].op in {Spend(ip), Failure(ip)} && Available(k, After(k, es, n), ip, es[n].at) >= 1.0
  }

  function FundedBetween(k: Kind, es: seq<Event>, ip: string, i: nat, j: nat): nat
    requires i <= j <= |es|
  {
    if i == j then 0 else FundedBetween(k, es, ip, i, j - 1) + if Funded(k, es, j - 1, ip) then 1 else 0
  }

  lemma AvailableGrows(k: Kind, bs: Buckets, ip: string, now: int, t: int)
    requires Valid(k, bs, now) && t >= now
    ensures Available(k, bs, ip, now) <= Available(k, bs, ip, t) <= Available(k, bs, ip, now) + k.Earned(t - now)
  {
    EarnedFacts(k, t - now, 0);
    if ip in bs {
      EarnedFacts(k, now - bs[ip].lastSeen, t - now);
    }
  }

  /** One event trades at most what it takes: tokens before it, plus what time earns, cover
      the token it spends and the tokens after it. */
  lemma EventPays(k: Kind, es: seq<Event>, n: nat, ip: string, t: int)
    requires Ordered(es) && n < |es| && t >= es[n].at
    ensures (if Funded(k, es, n, ip) then 1.0 else 0.0) + Available(k, After(k, es, n + 1), ip, t)
         <= Available(k, After(k, es, n), ip, es[n].at) + k.Earned(t - es[n].at)
  {
    var bs, e := After(k, es, n), es[n];
    assert n > 0 ==> es[n - 1].at <= e.at;
    TokensStayInBounds(k, es, n);
    AvailableBounds(k, bs, ip, e.at);
    AvailableGrows(k, bs, ip, e.at, t);
    if e.op.Cleanup? {
      EvictionInvisible(k, bs, e.at);
    }
  }

  lemma {:induction false} Budget(k: Kind, es: seq<Event>, ip: string, i: nat, j: nat, t: int)
    requires Ordered(es) && i < j <= |es| && t >= es[j - 1].at
    ensures FundedBetween(k, es, ip, i, j) as real + Available(k, After(k, es, j), ip, t)
         <= k.Burst() + k.Earned(t - es[i].at)
  {
    var n := j - 1;
    var u := es[n].at;
    EventPays(k, es, n, ip, t);
    if n == i {
      assert n > 0 ==> es[n - 1].at <= u;
      TokensStayInBounds(k, es, n);
      AvailableBounds(k, After(k, es, n), ip, u);
    } else {
      Budget(k, es, ip, i, n, u);
      EarnedFacts(k, u - es[i].at, t - u);
    }
  }

  /** Over any stretch of any run, a client gets at most a burst plus what the stretch earns:
      30 + 30 d/60s refreshes, 5 + 5 d/15min paid failures. */
  lemma AdmissionBound(k: Kind, es: seq<Event>, ip: string, i: nat, j: nat)
    requires Ordered(es) && i < j <= |es|
    ensures FundedBetween(k, es, ip, i, j) as real <= k.Burst() + k.Earned(es[j - 1].at - es[i].at)
  {
    Budget(k, es, ip, i, j, es[j - 1].at);
    TokensStayInBounds(k, es, j);
    AvailableBounds(k, After(k, es, j), ip, es[j - 1].at);
  }

  /** `ip` spends nothing in events [m, n). */
  ghost predicate Quiet(es: seq<Event>, ip: string, m: nat, n: nat) {
    forall i :: m <= i < n && i < |es| ==> es[i].op != Failure(ip) && es[i].op != Spend(ip)
  }

  lemma QuietEvent(k: Kind, es: seq<Event>, ip: string, n: nat, t: int)
    requires Ordered(es) && n < |es| && Quiet(es, ip, n, n + 1) && t >= es[n].at
    ensures Available(k, After(k, es, n + 1), ip, t) >= Available(k, After(k, es, n), ip, es[n].at)
  {
    var bs, e := After(k, es, n), es[n];
    assert n > 0 ==> es[n - 1].at <= e.at;
    TokensStayInBounds(k, es, n);
    AvailableGrows(k, bs, ip, e.at, t);
    if e.op.Cleanup? {
      EvictionInvisible(k, bs, e.at);
    } else if e.op.ip == ip {
      ApplyKeepsValid(k, bs, e.op, e.at);
      AvailableGrows(k, After(k, es, n + 1), ip, e.at, t);
    }
  }

  /** Between spends a client's tokens only grow. */
  lemma {:induction false} QuietKeepsTokens(k: Kind, es: seq<Event>, ip: string, m: nat, n: nat, t0: int, t: int)
    requires Ordered(es) && m <= n <= |es| && Quiet(es, ip, m, n)
    requires (m > 0 ==> t0 >= es[m - 1].at) && (m < n ==> t0 <= es[m].at)
    requires t >= t0 && (n > 0 ==> t >= es[n - 1].at)
    ensures Available(k, After(k, es, n), ip, t) >= Available(k, After(k, es, m), ip, t0)
  {
    if n == m {
      TokensStayInBounds(k, es, n);
      AvailableGrows(k, After(k, es, n), ip, t0, t);
    } else {
      var u := es[n - 1].at;
      assert n > 1 ==> es[n - 2].at <= u;
      assert u >= es[m].at;
      QuietKeepsTokens(k, es, ip, m, n - 1, t0, u);
      QuietEvent(k, es, ip, n - 1, t);
    }
  }

  /** Failure `n` of `ip` is counted after an admitted check with no other spend in between. */
  ghost predicate CountedInTurn(k: Kind, es: seq<Event>, n: nat, ip: string)
    requires n < |es|
  {
    exists m :: 0 <= m < n && es[m].op == Check(ip) && Answer(k, After(k, es, m), es[m].op, es[m].at)
      && Quiet(es, ip, m, n)
  }

  /** A failure counted in turn always has its token. */
  lemma CountedInTurnIsFunded(k: Kind, es: seq<Event>, n: nat, ip: string)
    requires Ordered(es) && n < |es| && es[n].op == Failure(ip) && CountedInTurn(k, es, n, ip)
    ensures Funded(k, es, n, ip)
  {
    var m :| 0 <= m < n && es[m].op == Check(ip) && Answer(k, After(k, es, m), es[m].op, es[m].at)
      && Quiet(es, ip, m, n);
    assert es[m].at <= es[n].at && es[n - 1].at <= es[n].at && (m > 0 ==> es[m - 1].at <= es[m].at);
    QuietKeepsTokens(k, es, ip, m, n, es[m].at, es[n].at);
  }

  function FailuresBetween(es: seq<Event>, ip: string, i: nat, j: nat): nat
    requires i <= j <= |es|
  {
    if i == j then 0 else FailuresBetween(es, ip, i, j - 1) + if es[j - 1].op == Failure(ip) then 1 else 0
  }

  /** When each failure is counted before the next admission, at most 5 + 5 d/15min failures of
      a client are counted over any stretch of a run. */
  lemma {:induction false} LoginFailureBound(es: seq<Event>, ip: string, i: nat, j: nat)
    requires Ordered(es) && i < j <= |es|
    requires forall n :: i <= n < j && es[n].op == Failure(ip) ==> CountedInTurn(Login, es, n, ip)
    ensures FailuresBetween(es, ip, i, j) as real <= Login.Burst() + Login.Earned(es[j - 1].at - es[i].at)
  {
    FailuresAreFunded(es, ip, i, j);
    AdmissionBound(Login, es, ip, i, j);
  }

  lemma {:induction false} FailuresAreFunded(es: seq<Event>, ip: string, i: nat, j: nat)
    requires Ordered(es) && i <= j <= |es|
    requires forall n :: i <= n < j && es[n].op == Failure(ip) ==> CountedInTurn(Login, es, n, ip)
    ensures FailuresBetween(es, ip, i, j) <= FundedBetween(Login, es, ip, i, j)
  {
    if i < j {
      FailuresAreFunded(es, ip, i, j - 1);
      if es[j - 1].op == Failure(ip) {
        CountedInTurnIsFunded(Login, es, j - 1, ip);
      }
    }
  }

  // ---------------------------------------------------------------------------
  // Several logins at a time
  // ---------------------------------------------------------------------------

  predicate AdmittedCheck(es: seq<Event>, m: nat, ip: string)
    requires m < |es|
  {
    es[m].op == Check(ip) && Answer(Login, After(Login, es, m), es[m].op, es[m].at)
  }

  /** A run of the login limiter in which `check(n)` is the admitted check of the login whose
      failure is counted at `n`. */
  ghost predicate Attributed(es: seq<Event>, ip: string, check: nat -> nat) {
    && (forall n :: 0 <= n < |es| ==> !es[n].op.Spend?)
    && (forall n :: 0 <= n < |es| && es[n].op == Failure(ip) ==> check(n) < n && AdmittedCheck(es, check(n), ip))
  }

  /** The logins checked before `t` whose failures are counted in [t, k). */
  function InFlight(es: seq<Event>, ip: string, check: nat -> nat, t: nat, k: nat): nat
    requires t <= k <= |es|
  {
    if t == k then 0
    else InFlight(es, ip, check, t, k - 1) + if es[k - 1].op == Failure(ip) && check(k - 1) < t then 1 else 0
  }

  /** Never more than `c` logins of `ip` between their check and their failure. */
  ghost predicate AtMostInFlight(es: seq<Event>, ip: string, check: nat -> nat, c: nat) {
    forall t, k :: 0 <= t <= k <= |es| ==> InFlight(es, ip, check, t, k) <= c
  }

  /** Failures counted since the last admitted check. */
  function Block(es: seq<Event>, ip: string, n: nat): nat
    requires n <= |es|
  {
    if n == 0 || AdmittedCheck(es, n - 1, ip) then 0
    else Block(es, ip, n - 1) + if es[n - 1].op == Failure(ip) then 1 else 0
  }

  ghost predicate NoCheckIn(es: seq<Event>, ip: string, t: nat, n: nat)
    requires n <= |es|
  {
    forall m :: t <= m < n ==> !AdmittedCheck(es, m, ip)
  }

  /** The failures of a block were all in flight when the first of them was counted. */
  lemma {:induction false} BlockInFlight(es: seq<Event>, ip: string, check: nat -> nat, n: nat) returns (t: nat)
    requires Attributed(es, ip, check) && n <= |es|
    ensures t <= n && NoCheckIn(es, ip, t, n) && Block(es, ip, n) == InFlight(es, ip, check, t, n)
  {
    hide AdmittedCheck;
    if n == 0 || AdmittedCheck(es, n - 1, ip) {
      t := n;
    } else {
      t := BlockInFlight(es, ip, check, n - 1);
      if Block(es, ip, n - 1) == 0 {
        t := if es[n - 1].op == Failure(ip) then n - 1 else n;
      }
    }
  }

  lemma {:induction false} CheckBefore(es: seq<Event>, ip: string, n: nat, m: nat)
    requires (forall i :: 0 <= i < |es| ==> !es[i].op.Spend?) && m < n <= |es| && AdmittedCheck(es, m, ip)
      && Block(es, ip, n) == 0
    ensures exists k :: 0 <= k < n && AdmittedCheck(es, k, ip) && Quiet(es, ip, k, n)
  {
    if AdmittedCheck(es, n - 1, ip) {
      assert Quiet(es, ip, n - 1, n);
    } else {
      hide AdmittedCheck;
      CheckBefore(es, ip, n - 1, m);
      var k :| 0 <= k < n - 1 && AdmittedCheck(es, k, ip) && Quiet(es, ip, k, n - 1);
      assert Quiet(es, ip, k, n);
    }
  }

  /** The first failure after an admitted check always has its token. */
  lemma FirstIsFunded(es: seq<Event>, ip: string, check: nat -> nat, n: nat)
    requires Ordered(es) && Attributed(es, ip, check) && n < |es| && es[n].op == Failure(ip) && Block(es, ip, n) == 0
    ensures Funded(Login, es, n, ip)
  {
    CheckBefore(es, ip, n, check(n));
    CountedInTurnIsFunded(Login, es, n, ip);
  }

  /** Failures that open a block. */
  function Openings(es: seq<Event>, ip: string, i: nat, j: nat): nat
    requires i <= j <= |es|
  {
    if i == j then 0
    else Openings(es, ip, i, j - 1) + if es[j - 1].op == Failure(ip) && Block(es, ip, j - 1) == 0 then 1 else 0
  }

  lemma {:induction false} OpeningsAreFunded(es: seq<Event>, ip: string, check: nat -> nat, i: nat, j: nat)
    requires Ordered(es) && Attributed(es, ip, check) && i <= j <= |es|
    ensures Openings(es, ip, i, j) <= FundedBetween(Login, es, ip, i, j)
  {
    hide Attributed, Block, Funded;
    if i < j {
      OpeningsAreFunded(es, ip, check, i, j - 1);
      if es[j - 1].op == Failure(ip) && Block(es, ip, j - 1) == 0 {
        FirstIsFunded(es, ip, check, j - 1);
      }
    }
  }

  /** With blocks of at most `c`: each opening pays for `c` failures, and a stretch that starts inside
      a block owes the rest of that block. */
  lemma {:induction false} FailuresByBlock(es: seq<Event>, ip: string, c: nat, i: nat, j: nat)
    requires i <= j <= |es| && forall n :: 0 <= n <= |es| ==> Block(es, ip, n) <= c
    ensures var w, v := Block(es, ip, i), Block(es, ip, j);
      FailuresBetween(es, ip, i, j) + w
      <= c * Openings(es, ip, i, j) + (if v > 0 then v - c else 0) + (if w > 0 then c else 0)
    ensures c >= 1 ==> FailuresBetween(es, ip, i, j) <= c * Openings(es, ip, i, j) + c - 1
  {
    if i < j {
      FailuresByBlock(es, ip, c, i, j - 1);
      assert Block(es, ip, j - 1) <= c;
      hide AdmittedCheck;
      assert c * (Openings(es, ip, i, j - 1) + 1) == c * Openings(es, ip, i, j - 1) + c;
    }
  }

  lemma BlocksAreSmall(es: seq<Event>, ip: string, check: nat -> nat, c: nat)
    requires Attributed(es, ip, check) && AtMostInFlight(es, ip, check, c)
    ensures forall n :: 0 <= n <= |es| ==> Block(es, ip, n) <= c
  {
    forall n | 0 <= n <= |es| ensures Block(es, ip, n) <= c {
      hide Attributed, Block;
      var t := BlockInFlight(es, ip, check, n);
    }
  }

  /** With at most `c` logins of a client between check and count, at most c (5 + 5 d/15min) + c - 1
      of its failures are counted over any stretch of a run. */
  lemma ConcurrentFailureBound(es: seq<Event>, ip: string, check: nat -> nat, c: nat, i: nat, j: nat)
    requires Ordered(es) && Attributed(es, ip, check) && c >= 1 && AtMostInFlight(es, ip, check, c) && i < j <= |es|
    ensures FailuresBetween(es, ip, i, j) as real
         <= c as real * (Login.Burst() + Login.Earned(es[j - 1].at - es[i].at)) + (c - 1) as real
  {
    hide *;
    BlocksAreSmall(es, ip, check, c);
    FailuresByBlock(es, ip, c, i, j);
    OpeningsAreFunded(es, ip, check, i, j);
    AdmissionBound(Login, es, ip, i, j);
    Scaled(FailuresBetween(es, ip, i, j), c, Openings(es, ip, i, j),
      Login.Burst() + Login.Earned(es[j - 1].at - es[i].at));
  }

  lemma Scaled(f: nat, c: nat, n: nat, x: real)
    requires n as real <= x && c >= 1 && f <= c * n + c - 1
    ensures f as real <= c as real * x + (c - 1) as real
  {
    assert c as real * (x - n as real) >= 0.0;
    assert (c * n) as real == c as real * n as real;
  }

  /** `m` logins checked together, then all counted as failed, at one instant. */
  function Stampede(ip: string, m: nat): seq<Event> {
    seq(2 * m, n => Event(if n < m then Check(ip) else Failure(ip), 0))
  }

  lemma {:induction false} StampedeFailures(ip: string, m: nat, n: nat)
    requires n <= 2 * m
    ensures FailuresBetween(Stampede(ip, m), ip, 0, n) == if n < m then 0 else n - m
  {
    if n > 0 {
      StampedeFailures(ip, m, n - 1);
      assert Stampede(ip, m)[n - 1].op == if n - 1 < m then Check(ip) else Failure(ip);
    }
  }

  /** Without a limit on the logins in flight there is no bound: any number of logins checked together are all
      admitted, and all of them may fail at once. */
  lemma ConcurrentFailuresExceedBound(ip: string, m: nat)
    requires m > 5
    ensures var es := Stampede(ip, m);
      && Ordered(es)
      && (forall n: nat :: n < m ==> Answer(Login, After(Login, es, n), es[n].op, es[n].at))
      && FailuresBetween(es, ip, 0, |es|) as real > Login.Burst() + Login.Earned(es[|es| - 1].at - es[0].at)
  {
    var es := Stampede(ip, m);
    forall n: nat | n < m
      ensures Answer(Login, After(Login, es, n), es[n].op, es[n].at)
    {
      NeverRefused(es, ip, n);
    }
    StampedeFailures(ip, m, 2 * m);
  }

  /** A client that never fails is never refused a login. */
  lemma NeverRefused(es: seq<Event>, ip: string, n: nat)
    requires Ordered(es) && n < |es| && es[n].op == Check(ip) && Quiet(es, ip, 0, n)
    ensures Answer(Login, After(Login, es, n), es[n].op, es[n].at)
  {
    assert es[0].at <= es[n].at && (n > 0 ==> es[n - 1].at <= es[n].at);
    QuietKeepsTokens(Login, es, ip, 0, n, es[0].at, es[n].at);
  }

  // ---------------------------------------------------------------------------
  // Exact answers
  // ---------------------------------------------------------------------------

  /** Every failure of `ip` counted in events [s, n) found a token to take. */
  ghost predicate AllFunded(k: Kind, es: seq<Event>, ip: string, s: nat, n: nat)
    requires n <= |es|
  {
    forall j :: s <= j < n && es[j].op == Failure(ip) ==> Funded(k, es, j, ip)
  }

  /** An event spends exactly the token it takes, and what time earns then is lost only to the cap. */
  lemma EventKeeps(k: Kind, es: seq<Event>, n: nat, ip: string, t: int)
    requires Ordered(es) && n < |es| && t >= es[n].at && AllFunded(k, es, ip, n, n + 1)
    ensures var a := Available(k, After(k, es, n + 1), ip, t);
      || a == k.Burst()
      || a + (if Funded(k, es, n, ip) then 1.0 else 0.0) ==
         Available(k, After(k, es, n), ip, es[n].at) + k.Earned(t - es[n].at)
  {
    var bs, e := After(k, es, n), es[n];
    var bs' := After(k, es, n + 1);
    assert n > 0 ==> es[n - 1].at <= e.at;
    TokensStayInBounds(k, es, n);
    AvailableBounds(k, bs, ip, e.at);
    if e.op.Cleanup? {
      EvictionInvisible(k, bs, e.at);
      assert Available(k, bs', ip, t) == Available(k, bs, ip, t);
      hide Available, Kind.Earned, Kind.Burst;
      GrowsToCap(k, bs, ip, e.at, t);
    } else if e.op.ip != ip {
      assert Available(k, bs', ip, t) == Available(k, bs, ip, t);
      hide Available, Kind.Earned, Kind.Burst;
      GrowsToCap(k, bs, ip, e.at, t);
    } else {
      hide Available, Kind.Earned, Kind.Burst;
      var left := Available(k, bs, ip, e.at) - if Funded(k, es, n, ip) then 1.0 else 0.0;
      assert bs' == bs[ip := Bucket(left, e.at)];
      GrowsFrom(k, bs, ip, left, e.at, t);
    }
  }

  lemma GrowsFrom(k: Kind, bs: Buckets, ip: string, left: real, now: int, t: int)
    requires t >= now
    ensures var a := Available(k, bs[ip := Bucket(left, now)], ip, t);
      a == k.Burst() || a == left + k.Earned(t - now)
  {
    EarnedFacts(k, t - now, 0);
  }

  lemma GrowsToCap(k: Kind, bs: Buckets, ip: string, now: int, t: int)
    requires Valid(k, bs, now) && t >= now
    ensures Available(k, bs, ip, t) == k.Burst()
      || Available(k, bs, ip, t) == Available(k, bs, ip, now) + k.Earned(t - now)
  {
    EarnedFacts(k, t - now, 0);
    if ip in bs {
      EarnedFacts(k, now - bs[ip].lastSeen, t - now);
    }
  }

  /** When event `i` happens, for a caller at `t` after `n` events. */
  function At(es: seq<Event>, i: nat, n: nat, t: int): int
    requires n <= |es|
  {
    if i < n then es[i].at else t
  }

  /** The tokens after `n` events attain one of the budgets: the one left at the start, or a full
      bucket at some point since. */
  lemma {:induction false} Attained(k: Kind, es: seq<Event>, ip: string, s: nat, t0: int, n: nat, t: int)
    returns (i: int)
    requires Ordered(es) && s <= n <= |es| && AllFunded(k, es, ip, s, n)
    requires (s > 0 ==> es[s - 1].at <= t0) && t0 <= t && (s < n ==> t0 <= es[s].at && es[n - 1].at <= t)
    ensures i == -1 || s <= i <= n
    ensures i == -1 ==>
      FundedBetween(k, es, ip, s, n) as real + Available(k, After(k, es, n), ip, t)
      == Available(k, After(k, es, s), ip, t0) + k.Earned(t - t0)
    ensures i >= 0 ==>
      FundedBetween(k, es, ip, i, n) as real + Available(k, After(k, es, n), ip, t)
      == k.Burst() + k.Earned(t - At(es, i, n, t))
  {
    hide Available, After, Funded, Kind.Earned;
    EarnedFacts(k, 0, 0);
    if n == s {
      TokensStayInBounds(k, es, n);
      GrowsToCap(k, After(k, es, n), ip, t0, t);
      i := if Available(k, After(k, es, n), ip, t) == k.Burst() then n else -1;
    } else {
      var m, u := n - 1, es[n - 1].at;
      assert t0 <= u && (s < m ==> es[m - 1].at <= u);
      i := Attained(k, es, ip, s, t0, m, u);
      EventKeeps(k, es, m, ip, t);
      if Available(k, After(k, es, n), ip, t) == k.Burst() {
        i := n;
      } else {
        EarnedFacts(k, u - (if i == -1 then t0 else At(es, i, m, u)), t - u);
      }
    }
  }

  lemma {:induction false} PaysFrom(k: Kind, es: seq<Event>, ip: string, s: nat, t0: int, n: nat, t: int)
    requires Ordered(es) && s <= n <= |es|
    requires (s > 0 ==> es[s - 1].at <= t0) && t0 <= t && (s < n ==> t0 <= es[s].at && es[n - 1].at <= t)
    ensures FundedBetween(k, es, ip, s, n) as real + Available(k, After(k, es, n), ip, t)
      <= Available(k, After(k, es, s), ip, t0) + k.Earned(t - t0)
  {
    hide Available, After, Funded, Kind.Earned;
    if n == s {
      TokensStayInBounds(k, es, n);
      AvailableGrows(k, After(k, es, n), ip, t0, t);
    } else {
      var u := es[n - 1].at;
      assert t0 <= u && (s < n - 1 ==> es[n - 2].at <= u);
      PaysFrom(k, es, ip, s, t0, n - 1, u);
      EventPays(k, es, n - 1, ip, t);
      EarnedFacts(k, u - t0, t - u);
    }
  }

  lemma StartsFull(k: Kind, es: seq<Event>, ip: string, t: int)
    ensures Available(k, After(k, es, 0), ip, t) == k.Burst()
  {
  }

  lemma EarnedSpelled(d: int)
    ensures Login.Burst() == 5.0 && Login.Earned(d) == 5.0 * (d as real / 900_000_000_000.0)
    ensures Refresh.Burst() == 30.0 && Refresh.Earned(d) == 30.0 * (d as real / 60_000_000_000.0)
  {
  }

  /** A token is there exactly if every budget since `s` still has one. */
  lemma TokenIff(k: Kind, es: seq<Event>, ip: string, s: nat, t0: int, n: nat)
    requires Ordered(es) && s <= n < |es| && AllFunded(k, es, ip, s, n)
    requires (s > 0 ==> es[s - 1].at <= t0) && t0 <= es[s].at
    ensures Available(k, After(k, es, n), ip, es[n].at) >= 1.0 <==>
      && (forall i :: s <= i <= n ==>
        FundedBetween(k, es, ip, i, n) as real + 1.0 <= k.Burst() + k.Earned(es[n].at - es[i].at))
      && FundedBetween(k, es, ip, s, n) as real + 1.0
        <= Available(k, After(k, es, s), ip, t0) + k.Earned(es[n].at - t0)
  {
    hide Available, After, Funded, Kind.Earned, AllFunded;
    var t := es[n].at;
    assert t0 <= es[s].at <= t && (s < n ==> es[n - 1].at <= t);
    PaysFrom(k, es, ip, s, t0, n, t);
    forall i | s <= i <= n
      ensures FundedBetween(k, es, ip, i, n) as real + Available(k, After(k, es, n), ip, t)
        <= k.Burst() + k.Earned(t - es[i].at)
    {
      if i < n {
        Budget(k, es, ip, i, n, t);
      } else {
        EarnedFacts(k, 0, 0);
        assert n > 0 ==> es[n - 1].at <= t;
        TokensStayInBounds(k, es, n);
        AvailableBounds(k, After(k, es, n), ip, t);
      }
    }
    var i := Attained(k, es, ip, s, t0, n, t);
  }

  /** Event `n` is a refresh of `ip` that is let through. */
  predicate AdmittedRefresh(es: seq<Event>, n: nat, ip: string)
    requires n < |es|
  {
    es[n].op == Spend(ip) && Answer(Refresh, After(Refresh, es, n), es[n].op, es[n].at)
  }

  function RefreshesBetween(es: seq<Event>, ip: string, i: nat, j: nat): nat
    requires i <= j <= |es|
  {
    if i == j then 0 else RefreshesBetween(es, ip, i, j - 1) + if AdmittedRefresh(es, j - 1, ip) then 1 else 0
  }

  lemma {:induction false} RefreshesAreFunded(es: seq<Event>, ip: string, i: nat, j: nat)
    requires i <= j <= |es| && forall n :: 0 <= n < |es| ==> !es[n].op.Failure?
    ensures RefreshesBetween(es, ip, i, j) == FundedBetween(Refresh, es, ip, i, j)
  {
    if i < j {
      RefreshesAreFunded(es, ip, i, j - 1);
    }
  }

  /** The exact answer to a refresh: it is let through if and only if, counting it, no stretch
      that ends with it has admitted more than 30 + 30 d/60s. A refused call costs nothing. */
  lemma RefreshAdmittedIff(es: seq<Event>, n: nat, ip: string)
    requires Ordered(es) && n < |es| && es[n].op == Spend(ip)
    requires forall j :: 0 <= j < |es| ==> !es[j].op.Failure?
    ensures Answer(Refresh, After(Refresh, es, n), es[n].op, es[n].at) <==>
      forall i :: 0 <= i <= n ==>
        RefreshesBetween(es, ip, i, n) as real + 1.0
        <= 30.0 + 30.0 * ((es[n].at - es[i].at) as real / 60_000_000_000.0)
  {
    hide After, Funded, AdmittedRefresh, Available, Kind.Earned, Kind.Burst;
    hide RefreshesBetween, FundedBetween;
    assert AllFunded(Refresh, es, ip, 0, n);
    TokenIff(Refresh, es, ip, 0, es[0].at, n);
    StartsFull(Refresh, es, ip, es[0].at);
    forall i | 0 <= i <= n
      ensures RefreshesBetween(es, ip, i, n) == FundedBetween(Refresh, es, ip, i, n)
      ensures Refresh.Earned(es[n].at - es[i].at) == 30.0 * ((es[n].at - es[i].at) as real / 60_000_000_000.0)
    {
      RefreshesAreFunded(es, ip, i, n);
      EarnedSpelled(es[n].at - es[i].at);
    }
    EarnedSpelled(0);
  }

  /** A failure of `ip` counted at event `m` when a check would be refused: it empties the bucket. */
  predicate Unpaid(es: seq<Event>, m: nat, ip: string)
    requires m < |es|
  {
    es[m].op == Failure(ip) && !Answer(Login, After(Login, es, m), Check(ip), es[m].at)
  }

  lemma UnpaidEmpties(es: seq<Event>, m: nat, ip: string)
    requires Ordered(es) && m < |es| && Unpaid(es, m, ip)
    ensures Available(Login, After(Login, es, m + 1), ip, es[m].at) == 0.0
  {
  }

  lemma {:induction false} FailuresAreTokens(es: seq<Event>, ip: string, i: nat, j: nat)
    requires i <= j <= |es| && (forall n :: 0 <= n < |es| ==> !es[n].op.Spend?) && AllFunded(Login, es, ip, i, j)
    ensures FailuresBetween(es, ip, i, j) == FundedBetween(Login, es, ip, i, j)
  {
    if i < j {
      FailuresAreTokens(es, ip, i, j - 1);
    }
  }

  /** The exact answer to a login check. Let event s - 1 be the last unpaid failure, or s = 0. The
      check is let through if and only if, with one more failure, no stretch since then would hold more
      than 5 + 5 d/15min failures, and the whole of it no more than the 5 d/15min earned since. */
  lemma LoginAdmittedIff(es: seq<Event>, n: nat, ip: string, s: nat)
    requires Ordered(es) && s <= n < |es|
    requires forall j :: 0 <= j < |es| ==> !es[j].op.Spend?
    requires s > 0 ==> Unpaid(es, s - 1, ip)
    requires forall j :: s <= j < n ==> !Unpaid(es, j, ip)
    ensures Answer(Login, After(Login, es, n), Check(ip), es[n].at) <==>
      && (forall i :: s <= i <= n ==>
        FailuresBetween(es, ip, i, n) as real + 1.0
        <= 5.0 + 5.0 * ((es[n].at - es[i].at) as real / 900_000_000_000.0))
      && (s > 0 ==>
        FailuresBetween(es, ip, s, n) as real + 1.0
        <= 5.0 * ((es[n].at - es[s - 1].at) as real / 900_000_000_000.0))
  {
    hide After, Funded, Available, Kind.Earned, Kind.Burst, FailuresBetween, FundedBetween;
    AllPaid(es, n, ip, s);
    var t0 := if s > 0 then es[s - 1].at else es[0].at;
    if s > 0 {
      UnpaidEmpties(es, s - 1, ip);
    }
    StartsFull(Login, es, ip, t0);
    hide Unpaid, AllFunded;
    assert t0 <= es[s].at;
    TokenIff(Login, es, ip, s, t0, n);
    forall i | s <= i <= n
      ensures FailuresBetween(es, ip, i, n) == FundedBetween(Login, es, ip, i, n)
      ensures Login.Earned(es[n].at - es[i].at) == 5.0 * ((es[n].at - es[i].at) as real / 900_000_000_000.0)
    {
      FailuresAreTokens(es, ip, i, n);
      EarnedSpelled(es[n].at - es[i].at);
    }
    EarnedSpelled(es[n].at - t0);
  }

  lemma AllPaid(es: seq<Event>, n: nat, ip: string, s: nat)
    requires s <= n < |es| && forall j :: s <= j < n ==> !Unpaid(es, j, ip)
    ensures forall i :: s <= i <= n ==> AllFunded(Login, es, ip, i, n)
  {
    hide After, Available;
    forall j | s <= j < n && es[j].op == Failure(ip) ensures Funded(Login, es, j, ip) {
      assert !Unpaid(es, j, ip);
    }
  }

  // ---------------------------------------------------------------------------
  // The limiter as it runs
  // ---------------------------------------------------------------------------

  class Limiter {
    const kind: Kind
    var buckets: Buckets

    constructor (kind: Kind)
      ensures this.kind == kind && buckets == map[]
    {
      this.kind := kind;
      buckets := map[];
    }

    method Refill(ip: string, now: int) returns (tokens: real)
      modifies this
      ensures tokens == Available(kind, old(buckets), ip, now)
      ensures buckets == Refilled(kind, old(buckets), ip, now)
    {
      if ip !in buckets {
        buckets := buckets[ip := Bucket(kind.Burst(), now)];
        return kind.Burst();
      }
      var b := buckets[ip];
      var elapsed := now - b.lastSeen;
      tokens := b.tokens;
      if elapsed > 0 {
        tokens := tokens + kind.Burst() * (elapsed as real / kind.Window() as real);
        if tokens > kind.Burst() {
          tokens := kind.Burst();
        }
      }
      buckets := buckets[ip := Bucket(tokens, now)];
    }

    method Allow(ip: string, now: int) returns (ok: bool)
      modifies this
      ensures ok == Answer(kind, old(buckets), Check(ip), now)
      ensures buckets == Apply(kind, old(buckets), Check(ip), now)
    {
      var tokens := Refill(ip, now);
      ok := tokens >= 1.0;
    }

    method CountFailure(ip: string, now: int)
      modifies this
      ensures buckets == Apply(kind, old(buckets), Failure(ip), now)
    {
      var tokens := Refill(ip, now);
      tokens := tokens - 1.0;
      if tokens < 0.0 {
        tokens := 0.0;
      }
      buckets := buckets[ip := Bucket(tokens, now)];
    }

    method AllowAndSpend(ip: string, now: int) returns (ok: bool)
      modifies this
      ensures ok == Answer(kind, old(buckets), Spend(ip), now)
      ensures buckets == Apply(kind, old(buckets), Spend(ip), now)
    {
      var tokens := Refill(ip, now);
      if tokens < 1.0 {
        return false;
      }
      buckets := buckets[ip := Bucket(tokens - 1.0, now)];
      return true;
    }

    method CleanupPass(now: int)
      modifies this
      ensures buckets == Apply(kind, old(buckets), Cleanup, now)
      ensures forall ip :: ip in buckets <==>
        ip in old(buckets)
        && now - old(buckets)[ip].lastSeen <= (if kind.Login? then 1800 else 300) * 1_000_000_000
      ensures forall ip :: ip in buckets ==> buckets[ip] == old(buckets)[ip]
    {
      var cutoff := now - kind.CleanupTTL();
      var todo := buckets.Keys;
      while todo != {}
        invariant todo <= buckets.Keys <= old(buckets).Keys
        invariant forall ip :: ip in buckets ==> buckets[ip] == old(buckets)[ip]
        invariant forall ip :: ip in old(buckets) && ip !in todo ==>
          (ip in buckets <==> !(old(buckets)[ip].lastSeen < cutoff))
        decreases todo
      {
        var ip :| ip in todo;
        todo := todo - {ip};
        if buckets[ip].lastSeen < cutoff {
          buckets := buckets - {ip};
        }
      }
    }
  }
}
