/** Refresh-token families: rotation, reuse detection, logout and password change.
    Raw tokens stand for their hashes; rows are never deleted, so a fresh token is one
    with no row. Each transaction is one step. */
module RefreshTokens {

  const TTL: int := 7 * 24 * 3600

  datatype Row = Row(user: string, family: string, revoked: bool, expires: int)

  type Table = map<string, Row>

  datatype Answer = Rotated(next: string) | Reuse | Invalid

  datatype Op =
    | Issue(user: string, raw: string, family: string)
    | Rotate(raw: string, next: string)
    | Logout(raw: string)
    | ChangePassword(user: string)

  datatype Event = Event(op: Op, now: int)

  function RevokeFamily(t: Table, family: string): Table {
    map raw | raw in t :: if t[raw].family == family then t[raw].(revoked := true) else t[raw]
  }

  function RevokeUser(t: Table, user: string): Table {
    map raw | raw in t :: if t[raw].user == user then t[raw].(revoked := true) else t[raw]
  }

  function Respond(t: Table, raw: string, next: string, now: int): Answer {
    if raw == "" || raw !in t || t[raw].expires < now then Invalid
    else if t[raw].revoked then Reuse
    else Rotated(next)
  }

  function RotateTable(t: Table, raw: string, next: string, now: int): Table {
    match Respond(t, raw, next, now)
    case Invalid => t
    case Reuse => RevokeFamily(t, t[raw].family)
    case Rotated(_) => t[raw := t[raw].(revoked := true)][next := Row(t[raw].user, t[raw].family, false, now + TTL)]
  }

  function Apply(t: Table, e: Event): Table {
    match e.op
    case Issue(user, raw, family) => t[raw := Row(user, family, false, e.now + TTL)]
    case Rotate(raw, next) => RotateTable(t, raw, next, e.now)
    case Logout(raw) => if raw != "" && raw in t then t[raw := t[raw].(revoked := true)] else t
    case ChangePassword(user) => RevokeUser(t, user)
  }

  /** New tokens and families are random, so they are new to the table. */
  ghost predicate FreshIn(t: Table, op: Op) {
    match op
    case Issue(_, raw, family) => raw !in t && forall r :: r in t ==> t[r].family != family
    case Rotate(_, next) => next !in t
    case _ => true
  }

  function After(es: seq<Event>, n: nat): Table
    requires n <= |es|
  {
    if n == 0 then map[] else Apply(After(es, n - 1), es[n - 1])
  }

  /** Every token and family a run hands out is new. */
  ghost predicate Run(es: seq<Event>) { FreshUpTo(es, |es|) }

  ghost predicate FreshUpTo(es: seq<Event>, n: nat)
    requires n <= |es|
  {
    n == 0 || (FreshUpTo(es, n - 1) && FreshIn(After(es, n - 1), es[n - 1].op))
  }

  lemma {:induction false} FreshBefore(es: seq<Event>, n: nat, k: nat)
    requires n < k <= |es| && FreshUpTo(es, k)
    ensures FreshIn(After(es, n), es[n].op)
  {
    if n + 1 < k {
      FreshBefore(es, n, k - 1);
    }
  }

  lemma Step(es: seq<Event>, n: nat)
    requires Run(es) && n < |es|
    ensures FreshIn(After(es, n), es[n].op) && After(es, n + 1) == Apply(After(es, n), es[n])
  {
    FreshBefore(es, n, |es|);
  }

  /** Event `n` is a rotation of `raw` that succeeds. */
  predicate Rotates(es: seq<Event>, n: nat, raw: string)
    requires n < |es|
  {
    es[n].op.Rotate? && es[n].op.raw == raw && Respond(After(es, n), raw, es[n].op.next, es[n].now).Rotated?
  }

  // ---------------------------------------------------------------------------
  // Families
  // ---------------------------------------------------------------------------

  /** One user per family and at most one token of it unrevoked. */
  ghost predicate FamiliesSound(t: Table) {
    forall a, b :: a in t && b in t && t[a].family == t[b].family ==>
      && t[a].user == t[b].user
      && (!t[a].revoked && !t[b].revoked ==> a == b)
  }

  lemma ApplyKeepsSound(t: Table, e: Event)
    requires FamiliesSound(t) && FreshIn(t, e.op)
    ensures FamiliesSound(Apply(t, e))
  {
  }

  lemma StartsSound(es: seq<Event>)
    ensures FamiliesSound(After(es, 0))
  {
  }

  /** Families stay sound on every run. */
  lemma {:induction false} FamiliesStaySound(es: seq<Event>, n: nat)
    requires Run(es) && n <= |es|
    ensures FamiliesSound(After(es, n))
  {
    hide After, Apply, Run, FreshUpTo, FamiliesSound;
    if n == 0 {
      StartsSound(es);
    } else {
      FamiliesStaySound(es, n - 1);
      Step(es, n - 1);
      ApplyKeepsSound(After(es, n - 1), es[n - 1]);
    }
  }

  /** `r'` is `r` later on: same owner, family and expiry, and revoked if `r` was. */
  predicate Descends(r: Row, r': Row) {
    r'.user == r.user && r'.family == r.family && r'.expires == r.expires && (r.revoked ==> r'.revoked)
  }

  lemma RowStep(t: Table, e: Event, raw: string)
    requires FreshIn(t, e.op) && raw in t
    ensures raw in Apply(t, e) && Descends(t[raw], Apply(t, e)[raw])
  {
  }

  /** Nothing un-revokes a token or moves it to another user or family. */
  lemma {:induction false} RowsPersist(es: seq<Event>, m: nat, n: nat, raw: string)
    requires Run(es) && m <= n <= |es| && raw in After(es, m)
    ensures raw in After(es, n) && Descends(After(es, m)[raw], After(es, n)[raw])
  {
    hide After, Apply, Run, FreshUpTo;
    if m < n {
      RowsPersist(es, m, n - 1, raw);
      Step(es, n - 1);
      RowStep(After(es, n - 1), es[n - 1], raw);
    }
  }

  lemma RotatedIsRevoked(t: Table, e: Event)
    requires FreshIn(t, e.op) && e.op.Rotate? && Respond(t, e.op.raw, e.op.next, e.now).Rotated?
    ensures e.op.raw in Apply(t, e) && Apply(t, e)[e.op.raw].revoked
  {
  }

  /** A raw token rotates successfully at most once. */
  lemma RotatesOnce(es: seq<Event>, m: nat, n: nat, raw: string)
    requires Run(es) && m < n < |es| && Rotates(es, m, raw)
    ensures !Rotates(es, n, raw)
  {
    hide After, Apply, Run, FreshUpTo;
    Step(es, m);
    RotatedIsRevoked(After(es, m), es[m]);
    RowsPersist(es, m + 1, n, raw);
  }

  // ---------------------------------------------------------------------------
  // Dead families and users
  // ---------------------------------------------------------------------------

  /** The family exists and every token of it has been revoked. */
  ghost predicate Dead(t: Table, family: string) {
    && (exists raw :: raw in t && t[raw].family == family)
    && forall raw :: raw in t && t[raw].family == family ==> t[raw].revoked
  }

  lemma DeadStep(t: Table, e: Event, family: string)
    requires FreshIn(t, e.op) && Dead(t, family)
    ensures Dead(Apply(t, e), family)
  {
    var raw :| raw in t && t[raw].family == family;
    RowStep(t, e, raw);
  }

  lemma {:induction false} DeadStaysDead(es: seq<Event>, m: nat, n: nat, family: string)
    requires Run(es) && m <= n <= |es| && Dead(After(es, m), family)
    ensures Dead(After(es, n), family)
  {
    hide After, Apply, Run, FreshUpTo, Dead;
    if m < n {
      DeadStaysDead(es, m, n - 1, family);
      Step(es, n - 1);
      DeadStep(After(es, n - 1), es[n - 1], family);
    }
  }

  lemma ReuseStep(t: Table, e: Event)
    requires e.op.Rotate? && Respond(t, e.op.raw, e.op.next, e.now) == Reuse
    ensures Dead(Apply(t, e), t[e.op.raw].family)
  {
    assert e.op.raw in Apply(t, e);
  }

  /** Presenting a revoked token before it expires kills its family for good: no token of it,
      whenever issued, ever rotates again. */
  lemma ReuseKillsFamily(es: seq<Event>, m: nat, n: nat, raw: string, other: string)
    requires Run(es) && m < n < |es|
    requires es[m].op.Rotate? && es[m].op.raw == raw
    requires Respond(After(es, m), raw, es[m].op.next, es[m].now) == Reuse
    requires other in After(es, n) && After(es, n)[other].family == After(es, m)[raw].family
    ensures !Rotates(es, n, other)
    ensures Dead(After(es, n), After(es, m)[raw].family)
  {
    hide After, Apply, Run, FreshUpTo;
    Step(es, m);
    ReuseStep(After(es, m), es[m]);
    DeadStaysDead(es, m + 1, n, After(es, m)[raw].family);
  }

  /** So two parties holding the same token cannot both keep the session: once it has been
      rotated, a second presentation in time ends the family. */
  lemma SecondPresentationKillsFamily(es: seq<Event>, i: nat, m: nat, n: nat, raw: string, other: string)
    requires Run(es) && i < m < n < |es| && Rotates(es, i, raw)
    requires es[m].op.Rotate? && es[m].op.raw == raw && After(es, i)[raw].expires >= es[m].now
    requires other in After(es, n) && After(es, n)[other].family == After(es, i)[raw].family
    ensures !Rotates(es, n, other)
  {
    hide After, Apply, Run, FreshUpTo;
    Step(es, i);
    RotatedIsRevoked(After(es, i), es[i]);
    RowsPersist(es, i, m, raw);
    RowsPersist(es, i + 1, m, raw);
    ReuseKillsFamily(es, m, n, raw, other);
  }

  /** No token the user held before a password change ever rotates afterwards. */
  lemma PasswordChangeRevokesAll(es: seq<Event>, m: nat, n: nat, raw: string)
    requires Run(es) && m < n < |es|
    requires raw in After(es, m) && es[m].op == ChangePassword(After(es, m)[raw].user)
    ensures !Rotates(es, n, raw)
  {
    hide After, Run, FreshUpTo;
    Step(es, m);
    RowsPersist(es, m + 1, n, raw);
  }

  /** Rotation hands the session on: after a success exactly the new token of the family is
      live, it belongs to the same user, and every other family is as before. */
  lemma RotationHandsOn(t: Table, raw: string, next: string, now: int)
    requires FamiliesSound(t) && next !in t && Respond(t, raw, next, now).Rotated?
    ensures var t' := RotateTable(t, raw, next, now);
      && next in t' && t'[next].user == t[raw].user && t'[next].expires == now + TTL
      && (forall r :: r in t' && t'[r].family == t[raw].family ==> (t'[r].revoked <==> r != next))
      && (forall r :: r in t && t[r].family != t[raw].family ==> r in t' && t'[r] == t[r])
  {
  }

  // ---------------------------------------------------------------------------
  // Answers by history
  // ---------------------------------------------------------------------------

  /** Event `n` presents `raw` and is answered as a reuse. */
  predicate Reuses(es: seq<Event>, n: nat, raw: string)
    requires n < |es|
  {
    es[n].op.Rotate? && es[n].op.raw == raw && Respond(After(es, n), raw, es[n].op.next, es[n].now) == Reuse
  }

  /** Event `m` hands out `raw` to that user in that family: by an issue, or as the new token
      of a successful rotation of a token handed out to them before. */
  ghost predicate HandsOut(es: seq<Event>, m: nat, raw: string, user: string, family: string)
    requires m < |es|
  {
    match es[m].op
    case Issue(u, r, f) => u == user && r == raw && f == family
    case Rotate(r, next) =>
      next == raw && Rotates(es, m, r) && exists j: nat | j < m :: HandsOut(es, j, r, user, family)
    case _ => false
  }

  /** Event `k` ends the life of a token of that user and family: a successful rotation of it,
      its logout, a password change of the user or a reuse in the family. */
  ghost predicate Ends(es: seq<Event>, k: nat, raw: string, user: string, family: string)
    requires k < |es|
  {
    || Rotates(es, k, raw)
    || es[k].op == Logout(raw)
    || es[k].op == ChangePassword(user)
    || ReuseInFamily(es, k, user, family)
  }

  /** Event `k` is a reuse of a token handed out to that user in that family. */
  ghost predicate ReuseInFamily(es: seq<Event>, k: nat, user: string, family: string)
    requires k < |es|
  {
    && es[k].op.Rotate? && Reuses(es, k, es[k].op.raw)
    && exists j: nat | j < k :: HandsOut(es, j, es[k].op.raw, user, family)
  }

  ghost predicate EndedBetween(es: seq<Event>, m: nat, n: nat, raw: string, user: string, family: string)
    requires n <= |es|
  {
    exists k: nat | m < k < n :: Ends(es, k, raw, user, family)
  }

  lemma HandOutStep(es: seq<Event>, m: nat, raw: string, user: string, family: string)
    requires Run(es) && m < |es| && HandsOut(es, m, raw, user, family)
    requires es[m].op.Rotate? ==>
      var t := After(es, m);
      es[m].op.raw in t && t[es[m].op.raw].user == user && t[es[m].op.raw].family == family
    ensures raw !in After(es, m) && raw in After(es, m + 1)
    ensures After(es, m + 1)[raw] == Row(user, family, false, es[m].now + 604800)
  {
    hide After, Run, FreshUpTo;
    Step(es, m);
  }

  /** The row of a token that was handed out. */
  lemma {:induction false} HandedOutRow(es: seq<Event>, m: nat, n: nat, raw: string, user: string, family: string)
    requires Run(es) && m < n <= |es| && HandsOut(es, m, raw, user, family)
    ensures raw !in After(es, m) && raw in After(es, m + 1) && raw in After(es, n)
    ensures After(es, m + 1)[raw] == Row(user, family, false, es[m].now + 604800)
    ensures Descends(After(es, m + 1)[raw], After(es, n)[raw])
    decreases m
  {
    hide After, Run, FreshUpTo;
    if es[m].op.Rotate? {
      var j: nat :| j < m && HandsOut(es, j, es[m].op.raw, user, family);
      HandedOutRow(es, j, m, es[m].op.raw, user, family);
    }
    HandOutStep(es, m, raw, user, family);
    RowsPersist(es, m + 1, n, raw);
  }

  lemma NewRow(t: Table, e: Event, raw: string)
    requires FreshIn(t, e.op) && raw !in t && raw in Apply(t, e)
    ensures (e.op.Issue? && e.op.raw == raw)
      || (e.op.Rotate? && e.op.next == raw && Respond(t, e.op.raw, e.op.next, e.now).Rotated?)
    ensures e.op.Issue? ==> Apply(t, e)[raw] == Row(e.op.user, e.op.family, false, e.now + 604800)
    ensures e.op.Rotate? ==>
      e.op.raw in t && Apply(t, e)[raw] == Row(t[e.op.raw].user, t[e.op.raw].family, false, e.now + 604800)
  {
  }

  /** Every row was handed out by some event. */
  lemma {:induction false} RowWasHandedOut(es: seq<Event>, n: nat, raw: string) returns (m: nat)
    requires Run(es) && n <= |es| && raw in After(es, n)
    ensures m < n && HandsOut(es, m, raw, After(es, n)[raw].user, After(es, n)[raw].family)
  {
    hide After, Apply, Run, FreshUpTo;
    if n == 0 {
      assert false by { NoRows(es); }
    }
    Step(es, n - 1);
    var t := After(es, n - 1);
    if raw in t {
      m := RowWasHandedOut(es, n - 1, raw);
      RowStep(t, es[n - 1], raw);
    } else {
      m := n - 1;
      NewRow(t, es[m], raw);
      if es[m].op.Rotate? {
        var j := RowWasHandedOut(es, m, es[m].op.raw);
      }
    }
  }

  lemma NoRows(es: seq<Event>)
    ensures After(es, 0) == map[]
  {
  }

  /** One event revokes a live token exactly if it ends its life. */
  lemma EndStep(t: Table, e: Event, raw: string)
    requires FreshIn(t, e.op) && raw != "" && raw in t
    ensures raw in Apply(t, e)
    ensures Apply(t, e)[raw].revoked <==>
      || t[raw].revoked
      || (e.op.Rotate? && e.op.raw == raw && Respond(t, raw, e.op.next, e.now).Rotated?)
      || e.op == Logout(raw)
      || e.op == ChangePassword(t[raw].user)
      || (e.op.Rotate? && Respond(t, e.op.raw, e.op.next, e.now) == Reuse && t[e.op.raw].family == t[raw].family)
  {
  }

  lemma ReuseInFamilyIff(es: seq<Event>, k: nat, raw: string)
    requires Run(es) && k < |es| && raw in After(es, k) && es[k].op.Rotate? && Reuses(es, k, es[k].op.raw)
    ensures After(es, k)[es[k].op.raw].family == After(es, k)[raw].family <==>
      ReuseInFamily(es, k, After(es, k)[raw].user, After(es, k)[raw].family)
  {
    hide After, Apply, Run, FreshUpTo, HandsOut;
    var t, r := After(es, k), es[k].op.raw;
    if t[r].family == t[raw].family {
      FamiliesStaySound(es, k);
      var j := RowWasHandedOut(es, k, r);
    }
    if j: nat :| j < k && HandsOut(es, j, r, t[raw].user, t[raw].family) {
      HandedOutRow(es, j, k, r, t[raw].user, t[raw].family);
    }
  }

  lemma EndsIff(es: seq<Event>, k: nat, raw: string)
    requires Run(es) && k < |es| && raw != "" && raw in After(es, k)
    ensures raw in After(es, k + 1)
    ensures After(es, k + 1)[raw].revoked <==>
      After(es, k)[raw].revoked || Ends(es, k, raw, After(es, k)[raw].user, After(es, k)[raw].family)
  {
    hide After, Apply, Run, FreshUpTo, HandsOut;
    Step(es, k);
    EndStep(After(es, k), es[k], raw);
    if es[k].op.Rotate? && Reuses(es, k, es[k].op.raw) {
      ReuseInFamilyIff(es, k, raw);
    }
  }

  /** A token that was handed out is revoked exactly if an event since then ended its life. */
  lemma {:induction false} RevokedByHistory(
    es: seq<Event>, m: nat, n: nat, raw: string, user: string, family: string)
    requires Run(es) && m < n <= |es| && raw != "" && HandsOut(es, m, raw, user, family)
    ensures raw in After(es, n)
    ensures After(es, n)[raw] ==
      Row(user, family, EndedBetween(es, m, n, raw, user, family), es[m].now + 604800)
  {
    hide After, Apply, Run, FreshUpTo, HandsOut, Ends;
    HandedOutRow(es, m, n, raw, user, family);
    if m + 1 < n {
      RevokedByHistory(es, m, n - 1, raw, user, family);
      EndsIff(es, n - 1, raw);
      if k: nat :| m < k < n && Ends(es, k, raw, user, family) {
        assert k < n - 1 || k == n - 1;
      }
    }
  }

  /** The exact answers, from the events alone. A presented token rotates exactly if it was
      handed out at most seven days ago and nothing has ended its life since; it counts as
      reuse exactly if it was handed out at most seven days ago and something has. */
  lemma RotatesIff(es: seq<Event>, n: nat)
    requires Run(es) && n < |es| && es[n].op.Rotate?
    ensures var raw := es[n].op.raw;
      Rotates(es, n, raw) <==> raw != "" && exists m: nat, user, family ::
        && m < n && HandsOut(es, m, raw, user, family)
        && es[n].now <= es[m].now + 604800
        && !EndedBetween(es, m, n, raw, user, family)
    ensures var raw := es[n].op.raw;
      Reuses(es, n, raw) <==> raw != "" && exists m: nat, user, family ::
        && m < n && HandsOut(es, m, raw, user, family)
        && es[n].now <= es[m].now + 604800
        && EndedBetween(es, m, n, raw, user, family)
  {
    hide After, Apply, Run, FreshUpTo, HandsOut, EndedBetween;
    var t, raw := After(es, n), es[n].op.raw;
    if raw != "" {
      if raw in t {
        var m := RowWasHandedOut(es, n, raw);
        RevokedByHistory(es, m, n, raw, t[raw].user, t[raw].family);
      }
      forall m: nat, user, family | m < n && HandsOut(es, m, raw, user, family)
        ensures raw in t
        ensures t[raw] == Row(user, family, EndedBetween(es, m, n, raw, user, family), es[m].now + 604800)
      {
        RevokedByHistory(es, m, n, raw, user, family);
      }
    }
  }

  // ---------------------------------------------------------------------------
  // The store
  // ---------------------------------------------------------------------------

  class Store {
    var rows: Table
    var users: set<string>

    constructor (users: set<string>)
      ensures rows == map[] && this.users == users
    {
      rows, this.users := map[], users;
    }

    method IssueInFamily(user: string, raw: string, family: string, now: int)
      modifies this`rows
      ensures rows == Apply(old(rows), Event(Issue(user, raw, family), now))
    {
      rows := rows[raw := Row(user, family, false, now + TTL)];
    }

    /** UPDATE ... SET revoked_at WHERE <hit> AND revoked_at IS NULL, row by row. */
    method Revoke(hit: Row -> bool)
      modifies this`rows
      ensures rows.Keys == old(rows).Keys
      ensures forall raw :: raw in rows ==>
        rows[raw] == if hit(old(rows)[raw]) then old(rows)[raw].(revoked := true) else old(rows)[raw]
    {
      var todo := rows.Keys;
      while todo != {}
        invariant todo <= rows.Keys == old(rows).Keys
        invariant forall raw :: raw in rows ==>
          rows[raw] == if raw !in todo && hit(old(rows)[raw]) then old(rows)[raw].(revoked := true) else old(rows)[raw]
        decreases todo
      {
        var raw :| raw in todo;
        todo := todo - {raw};
        if hit(rows[raw]) && !rows[raw].revoked {
          rows := rows[raw := rows[raw].(revoked := true)];
        }
      }
    }

    method RotateToken(raw: string, next: string, now: int) returns (a: Answer)
      modifies this`rows
      ensures a == Respond(old(rows), raw, next, now)
      ensures rows == Apply(old(rows), Event(Rotate(raw, next), now))
    {
      if raw == "" || raw !in rows {
        return Invalid;
      }
      var row := rows[raw];
      if row.expires < now {
        return Invalid;
      }
      if row.revoked {
        Revoke((r: Row) => r.family == row.family);
        return Reuse;
      }
      rows := rows[raw := row.(revoked := true)];
      rows := rows[next := Row(row.user, row.family, false, now + TTL)];
      return Rotated(next);
    }

    method LogoutToken(raw: string, now: int)
      modifies this`rows
      ensures rows == Apply(old(rows), Event(Logout(raw), now))
    {
      if raw != "" && raw in rows && !rows[raw].revoked {
        rows := rows[raw := rows[raw].(revoked := true)];
      }
    }

    method SetPassword(user: string, now: int) returns (ok: bool)
      modifies this`rows
      ensures ok == (user in users)
      ensures rows == if ok then Apply(old(rows), Event(ChangePassword(user), now)) else old(rows)
    {
      ok := user in users;
      if ok {
        Revoke((r: Row) => r.user == user);
      }
    }
  }
}
