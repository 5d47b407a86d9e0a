/** The one-time-use guard for TOTP codes: a table keyed by user, code and 30-second window, pruned
    on every call. RFC 6238, section 4.2 gives the window and section 5.2 asks for one-time use. */
module Totp {
  import opened Text

  const WINDOW_SEC: nat := 30
  const CLEANUP_SEC: nat := 90

  datatype Row = Row(user: string, code: string, window: int)

  /** A call at unix time `at`: whether the code is the right one, and whether the clean-up statement
      and the insertion are executed. */
  datatype Call = Call(at: nat, user: string, code: string, valid: bool, swept: bool, stored: bool)
  {
    function Window(): nat { at / WINDOW_SEC * WINDOW_SEC }
    function Key(): Row { Row(user, code, Window()) }
  }

  datatype Reply = Accepted | Invalid | Reused | StorageError

  function Step(rows: set<Row>, c: Call): (set<Row>, Reply) {
    if !c.valid then (rows, Invalid)
    else if Blank(c.user) then (rows, Accepted)
    else
      var kept := if c.swept then set r | r in rows && !(r.window < c.at - CLEANUP_SEC) else rows;
      if !c.stored then (kept, StorageError)
      else if c.Key() in kept then (kept, Reused)
      else (kept + {c.Key()}, Accepted)
  }

  function Run(cs: seq<Call>): set<Row> {
    if cs == [] then {} else Step(Run(cs[..|cs| - 1]), cs[|cs| - 1]).0
  }

  function ReplyAt(cs: seq<Call>, i: nat): Reply
    requires i < |cs|
  {
    Step(Run(cs[..i]), cs[i]).1
  }

  ghost predicate Timed(cs: seq<Call>) { forall i, j :: 0 <= i < j < |cs| ==> cs[i].at <= cs[j].at }

  /** Call `j` recorded an acceptance. */
  predicate Claimed(cs: seq<Call>, j: nat)
    requires j < |cs|
  {
    ReplyAt(cs, j) == Accepted && !Blank(cs[j].user)
  }

  /** The table never deletes in effect: it holds only claims that were made, and every claim of the
      current window. */
  ghost predicate Faithful(cs: seq<Call>, rows: set<Row>, now: nat) {
    && (forall r :: r in rows ==> exists j :: 0 <= j < |cs| && Claimed(cs, j) && cs[j].Key() == r)
    && (forall j :: 0 <= j < |cs| && Claimed(cs, j) && cs[j].Window() >= now - CLEANUP_SEC ==> cs[j].Key() in rows)
  }

  lemma ClaimedInPrefix(cs: seq<Call>, n: nat)
    requires n <= |cs|
    ensures forall j :: 0 <= j < n ==> cs[..n][j] == cs[j] && Claimed(cs[..n], j) == Claimed(cs, j)
  {
    forall j | 0 <= j < n ensures Claimed(cs[..n], j) == Claimed(cs, j) {
      assert cs[..n][..j] == cs[..j];
    }
  }

  lemma {:induction false} RunFaithful(cs: seq<Call>, now: nat)
    requires Timed(cs) && (cs != [] ==> cs[|cs| - 1].at <= now)
    ensures Faithful(cs, Run(cs), now)
  {
    if cs != [] {
      var n := |cs| - 1;
      var front, c := cs[..n], cs[n];
      RunFaithful(front, c.at);
      ClaimedInPrefix(cs, n);
      hide Run, Timed;
      StepFaithful(cs, now);
    }
  }

  lemma StepFaithful(cs: seq<Call>, now: nat)
    requires cs != []
    requires var n := |cs| - 1; cs[n].at <= now && Faithful(cs[..n], Run(cs[..n]), cs[n].at)
    ensures Faithful(cs, Step(Run(cs[..|cs| - 1]), cs[|cs| - 1]).0, now)
  {
    var n := |cs| - 1;
    var front, c, rows := cs[..n], cs[n], Run(cs[..n]);
    var rows' := Step(rows, c).0;
    ClaimedInPrefix(cs, n);
    hide Run;
    assert Claimed(cs, n) == (Step(rows, c).1 == Accepted && !Blank(c.user));
    forall r | r in rows'
      ensures exists j :: 0 <= j < |cs| && Claimed(cs, j) && cs[j].Key() == r
    {
      if r in rows {
        var j :| 0 <= j < |front| && Claimed(front, j) && front[j].Key() == r;
        assert Claimed(cs, j) && cs[j].Key() == r;
      } else {
        assert Claimed(cs, n) && cs[n].Key() == r;
      }
    }
    forall j | 0 <= j < |cs| && Claimed(cs, j) && cs[j].Window() >= now - CLEANUP_SEC
      ensures cs[j].Key() in rows'
    {
      if j < n {
        assert front[j].Key() in rows;
      }
    }
  }

  /** The same user and code in the same half minute. */
  predicate SameUse(b: Call, c: Call) { b.user == c.user && b.code == c.code && b.at / 30 == c.at / 30 }

  lemma SameKey(b: Call, c: Call)
    ensures b.Key() == c.Key() <==> SameUse(b, c)
  {
  }

  /** A call of the same user with the same code was accepted in this window before. */
  ghost predicate UsedBefore(cs: seq<Call>, i: nat)
    requires i < |cs|
  {
    exists j :: 0 <= j < i && ReplyAt(cs, j) == Accepted && SameUse(cs[j], cs[i])
  }

  /** What each call answers, for every nondecreasing sequence of call times and whichever clean-ups
      are carried out: exactly what a table that never deletes would answer. */
  lemma AnswersByHistory(cs: seq<Call>, i: nat)
    requires Timed(cs) && i < |cs|
    ensures var c := cs[i];
      ReplyAt(cs, i) ==
      if !c.valid then Invalid
      else if Blank(c.user) then Accepted
      else if !c.stored then StorageError
      else if UsedBefore(cs, i) then Reused
      else Accepted
  {
    var c, before := cs[i], cs[..i];
    RunFaithful(before, c.at);
    ClaimedInPrefix(cs, i);
    WindowIsRecent(c);
    var rows := Run(before);
    hide Run, Timed;
    if c.Key() in rows {
      var j :| 0 <= j < |before| && Claimed(before, j) && before[j].Key() == c.Key();
      SameKey(cs[j], c);
      assert cs[j].Key() == c.Key() && Claimed(cs, j);
    }
    if j :| 0 <= j < i && ReplyAt(cs, j) == Accepted && SameUse(cs[j], c) {
      SameKey(cs[j], c);
      assert cs[j].user == c.user;
      assert !Blank(c.user) ==> Claimed(cs, j) && Claimed(before, j) && before[j].Window() == c.Window();
    }
  }

  lemma WindowIsRecent(c: Call)
    ensures c.at - WINDOW_SEC < c.Window() <= c.at
  {
  }

  /** A user's code is accepted at most once in a window. */
  lemma AcceptedOncePerWindow(cs: seq<Call>, i: nat, j: nat)
    requires Timed(cs) && i < j < |cs| && !Blank(cs[i].user)
    requires ReplyAt(cs, i) == Accepted && ReplyAt(cs, j) == Accepted
    ensures !SameUse(cs[i], cs[j])
  {
    AnswersByHistory(cs, j);
  }

  /** The window is that of the server's clock, so a code that stays valid over the turn of a window
      is accepted a second time in the next. */
  lemma AcceptedAgainNextWindow(user: string, code: string)
    requires !Blank(user)
    ensures var cs := [Call(29, user, code, true, true, true), Call(30, user, code, true, true, true)];
      ReplyAt(cs, 0) == Accepted && ReplyAt(cs, 1) == Accepted
  {
    var cs := [Call(29, user, code, true, true, true), Call(30, user, code, true, true, true)];
    AnswersByHistory(cs, 0);
    AnswersByHistory(cs, 1);
    assert cs[0].Window() == 0 && cs[1].Window() == 30;
  }

  class ReplayGuard {
    var rows: set<Row>

    constructor ()
      ensures rows == {}
    {
      rows := {};
    }

    method ValidateAndConsume(c: Call) returns (r: Reply)
      modifies this
      ensures (rows, r) == Step(old(rows), c)
      ensures r != Invalid && !Blank(c.user) && c.swept ==> forall x :: x in rows ==> x.window >= c.at - 90
      ensures forall x :: x in old(rows) && x.window >= c.at - 90 ==> x in rows
    {
      if !c.valid {
        return Invalid;
      }
      BlankIffTrimmedAway(c.user);
      if TrimSpace(c.user) == "" {
        return Accepted;
      }
      var windowTs, cutoff := c.at / WINDOW_SEC * WINDOW_SEC, c.at - CLEANUP_SEC;
      if c.swept {
        rows := set r | r in rows && !(r.window < cutoff);
      }
      if !c.stored {
        return StorageError;
      }
      if Row(c.user, c.code, windowTs) in rows {
        return Reused;
      }
      rows := rows + {Row(c.user, c.code, windowTs)};
      return Accepted;
    }
  }
}
