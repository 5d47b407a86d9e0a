/** The replay side of the event bus: a bounded, expiring buffer of published events and
    resumption after an event id by byte-wise comparison of ids. Publishing is serial. */
module EventBus {
  import opened Decimal

  datatype Event = Event(ms: nat, seqNo: nat, topic: string, kind: string, at: int)
  {
    /** "<unix-millis>-<seq>" */
    function Id(): string { Dec(ms) + "-" + Dec(seqNo) }
  }

  // ---------------------------------------------------------------------------
  // Ids
  // ---------------------------------------------------------------------------

  ghost predicate Precedes(a: Event, b: Event) { a.ms <= b.ms && a.seqNo < b.seqNo }

  /** The numbers that decide between two ids have their digits lined up. */
  predicate Comparable(a: Event, b: Event)
    requires a.ms <= b.ms && a.seqNo <= b.seqNo
  {
    if a.ms < b.ms then Aligned(a.ms, b.ms) else Aligned(a.seqNo, b.seqNo)
  }

  /** Of two events, the ids are in publish order exactly when the deciding numbers line up. */
  lemma IdOrderIff(a: Event, b: Event)
    requires Precedes(a, b)
    ensures LexLess(a.Id(), b.Id()) <==> Comparable(a, b)
    ensures LexLess(b.Id(), a.Id()) <==> !Comparable(a, b)
    ensures a.Id() != b.Id()
  {
    hide LexLess, Aligned, Dec;
    var ta, tb := "-" + Dec(a.seqNo), "-" + Dec(b.seqNo);
    assert a.Id() == Dec(a.ms) + ta && b.Id() == Dec(b.ms) + tb;
    if a.ms < b.ms {
      LexOfRising(a.ms, b.ms, ta, tb);
    } else {
      LexOfPrefix(Dec(a.ms), Dec(b.ms), ta, tb);
      LexTotal(Dec(a.ms), Dec(a.ms));
      LexOfPrefix("-", "-", Dec(a.seqNo), Dec(b.seqNo));
      LexTotal("-", "-");
      assert Dec(a.seqNo) + "" == Dec(a.seqNo) && Dec(b.seqNo) + "" == Dec(b.seqNo);
      LexOfRising(a.seqNo, b.seqNo, "", "");
    }
    IdsDiffer(a, b);
    LexTotal(a.Id(), b.Id());
  }

  /** An id names one event: the sequence number can be read back from it. */
  lemma IdsDiffer(a: Event, b: Event)
    requires a.seqNo != b.seqNo
    ensures a.Id() != b.Id()
  {
    if a.Id() == b.Id() {
      DashAt(a);
      DashAt(b);
      assert a.Id()[|Dec(a.ms)| + 1..] == Dec(a.seqNo) && b.Id()[|Dec(b.ms)| + 1..] == Dec(b.seqNo);
      if |Dec(a.ms)| == |Dec(b.ms)| {
        ValOfDec(a.seqNo);
        ValOfDec(b.seqNo);
      }
    }
  }

  lemma DashAt(e: Event)
    ensures var d := |Dec(e.ms)|; e.Id()[d] == '-' && forall i :: 0 <= i < |e.Id()| && i != d ==> e.Id()[i] != '-'
  {
  }

  /** In particular: equally many digits in the stamps, and a different millisecond or equally
      many digits in the sequence numbers. */
  lemma EqualDigitsComparable(a: Event, b: Event)
    requires Precedes(a, b) && |Dec(a.ms)| == |Dec(b.ms)|
    requires a.ms != b.ms || |Dec(a.seqNo)| == |Dec(b.seqNo)|
    ensures Comparable(a, b)
  {
    if a.ms < b.ms {
      EqualDigitsAligned(a.ms, b.ms);
    } else {
      EqualDigitsAligned(a.seqNo, b.seqNo);
    }
  }

  /** Ids are not monotone in general: the ninth and tenth event of one millisecond are out of order. */
  lemma NinthSortsAfterTenth(ms: nat, topic: string, kind: string, at: int)
    ensures var a, b := Event(ms, 9, topic, kind, at), Event(ms, 10, topic, kind, at);
      Precedes(a, b) && LexLess(b.Id(), a.Id())
  {
    var a, b := Event(ms, 9, topic, kind, at), Event(ms, 10, topic, kind, at);
    assert Dec(9) == "9" && Dec(10) == Dec(1) + "0" && Dec(1) == "1";
    assert Pow10(1) == 10;
    assert !Aligned(9, 10);
    IdOrderIff(a, b);
  }

  // ---------------------------------------------------------------------------
  // Topics and replay
  // ---------------------------------------------------------------------------

  predicate HasSuffix(s: string, suffix: string) { |s| >= |suffix| && s[|s| - |suffix|..] == suffix }

  predicate TopicMatches(filter: string, topic: string) {
    if filter == "" || filter == "*" then true
    else if HasSuffix(filter, ".*") then filter[..|filter| - 1] <= topic
    else filter == topic
  }

  /** What a filter selects: everything for "" and "*", the topics below `p` for `p` + ".*", and the
      topic equal to it. */
  ghost predicate Selects(filter: string, topic: string) {
    || filter == "" || filter == "*" || filter == topic
    || exists p: string, rest: string :: filter == p + ".*" && topic == p + "." + rest
  }

  lemma TopicMatchesIff(filter: string, topic: string)
    ensures TopicMatches(filter, topic) <==> Selects(filter, topic)
  {
    if HasSuffix(filter, ".*") {
      var p := filter[..|filter| - 2];
      assert filter == p + ".*" && filter[..|filter| - 1] == p + ".";
      if p + "." <= topic {
        assert topic == p + "." + topic[|p| + 1..];
      }
      forall q: string, rest: string | filter == q + ".*" && topic == q + "." + rest
        ensures p + "." <= topic
      {
        assert q == p;
      }
    } else {
      forall q: string | filter == q + ".*" ensures HasSuffix(filter, ".*") {}
    }
  }

  /** Whether a live event reaches a subscription: Publish looks its topic up as it is. */
  predicate Delivered(filter: string, topic: string) {
    filter == "" || filter == "*" || filter == topic
  }

  /** Live delivery and replay select the same topics exactly for a filter that does not end in ".*";
      a subscription to "deploy.*" is replayed the past of "deploy.1" and never sees its future. */
  lemma LiveAgreesIff(filter: string)
    ensures (forall topic :: Delivered(filter, topic) == TopicMatches(filter, topic)) <==> !HasSuffix(filter, ".*")
  {
    if HasSuffix(filter, ".*") {
      assert TopicMatches(filter, filter[..|filter| - 1]) && !Delivered(filter, filter[..|filter| - 1]);
    }
  }

  /** `out` holds the elements of `s` at the positions `from`, in order. */
  ghost predicate Picked(s: seq<Event>, out: seq<Event>, from: seq<int>) {
    && |from| == |out|
    && (forall k :: 0 <= k < |from| ==> 0 <= from[k] < |s| && out[k] == s[from[k]])
    && forall k, l :: 0 <= k < l < |from| ==> from[k] < from[l]
  }

  /** Filtering picks exactly the elements that satisfy `p`, each once and in order. */
  lemma {:induction false} FilterPicks(p: Event -> bool, s: seq<Event>) returns (from: seq<int>)
    ensures Picked(s, Filter(p, s), from) && forall i :: 0 <= i < |s| ==> (i in from <==> p(s[i]))
  {
    from := [];
    if s != [] {
      var n := |s| - 1;
      var front := FilterPicks(p, s[..n]);
      assert s == s[..n] + [s[n]];
      PickMore(s[..n], s[n], Filter(p, s[..n]), front);
      from := if p(s[n]) then front + [n] else front;
      assert forall i :: 0 <= i < n ==> s[..n][i] == s[i];
      hide Picked, Filter;
      assert n !in front;
    }
  }

  lemma PickMore(s: seq<Event>, x: Event, out: seq<Event>, from: seq<int>)
    requires Picked(s, out, from)
    ensures Picked(s + [x], out, from) && Picked(s + [x], out + [x], from + [|s|]) && |s| !in from
  {
  }

  function Filter(p: Event -> bool, s: seq<Event>): seq<Event> {
    if s == [] then []
    else
      var front := Filter(p, s[..|s| - 1]);
      if p(s[|s| - 1]) then front + [s[|s| - 1]] else front
  }

  lemma {:induction false} FilterMembers(p: Event -> bool, s: seq<Event>, e: Event)
    ensures e in Filter(p, s) <==> e in s && p(e)
  {
    if s != [] {
      FilterMembers(p, s[..|s| - 1], e);
      assert s == s[..|s| - 1] + [s[|s| - 1]];
    }
  }

  lemma {:induction false} FilterAgree(p: Event -> bool, q: Event -> bool, s: seq<Event>)
    requires forall e :: e in s ==> p(e) == q(e)
    ensures Filter(p, s) == Filter(q, s)
  {
    if s != [] {
      FilterAgree(p, q, s[..|s| - 1]);
    }
  }

  /** What replay lets through. */
  function Kept(topic: string, last: string): Event -> bool {
    (e: Event) => (last == "" || LexLess(last, e.Id())) && TopicMatches(topic, e.topic)
  }

  /** What a client that has seen everything up to `k` still wants. */
  function Wanted(topic: string, k: Event): Event -> bool {
    (e: Event) => e.seqNo > k.seqNo && TopicMatches(topic, e.topic)
  }

  ghost predicate InOrder(h: seq<Event>) {
    forall i, j :: 0 <= i < j < |h| ==> Precedes(h[i], h[j])
  }

  /** Replaying a buffer after event `k` of the history gives exactly the retained matching events
      published after it, in order, if and only if the id of `k` is comparable with the id of
      every other retained matching event. */
  lemma ReplayExactIff(h: seq<Event>, k: nat, lo: nat, topic: string)
    requires InOrder(h) && k < |h| && lo <= |h|
    ensures Filter(Kept(topic, h[k].Id()), h[lo..]) == Filter(Wanted(topic, h[k]), h[lo..])
       <==> forall j :: lo <= j < |h| && j != k && TopicMatches(topic, h[j].topic) ==>
              if j < k then Comparable(h[j], h[k]) else Comparable(h[k], h[j])
  {
    hide LexLess, TopicMatches, Comparable;
    var p, q, buf := Kept(topic, h[k].Id()), Wanted(topic, h[k]), h[lo..];
    assert h[k].Id() != "";
    forall j | lo <= j < |h|
      ensures p(h[j]) == q(h[j]) <==>
              (j != k && TopicMatches(topic, h[j].topic) ==> if j < k then Comparable(h[j], h[k])
                else Comparable(h[k], h[j]))
    {
      ReplayedIff(h, k, j, topic);
    }
    if forall j :: lo <= j < |h| && j != k && TopicMatches(topic, h[j].topic) ==>
         if j < k then Comparable(h[j], h[k]) else Comparable(h[k], h[j]) {
      forall e | e in buf
        ensures p(e) == q(e)
      {
        var i :| 0 <= i < |buf| && buf[i] == e;
        assert h[lo + i] == e;
      }
      FilterAgree(p, q, buf);
    }
    if Filter(p, buf) == Filter(q, buf) {
      forall j | lo <= j < |h|
        ensures p(h[j]) == q(h[j])
      {
        assert h[j] == buf[j - lo];
        FilterMembers(p, buf, h[j]);
        FilterMembers(q, buf, h[j]);
      }
    }
  }

  lemma ReplayedIff(h: seq<Event>, k: nat, j: nat, topic: string)
    requires InOrder(h) && k < |h| && j < |h|
    ensures Kept(topic, h[k].Id())(h[j]) == Wanted(topic, h[k])(h[j]) <==>
            (j != k && TopicMatches(topic, h[j].topic) ==> if j < k then Comparable(h[j], h[k])
              else Comparable(h[k], h[j]))
  {
    hide LexLess, TopicMatches, Comparable;
    if j < k {
      IdOrderIff(h[j], h[k]);
    } else if j > k {
      IdOrderIff(h[k], h[j]);
    } else {
      LexTotal(h[k].Id(), h[k].Id());
    }
  }

  // ---------------------------------------------------------------------------
  // The buffer
  // ---------------------------------------------------------------------------

  /** The history from `lo` on fits the buffer, and all but its newest event are inside the window. */
  ghost predicate Fits(h: seq<Event>, lo: int, cap: nat, cutoff: int) {
    0 <= lo <= |h| && |h| - lo <= cap && forall i :: lo <= i < |h| - 1 ==> h[i].at > cutoff
  }

  /** It is the longest such suffix. */
  ghost predicate Longest(h: seq<Event>, lo: int, cap: nat, cutoff: int) {
    Fits(h, lo, cap, cutoff) && forall l :: 0 <= l < lo ==> !Fits(h, l, cap, cutoff)
  }

  ghost predicate Timed(h: seq<Event>) {
    forall i, j :: 0 <= i < j < |h| ==> h[i].at <= h[j].at
  }

  ghost predicate Numbered(h: seq<Event>, n: nat) {
    forall i :: 0 <= i < |h| ==> h[i].seqNo <= n
  }

  /** Dropping the expired head and then the excess of the old buffer gives the longest suffix again. */
  lemma LongestAfterAppend(h: seq<Event>, ev: Event, lo: int, cap: nat, cutoff: int, cutoff': int, drop: nat)
    requires cap >= 1 && cutoff <= cutoff' && Timed(h + [ev])
    requires Longest(h, lo, cap, cutoff) && lo + drop <= |h|
    requires forall i :: lo <= i < lo + drop ==> h[i].at <= cutoff'
    requires lo + drop < |h| ==> h[lo + drop].at > cutoff'
    ensures var n := |h| + 1;
      Longest(h + [ev], if n - (lo + drop) > cap then n - cap else lo + drop, cap, cutoff')
  {
    var h', n := h + [ev], |h| + 1;
    var lo' := if n - (lo + drop) > cap then n - cap else lo + drop;
    forall i | lo' <= i < n - 1 ensures h'[i].at > cutoff' {
      assert h'[lo + drop].at <= h'[i].at;
    }
    forall l | 0 <= l < lo' ensures !Fits(h', l, cap, cutoff') {
      if n - l <= cap {
        if l >= lo {
          assert h'[l].at <= cutoff';
        } else {
          assert !Fits(h, l, cap, cutoff);
          var i :| l <= i < |h| - 1 && h[i].at <= cutoff;
          assert h'[i].at <= cutoff';
        }
      }
    }
  }

  /** Where the buffer starts in the history after one more event. */
  lemma AppendedFrom(h: seq<Event>, ev: Event, lo: nat, cap: nat, cutoff: int, cutoff': int, drop: nat)
      returns (lo': nat)
    requires cap >= 1 && (cutoff <= cutoff' || h == []) && lo + drop <= |h|
      && (Timed(h) ==> Longest(h, lo, cap, cutoff))
    requires forall i :: 0 <= i < drop ==> h[lo..][i].at <= cutoff'
    requires lo + drop < |h| ==> h[lo..][drop].at > cutoff'
    ensures lo' <= |h| && (Timed(h + [ev]) ==> Longest(h + [ev], lo', cap, cutoff'))
    ensures (h + [ev])[lo'..] == Appended(h[lo..], ev, cutoff', cap)
  {
    UnexpiredIs(h[lo..], cutoff', drop);
    lo' := if |h| + 1 - (lo + drop) > cap then |h| + 1 - cap else lo + drop;
    forall i | lo <= i < lo + drop ensures h[i].at <= cutoff' {
      assert h[i] == h[lo..][i - lo];
    }
    if h != [] && Timed(h + [ev]) {
      TimedBefore(h, ev);
      LongestAfterAppend(h, ev, lo, cap, cutoff, cutoff', drop);
    }
    assert h[lo..][drop..] + [ev] == (h + [ev])[lo + drop..];
    hide Unexpired, Longest, Timed;
  }

  lemma TimedBefore(h: seq<Event>, ev: Event)
    requires Timed(h + [ev])
    ensures Timed(h)
  {
    assert forall i :: 0 <= i < |h| ==> (h + [ev])[i] == h[i];
  }

  /** The buffer without its expired head. */
  function Unexpired(buf: seq<Event>, cutoff: int): seq<Event> {
    if buf != [] && buf[0].at <= cutoff then Unexpired(buf[1..], cutoff) else buf
  }

  /** What one append does to a buffer. */
  function Appended(buf: seq<Event>, ev: Event, cutoff: int, cap: nat): seq<Event> {
    var kept := Unexpired(buf, cutoff) + [ev];
    if |kept| > cap then kept[|kept| - cap..] else kept
  }

  lemma {:induction false} UnexpiredIs(buf: seq<Event>, cutoff: int, drop: nat)
    requires drop <= |buf| && (forall i :: 0 <= i < drop ==> buf[i].at <= cutoff)
      && (drop < |buf| ==> buf[drop].at > cutoff)
    ensures Unexpired(buf, cutoff) == buf[drop..]
  {
    if drop > 0 {
      UnexpiredIs(buf[1..], cutoff, drop - 1);
      assert buf[1..][drop - 1..] == buf[drop..];
    }
  }

  /** Computed with the number of expired events at its head. */
  lemma AppendedBy(buf: seq<Event>, ev: Event, cutoff: int, cap: nat, drop: nat)
    requires drop <= |buf| && (forall i :: 0 <= i < drop ==> buf[i].at <= cutoff)
      && (drop < |buf| ==> buf[drop].at > cutoff)
    ensures var kept := buf[drop..] + [ev];
      Appended(buf, ev, cutoff, cap) == if |kept| > cap then kept[|kept| - cap..] else kept
    ensures |Appended(buf, ev, cutoff, cap)| <= cap
  {
    UnexpiredIs(buf, cutoff, drop);
  }

  /** Stamps that go back, as concurrent publishers can produce them, break the time bound: an expired
      event behind a fresh one survives, and becomes the head of the buffer when that one is pushed out. */
  lemma UnorderedKeepsExpired(a: Event, b: Event, c: Event, cutoff: int)
    requires a.at > cutoff && b.at <= cutoff
    ensures Appended([a, b], c, cutoff, 2) == [b, c]
    ensures !Timed([a, b, c]) && !Fits([a, b, c], 1, 2, cutoff)
  {
    var h := [a, b, c];
    assert h[0].at > h[1].at && h[1..] == [b, c];
    assert ([a, b] + [c])[1..] == [b, c];
  }

  /** What serial publishing has made of the history when the next event is stamped `ms`. */
  ghost predicate Serial(h: seq<Event>, n: nat, ms: nat) {
    InOrder(h) && Numbered(h, n) && forall i :: 0 <= i < |h| ==> h[i].ms <= ms
  }

  /** The ids of a serial publisher come out in order. */
  lemma SerialInOrder(h: seq<Event>, n: nat, ev: Event)
    requires Serial(h, n, ev.ms) && ev.seqNo == n + 1
    ensures InOrder(h + [ev]) && Numbered(h + [ev], n + 1)
  {
  }

  class Bus {
    var buf: seq<Event>
    var seqNo: nat
    const cap: nat
    const retention: int

    ghost var history: seq<Event>
    ghost var lo: nat
    ghost var cutoff: int

    /** The buffer is a suffix of everything ever appended that fits its capacity; and the longest one
        that meets both bounds, if the stamps come in order. */
    ghost predicate Valid()
      reads this
    {
      && cap >= 1 && retention > 0
      && lo <= |history| && buf == history[lo..] && |buf| <= cap
      && (Timed(history) ==> Longest(history, lo, cap, cutoff))
    }

    constructor (bufferCap: int, keep: int)
      ensures Valid() && history == [] && buf == [] && seqNo == 0
      ensures cap == (if bufferCap <= 0 then 1000 else bufferCap)
      ensures retention == if keep <= 0 then 30_000_000_000 else keep
    {
      cap := if bufferCap <= 0 then 1000 else bufferCap;
      retention := if keep <= 0 then 30_000_000_000 else keep;
      buf, seqNo, history, lo, cutoff := [], 0, [], 0, -1_000_000_000_000_000_000;
    }

    /** The loop over the expired head. */
    method CountExpired(edge: int) returns (drop: nat)
      ensures drop <= |buf| && (forall i :: 0 <= i < drop ==> buf[i].at <= edge)
        && (drop < |buf| ==> buf[drop].at > edge)
    {
      drop := 0;
      while drop < |buf| && !(buf[drop].at > edge)
        invariant 0 <= drop <= |buf|
        invariant forall i :: 0 <= i < drop ==> buf[i].at <= edge
      {
        drop := drop + 1;
      }
    }

    /** bufferAppend at time `now`, read under the buffer's own lock. The event may carry any stamp. */
    method BufferAppend(ev: Event, now: int)
      requires Valid() && (now - retention >= cutoff || history == [])
      modifies this`buf, this`history, this`lo, this`cutoff
      ensures Valid() && history == old(history) + [ev] && cutoff == now - retention
      ensures buf == Appended(old(buf), ev, now - retention, cap)
    {
      hide Longest, Timed, Appended;
      var edge := now - retention;
      var drop := CountExpired(edge);
      AppendedBy(buf, ev, edge, cap, drop);
      ghost var lo' := AppendedFrom(history, ev, lo, cap, cutoff, edge, drop);
      history, lo, cutoff := history + [ev], lo', edge;
      if drop > 0 {
        buf := buf[drop..];
      }
      buf := buf + [ev];
      if |buf| > cap {
        buf := buf[|buf| - cap..];
      }
    }

    /** Publish, with the clock read for the id, for the stamp and for the eviction. Its event has the next
        sequence number; and if those before it came from serial publishing, so does the history with it. */
    method Publish(topic: string, kind: string, ms: nat, at: int, now: int) returns (ev: Event)
      requires Valid() && (now - retention >= cutoff || history == [])
      modifies this
      ensures Valid() && history == old(history) + [ev] && cutoff == now - retention
      ensures ev == Event(ms, old(seqNo) + 1, topic, kind, at) && seqNo == old(seqNo) + 1
      ensures old(Serial(history, seqNo, ms)) ==> InOrder(history) && Numbered(history, seqNo)
    {
      hide InOrder, Numbered, Serial, Longest, Timed, Appended;
      seqNo := seqNo + 1;
      ev := Event(ms, seqNo, topic, kind, at);
      if Serial(history, seqNo - 1, ms) {
        SerialInOrder(history, seqNo - 1, ev);
      }
      BufferAppend(ev, now);
    }

    method Replay(topic: string, last: string) returns (out: seq<Event>, ghost from: seq<int>)
      ensures out == Filter(Kept(topic, last), buf)
      ensures Picked(buf, out, from)
      ensures forall i :: 0 <= i < |buf| ==>
        (i in from <==> (last == "" || LexLess(last, buf[i].Id())) && Selects(topic, buf[i].topic))
    {
      out := [];
      for i := 0 to |buf|
        invariant out == Filter(Kept(topic, last), buf[..i])
      {
        var ev := buf[i];
        assert buf[..i + 1][..i] == buf[..i];
        if last != "" && !LexLess(last, ev.Id()) {
          continue;
        }
        if !TopicMatches(topic, ev.topic) {
          continue;
        }
        out := out + [ev];
      }
      assert buf[..|buf|] == buf;
      from := FilterPicks(Kept(topic, last), buf);
      forall i | 0 <= i < |buf|
        ensures i in from <==> (last == "" || LexLess(last, buf[i].Id())) && Selects(topic, buf[i].topic)
      {
        TopicMatchesIff(topic, buf[i].topic);
      }
    }

    /** Resuming after event `k` of this bus's history, published in order. */
    method Resume(topic: string, ghost k: nat, last: string) returns (out: seq<Event>)
      requires Valid() && InOrder(history) && k < |history| && last == history[k].Id()
      ensures out == Filter(Wanted(topic, history[k]), history[lo..])
         <==> forall j :: lo <= j < |history| && j != k && TopicMatches(topic, history[j].topic) ==>
                if j < k then Comparable(history[j], history[k]) else Comparable(history[k], history[j])
    {
      ghost var from;
      out, from := Replay(topic, last);
      ReplayExactIff(history, k, lo, topic);
    }
  }
}
