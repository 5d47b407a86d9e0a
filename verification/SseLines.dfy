/** The log stream writer: bytes arrive in chunks of any size and leave as whole lines. */
module SseLines {

  newtype byte = x: int | 0 <= x < 256
  type Bytes = seq<byte>

  const LF: byte := 10
  const CR: byte := 13

  /** Without its trailing carriage returns. */
  function TrimRight(s: Bytes): (r: Bytes)
    ensures r <= s && (forall i :: |r| <= i < |s| ==> s[i] == CR) && (r == [] || r[|r| - 1] != CR)
  {
    if s != [] && s[|s| - 1] == CR then TrimRight(s[..|s| - 1]) else s
  }

  function TrimAll(raw: seq<Bytes>): seq<Bytes> {
    seq(|raw|, i requires 0 <= i < |raw| => TrimRight(raw[i]))
  }

  // ---------------------------------------------------------------------------
  // Splitting a stream into lines
  // ---------------------------------------------------------------------------

  /** The lines with their newlines put back. */
  function Joined(raw: seq<Bytes>): Bytes {
    if raw == [] then [] else Joined(raw[..|raw| - 1]) + raw[|raw| - 1] + [LF]
  }

  /** `s` is these lines, each ended by a newline, and then the tail; nothing else has a newline. */
  ghost predicate IsSplit(raw: seq<Bytes>, tail: Bytes, s: Bytes) {
    && s == Joined(raw) + tail
    && LF !in tail
    && forall i :: 0 <= i < |raw| ==> LF !in raw[i]
  }

  lemma JoinedEnds(raw: seq<Bytes>)
    requires raw != []
    ensures Joined(raw) != [] && Joined(raw)[|Joined(raw)| - 1] == LF
  {
  }

  /** A stream splits in one way only. */
  lemma {:induction false} SplitUnique(raw: seq<Bytes>, tail: Bytes, raw': seq<Bytes>, tail': Bytes, s: Bytes)
    requires IsSplit(raw, tail, s) && IsSplit(raw', tail', s)
    ensures raw == raw' && tail == tail'
    decreases |raw|
  {
    SameTail(Joined(raw), tail, Joined(raw'), tail') by {
      if raw != [] { JoinedEnds(raw); }
      if raw' != [] { JoinedEnds(raw'); }
    }
    assert Joined(raw) == Joined(raw');
    if raw == [] {
      if raw' != [] {
        JoinedEnds(raw');
      }
    } else {
      JoinedEnds(raw);
      var n, n' := |raw| - 1, |raw'| - 1;
      var front, front' := raw[..n], raw'[..n'];
      assert Joined(raw) == Joined(front) + raw[n] + [LF] && Joined(raw') == Joined(front') + raw'[n'] + [LF];
      var body := Joined(front) + raw[n];
      assert Joined(raw)[..|Joined(raw)| - 1] == body;
      assert Joined(raw')[..|Joined(raw')| - 1] == Joined(front') + raw'[n'];
      SplitUnique(front, raw[n], front', raw'[n'], body);
      assert raw == front + [raw[n]] && raw' == front' + [raw'[n']];
    }
  }

  lemma SameTail(a: Bytes, t: Bytes, b: Bytes, u: Bytes)
    requires a + t == b + u && LF !in t && LF !in u
    requires a == [] || a[|a| - 1] == LF
    requires b == [] || b[|b| - 1] == LF
    ensures a == b && t == u
  {
    TailNoLonger(a, t, b, u);
    TailNoLonger(b, u, a, t);
    assert (a + t)[..|a|] == a && (b + u)[..|b|] == b;
    assert (a + t)[|a|..] == t && (b + u)[|b|..] == u;
  }

  lemma TailNoLonger(a: Bytes, t: Bytes, b: Bytes, u: Bytes)
    requires a + t == b + u && LF !in t
    requires b == [] || b[|b| - 1] == LF
    ensures |b| <= |a|
  {
    var s := a + t;
    assert forall i :: |a| <= i < |s| ==> s[i] == t[i - |a|];
    assert b != [] ==> s[|b| - 1] == LF;
  }

  /** Every stream splits. */
  lemma {:induction false} SplitExists(s: Bytes) returns (raw: seq<Bytes>, tail: Bytes)
    ensures IsSplit(raw, tail, s)
  {
    if s == [] {
      raw, tail := [], [];
    } else {
      var r, t := SplitExists(s[..|s| - 1]);
      var b := s[|s| - 1];
      assert s == s[..|s| - 1] + [b];
      if b == LF {
        raw, tail := r + [t], [];
        JoinedPush(r, t);
      } else {
        raw, tail := r, t + [b];
      }
    }
  }

  // ---------------------------------------------------------------------------
  // The writer
  // ---------------------------------------------------------------------------

  method BytesIndexByte(b: Bytes, c: byte) returns (i: int)
    ensures i == -1 <==> c !in b
    ensures i != -1 ==> 0 <= i < |b| && b[i] == c && c !in b[..i]
  {
    for k := 0 to |b|
      invariant c !in b[..k]
    {
      if b[k] == c {
        return k;
      }
    }
    return -1;
  }

  /** One line taken off the front of the buffer. */
  lemma TakeLine(raw: seq<Bytes>, buf: Bytes, i: nat, s: Bytes)
    requires s == Joined(raw) + buf && i < |buf| && buf[i] == LF && LF !in buf[..i]
    requires forall k :: 0 <= k < |raw| ==> LF !in raw[k]
    ensures s == Joined(raw + [buf[..i]]) + buf[i + 1..]
    ensures forall k :: 0 <= k < |raw| + 1 ==> LF !in (raw + [buf[..i]])[k]
    ensures TrimAll(raw + [buf[..i]]) == TrimAll(raw) + [TrimRight(buf[..i])]
  {
    JoinedPush(raw, buf[..i]);
    TrimPush(raw, buf[..i]);
    hide Joined, TrimAll, TrimRight;
    Regroup(Joined(raw), buf, i);
  }

  lemma JoinedPush(raw: seq<Bytes>, line: Bytes)
    ensures Joined(raw + [line]) == Joined(raw) + line + [LF]
  {
    assert (raw + [line])[..|raw + [line]| - 1] == raw;
  }

  lemma TrimPush(raw: seq<Bytes>, line: Bytes)
    ensures TrimAll(raw + [line]) == TrimAll(raw) + [TrimRight(line)]
  {
    hide TrimRight;
  }

  lemma Regroup(front: Bytes, buf: Bytes, i: nat)
    requires i < |buf|
    ensures front + buf == front + buf[..i] + [buf[i]] + buf[i + 1..]
  {
  }

  class StreamWriter {
    var buf: Bytes
    var emitted: seq<Bytes>

    ghost var stream: Bytes
    ghost var raw: seq<Bytes>

    /** Everything written so far has been split: the lines are out, trimmed, and the buffer is the
        unterminated tail. */
    ghost predicate Valid()
      reads this
    {
      IsSplit(raw, buf, stream) && emitted == TrimAll(raw)
    }

    constructor ()
      ensures Valid() && stream == [] && emitted == [] && buf == []
    {
      buf, emitted, stream, raw := [], [], [], [];
    }

    method Write(p: Bytes) returns (n: nat)
      requires Valid()
      modifies this
      ensures Valid() && stream == old(stream) + p && n == |p|
      ensures old(emitted) <= emitted
    {
      hide Joined, TrimAll, TrimRight;
      stream := stream + p;
      assert stream == Joined(raw) + (buf + p);
      buf := buf + p;
      while true
        invariant stream == old(stream) + p == Joined(raw) + buf
        invariant forall i :: 0 <= i < |raw| ==> LF !in raw[i]
        invariant emitted == TrimAll(raw) && old(emitted) <= emitted
        decreases |buf|
      {
        var i := BytesIndexByte(buf, LF);
        if i < 0 {
          break;
        }
        TakeLine(raw, buf, i, stream);
        var line := TrimRight(buf[..i]);
        raw := raw + [buf[..i]];
        buf := buf[i + 1..];
        emitted := emitted + [line];
      }
      return |p|;
    }

    /** A whole sequence of writes. */
    method WriteAll(chunks: seq<Bytes>)
      requires Valid()
      modifies this
      ensures Valid() && stream == old(stream) + Concat(chunks)
    {
      for k := 0 to |chunks|
        invariant Valid() && stream == old(stream) + Concat(chunks[..k])
      {
        var _ := Write(chunks[k]);
        assert chunks[..k + 1][..k] == chunks[..k];
      }
      assert chunks[..|chunks|] == chunks;
    }
  }

  function Concat(chunks: seq<Bytes>): Bytes {
    if chunks == [] then [] else Concat(chunks[..|chunks| - 1]) + chunks[|chunks| - 1]
  }

  /** How the stream was cut does not matter: writers that were given the same bytes have emitted
      the same lines and hold the same tail. */
  lemma ChunkInvariance(v: StreamWriter, w: StreamWriter)
    requires v.Valid() && w.Valid() && v.stream == w.stream
    ensures v.emitted == w.emitted && v.buf == w.buf
  {
    SplitUnique(v.raw, v.buf, w.raw, w.buf, v.stream);
  }
}
