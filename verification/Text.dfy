/** White space as Go's strings and unicode packages see it, and prefixes. */
module Text {

  predicate IsSpace(c: char) {
    || '\t' <= c <= '\r' || c == ' ' || c == '\U{85}' || c == '\U{a0}' || c == '\U{1680}'
    || '\U{2000}' <= c <= '\U{200a}' || c == '\U{2028}' || c == '\U{2029}' || c == '\U{202f}'
    || c == '\U{205f}' || c == '\U{3000}'
  }

  predicate Blank(s: string) { forall i :: 0 <= i < |s| ==> IsSpace(s[i]) }

  function TrimLeft(s: string): string {
    if s != [] && IsSpace(s[0]) then TrimLeft(s[1..]) else s
  }

  function TrimRight(s: string): string {
    if s != [] && IsSpace(s[|s| - 1]) then TrimRight(s[..|s| - 1]) else s
  }

  function TrimSpace(s: string): string { TrimRight(TrimLeft(s)) }

  lemma TrimNothing(s: string)
    requires s != [] && !IsSpace(s[0]) && !IsSpace(s[|s| - 1])
    ensures TrimSpace(s) == s
  {
  }

  lemma {:induction false} TrimLeftBlank(s: string)
    ensures TrimLeft(s) == "" <==> Blank(s)
    ensures TrimLeft(s) != "" ==> !IsSpace(TrimLeft(s)[0])
  {
    if s != [] && IsSpace(s[0]) {
      TrimLeftBlank(s[1..]);
    }
  }

  lemma {:induction false} TrimRightKeeps(s: string)
    requires s != "" && !IsSpace(s[0])
    ensures TrimRight(s) != ""
  {
    if IsSpace(s[|s| - 1]) {
      TrimRightKeeps(s[..|s| - 1]);
    }
  }

  /** Trimming leaves nothing exactly of a blank string. */
  lemma BlankIffTrimmedAway(s: string)
    ensures TrimSpace(s) == "" <==> Blank(s)
  {
    TrimLeftBlank(s);
    if !Blank(s) {
      TrimRightKeeps(TrimLeft(s));
    }
  }

  lemma {:induction false} TrimLeftPadded(p: string, s: string)
    requires Blank(p)
    ensures TrimLeft(p + s) == TrimLeft(s)
  {
    if p == "" {
      assert p + s == s;
    } else {
      assert (p + s)[1..] == p[1..] + s;
      TrimLeftPadded(p[1..], s);
    }
  }

  lemma {:induction false} TrimRightPadded(s: string, q: string)
    requires Blank(q)
    ensures TrimRight(s + q) == TrimRight(s)
  {
    if q == "" {
      assert s + q == s;
    } else {
      var n := |q| - 1;
      assert (s + q)[..|s + q| - 1] == s + q[..n];
      TrimRightPadded(s, q[..n]);
    }
  }

  lemma {:induction false} TrimLeftInFront(s: string, q: string)
    requires !Blank(s)
    ensures TrimLeft(s + q) == TrimLeft(s) + q
  {
    assert s != "";
    if IsSpace(s[0]) {
      assert (s + q)[1..] == s[1..] + q;
      TrimLeftInFront(s[1..], q);
    }
  }

  /** White space around a string makes no difference to what trimming leaves. */
  lemma TrimPadded(p: string, s: string, q: string)
    requires Blank(p) && Blank(q)
    ensures TrimSpace(p + s + q) == TrimSpace(s)
  {
    assert p + s + q == p + (s + q);
    TrimLeftPadded(p, s + q);
    if Blank(s) {
      TrimLeftBlank(s + q);
      TrimLeftBlank(s);
    } else {
      TrimLeftInFront(s, q);
      TrimRightPadded(TrimLeft(s), q);
    }
  }

  lemma {:induction false} TrimLeftParts(s: string) returns (p: string)
    ensures Blank(p) && s == p + TrimLeft(s)
  {
    p := "";
    if s != [] && IsSpace(s[0]) {
      var p' := TrimLeftParts(s[1..]);
      p := [s[0]] + p';
      assert s == [s[0]] + s[1..];
    }
  }

  lemma {:induction false} TrimRightParts(s: string) returns (q: string)
    ensures Blank(q) && s == TrimRight(s) + q
    ensures TrimRight(s) != "" ==> !IsSpace(TrimRight(s)[|TrimRight(s)| - 1])
  {
    q := "";
    if s != [] && IsSpace(s[|s| - 1]) {
      var n := |s| - 1;
      var q' := TrimRightParts(s[..n]);
      q := q' + [s[n]];
      assert s == s[..n] + [s[n]];
    }
  }

  /** And white space is all that it takes away. */
  lemma TrimParts(s: string) returns (p: string, q: string)
    ensures Blank(p) && Blank(q) && s == p + TrimSpace(s) + q
  {
    p := TrimLeftParts(s);
    q := TrimRightParts(TrimLeft(s));
  }

  lemma CommonPrefix(p: string, a: string, b: string)
    ensures p + a == p + b <==> a == b
  {
    assert (p + a)[|p|..] == a && (p + b)[|p|..] == b;
  }
}
