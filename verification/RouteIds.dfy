/** The ids by which the proxy's routes are addressed and the addresses they dial: strings computed
    from a host, and from an upstream and a port. */
module RouteIds {
  import opened Decimal
  import opened RouteMap
  import opened Text

  // ---------------------------------------------------------------------------
  // Route ids
  // ---------------------------------------------------------------------------

  /** Eight hex digits computed from a host. */
  type Digest = d: string -> string | forall h :: |d(h)| == 8 witness _ => "00000000"

  function ReplaceAll(s: string, c: char, put: string): string {
    if s == [] then [] else (if s[0] == c then put else [s[0]]) + ReplaceAll(s[1..], c, put)
  }

  function Underscored(host: string): string {
    ReplaceAll(ReplaceAll(ReplaceAll(host, '.', "_"), ':', "_"), '*', "wildcard")
  }

  function Slug(d: Digest, host: string): string {
    var slug := Underscored(host);
    if |slug| > 60 then slug[..60] + "_" + d(host) else slug
  }

  function RouteId(d: Digest, host: string): string { "prexel_route_" + Slug(d, host) }

  function HttpPassthroughRouteId(d: Digest, host: string): string {
    "prexel_http_" + RouteId(d, host)[|"prexel_route_"|..]
  }

  function IdOf(d: Digest, k: RouteKey): string {
    if k.kind.Canonical? then RouteId(d, k.host) else HttpPassthroughRouteId(d, k.host)
  }

  /** Letters, digits, hyphen and dot: what an accepted and normalised host name is made of. */
  predicate HostAlphabet(h: string) {
    forall i :: 0 <= i < |h| ==> 'a' <= h[i] <= 'z' || '0' <= h[i] <= '9' || h[i] == '-' || h[i] == '.'
  }

  lemma {:induction false} ReplaceByOne(s: string, c: char, x: char)
    ensures var r := ReplaceAll(s, c, [x]);
      |r| == |s| && forall i :: 0 <= i < |s| ==> r[i] == if s[i] == c then x else s[i]
  {
    if s != [] {
      ReplaceByOne(s[1..], c, x);
    }
  }

  lemma {:induction false} ReplaceAbsent(s: string, c: char, put: string)
    requires c !in s
    ensures ReplaceAll(s, c, put) == s
  {
    if s != [] {
      ReplaceAbsent(s[1..], c, put);
    }
  }

  /** On the host alphabet the three replacements only turn dots into underscores. */
  lemma SlugOfHost(h: string)
    requires HostAlphabet(h)
    ensures var slug := Underscored(h);
      |slug| == |h| && forall i :: 0 <= i < |h| ==> slug[i] == if h[i] == '.' then '_' else h[i]
  {
    var dots := ReplaceAll(h, '.', "_");
    ReplaceByOne(h, '.', '_');
    ReplaceAbsent(dots, ':', "_");
    ReplaceAbsent(dots, '*', "wildcard");
  }

  /** The ids spelled out: dots become underscores, a wildcard its name, and a long host is cut and told
      apart by its digest. */
  lemma IdsSpelled(d: Digest, h: string)
    requires HostAlphabet(h)
    ensures var dots := seq(|h|, i requires 0 <= i < |h| => if h[i] == '.' then '_' else h[i]);
      var slug := if |h| <= 60 then dots else dots[..60] + "_" + d(h);
      RouteId(d, h) == "prexel_route_" + slug && HttpPassthroughRouteId(d, h) == "prexel_http_" + slug
    ensures Underscored("*." + h) == "wildcard_" + Underscored(h)
  {
    SlugOfHost(h);
    var dots := seq(|h|, i requires 0 <= i < |h| => if h[i] == '.' then '_' else h[i]);
    assert Underscored(h) == dots;
    assert RouteId(d, h)[|"prexel_route_"|..] == Slug(d, h);
    ReplaceJoin("*.", h, '.', "_");
    ReplaceJoin("*_", ReplaceAll(h, '.', "_"), ':', "_");
    ReplaceJoin("*_", ReplaceAll(ReplaceAll(h, '.', "_"), ':', "_"), '*', "wildcard");
    Wildcard();
    hide ReplaceAll;
  }

  lemma Wildcard()
    ensures ReplaceAll("*.", '.', "_") == "*_" && ReplaceAll("*_", ':', "_") == "*_"
    ensures ReplaceAll("*_", '*', "wildcard") == "wildcard_"
  {
    assert "*."[1..] == "." && "."[1..] == "" && "*_"[1..] == "_" && "_"[1..] == "";
  }

  lemma {:induction false} ReplaceJoin(a: string, b: string, c: char, put: string)
    ensures ReplaceAll(a + b, c, put) == ReplaceAll(a, c, put) + ReplaceAll(b, c, put)
  {
    if a == "" {
      assert a + b == b;
    } else {
      assert (a + b)[1..] == a[1..] + b;
      ReplaceJoin(a[1..], b, c, put);
    }
  }

  /** Two different hosts share an id exactly when both are longer than 60 characters, agree on the
      first 60 and have the same digest; in particular ids are injective up to 60 characters. */
  lemma RouteIdClashIff(d: Digest, h: string, g: string)
    requires HostAlphabet(h) && HostAlphabet(g)
    ensures RouteId(d, h) == RouteId(d, g) <==>
            h == g || (|h| > 60 && |g| > 60 && h[..60] == g[..60] && d(h) == d(g))
    ensures HttpPassthroughRouteId(d, h) == HttpPassthroughRouteId(d, g) <==> RouteId(d, h) == RouteId(d, g)
  {
    hide Slug;
    SlugClashIff(d, h, g);
    CommonPrefix("prexel_route_", Slug(d, h), Slug(d, g));
    CommonPrefix("prexel_http_", Slug(d, h), Slug(d, g));
    assert RouteId(d, h)[|"prexel_route_"|..] == Slug(d, h) && RouteId(d, g)[|"prexel_route_"|..] == Slug(d, g);
  }

  lemma SlugClashIff(d: Digest, h: string, g: string)
    requires HostAlphabet(h) && HostAlphabet(g)
    ensures Slug(d, h) == Slug(d, g) <==>
            h == g || (|h| > 60 && |g| > 60 && h[..60] == g[..60] && d(h) == d(g))
  {
    SlugOfHost(h);
    SlugOfHost(g);
    hide Underscored;
    var s, t := Underscored(h), Underscored(g);
    if |h| > 60 && |g| > 60 {
      SameSlugPrefix(h, g, s, t, 60);
      var a, b := Slug(d, h), Slug(d, g);
      assert a[..60] == s[..60] && b[..60] == t[..60] && a[61..] == d(h) && b[61..] == d(g);
    } else if |h| == |g| {
      SameSlugPrefix(h, g, s, t, |h|);
      assert s[..|h|] == s && t[..|h|] == t && h[..|h|] == h && g[..|h|] == g;
    }
  }

  lemma SameSlugPrefix(h: string, g: string, s: string, t: string, n: nat)
    requires HostAlphabet(h) && HostAlphabet(g) && n <= |h| == |s| && n <= |g| == |t|
    requires forall i :: 0 <= i < |h| ==> s[i] == if h[i] == '.' then '_' else h[i]
    requires forall i :: 0 <= i < |g| ==> t[i] == if g[i] == '.' then '_' else g[i]
    ensures s[..n] == t[..n] <==> h[..n] == g[..n]
  {
    if s[..n] == t[..n] {
      forall i | 0 <= i < n ensures h[i] == g[i] {
        assert s[..n][i] == t[..n][i];
      }
    }
    if h[..n] == g[..n] {
      forall i | 0 <= i < n ensures s[i] == t[i] {
        assert h[..n][i] == g[..n][i];
      }
    }
  }

  lemma PrefixesDisjoint(d: Digest, h: string, g: string)
    ensures RouteId(d, h) != HttpPassthroughRouteId(d, g)
  {
    assert RouteId(d, h)[7] == 'r' && HttpPassthroughRouteId(d, g)[7] == 'h';
  }

  // ---------------------------------------------------------------------------
  // Numerals
  // ---------------------------------------------------------------------------

  const MIN_INT: int := -0x8000_0000_0000_0000
  const MAX_INT: int := 0x7fff_ffff_ffff_ffff

  function Numeral(n: int): string { if n < 0 then "-" + Dec(-n) else Dec(n) }

  /** What a decimal numeral with an optional sign stands for. */
  function Parsed(s: string): int
    requires forall i :: 0 <= i < |s| ==> '0' <= s[i] <= '9' || (i == 0 && s[i] == '-')
  {
    if s != [] && s[0] == '-' then -(Val(s[1..]) as int) else Val(s)
  }

  /** 64-bit negation. */
  function Negated(n: int): int { if n == MIN_INT then MIN_INT else -n }

  lemma PowersAddUp()
    ensures Pow10(19) > -MIN_INT
  {
    assert Pow10(5) == 100_000 by { assert Pow10(3) == 1000 by { assert Pow10(1) == 10; } }
    assert Pow10(10) == 100_000 * Pow10(5) by { assert Pow10(7) == 100 * Pow10(5); assert Pow10(9) == 100 * Pow10(7); }
    assert Pow10(15) == 100_000 * Pow10(10) by { assert Pow10(12) == 100 * Pow10(10); assert Pow10(14)
      == 100 * Pow10(12); }
    assert Pow10(17) == 100 * Pow10(15) && Pow10(19) == 100 * Pow10(17);
  }

  /** The digits still to be written. */
  function Pending(m: int): string { if m <= 0 then "" else Dec(m) }

  function LastDigit(m: nat): char { Digit(m % 10) }

  function Rest(m: nat): nat { m / 10 }

  /** The digits of `m` fit in front of position `i`, with a place to spare for a sign. */
  predicate Fits(m: int, i: nat) { i >= 1 && m < Pow10(i - 1) }

  /** One turn of the loop: a digit moves over, and one place of the buffer is used up. */
  lemma OneMoreDigit(m: nat, done: string, i: nat)
    requires m > 0 && Fits(m, i)
    ensures Pending(m) + done == Pending(Rest(m)) + ([LastDigit(m)] + done)
    ensures i >= 2 && Fits(Rest(m), i - 1) && Rest(m) < m
  {
    assert m < 10 ==> Dec(m) == [] + [Digit(m % 10)];
    assert Pending(m) == Pending(m / 10) + [Digit(m % 10)];
  }

  /** The loop: digits go into the buffer from its end. */
  method PutDigits(buf: array<char>, n: int) returns (i: nat)
    requires Fits(n, buf.Length)
    modifies buf
    ensures 1 <= i <= buf.Length && buf[i..] == Pending(n)
  {
    hide *;
    var m := n;
    i := buf.Length;
    ghost var done := "";
    AtEnd(n, i, done);
    while m > 0
      invariant i <= buf.Length && Fits(m, i)
      invariant |done| == buf.Length - i && forall j :: i <= j < buf.Length ==> buf[j] == done[j - i]
      invariant Pending(n) == Pending(m) + done
    {
      OneMoreDigit(m, done, i);
      i := i - 1;
      buf[i] := LastDigit(m);
      done := [LastDigit(m)] + done;
      m := Rest(m);
    }
    AtEnd(m, i, done);
  }

  lemma AtEnd(m: int, i: nat, done: string)
    requires Fits(m, i)
    ensures i >= 1 && (m <= 0 ==> Pending(m) + done == done) && (done == "" ==> Pending(m) + done == Pending(m))
  {
  }

  method Itoa(n: int) returns (s: string)
    requires MIN_INT <= n <= MAX_INT
    ensures s == if n == MIN_INT then "-" else Numeral(n)
  {
    if n == 0 {
      return "0";
    }
    var neg, m := n < 0, n;
    if neg {
      m := Negated(m);
    }
    var buf := new char[20](_ => '0');
    PowersAddUp();
    hide Dec, Pow10;
    var i := PutDigits(buf, m);
    if neg {
      ghost var digits := buf[i..];
      i := i - 1;
      buf[i] := '-';
      assert buf[i..] == "-" + digits;
    }
    return buf[i..];
  }

  /** The numeral reads back for every integer except the smallest one. */
  lemma ItoaReadsBackIff(n: int)
    requires MIN_INT <= n <= MAX_INT
    ensures var s := if n == MIN_INT then "-" else Numeral(n);
      (forall i :: 0 <= i < |s| ==> '0' <= s[i] <= '9' || (i == 0 && s[i] == '-'))
      && (Parsed(s) == n <==> n != MIN_INT)
  {
    if n < 0 {
      ValOfDec(-n);
      assert ("-" + Dec(-n))[1..] == Dec(-n);
      assert "-"[1..] == "";
    } else {
      ValOfDec(n);
    }
  }

  function Dial(t: Target): string { t.upstream + ":" + Numeral(t.port) }

  method JoinHostPort(host: string, port: int) returns (s: string)
    requires MIN_INT < port <= MAX_INT
    ensures s == Dial(Target(host, port))
  {
    var digits := Itoa(port);
    s := host + ":" + digits;
  }

  /** The address a route dials determines the upstream and the port. */
  lemma DialDetermines(t: Target, u: Target)
    requires t.port >= 0 && u.port >= 0 && Dial(t) == Dial(u)
    ensures t == u
  {
    LastColon(t.upstream, Dec(t.port), u.upstream, Dec(u.port));
    ValOfDec(t.port);
    ValOfDec(u.port);
  }

  lemma LastColon(a: string, x: string, b: string, y: string)
    requires ':' !in x && ':' !in y && a + ":" + x == b + ":" + y
    ensures a == b && x == y
  {
    var s := a + ":" + x;
    ColonsEndAt(a, x, |b|);
    assert s == b + ":" + y;
    ColonsEndAt(b, y, |a|);
    assert s[|a| + 1..] == x && s[|b| + 1..] == y;
    assert s[..|a|] == a && s[..|b|] == b;
  }

  lemma ColonsEndAt(a: string, x: string, p: nat)
    requires ':' !in x && p < |a + ":" + x| && (a + ":" + x)[p] == ':'
    ensures p <= |a|
  {
    assert forall i :: |a| < i < |a + ":" + x| ==> (a + ":" + x)[i] == x[i - |a| - 1];
  }
}
