/** The tag dictionary and its reconciliation with the set of names wanted for an app. */
module Tags {
  import opened Wrappers
  import opened Text

  // ---------------------------------------------------------------------------
  // Names
  // ---------------------------------------------------------------------------

  /** Lower-casing, rune by rune. Only its effect on ASCII matters here. */
  type Lower = f: char -> char
    | forall c: char :: c < '\U{80}' ==> f(c) == AsciiLower(c) witness AsciiLower

  function AsciiLower(c: char): char { if 'A' <= c <= 'Z' then c - 'A' + 'a' else c }

  function Lowered(f: Lower, s: string): string { seq(|s|, i requires 0 <= i < |s| => f(s[i])) }

  /** What the regular expression \s matches. */
  predicate RegexSpace(c: char) { c == '\t' || c == '\n' || c == '\U{c}' || c == '\r' || c == ' ' }

  /** Each run of white space becomes one dash. */
  function Collapsed(s: string): string {
    if s == [] then []
    else if !RegexSpace(s[0]) then [s[0]] + Collapsed(s[1..])
    else if |s| > 1 && RegexSpace(s[1]) then Collapsed(s[1..])
    else "-" + Collapsed(s[1..])
  }

  predicate TagChar(c: char) { 'a' <= c <= 'z' || '0' <= c <= '9' || c == '-' }

  function Stripped(s: string): (r: string)
    ensures forall i :: 0 <= i < |r| ==> TagChar(r[i])
  {
    if s == [] then []
    else
      var front := Stripped(s[..|s| - 1]);
      if TagChar(s[|s| - 1]) then front + [s[|s| - 1]] else front
  }

  datatype NameError = Empty | TooLong | BadStart
  datatype Name = Good(name: string) | Bad(error: NameError)

  function Normalize(f: Lower, raw: string): Name {
    var s := Stripped(Collapsed(Lowered(f, TrimSpace(raw))));
    if s == "" then Bad(Empty)
    else if |s| > 40 then Bad(TooLong)
    else if s[0] == '-' then Bad(BadStart)
    else Good(s)
  }

  /** ^[a-z0-9][a-z0-9-]*$, at most 40 characters. */
  predicate Canonical(s: string) {
    1 <= |s| <= 40 && s[0] != '-' && forall i :: 0 <= i < |s| ==> TagChar(s[i])
  }

  lemma {:induction false} CollapseNothing(s: string)
    requires forall i :: 0 <= i < |s| ==> TagChar(s[i])
    ensures Collapsed(s) == s
  {
    if s != [] {
      CollapseNothing(s[1..]);
      assert s == [s[0]] + s[1..];
    }
  }

  lemma {:induction false} StripNothing(s: string)
    requires forall i :: 0 <= i < |s| ==> TagChar(s[i])
    ensures Stripped(s) == s
  {
    if s != [] {
      StripNothing(s[..|s| - 1]);
    }
  }

  /** The accepted names are exactly the canonical ones, and those are what normalisation leaves alone. */
  lemma NormalFormIff(f: Lower, s: string)
    ensures Normalize(f, s) == Good(s) <==> Canonical(s)
  {
    hide Collapsed, TrimSpace, Lowered;
    NormalFormKept(f, s);
  }

  lemma NormalFormKept(f: Lower, s: string)
    ensures Canonical(s) ==> Normalize(f, s) == Good(s)
  {
    hide Collapsed, Stripped, TrimSpace, Lowered;
    if Canonical(s) {
      TrimCanonical(s);
      LowerNothing(f, s);
      CollapseNothing(s);
      StripNothing(s);
    }
  }

  lemma TrimCanonical(s: string)
    requires Canonical(s)
    ensures TrimSpace(s) == s
  {
    assert TagChar(s[0]) && TagChar(s[|s| - 1]);
    TrimNothing(s);
  }

  lemma LowerNothing(f: Lower, s: string)
    requires forall i :: 0 <= i < |s| ==> TagChar(s[i])
    ensures Lowered(f, s) == s
  {
    forall i | 0 <= i < |s| ensures f(s[i]) == s[i] {
      assert TagChar(s[i]);
    }
  }

  lemma NormalizeIdempotent(f: Lower, raw: string)
    ensures Normalize(f, raw).Good? ==> Normalize(f, Normalize(f, raw).name) == Normalize(f, raw)
  {
    if Normalize(f, raw).Good? {
      NormalFormIff(f, Normalize(f, raw).name);
    }
  }

  predicate Ascii(s: string) { forall i :: 0 <= i < |s| ==> s[i] < '\U{80}' }

  lemma {:induction false} TrimLeftLowered(f: Lower, s: string)
    requires Ascii(s)
    ensures TrimLeft(Lowered(f, s)) == Lowered(f, TrimLeft(s)) && Ascii(TrimLeft(s))
  {
    if s != [] && IsSpace(s[0]) {
      TrimLeftLowered(f, s[1..]);
      assert Lowered(f, s)[1..] == Lowered(f, s[1..]);
    }
  }

  lemma {:induction false} TrimRightLowered(f: Lower, s: string)
    requires Ascii(s)
    ensures TrimRight(Lowered(f, s)) == Lowered(f, TrimRight(s)) && Ascii(TrimRight(s))
  {
    if s != [] && IsSpace(s[|s| - 1]) {
      TrimRightLowered(f, s[..|s| - 1]);
      assert Lowered(f, s)[..|s| - 1] == Lowered(f, s[..|s| - 1]);
    }
  }

  /** Names that differ in case only share one tag. */
  lemma CaseDoesNotMatter(f: Lower, s: string, t: string)
    requires Ascii(s) && Ascii(t) && Lowered(f, s) == Lowered(f, t)
    ensures Normalize(f, s) == Normalize(f, t)
  {
    TrimLeftLowered(f, s);
    TrimRightLowered(f, TrimLeft(s));
    TrimLeftLowered(f, t);
    TrimRightLowered(f, TrimLeft(t));
  }

  /** White space around a name makes no difference. */
  lemma PaddingDoesNotMatter(f: Lower, p: string, s: string, q: string)
    requires Blank(p) && Blank(q)
    ensures Normalize(f, p + s + q) == Normalize(f, s)
  {
    hide Lowered, Collapsed, Stripped, TrimSpace;
    TrimPadded(p, s, q);
  }

  ghost predicate Spaces(ws: string) { ws != "" && forall i :: 0 <= i < |ws| ==> RegexSpace(ws[i]) }

  ghost predicate TagChars(s: string) { forall i :: 0 <= i < |s| ==> TagChar(s[i]) }

  lemma {:induction false} CollapseSpaces(ws: string, b: string)
    requires Spaces(ws) && (b == "" || !RegexSpace(b[0]))
    ensures Collapsed(ws + b) == "-" + Collapsed(b)
  {
    assert (ws + b)[1..] == ws[1..] + b;
    if |ws| > 1 {
      CollapseSpaces(ws[1..], b);
    } else {
      assert ws[1..] + b == b;
    }
  }

  lemma {:induction false} CollapseAfterWord(a: string, b: string)
    requires forall i :: 0 <= i < |a| ==> !RegexSpace(a[i])
    ensures Collapsed(a + b) == a + Collapsed(b)
  {
    if a == "" {
      assert a + b == b;
    } else {
      assert (a + b)[1..] == a[1..] + b;
      CollapseAfterWord(a[1..], b);
    }
  }

  lemma CollapseWord(a: string)
    requires forall i :: 0 <= i < |a| ==> !RegexSpace(a[i])
    ensures Collapsed(a) == a
  {
    CollapseAfterWord(a, "");
    assert a + "" == a && Collapsed("") == "";
    hide Collapsed;
  }

  /** A run of white space inside a name becomes one dash, whatever its length: this and what is left
      alone say what collapsing does. */
  lemma CollapsedIs(a: string, ws: string, b: string)
    requires (forall i :: 0 <= i < |a| ==> !RegexSpace(a[i])) && Spaces(ws) && (b == "" || !RegexSpace(b[0]))
    ensures Collapsed(a) == a && Collapsed(a + ws + b) == a + "-" + Collapsed(b)
  {
    hide Collapsed;
    CollapseWord(a);
    CollapseAfterWord(a, ws + b);
    Regrouped(a, ws, b);
    CollapseSpaces(ws, b);
    Regrouped(a, "-", Collapsed(b));
    hide *;
  }

  lemma Regrouped(a: string, b: string, c: string)
    ensures a + b + c == a + (b + c)
  {
  }

  /** Stripping keeps the letters, digits and dashes of both halves, and nothing else. */
  lemma {:induction false} StrippedIs(a: string, b: string, c: char)
    ensures Stripped(a + b) == Stripped(a) + Stripped(b)
    ensures Stripped([c]) == if TagChar(c) then [c] else ""
    decreases |b|
  {
    assert [c][..0] == "";
    if b == "" {
      assert a + b == a;
    } else {
      var n := |b| - 1;
      assert (a + b)[..|a + b| - 1] == a + b[..n];
      StrippedIs(a, b[..n], c);
    }
  }

  /** What a name of letters, digits and dashes comes to. */
  function Judged(s: string): Name {
    if s == "" then Bad(Empty) else if |s| > 40 then Bad(TooLong) else if s[0] == '-' then Bad(BadStart) else Good(s)
  }

  lemma CollapsesTo(f: Lower, raw: string, s: string)
    requires TrimSpace(raw) == raw && Lowered(f, raw) == raw && Collapsed(raw) == s && TagChars(s)
    ensures Normalize(f, raw) == Judged(s)
  {
    hide TrimSpace, Lowered, Collapsed;
    StripNothing(s);
    hide Stripped;
  }

  /** Two words come out joined by one dash, or as an error if that is too long or starts with a dash. */
  lemma WordsAreJoined(f: Lower, a: string, ws: string, b: string)
    requires TagChars(a) && TagChars(b) && a != "" && b != "" && Spaces(ws)
    ensures Normalize(f, a + ws + b) == Judged(a + "-" + b)
  {
    hide TrimSpace, Lowered, Collapsed, Normalize, Judged;
    assert TagChar(b[0]);
    TwoWords(f, a, ws, b);
    CollapsedIs(a, ws, b);
    CollapseNothing(b);
    assert TagChars(a + "-" + b);
    CollapsesTo(f, a + ws + b, a + "-" + b);
  }

  lemma TwoWords(f: Lower, a: string, ws: string, b: string)
    requires TagChars(a) && TagChars(b) && a != "" && b != "" && Spaces(ws)
    ensures TrimSpace(a + ws + b) == a + ws + b && Lowered(f, a + ws + b) == a + ws + b
  {
    hide TrimSpace, Lowered;
    var raw := a + ws + b;
    assert raw[0] == a[0] && raw[|raw| - 1] == b[|b| - 1];
    assert TagChar(a[0]) && TagChar(b[|b| - 1]);
    TrimNothing(raw);
    LowerWords(f, raw);
  }

  /** One word stays as it is, or is refused; and of white space nothing is left. */
  lemma WordIsKept(f: Lower, a: string, ws: string)
    requires TagChars(a) && Blank(ws)
    ensures Normalize(f, ws + a + ws) == Judged(a)
  {
    hide TrimSpace, Lowered, Collapsed;
    PaddingDoesNotMatter(f, ws, a, ws);
    if a == "" {
      NothingLeft(f);
    } else {
      assert TagChar(a[0]) && TagChar(a[|a| - 1]);
      TrimNothing(a);
      LowerNothing(f, a);
      CollapseNothing(a);
      CollapsesTo(f, a, a);
    }
  }

  lemma LowerWords(f: Lower, s: string)
    requires forall i :: 0 <= i < |s| ==> TagChar(s[i]) || RegexSpace(s[i])
    ensures Lowered(f, s) == s
  {
    forall i | 0 <= i < |s| ensures f(s[i]) == s[i] {
      assert TagChar(s[i]) || RegexSpace(s[i]);
    }
  }

  lemma NothingLeft(f: Lower)
    ensures Normalize(f, "") == Bad(Empty)
  {
    assert TrimSpace("") == "";
    assert Lowered(f, "") == "";
  }

  method NormalizeName(f: Lower, raw: string) returns (r: Name)
    ensures r == Normalize(f, raw)
    ensures r.Good? ==> Canonical(r.name)
  {
    var s := Collapsed(Lowered(f, TrimSpace(raw)));
    var b := "";
    for i := 0 to |s|
      invariant b == Stripped(s[..i])
    {
      assert s[..i + 1][..i] == s[..i];
      if TagChar(s[i]) {
        b := b + [s[i]];
      }
    }
    assert s[..|s|] == s;
    if b == "" {
      return Bad(Empty);
    }
    if |b| > 40 {
      return Bad(TooLong);
    }
    if b[0] == '-' {
      return Bad(BadStart);
    }
    return Good(b);
  }

  // ---------------------------------------------------------------------------
  // Tables
  // ---------------------------------------------------------------------------

  datatype Tag = Tag(name: string, color: Option<string>)
  datatype Link = Link(app: string, tag: string)

  type TagTable = map<string, Tag>

  ghost predicate Unique(tags: TagTable) {
    forall i, j :: i in tags && j in tags && tags[i].name == tags[j].name ==> i == j
  }

  ghost predicate Named(tags: TagTable, name: string) { exists i :: i in tags && tags[i].name == name }

  /** Foreign keys: links join existing apps and tags. */
  ghost predicate Linked(links: set<Link>, apps: set<string>, tags: TagTable) {
    forall l :: l in links ==> l.app in apps && l.tag in tags
  }

  /** The names an app carries. */
  ghost predicate Carries(tags: TagTable, links: set<Link>, app: string, name: string) {
    exists i :: i in tags && tags[i].name == name && Link(app, i) in links
  }

  /** From `tags` to `tags'`: rows there before are kept as they are, and what is new is one plain tag
      for a wanted name that had none. */
  ghost predicate Ensured(tags: TagTable, tags': TagTable, names: set<string>) {
    && Unique(tags')
    && (forall i :: i in tags ==> i in tags' && tags'[i] == tags[i])
    && (forall i :: i in tags' && i !in tags ==>
          tags'[i].name in names && tags'[i].color == None && !Named(tags, tags'[i].name))
  }

  /** What a reconciliation comes to. */
  ghost predicate Reconciled(tags: TagTable, links: set<Link>, tags': TagTable, links': set<Link>, app: string,
      names: set<string>) {
    && Ensured(tags, tags', names)
    && (forall n :: n in names ==> Named(tags', n))
    && (forall l: Link :: l.app != app ==> (l in links' <==> l in links))
    && (forall l :: l in links' && l.app == app ==> l.tag in tags' && tags'[l.tag].name in names)
    && (forall i :: i in tags' && tags'[i].name in names ==> Link(app, i) in links')
  }

  /** The app ends up carrying exactly the wanted names. */
  lemma CarriesExactly(tags: TagTable, links: set<Link>, tags': TagTable, links': set<Link>, app: string,
      names: set<string>)
    requires Reconciled(tags, links, tags', links', app, names)
    ensures forall n :: Carries(tags', links', app, n) <==> n in names
  {
    forall n | n in names ensures Carries(tags', links', app, n) {
      assert Named(tags', n);
    }
  }

  /** Doing it again changes nothing. */
  lemma ReconcileIdempotent(tags: TagTable, links: set<Link>, tags': TagTable, links': set<Link>,
                            tags'': TagTable, links'': set<Link>, app: string, names: set<string>)
    requires Reconciled(tags, links, tags', links', app, names)
    requires Reconciled(tags', links', tags'', links'', app, names)
    ensures tags'' == tags' && links'' == links'
  {
    assert forall i :: i in tags'' ==> i in tags';
    assert tags'' == tags';
    forall l: Link | l.app == app ensures l in links'' <==> l in links' {
      assert l == Link(app, l.tag);
    }
  }

  /** The distinct normalised names, in order, up to the first that is not acceptable. */
  function AllNormal(f: Lower, names: seq<string>): (seq<string>, Option<NameError>) {
    if names == [] then ([], None)
    else
      var (front, e) := AllNormal(f, names[..|names| - 1]);
      var last := Normalize(f, names[|names| - 1]);
      if e.Some? then (front, e)
      else if last.Bad? then (front, Some(last.error))
      else if last.name in front then (front, None)
      else (front + [last.name], None)
  }

  /** The set of normalised names. */
  ghost function Wanted(f: Lower, names: seq<string>): set<string> {
    set i | 0 <= i < |names| && Normalize(f, names[i]).Good? :: Normalize(f, names[i]).name
  }

  lemma {:induction false} AllNormalIs(f: Lower, names: seq<string>)
    ensures AllNormal(f, names).1.None? <==> forall i :: 0 <= i < |names| ==> Normalize(f, names[i]).Good?
    ensures AllNormal(f, names).1.None? ==> forall n :: n in AllNormal(f, names).0 <==> n in Wanted(f, names)
    ensures |AllNormal(f, names).0| <= |names|
    ensures forall n :: n in AllNormal(f, names).0 ==> Normalize(f, n) == Good(n)
  {
    hide Normalize;
    if names != [] {
      var k := |names| - 1;
      AllNormalIs(f, names[..k]);
      NormalizeIdempotent(f, names[k]);
      WantedStep(f, names);
    }
  }

  lemma WantedStep(f: Lower, names: seq<string>)
    requires names != []
    ensures var k := |names| - 1; var last := Normalize(f, names[k]);
      Wanted(f, names) == Wanted(f, names[..k]) + if last.Good? then {last.name} else {}
  {
    hide Normalize;
    var k := |names| - 1;
    var front, all := names[..k], Wanted(f, names);
    forall n | n in all
      ensures n in Wanted(f, front) || (Normalize(f, names[k]).Good? && n == Normalize(f, names[k]).name)
    {
      var i :| 0 <= i < |names| && Normalize(f, names[i]).Good? && Normalize(f, names[i]).name == n;
      if i < k {
        assert front[i] == names[i];
      }
    }
    forall n | n in Wanted(f, front)
      ensures n in all
    {
      var i :| 0 <= i < k && Normalize(f, front[i]).Good? && Normalize(f, front[i]).name == n;
      assert front[i] == names[i];
    }
  }

  lemma {:induction false} StaysBad(f: Lower, names: seq<string>, k: nat)
    requires k <= |names| && AllNormal(f, names[..k]).1.Some?
    ensures AllNormal(f, names).1 == AllNormal(f, names[..k]).1
    decreases |names| - k
  {
    if k < |names| {
      assert names[..k + 1][..k] == names[..k];
      StaysBad(f, names, k + 1);
    } else {
      assert names[..k] == names;
    }
  }

  ghost function NameSet(names: seq<string>): set<string> { set n | n in names }

  lemma NameSetStep(names: seq<string>, k: nat)
    requires k < |names|
    ensures NameSet(names[..k + 1]) == NameSet(names[..k]) + {names[k]}
  {
    assert names[..k + 1] == names[..k] + [names[k]];
  }

  lemma WantedIs(f: Lower, names: seq<string>, normal: seq<string>)
    requires forall n :: n in normal <==> n in Wanted(f, names)
    ensures NameSet(normal) == Wanted(f, names)
  {
  }

  /** Nothing wanted means nothing asked for, when every name is acceptable. */
  lemma DesiredEmpty(f: Lower, tags: TagTable, names: seq<string>, desired: set<string>)
    requires forall i :: 0 <= i < |names| ==> Normalize(f, names[i]).Good?
    requires forall n :: n in Wanted(f, names) ==> Named(tags, n)
    requires forall i :: i in desired <==> i in tags && tags[i].name in Wanted(f, names)
    ensures desired == {} ==> names == []
  {
    hide Normalize;
    if names != [] {
      var n := Normalize(f, names[0]).name;
      assert n in Wanted(f, names) && Named(tags, n);
    }
  }

  lemma AddOne(app: string, desired: set<string>, rest: set<string>, id: string)
    requires rest <= desired && id in rest
    ensures (set i | i in desired && i !in rest - {id} :: Link(app, i))
         == (set i | i in desired && i !in rest :: Link(app, i)) + {Link(app, id)}
  {
  }

  lemma ReconciledNow(tags: TagTable, tags': TagTable, links: set<Link>, app: string, desired: set<string>,
      names: set<string>)
    requires Ensured(tags, tags', names) && forall n :: n in names ==> Named(tags', n)
    requires forall i :: i in desired <==> i in tags' && tags'[i].name in names
    ensures var links' := (set l | l in links && (l.app == app ==> l.tag in desired))
      + (set i | i in desired :: Link(app, i));
      Reconciled(tags, links, tags', links', app, names)
  {
    hide Ensured;
  }

  /** One more name looked up or created. */
  lemma EnsuredStep(tags: TagTable, mid: TagTable, tags': TagTable, name: string, id: string, names: set<string>)
    requires Ensured(tags, mid, names)
    requires id !in mid && tags' == if Named(mid, name) then mid else mid[id := Tag(name, None)]
    ensures Ensured(tags, tags', names + {name})
    ensures forall n :: Named(mid, n) ==> Named(tags', n)
  {
    if !Named(mid, name) {
      assert forall i :: i in tags ==> i in mid && mid[i] == tags[i];
      assert !Named(tags, name);
      forall n | Named(mid, n) ensures Named(tags', n) {
        var i :| i in mid && mid[i].name == n;
        assert tags'[i].name == n;
      }
    }
  }

  // ---------------------------------------------------------------------------
  // The service
  // ---------------------------------------------------------------------------

  predicate HexDigit(c: char) { '0' <= c <= '9' || 'a' <= c <= 'f' || 'A' <= c <= 'F' }

  predicate ColorShape(s: string) { |s| == 7 && s[0] == '#' && forall i :: 1 <= i < 7 ==> HexDigit(s[i]) }

  datatype Error = BadName(name: NameError) | BadColor | NoSuchApp
  datatype Result<T> = Ok(value: T) | Err(error: Error)

  function NormalizeColor(color: Option<string>): Result<Option<string>> {
    if color.None? then Ok(None)
    else
      var v := TrimSpace(color.value);
      if v == "" then Ok(None) else if !ColorShape(v) then Err(BadColor) else Ok(Some(v))
  }

  /** A colour is accepted exactly if it is missing, blank, or #rrggbb up to white space around it. */
  lemma ColorIff(color: Option<string>, p: string, v: string, q: string)
    requires Blank(p) && Blank(q)
    ensures NormalizeColor(color) == Ok(None) <==> color == None || Blank(color.value)
    ensures NormalizeColor(Some(p + v + q)) == Ok(Some(v)) <==>
      |v| == 7 && v[0] == '#' && forall i :: 1 <= i < 7 ==> v[i] in "0123456789abcdefABCDEF"
    ensures NormalizeColor(color).Ok? && NormalizeColor(color).value.Some? ==>
      ColorShape(NormalizeColor(color).value.value)
  {
    if color.Some? {
      BlankIffTrimmedAway(color.value);
    }
    TrimPadded(p, v, q);
    ColorChars(v);
    hide Blank, TrimSpace;
    if ColorShape(v) {
      TrimColor(v);
    }
  }

  lemma TrimColor(v: string)
    requires ColorShape(v)
    ensures TrimSpace(v) == v
  {
    assert HexDigit(v[6]);
    TrimNothing(v);
  }

  lemma ColorChars(v: string)
    ensures ColorShape(v) <==>
      |v| == 7 && v[0] == '#' && forall i :: 1 <= i < 7 ==> v[i] in "0123456789abcdefABCDEF"
  {
  }

  class Service {
    var tags: TagTable
    var links: set<Link>
    const apps: set<string>
    const lower: Lower

    ghost predicate Valid()
      reads this
    {
      Unique(tags) && Linked(links, apps, tags)
    }

    constructor (apps: set<string>, lower: Lower)
      ensures Valid() && tags == map[] && links == {} && this.apps == apps && this.lower == lower
    {
      tags, links := map[], {};
      this.apps, this.lower := apps, lower;
    }

    /** Upsert by name: an existing tag is returned as it is, colour and all. `id` is the new id. */
    method Create(raw: string, color: Option<string>, id: string) returns (r: Result<string>)
      requires Valid() && id !in tags
      modifies this`tags
      ensures Valid()
      ensures r.Err? <==> Normalize(lower, raw).Bad? || NormalizeColor(color).Err?
      ensures r.Err? ==> tags == old(tags)
      ensures r.Err? ==>
        r.error == if Normalize(lower, raw).Bad? then BadName(Normalize(lower, raw).error) else BadColor
      ensures r.Ok? ==>
        var n := Normalize(lower, raw).name;
        && r.value in tags && tags[r.value].name == n
        && tags == if Named(old(tags), n) then old(tags) else old(tags)[id := Tag(n, NormalizeColor(color).value)]
    {
      var name := NormalizeName(lower, raw);
      if name.Bad? {
        return Err(BadName(name.error));
      }
      var c := NormalizeColor(color);
      if c.Err? {
        return Err(c.error);
      }
      if i :| i in tags && tags[i].name == name.name {
        return Ok(i);
      }
      tags := tags[id := Tag(name.name, c.value)];
      return Ok(id);
    }

    /** The tags of an app. */
    method ListForApp(app: string) returns (ids: set<string>)
      requires Valid()
      ensures forall i :: i in ids <==> Link(app, i) in links
    {
      ids := set l | l in links && l.app == app :: l.tag;
      assert forall i :: Link(app, i) in links ==> Link(app, i).tag in ids;
    }

    method Detach(app: string, tag: string)
      requires Valid()
      modifies this`links
      ensures Valid() && links == old(links) - {Link(app, tag)}
    {
      links := links - {Link(app, tag)};
    }

    /** A foreign key refuses links to apps that do not exist. */
    method Attach(app: string, tag: string) returns (ok: bool)
      requires Valid() && tag in tags
      modifies this`links
      ensures Valid() && ok == (app in apps)
      ensures links == if ok then old(links) + {Link(app, tag)} else old(links)
    {
      if app !in apps {
        return false;
      }
      links := links + {Link(app, tag)};
      return true;
    }

    /** Normalise every name before anything else. */
    method NormalizeAll(names: seq<string>) returns (r: Result<seq<string>>)
      ensures r == if AllNormal(lower, names).1.Some? then Err(BadName(AllNormal(lower, names).1.value))
                   else Ok(AllNormal(lower, names).0)
    {
      var normalized, seen := [], {};
      for k := 0 to |names|
        invariant (normalized, None) == AllNormal(lower, names[..k])
        invariant seen == set n | n in normalized
      {
        assert names[..k + 1][..k] == names[..k];
        var n := NormalizeName(lower, names[k]);
        if n.Bad? {
          StaysBad(lower, names, k + 1);
          return Err(BadName(n.error));
        }
        if n.name in seen {
          continue;
        }
        seen := seen + {n.name};
        normalized := normalized + [n.name];
      }
      assert names[..|names|] == names;
      return Ok(normalized);
    }

    /** Look every name up, creating the tags that do not exist yet. */
    method EnsureAll(names: seq<string>, ids: seq<string>) returns (desired: set<string>)
      requires Valid() && |names| <= |ids|
      requires forall i, j :: 0 <= i < j < |ids| ==> ids[i] != ids[j]
      requires forall i :: 0 <= i < |ids| ==> ids[i] !in tags
      requires forall n :: n in names ==> Normalize(lower, n) == Good(n)
      modifies this`tags
      ensures Valid() && Ensured(old(tags), tags, NameSet(names))
      ensures forall n :: n in NameSet(names) ==> Named(tags, n)
      ensures forall i :: i in desired <==> i in tags && tags[i].name in NameSet(names)
    {
      hide Normalize, AllNormal;
      desired := {};
      ghost var done: set<string> := {};
      for k := 0 to |names|
        invariant Valid() && done == NameSet(names[..k]) && Ensured(old(tags), tags, done)
        invariant forall i :: k <= i < |ids| ==> ids[i] !in tags
        invariant forall n :: n in done ==> Named(tags, n)
        invariant forall i :: i in desired <==> i in tags && tags[i].name in done
      {
        ghost var before := tags;
        var r := Create(names[k], None, ids[k]);
        desired := desired + {r.value};
        NameSetStep(names, k);
        EnsuredStep(old(tags), before, tags, names[k], ids[k], done);
        ghost var n := names[k];
        hide Ensured, NameSet;
        done := done + {n};
      }
      assert names[..|names|] == names;
    }

    /** Detach the tags that are no longer wanted. */
    method DetachExtras(app: string, current: set<string>, desired: set<string>)
      requires Valid() && forall i :: i in current <==> Link(app, i) in links
      modifies this`links
      ensures Valid()
      ensures links == set l | l in old(links) && (l.app == app ==> l.tag in desired)
    {
      var rest := current;
      while rest != {}
        invariant Valid() && rest <= current
        invariant links == set l | l in old(links) && (l.app == app ==> l.tag in desired || l.tag in rest)
        decreases |rest|
      {
        var id :| id in rest;
        rest := rest - {id};
        if id !in desired {
          Detach(app, id);
        }
      }
    }

    method AttachAll(app: string, desired: set<string>) returns (ok: bool)
      requires Valid() && forall i :: i in desired ==> i in tags
      modifies this`links
      ensures Valid() && ok == (app in apps || desired == {})
      ensures links == if ok then old(links) + (set i | i in desired :: Link(app, i)) else old(links)
    {
      var rest := desired;
      while rest != {}
        invariant Valid() && rest <= desired && (app in apps || rest == desired)
        invariant links == old(links) + (set i | i in desired && i !in rest :: Link(app, i))
        decreases |rest|
      {
        var id :| id in rest;
        ok := Attach(app, id);
        if !ok {
          return false;
        }
        AddOne(app, desired, rest, id);
        rest := rest - {id};
      }
      return true;
    }

    /** Reconcile the app's tags with the names wanted. `ids` are the ids new tags would get. */
    method SetAppTags(app: string, names: seq<string>, ids: seq<string>) returns (r: Result<set<string>>)
      requires Valid() && |names| <= |ids|
      requires forall i, j :: 0 <= i < j < |ids| ==> ids[i] != ids[j]
      requires forall i :: 0 <= i < |ids| ==> ids[i] !in tags
      modifies this`tags, this`links
      ensures Valid()
      ensures (r.Err? && r.error.BadName?) <==> exists i :: 0 <= i < |names| && Normalize(lower, names[i]).Bad?
      ensures r.Err? && r.error.BadName? ==> tags == old(tags) && links == old(links)
      ensures r.Err? && !r.error.BadName? ==>
        r.error == NoSuchApp && app !in apps && names != [] && links == old(links)
          && Ensured(old(tags), tags, Wanted(lower, names))
      ensures r.Ok? ==>
        && (app in apps || names == [])
        && Reconciled(old(tags), old(links), tags, links, app, Wanted(lower, names))
        && forall i :: i in r.value <==> Link(app, i) in links
    {
      hide Normalize, AllNormal, Ensured, Reconciled, Wanted, Unique, Named;
      AllNormalIs(lower, names);
      var wanted := NormalizeAll(names);
      if wanted.Err? {
        return Err(wanted.error);
      }
      WantedIs(lower, names, wanted.value);
      var desired := EnsureAll(wanted.value, ids);
      var current := ListForApp(app);
      ghost var links0 := links;
      DetachExtras(app, current, desired);
      var ok := AttachAll(app, desired);
      if !ok {
        assert links == links0;
        return Err(NoSuchApp);
      }
      ReconciledNow(old(tags), tags, links0, app, desired, NameSet(wanted.value));
      assert app in apps || names == [] by { DesiredEmpty(lower, tags, names, desired); }
      current := ListForApp(app);
      return Ok(current);
    }
  }
}
