/** The container names of a multi-service app: a canonical, a legacy and a temporary one for each
    service, and when they get in each other's way. */
module ComposeNames {
  import opened Docker
  import opened Text

  // ---------------------------------------------------------------------------
  // Names
  // ---------------------------------------------------------------------------

  function CanonicalName(app: string, service: string): string { app + "-" + service }

  function LegacyName(app: string, service: string): string { "prexel-" + app + "-" + service }

  function NoDashes(id: string): string {
    if id == [] then [] else (if id[0] == '-' then [] else [id[0]]) + NoDashes(id[1..])
  }

  function ShortDeployId(id: string): string {
    var s := NoDashes(id);
    if |s| > 7 then s[..7] else s
  }

  function TempName(app: string, service: string, id: string): string {
    CanonicalName(app, service) + "-deploying-" + ShortDeployId(id)
  }

  lemma {:induction false} NoDashesJoin(a: string, b: string)
    ensures NoDashes(a + b) == NoDashes(a) + NoDashes(b)
  {
    if a == "" {
      assert a + b == b;
    } else {
      assert (a + b)[1..] == a[1..] + b;
      NoDashesJoin(a[1..], b);
    }
  }

  lemma {:induction false} NoDashesKeeps(a: string)
    requires forall i :: 0 <= i < |a| ==> a[i] != '-'
    ensures NoDashes(a) == a
  {
    if a != "" {
      NoDashesKeeps(a[1..]);
    }
  }

  /** The short id is the first seven characters, dashes not counted. */
  lemma ShortDeployIdIs(p: string, rest: string, a: string, b: string)
    requires forall i :: 0 <= i < |p| ==> p[i] != '-'
    ensures |p| == 7 ==> ShortDeployId(p + rest) == p
    ensures |p| <= 7 ==> ShortDeployId(p) == p
    ensures ShortDeployId(a + "-" + b) == ShortDeployId(a + b)
  {
    OneDash();
    hide NoDashes;
    NoDashesKeeps(p);
    NoDashesJoin(p, rest);
    NoDashesJoin(a, b);
    NoDashesJoin(a, "-");
    NoDashesJoin(a + "-", b);
  }

  lemma OneDash()
    ensures NoDashes("-") == ""
  {
    assert "-"[1..] == "";
  }

  function Repeated(k: nat): string { if k == 0 then "" else "prexel-" + Repeated(k - 1) }

  /** prexel, prexel-prexel, ... */
  ghost predicate Echoing(app: string) { exists k: nat :: app + "-" == Repeated(k) }

  lemma {:induction false} RepeatedFromBothEnds(k: nat)
    ensures "prexel-" + Repeated(k) == Repeated(k) + "prexel-"
  {
    if k > 0 {
      RepeatedFromBothEnds(k - 1);
      assert "prexel-" + (Repeated(k - 1) + "prexel-") == "prexel-" + Repeated(k - 1) + "prexel-";
    }
  }

  lemma {:induction false} EchoOf(a: string, s: string, t: string) returns (k: nat)
    requires a == "" || a[|a| - 1] == '-'
    requires "prexel-" + a + s == a + t
    ensures a == Repeated(k)
    decreases |a|
  {
    var p := "prexel-";
    if a == "" {
      k := 0;
    } else {
      var whole := a + t;
      assert forall i :: 0 <= i < |a| ==> whole[i] == a[i];
      assert forall i :: 0 <= i < 7 ==> whole[i] == p[i];
      assert forall i :: 0 <= i < 6 ==> p[i] != '-';
      var b := a[7..];
      assert a == p + b;
      assert p + a + s == p + (p + b + s) && a + t == p + (b + t);
      assert p + b + s == b + t by { CommonPrefix(p, p + b + s, b + t); }
      var j := EchoOf(b, s, t);
      k := j + 1;
    }
  }

  lemma CommonSuffix(a: string, b: string, q: string)
    ensures a + q == b + q <==> a == b
  {
    assert |a| == |b| ==> (a + q)[..|a|] == a && (b + q)[..|a|] == b;
  }

  /** A legacy name is another service's canonical name exactly in the apps called prexel,
      prexel-prexel, and so on, and there exactly for the service named with the prefix in front. */
  lemma LegacyClashIff(app: string, s: string, t: string)
    ensures LegacyName(app, s) == CanonicalName(app, t) <==> Echoing(app) && t == "prexel-" + s
  {
    var a, p := app + "-", "prexel-";
    assert LegacyName(app, s) == p + a + s && CanonicalName(app, t) == a + t;
    if LegacyName(app, s) == CanonicalName(app, t) {
      var k := EchoOf(a, s, t);
    }
    if Echoing(app) {
      var k: nat :| a == Repeated(k);
      RepeatedFromBothEnds(k);
      assert p + a + s == a + (p + s);
      CommonPrefix(a, p + s, t);
    }
  }

  // ---------------------------------------------------------------------------
  // Slots
  // ---------------------------------------------------------------------------

  datatype Service = Service(name: string, image: string, ports: seq<int>)
  datatype App = App(id: string, name: string, dockerLabels: map<string, string>)

  /** One service of a deploy: the names in play and the container to install. */
  datatype Slot = Slot(service: string, canonical: string, legacy: string, temp: string, cand: Container,
      ports: seq<int>)

  function LabelsFor(a: App, deploy: string, service: string): map<string, string> {
    a.dockerLabels
    + map["prexel.app_id" := a.id, "prexel.app_name" := a.name, "prexel.deployment" := deploy,
          "prexel.role" := "candidate", "prexel.compose" := "true", "prexel.service" := service,
          "com.docker.compose.project" := a.name, "com.docker.compose.service" := service,
          "com.docker.compose.container-number" := "1", "com.docker.compose.oneoff" := "False"]
  }

  function SlotFor(a: App, deploy: string, s: Service): Slot {
    var canonical, temp := CanonicalName(a.name, s.name), TempName(a.name, s.name, deploy);
    Slot(s.name, canonical, LegacyName(a.name, s.name), temp,
         Container({s.name, canonical, temp}, s.image, true, LabelsFor(a, deploy, s.name)), s.ports)
  }

  function SlotsFor(a: App, deploy: string, services: seq<Service>): seq<Slot> {
    seq(|services|, i requires 0 <= i < |services| => SlotFor(a, deploy, services[i]))
  }

  ghost predicate TempsDistinct(slots: seq<Slot>) {
    forall i, j :: 0 <= i < j < |slots| ==> slots[i].temp != slots[j].temp
  }

  ghost predicate CanonicalsDistinct(slots: seq<Slot>) {
    forall i, j :: 0 <= i < j < |slots| ==> slots[i].canonical != slots[j].canonical
  }

  /** When its turn comes a service still has its candidate, and from then on nobody removes it:
      its temporary name is no canonical or legacy name of a service up to it, and its legacy name
      no canonical name of an earlier one. */
  ghost predicate InOrder(slots: seq<Slot>) {
    forall i, j :: 0 <= i <= j < |slots| ==>
      && slots[j].temp != slots[i].canonical && slots[j].temp != slots[i].legacy
      && (i < j ==> slots[j].legacy != slots[i].canonical)
  }

  ghost predicate DistinctNames(services: seq<Service>) {
    forall i, j :: 0 <= i < j < |services| ==> services[i].name != services[j].name
  }

  /** What can go wrong between an earlier service and a later one. */
  ghost predicate Clash(app: string, deploy: string, earlier: string, later: string) {
    var temp := later + "-deploying-" + ShortDeployId(deploy);
    || earlier == temp
    || (Echoing(app) && (earlier == "prexel-" + later || "prexel-" + earlier == temp))
  }

  lemma NamesInjective(app: string, s: string, t: string, id: string)
    ensures CanonicalName(app, s) == CanonicalName(app, t) <==> s == t
    ensures TempName(app, s, id) == TempName(app, t, id) <==> s == t
    ensures TempName(app, s, id) == CanonicalName(app, t) <==> t == s + "-deploying-" + ShortDeployId(id)
  {
    var p, q := app + "-", "-deploying-" + ShortDeployId(id);
    hide ShortDeployId;
    assert s + q == s + "-deploying-" + ShortDeployId(id);
    assert TempName(app, s, id) == p + (s + q) && TempName(app, t, id) == p + (t + q);
    CommonPrefix(p, s, t);
    CommonPrefix(p, s + q, t + q);
    CommonPrefix(p, s + q, t);
    CommonSuffix(s, t, q);
  }

  lemma TempIsCanonical(app: string, s: string, id: string)
    ensures TempName(app, s, id) == CanonicalName(app, s + "-deploying-" + ShortDeployId(id))
  {
    assert app + "-" + s + "-deploying-" + ShortDeployId(id) == app + "-" + (s + "-deploying-" + ShortDeployId(id));
  }

  lemma NamesDistinct(a: App, deploy: string, services: seq<Service>)
    requires DistinctNames(services)
    ensures TempsDistinct(SlotsFor(a, deploy, services)) && CanonicalsDistinct(SlotsFor(a, deploy, services))
  {
    hide CanonicalName, LegacyName, ShortDeployId, LabelsFor, TempName;
    forall i, j | 0 <= i < j < |services|
      ensures SlotFor(a, deploy, services[i]).temp != SlotFor(a, deploy, services[j]).temp
      ensures SlotFor(a, deploy, services[i]).canonical != SlotFor(a, deploy, services[j]).canonical
    {
      NamesInjective(a.name, services[i].name, services[j].name, deploy);
    }
  }

  /** For one earlier and one later service, or one service and itself. */
  lemma ApartIff(app: string, deploy: string, earlier: string, later: string)
    ensures && TempName(app, later, deploy) != CanonicalName(app, earlier)
            && TempName(app, later, deploy) != LegacyName(app, earlier)
            && LegacyName(app, later) != CanonicalName(app, earlier)
       <==> !Clash(app, deploy, earlier, later)
    ensures TempName(app, later, deploy) != CanonicalName(app, later)
      && TempName(app, later, deploy) != LegacyName(app, later)
  {
    hide CanonicalName, LegacyName, ShortDeployId, Echoing;
    NamesInjective(app, later, earlier, deploy);
    NamesInjective(app, later, later, deploy);
    TempIsCanonical(app, later, deploy);
    LegacyClashIff(app, earlier, later + "-deploying-" + ShortDeployId(deploy));
    LegacyClashIff(app, later, later + "-deploying-" + ShortDeployId(deploy));
    LegacyClashIff(app, later, earlier);
    assert |later + "-deploying-" + ShortDeployId(deploy)| > |"prexel-" + later|;
  }

  /** The names of a list of services are in order exactly when no service clashes with a later one. */
  lemma InOrderIff(a: App, deploy: string, services: seq<Service>)
    ensures InOrder(SlotsFor(a, deploy, services)) <==>
            forall i, j :: 0 <= i < j < |services| ==> !Clash(a.name, deploy, services[i].name, services[j].name)
  {
    hide CanonicalName, LegacyName, TempName, LabelsFor, Clash;
    var slots := SlotsFor(a, deploy, services);
    forall i, j | 0 <= i <= j < |slots|
      ensures (&& slots[j].temp != slots[i].canonical && slots[j].temp != slots[i].legacy
               && (i < j ==> slots[j].legacy != slots[i].canonical))
         <==> (i < j ==> !Clash(a.name, deploy, services[i].name, services[j].name))
    {
      ApartIff(a.name, deploy, services[i].name, services[j].name);
    }
  }
}
