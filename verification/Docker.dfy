/** The container engine as the deploy code sees it: containers keyed by name, each
    carrying the network aliases fixed at creation. Every call ends in one of three ways. */
module Docker {

  /** What a remote call came to. `Lost` is a call that took effect but reported an error
      (a timeout after the fact); `Refused` had no effect and reported an error. `Shadowed` is an
      ending only the upsert of a route can have: success is reported, but a route that was there
      before stays in force. Any other call given that ending is refused. */
  datatype Outcome = Done | Refused | Lost | Shadowed
  {
    predicate Effect() { Done? || Lost? }
  }

  datatype Container = Container(aliases: set<string>, image: string, running: bool, labels: map<string, string>)

  type Fleet = map<string, Container>

  function Stop(e: Fleet, name: string, o: Outcome): Fleet {
    if o.Effect() && name in e then e[name := e[name].(running := false)] else e
  }

  function Remove(e: Fleet, name: string, o: Outcome): Fleet {
    if o.Effect() then e - {name} else e
  }

  /** A taken name is a conflict, so creation needs a free one. */
  predicate CanCreate(e: Fleet, name: string) { name !in e }

  function Create(e: Fleet, name: string, c: Container, o: Outcome): Fleet {
    if o.Effect() && CanCreate(e, name) then e[name := c.(running := false)] else e
  }

  function Start(e: Fleet, name: string, o: Outcome): Fleet {
    if o.Effect() && name in e then e[name := e[name].(running := true)] else e
  }

  predicate CanRename(e: Fleet, from: string, to: string) { from in e && to !in e }

  /** A rename moves the entry; the aliases stay as they were created. */
  function Rename(e: Fleet, from: string, to: string, o: Outcome): Fleet {
    if o.Effect() && CanRename(e, from, to) then (e - {from})[to := e[from]] else e
  }

  /** `c`, standing under `name`, answers on the network for `upstream`. */
  predicate Answers(name: string, c: Container, upstream: string) {
    c.running && (upstream == name || upstream in c.aliases)
  }

  /** The network resolves `upstream` to a running container whose name is not in `avoid`. */
  ghost predicate ResolvesAvoiding(e: Fleet, upstream: string, avoid: set<string>) {
    exists n :: n in e && n !in avoid && Answers(n, e[n], upstream)
  }

  /** Nothing but the container named `name` differs. */
  ghost predicate OnlyName(e: Fleet, e': Fleet, name: string) {
    forall n :: n != name ==> (n in e' <==> n in e) && (n in e ==> e'[n] == e[n])
  }

  /** What an effective call changes is one container: stopped it answers to nothing, started it answers to its
      name and its aliases, both keep what it was created with; a created one does not run yet. */
  lemma OneNameChanges(e: Fleet, name: string, c: Container, o: Outcome)
    requires o.Effect()
    ensures OnlyName(e, Stop(e, name, o), name) && OnlyName(e, Start(e, name, o), name)
    ensures OnlyName(e, Remove(e, name, o), name) && OnlyName(e, Create(e, name, c, o), name)
    ensures name !in Remove(e, name, o)
    ensures name !in e ==> name !in Stop(e, name, o) && name !in Start(e, name, o)
    ensures name in e ==>
      && name in Stop(e, name, o) && name in Start(e, name, o) && name in Create(e, name, c, o)
      && Create(e, name, c, o)[name] == e[name]
      && (forall up :: !Answers(name, Stop(e, name, o)[name], up))
      && (forall up :: Answers(name, Start(e, name, o)[name], up) <==> up == name || up in e[name].aliases)
      && Start(Stop(e, name, o), name, o) == Start(e, name, o)
      && Start(e, name, o)[name] == e[name].(running := true)
    ensures name !in e ==> name in Create(e, name, c, o) && Create(e, name, c, o)[name] == c.(running := false)
  {
  }

  /** A rename moves a container as it is, and only to a free name. */
  lemma RenameMoves(e: Fleet, from: string, to: string)
    requires from in e && from != to
    ensures to in e ==> Rename(e, from, to, Done) == e
    ensures to !in e ==>
      var r := Rename(e, from, to, Done);
      && from !in r && to in r && r[to] == e[from] && r - {to} == e - {from}
      && Rename(r, to, from, Done) == e
  {
  }

  /** A call that is refused, or given an ending only a route can have, changes nothing. */
  lemma RefusedChangesNothing(e: Fleet, name: string, to: string, c: Container, o: Outcome)
    requires !o.Effect()
    ensures Stop(e, name, o) == Start(e, name, o) == Remove(e, name, o) == Create(e, name, c, o) == e
    ensures Rename(e, name, to, o) == e
  {
  }
}
