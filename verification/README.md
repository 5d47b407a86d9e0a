# Prexel, modelled and verified

Prexel is a self-hosted deploy platform: it builds applications, swaps their containers without
downtime behind a Caddy proxy, keeps domains and certificates going, and guards its API. This
project is a Dafny model of the parts of it that are state machines, protocols or arithmetic, with
proofs of what they promise over every input, every interleaving and every failure of a remote call.
`dafny verify dfyconfig.toml` verifies all of it.

## What is modelled

- **Container swap** (`Docker`, `RouteMap`, `Swap`, `Deploy`). One remote call is one step. Every
  call ends as `Done`, `Refused`, or `Lost` (it took effect but reported an error), and the upsert of a
  route also as `Shadowed` (it reported success, but the route that was there stays in force). Containers carry
  the network aliases they were created with; routes lead to upstream names. The class `Swap.Engine`
  is the imperative code; `Next`/`StateAt` is the protocol it refines call for call. An upsert of one
  route is one call here; that its PATCH and POST amount to one with these endings is
  `RouteList.UpsertSingleLeads`, and for all the upserts of a swap `RouteList.UpsertsLead`.
- **Multi-service swap** (`ComposeNames`, `Compose`). Start a candidate per service, roll back, switch
  names, route, prune.
- **Admission, deployment rows, app status, crashes and reconciling** (`Lifecycle`). Any number of
  requests interleave; any write of theirs may be refused; apps may be deleted at any time; a crash
  may come between any two steps.
- **Rate limiters** (`RateLimit`). Token buckets over `real`, with a cleanup that may run at any time.
- **Refresh-token families, second-factor challenges, one-time codes** (`RefreshTokens`,
  `Challenge`, `Totp`).
- **Event bus** (`Decimal`, `EventBus`). Ids as strings compared byte by byte; a bounded, expiring
  replay buffer.
- **Caddy client** (`RouteIds`, `RouteList`, `Caddy`). A list of id-tagged routes changed by PATCH,
  POST and DELETE, each of which may fail, against a map from host to target.
- **Domains** (`DomainStatus`, `DomainTable`). The DNS/TLS status machine with its failure tracker,
  and the choice of an app's primary domain.
- **Log lines and tags** (`SseLines`, `Text`, `Tags`, and `Wrappers` for optional values). Splitting a byte stream cut anywhere, and
  reconciling an app's tags with a list of names.

Code that changes things step by step is modelled by classes and methods with loops, whose
postconditions tie the new state to a specification function; the theorems are about those
functions and their runs. A run is a sequence of events; theorems quantify over all of them.

## Assumptions

- The clock never goes back.
- New ids and tokens are fresh and hashes of tokens do not collide. Route ids do use a digest that
  may collide: `RouteIds.RouteIdClashIff` says exactly when.
- A database statement takes effect or is refused, as it is under an expired context; the engine
  discards such errors, and `Lifecycle` follows what that leads to. Elsewhere statements succeed. Each
  SQL transaction, mutex section and status update is one step, and so is each DNS check or handshake
  with the update that follows it. An update of a domain by its owner reads the row in an earlier step.
- During a swap nobody else writes the routes of the app's hosts. Creating or updating a domain
  meanwhile would: it points the host at `prexel-<app>` (internal/domains/service.go:307-328), which no
  container need answer to.
- When a swap begins, the proxy's list holds no route twice. `Swap.DeploysStayServed`,
  `Compose.RoutedHostsAreServed` and the plain theorems are about upserts that are not shadowed.
- Containers do not stop by themselves, and a container name of one app is not a name of another.
- A proxy client is configured.
- float64 is read as `real`, and Go's 64-bit negation is written out where it matters (`Itoa`).
- Lower-casing is an arbitrary function outside ASCII; the digest of a long host is arbitrary.

## Where the code and its own words differ

- `nextID` is said to increase lexicographically (internal/eventbus/bus.go:76-78). It does not:
  the ninth and tenth event of one millisecond are out of order (`EventBus.NinthSortsAfterTenth`);
  `EventBus.IdOrderIff` and `EventBus.ReplayExactIff` give the exact conditions.
- A failed PATCH other than 404 is said to bubble up (internal/caddy/client.go:183-187). It falls
  through to POST and can leave a second route for the host behind the first
  (`RouteList.FailedPatchShadows`); `RouteList.UpsertSingleRefines` gives the exact condition.
- The old container is said to be torn down while traffic is already served by the new one
  (internal/deploy/engine.go:776-777). After such an upsert the host is still on the old container, the
  swap goes on, and the host is down (`Swap.ShadowExposes`); `Swap.ZeroDowntimeIff` is exact for the app
  and `Swap.HostZeroDowntimeIff` for each host.
- The monitor is said to give up on a row that has been issuing for more than ten minutes
  (internal/domains/sslmonitor.go:174-177). The tracker also counts failures seen while the row was
  active, and a retry does not clear it, so a row can be given up one second after it entered
  issuing (`DomainStatus.GivenUpAtOnce`); `DomainStatus.GraceIff` says when ten minutes are certain.
- The login limiter bounds failures only by the number of logins in flight: logins checked together
  are all let through (`RateLimit.ConcurrentFailuresExceedBound`), and `RateLimit.ConcurrentFailureBound`
  gives the bound for any number of them.
- Reconciling is said to keep crashes from leaving ghost state (internal/deploy/reconcile.go:12-16), but
  a deploy whose context expires leaves the same state without a crash, until the next restart
  (`Lifecycle.ExpiredDeployLeavesGhosts`); `Lifecycle.GhostsIff` is exact.
- A multi-service deploy cancelled while its candidates settle is meant to remove them
  (internal/deploy/engine_compose.go:126-131), but does so with the cancelled context, so they all stay
  (`Compose.InterruptLeavesCandidates`).
- A second deploy of the same image after routing failed half-way removes the container that some
  hosts have already been moved to (`Swap.RetryAfterRouteFailure`); `Swap.DeploysStayServed` says which
  names are safe to use again.
- In an app called `prexel` a service's legacy container name can be another service's current one
  (`Compose.EchoingAppLosesService`); `Compose.ServicesInstalledIff` is exact for any list of services.
- A TOTP code that stays valid over the turn of a window is accepted once in each window
  (`Totp.AcceptedAgainNextWindow`).

## Model

| member | source | states |
|---|---|---|
| `Swap.Dedupe` | internal/deploy/engine.go:1127-1141 | the clean-up names are the given ones without the empty string, each once |
| `Swap.LegacyDedupe` | internal/deploy/engine.go:1127-1141 | so does the loop with its seen-map, for every list of names |
| `Docker.OneNameChanges` | internal/dockersvc/helpers.go:380-413 | an effective stop, start, removal or creation changes one container: stopped it answers to nothing, started it answers to its name and aliases, created it does not run yet |
| `Docker.RenameMoves` | internal/dockersvc/helpers.go:415-429 | a rename moves a container as it is, only to a free name, and can be undone |
| `Swap.CandidateNameIsItsOwn` | internal/deploy/engine.go:560-570 | the names a swap derives, spelled out; the candidate's name is never one the clean-up removes, if and only if it is not the legacy name; always so for an app named after its container; and the app's own name is among those removed |
| `Swap.EachCallCounts` | internal/deploy/engine.go:555-845 | every call brings a swap closer to its end, so every swap ends |
| `Swap.FinishIsStateAt` | internal/deploy/engine.go:555-845 | where a swap ends is a state of its step-by-step run |
| `Swap.NextKeepsInv` | internal/deploy/engine.go:673-845 | one call, however it ends, a shadowed upsert included, keeps the invariant: which containers are untouched, which routes lead to the candidate and which are as they were, and that the renamed candidate still answers to its alias |
| `Swap.AlwaysServed` | internal/deploy/engine.go:673-845 | at every step and for every outcome of every call, every route of a served host of the app resolves to a running container: on runs without shadowed upserts always, and on any run if the host's routes are anchored |
| `Swap.ZeroDowntimeIff` | internal/deploy/engine.go:673-845 | no host of the app is ever down on any run if and only if, at the start, every host is served by a container not named like the new candidate, and every route whose upsert may be shadowed leads to the candidate's name or to a container that is not one of the app's own |
| `Swap.HostZeroDowntimeIff` | internal/deploy/engine.go:673-845 | the same for each host by itself, whatever the state of the others |
| `Swap.PlainZeroDowntimeIff` | internal/deploy/engine.go:673-845 | on runs without shadowed upserts a host is never down if and only if, at the start, it is served by a container not named like the new candidate |
| `Swap.ShadowExposes` | internal/deploy/engine.go:776-804 | a host that is never down has its routes anchored, because the run in which every upsert is shadowed removes the old containers all the same |
| `Swap.DeploysStayServed` | internal/deploy/engine.go:555-845 | over any sequence of deploys, of new images, of the same one again or of older ones, each failing or cut off anywhere, a host served at the start stays so without needing any candidate name but those in danger, whatever other hosts the app has each time, as long as no upsert is shadowed and no deploy reuses a name in danger; a name is in danger once its deploy got as far as routing, and no longer once a deploy succeeded |
| `Swap.RetryAfterRouteFailure` | internal/deploy/engine.go:673-789 | trying again under the same candidate name after a half-done route switch takes a moved host down, even without shadowed upserts |
| `Swap.SuccessInstallsCandidate` | internal/deploy/engine.go:776-824 | success leaves a running container of the new image and labels under the app's name, everything but the app's names as it was, and every route of the app at it, by name or alias and at the app's port, ready for a next swap; if upserts were shadowed, a route may also be as it was |
| `Swap.RollbackRestores` | internal/deploy/engine.go:746-774 | a candidate that fails to start or to become healthy leaves all routes and all other containers as they were |
| `Swap.RollbackRemoves` | internal/deploy/engine.go:746-774 | once the removal of such a candidate takes effect, the world is the old one without a stale container of that name |
| `Swap.FailedCandidateRemoved` | internal/deploy/engine.go:746-774 | and that removal is made: after a start that failed, and after the stop that follows a failed health check |
| `Swap.RoutesOnlyMoveAlways` | internal/deploy/engine.go:776-821 | at every step of every run each route is as it was, or a route of one of the app's hosts at the candidate's name or the app's own, always at the app's port; and only the plain-HTTP route of a host that forces HTTPS is ever removed |
| `Swap.ReroutedHostIsHome` | internal/deploy/engine.go:811-821 | a host whose two calls after the rename work ends up routed to the app's own name and port, over plain HTTP exactly when HTTPS is not forced, whatever else fails |
| `Swap.FailsIff` | internal/deploy/engine.go:673-845 | a swap fails in a stage if and only if an essential call of that stage reports an error, and succeeds if and only if none does; clean-up calls and the second round of upserts never decide |
| `Swap.RoutedAfterHealth` | internal/deploy/engine.go:766-789 | no route is touched before a health check has passed |
| `Swap.SmoothSwap` | internal/deploy/engine.go:555-845 | a swap in which every call works succeeds and leaves exactly this: the old and legacy containers and a stale candidate gone, the new one under the app's name, every other container as it was, every host routed to it at the app's port |
| `Swap.Engine.RunContainer` | internal/dockersvc/helpers.go:289-309 | create and start take the protocol from creation to the health check, or to a failed start with the half-created container removed again |
| `Swap.Engine.AwaitHealthy` | internal/deploy/engine.go:766-774 | the health check takes the protocol to the routing phase, or through the candidate's removal to failure |
| `Swap.Engine.RouteAll` | internal/deploy/engine.go:776-789 | the loop over the hosts takes the protocol through the whole routing phase, stopping at the first failure that is reported |
| `Swap.Engine.RerouteAll` | internal/deploy/engine.go:811-821 | the second loop takes it to success whatever fails; where that leaves the routes is `Swap.ReroutedHostIsHome` |
| `Swap.Engine.DropOld` | internal/deploy/engine.go:791-804 | every old name is stopped and removed in order, a failure never ending the loop |
| `Swap.Engine.Swap` | internal/deploy/engine.go:555-845 | the imperative swap makes exactly the calls of the protocol and ends in its final state, so every theorem about the protocol's runs is about it; every route is as it was or a route of the app at the app's port; a host whose two calls after the rename work is routed to the app's own name and port; and if every call works the swap succeeds with exactly the new container in place of the old ones and every host routed to it |
| `Deploy.SwapEnds` | internal/deploy/engine.go:494-552 | a swap that reports success has the candidate up under the app's name, and one that failed before routing has changed nothing but the candidate's own name |
| `Deploy.Pipeline.RunFromImage` | internal/deploy/engine.go:494-552 | end to end: a failed candidate leaves routes and other containers as before, the row failed, and a reachable app running exactly when an earlier deployment succeeded; with an expired context row and app stay deploying; if every call works the deploy ends swapped, with the new container in place and every host routed to it |
| `Lifecycle.ApplyKeepsInv` | internal/deploy/engine.go:175-552 | every step of every request, its write refused or not, and every app deletion, crash and restart keeps the correspondence of locks, slots, rows and busy apps with the requests in flight |
| `Lifecycle.DeploysAreExclusive` | internal/deploy/engine.go:175-241 | in every reachable state an app has at most one deploy in flight, locks are held exactly by those, and slots held equal deploys past admission and never exceed the cap, which is the configured one or one |
| `Lifecycle.AdmittedIff` | internal/deploy/engine.go:175-189 | in every reachable state a request enters if and only if its app is known and has no deploy in flight |
| `Lifecycle.SlotIff` | internal/deploy/engine.go:199-241 | and then goes on if and only if there is no cap or fewer deploys hold a slot than the cap; otherwise it leaves its lock |
| `Lifecycle.DeploySucceeds` | internal/deploy/engine.go:352-492 | a deploy that is admitted and goes through takes its row from pending through building and deploying to success and its app to running, gives lock and slot back, and changes nothing else |
| `Lifecycle.NoRowLeaves` | internal/deploy/engine.go:243-300 | a deploy that gives up before its row, or whose row is refused, lets go of slot and lock and leaves rows and apps as they were |
| `Lifecycle.SuccessOnlyBySwap` | internal/deploy/engine.go:352-552 | an unfinished row becomes a success only by the closing write of its own deploy, standing in its swap; every other end of a row is a failure |
| `Lifecycle.UnreachableUntilRunning` | internal/app/service.go:925-935 | only a lost server makes an app unreachable, and only the running verdict of one of its deploys, or its deletion, ends that |
| `Lifecycle.NoGhostState` | internal/deploy/engine.go:352-552 | when the closing writes take effect, an app is building or deploying only under its lock, and every unfinished row belongs to a deploy in flight |
| `Lifecycle.GhostsIff` | internal/deploy/engine.go:352-552 | in every state of every run of a live process, an unfinished row has no deploy in flight if and only if the closing write of its deploy was refused, with no crash and no deletion of its app since; and an app whose lock is free is building or deploying if and only if the last status write of a deploy was refused, with no crash and no other status since |
| `Lifecycle.LeftIsGhost` | internal/deploy/engine.go:352-552 | what has no deploy in flight is exactly what the account of things left behind names |
| `Lifecycle.LeftByRefusedWrite` | internal/deploy/engine.go:848-872 | only a refused closing write leaves anything behind |
| `Lifecycle.ReachesSwap` | internal/deploy/engine.go:494-557 | any reachable idle app with a free lock and slot can be brought into its swap |
| `Lifecycle.ExpiredDeployLeavesGhosts` | internal/deploy/engine.go:848-872 | if its context expires there, row and app stay deploying although the deploy is over and lock and slot are free |
| `Lifecycle.RestartClears` | internal/deploy/reconcile.go:17-48 | from any reachable state, a crash and a reconciliation leave no lock, slot or request, every row in flight or left behind failed, every final row as it was, every busy app running if and only if its inspection found it running, stopped if and only if it found it stopped, and in error otherwise, and every other status as it was |
| `Lifecycle.FinalRowsStay` | internal/deploy/repo.go:102-136 | a row that is success or failed stays as it is through any later steps, crashes and restarts if and only if its app is not deleted, and after that its id is never used again |
| `Lifecycle.RefusalLeavesNothing` | internal/deploy/engine.go:221-241 | a request that comes and finds no slot leaves the state exactly as before it came; one whose app has a deploy in flight never enters |
| `Lifecycle.VerdictByHistory` | internal/deploy/engine.go:848-879 | after a deploy whose closing writes took effect, a reachable app is running exactly when that deploy or an earlier one succeeded; an unreachable one comes back only by a success; if the earlier ones cannot be read, its own result decides |
| `Lifecycle.Admission.AcquireLock` | internal/deploy/engine.go:175-189 | granted exactly when free |
| `Lifecycle.Admission.AcquireGlobalSlot` | internal/deploy/engine.go:199-217 | granted exactly below the cap, a configured cap under one counting as one |
| `Lifecycle.Admission.Admit` | internal/deploy/engine.go:221-241 | both or neither, and nothing kept on refusal |
| `Lifecycle.Database.UpdateStatus` | internal/app/service.go:925-935 | an unreachable app is replaced only by running |
| `Lifecycle.Database.LastSuccess` | internal/deploy/repo.go:86-99 | the most recent success of the app by creation time and then id, or none exactly when there is none |
| `Lifecycle.Database.FailDeploy` | internal/deploy/engine.go:848-879 | the row fails and the app keeps running only on an earlier success; with an expired context nothing changes |
| `Lifecycle.Database.FailPendingRows` | internal/deploy/repo.go:126-136 | exactly the unfinished rows become failed |
| `Lifecycle.Database.ReconcileAll` | internal/deploy/reconcile.go:17-73 | the two loops fail every unfinished row and give every busy app the status its inspection found, running, stopped or error; nothing else changes |
| `ComposeNames.LegacyClashIff` | internal/deploy/engine_compose.go:415-427 | a service's legacy name is another's canonical name if and only if the app is called prexel, prexel-prexel, and so on, and the other service is named with the prefix in front |
| `ComposeNames.InOrderIff` | internal/deploy/engine_compose.go:234-236 | the names of a list of services are in order if and only if no service clashes with a later one: by its name being the later one's temporary name, or, in an app called prexel and so on, by being the later one's name with the prefix |
| `ComposeNames.ShortDeployIdIs` | internal/deploy/engine_compose.go:429-439 | the short id is the first seven characters of the deploy id, dashes not counted |
| `Compose.StartFailureRestores` | internal/deploy/engine_compose.go:101-116 | a candidate that fails to start leaves every container but temporary ones as before for all outcomes; if removals work exactly the previous containers remain, if and only if the failing creation had no effect |
| `Compose.InterruptLeavesCandidates` | internal/deploy/engine_compose.go:124-133 | a cancellation while the candidates settle rolls nothing back, its calls being made with the cancelled context: all candidates stay, running, beside the old containers |
| `Compose.SwapFirstInstalls` | internal/deploy/engine_compose.go:144-166 | with names in order and removals working the switch succeeds if and only if every rename does, and its state is the old one without old, legacy and temporary containers plus the candidates under canonical names |
| `Compose.SwapInstallsIff` | internal/deploy/engine_compose.go:144-166 | with every removal and rename working, every service ends up under its canonical name if and only if the names are in order |
| `Compose.ServicesInstalledIff` | internal/deploy/engine_compose.go:101-166 | for the services of an app: all are installed if and only if none clashes with a later one |
| `Compose.RenameFailureLeaves` | internal/deploy/engine_compose.go:144-166 | the exact half-swapped state a refused rename leaves |
| `Compose.PruneRemovesOrphans` | internal/deploy/engine_compose.go:371-407 | when the removals work, exactly the app's containers of services outside the spec are removed |
| `Compose.PruneExactly` | internal/deploy/engine_compose.go:371-407 | however the calls end, only those containers are touched, and one is gone if and only if its removal took effect |
| `Compose.SuccessInstalls` | internal/deploy/engine_compose.go:101-203 | every service of the spec runs under its canonical name with the new image, no container of another service of the app is left, and everything else is unchanged |
| `Compose.InstallsServices` | internal/deploy/engine_compose.go:223-314 | in terms of the services: each has a running container of its own image under the name of app and service, known by the service's name too, with the labels of app, deploy and service and the app's own labels |
| `Compose.StartsIff` | internal/deploy/engine_compose.go:101-116 | with the temporary names cleared, the first services all start if and only if their own creations and starts work |
| `Compose.RoutesReachServices` | internal/deploy/engine_compose.go:168-195 | each bound host is routed to its service's canonical container at the port it was given, or else the first one the service exposes, plain HTTP exactly when HTTPS is not forced, when its upsert works; when it is shadowed, a route that was there stays; without a port its routes are left alone |
| `Compose.BoundHostReachesService` | internal/deploy/engine_compose.go:168-195 | in terms of the services: a domain bound to a service leads to the container named after app and service at that port |
| `Compose.RoutesByBinding` | internal/deploy/engine_compose.go:168-195 | routes of unbound hosts never change, and those of a bound host are exactly what the upsert of its own binding makes of them, however it ends |
| `Compose.RoutedHostsAreServed` | internal/deploy/engine_compose.go:168-195 | so after a successful swap, the route of a host whose upsert worked resolves to a running container |
| `Compose.EchoingAppLosesService` | internal/deploy/engine_compose.go:144-166 | in an app called prexel, prexel-prexel, and so on, a service prexel-x listed before a service x means a service is lost, whatever else the list holds |
| `Compose.Engine.StartCandidate` | internal/deploy/engine_compose.go:223-314 | clears the temporary name, creates, starts, and undoes a failed start, with the outcome of each call deciding what is left |
| `Compose.Engine.StartCandidates` | internal/deploy/engine_compose.go:101-116 | stops at the first service that does not start, with the earlier candidates rolled back, and otherwise leaves all of them up |
| `Compose.Engine.SwapServices` | internal/deploy/engine_compose.go:144-166 | stops at the first failed rename, with the services before it switched over |
| `Compose.Engine.RouteServices` | internal/deploy/engine_compose.go:168-195 | the two loops make these upserts in order, skipping bindings without a port, a failure never ending them |
| `Compose.Engine.PruneOrphans` | internal/deploy/engine_compose.go:371-407 | when the listing works only the orphans are touched, and each is gone if and only if its removal took effect; when the listing fails nothing changes |
| `Compose.Engine.SwapCompose` | internal/deploy/engine_compose.go:45-211 | what each ending guarantees: no services, failed start, interruption, failed rename, success; which ending it is when the removals work; on success all services are installed if and only if their names are in order, each with its own image and labels, and the routes are those of the bindings |
| `RateLimit.TokensStayInBounds` | internal/api/apimiddleware/ratelimit.go:110-143 | tokens stay between zero and the burst on every run |
| `RateLimit.EvictionInvisible` | internal/api/apimiddleware/ratelimit.go:145-158 | forgetting clients idle for the cleanup time changes no later answer |
| `RateLimit.KeepingSimulates` | internal/api/apimiddleware/ratelimit.go:126-158 | after any run, the limiter with cleanups and the one that never forgets find the same tokens for every client at every later time |
| `RateLimit.EvictionUnobservable` | internal/api/apimiddleware/ratelimit.go:187-219 | wherever cleanups fall, every call gets the answer of a limiter that never evicts |
| `RateLimit.AdmissionBound` | internal/api/apimiddleware/ratelimit.go:176-204 | over any stretch of length d of any run a client is admitted at most 30 + 30 d/60s refreshes, and pays for at most 5 + 5 d/15min failures |
| `RateLimit.LoginFailureBound` | internal/api/apimiddleware/ratelimit.go:110-143 | at most 5 + 5 d/15min failures are counted when each is counted before the next admission |
| `RateLimit.ConcurrentFailureBound` | internal/api/apimiddleware/ratelimit.go:110-143 | with at most c logins of a client between check and count, at most c (5 + 5 d/15min) + c - 1 of its failures are counted over any stretch of length d |
| `RateLimit.ConcurrentFailuresExceedBound` | internal/api/apimiddleware/ratelimit.go:110-124 | without a limit on the logins in flight any number of failures is possible at once |
| `RateLimit.NeverRefused` | internal/api/apimiddleware/ratelimit.go:110-114 | a client that never fails is never refused a login |
| `RateLimit.RefreshAdmittedIff` | internal/api/apimiddleware/ratelimit.go:176-185 | the exact answer: a refresh is let through if and only if, counting it, no stretch of length d that ends with it holds more than 30 + 30 d/60s admitted ones of the client; a refused one costs nothing |
| `RateLimit.LoginAdmittedIff` | internal/api/apimiddleware/ratelimit.go:110-143 | the exact answer to a login check: with one more failure no stretch of length d since the last failure counted on an empty bucket would hold more than 5 + 5 d/15min, and the whole of it no more than the 5 d/15min earned since |
| `RateLimit.Limiter.Refill` | internal/api/apimiddleware/ratelimit.go:126-143 | the bucket afterwards holds what the client has available |
| `RateLimit.Limiter.CountFailure` | internal/api/apimiddleware/ratelimit.go:116-124 | a failure takes one token, never below zero |
| `RateLimit.Limiter.AllowAndSpend` | internal/api/apimiddleware/ratelimit.go:176-185 | a refresh is let through and pays exactly when a whole token is there |
| `RateLimit.Limiter.CleanupPass` | internal/api/apimiddleware/ratelimit.go:206-219 | the pass removes exactly the buckets idle for more than thirty minutes at the login limiter and five at the refresh limiter |
| `RefreshTokens.FamiliesStaySound` | internal/auth/refresh.go:45-175 | in every run each family has one user and at most one unrevoked token |
| `RefreshTokens.RowsPersist` | internal/auth/refresh.go:64-175 | nothing un-revokes a token or moves it to another user or family |
| `RefreshTokens.RotatesOnce` | internal/auth/refresh.go:86-175 | a raw token rotates successfully at most once |
| `RefreshTokens.ReuseKillsFamily` | internal/auth/refresh.go:126-141 | presenting a revoked, unexpired token leaves its family without a live token for good |
| `RefreshTokens.SecondPresentationKillsFamily` | internal/auth/refresh.go:86-175 | two holders of one token cannot both keep the session |
| `RefreshTokens.PasswordChangeRevokesAll` | internal/auth/password_change.go:16-45 | no token issued before a password change ever rotates afterwards |
| `RefreshTokens.RotationHandsOn` | internal/auth/refresh.go:143-175 | after a success exactly the new token of the family is live, for the same user, and other families are as before |
| `RefreshTokens.RevokedByHistory` | internal/auth/refresh.go:45-188 | the row of a token that was handed out carries its user and family and expires seven days later, and is revoked if and only if a rotation of it, its logout, a password change of its user or a reuse in its family came since |
| `RefreshTokens.RotatesIff` | internal/auth/refresh.go:86-175 | the exact answers, from the events alone: a presented token rotates if and only if it is not empty, was handed out at most seven days ago and none of those came since; it counts as reuse if and only if it was handed out at most seven days ago and one of them did |
| `RefreshTokens.Store.RotateToken` | internal/auth/refresh.go:86-175 | rotates, detects reuse or refuses as the state machine does, whose answers `RefreshTokens.RotatesIff` gives from the history, and leaves its table |
| `RefreshTokens.Store.LogoutToken` | internal/auth/refresh.go:179-188 | revokes that one token |
| `RefreshTokens.Store.SetPassword` | internal/auth/password_change.go:16-45 | revokes all tokens of a user that exists |
| `Challenge.RunMatches` | internal/auth/challenge.go:58-136 | after any interleaving the store holds every live challenge of a ledger that forgets nothing, and none it has closed |
| `Challenge.EntryByHistory` | internal/auth/challenge.go:90-125 | the ledger's counters are the numbers of grants and counted wrong codes in the replies |
| `Challenge.OnceAndAtMostFive` | internal/auth/twofactor_service.go:170-189 | under any interleaving of calls a challenge is granted at most once and at most five wrong codes are counted |
| `Challenge.PendingWasCreated` | internal/auth/twofactor_service.go:170-175 | a call in progress belongs to a created challenge and carries that challenge's own user |
| `Challenge.InProgressIff` | internal/auth/twofactor_service.go:170-189 | a call is in progress if and only if it was admitted and has neither ended nor been restarted since, and it carries the id it was admitted with |
| `Challenge.EndsIff` | internal/auth/twofactor_service.go:177-189 | a right code is granted, and a wrong one counted, exactly while the challenge has not been granted, has fewer than five wrong codes and has not expired; it grants the challenge's own user; evictions and cleanups never show |
| `Challenge.AdmittedIff` | internal/auth/challenge.go:73-85 | a new call is admitted under exactly the same condition |
| `Challenge.ChallengeStore.CountAttempt` | internal/auth/challenge.go:90-107 | an expired challenge is evicted, the fifth wrong code removes it, otherwise the count goes up by one and nothing else changes |
| `Challenge.ChallengeStore.ConsumeChallenge` | internal/auth/challenge.go:111-123 | the challenge is gone afterwards, and is handed out only if it had not expired |
| `Challenge.ChallengeStore.CleanupPass` | internal/auth/challenge.go:127-136 | the loop drops exactly the expired challenges |
| `Challenge.ChallengeStore.VerifyChallenge` | internal/auth/twofactor_service.go:170-189 | on its own, the call is its two steps and returns the challenge's user |
| `Totp.RunFaithful` | internal/auth/totp.go:103-120 | the table holds only claims that were made and every claim recent enough to matter |
| `Totp.AnswersByHistory` | internal/auth/totp.go:90-122 | for every nondecreasing sequence of call times the answers are those of a table that never deletes: a valid code of a user is refused if and only if the same user's same code was accepted in the same half minute |
| `Totp.AcceptedOncePerWindow` | internal/auth/totp.go:90-122 | a user's code is accepted at most once in a 30-second window (RFC 6238, sections 4.2 and 5.2) |
| `Totp.AcceptedAgainNextWindow` | internal/auth/totp.go:103-105 | but again in the next one |
| `Totp.ReplayGuard.ValidateAndConsume` | internal/auth/totp.go:90-122 | a valid code is refused exactly when its key is in the pruned table, and recorded otherwise; a blank user is accepted unrecorded |
| `Decimal.LexOfRising` | internal/eventbus/bus.go:79-82 | when the byte order of two numerals follows the order of the numbers, whatever comes after them |
| `EventBus.IdOrderIff` | internal/eventbus/bus.go:79-82 | ids of two events are in publish order if and only if the digits of the deciding numbers line up |
| `EventBus.IdsDiffer` | internal/eventbus/bus.go:79-82 | an id names one event |
| `EventBus.EqualDigitsComparable` | internal/eventbus/bus.go:76-82 | equal digit counts suffice |
| `EventBus.NinthSortsAfterTenth` | internal/eventbus/bus.go:76-82 | ids are not monotone in general |
| `EventBus.ReplayExactIff` | internal/eventbus/bus.go:204-218 | replay after event k is exactly the retained matching events published after k, in order, if and only if k's id is comparable with every other retained matching one |
| `EventBus.TopicMatchesIff` | internal/eventbus/bus.go:220-235 | a filter selects everything if it is empty or "*", the topics below p for "p.*", and otherwise only the topic equal to it |
| `EventBus.LiveAgreesIff` | internal/eventbus/bus.go:98-106 | live delivery and replay select the same topics if and only if the filter does not end in ".*" |
| `EventBus.LongestAfterAppend` | internal/eventbus/bus.go:181-199 | dropping the expired head and the excess gives the longest admissible suffix again |
| `EventBus.UnorderedKeepsExpired` | internal/eventbus/bus.go:181-199 | with stamps that go back, as concurrent publishers can produce, an expired event can head the buffer |
| `EventBus.Bus.BufferAppend` | internal/eventbus/bus.go:181-199 | after any run the buffer is a suffix of everything appended that fits the capacity, and, if the stamps come in order, the longest one whose older entries are inside the retention window |
| `EventBus.Bus.Publish` | internal/eventbus/bus.go:88-96 | the event takes the next sequence number and is appended, whatever its stamps; serial publishing keeps the history in order |
| `EventBus.Bus.Replay` | internal/eventbus/bus.go:204-218 | the loop keeps exactly the buffered events after the given id, or all if there is none, whose topic is selected, each once and in order |
| `EventBus.Bus.Resume` | internal/eventbus/bus.go:204-235 | resuming on a live bus is exact under that condition and only then |
| `RouteIds.RouteIdClashIff` | internal/caddy/config.go:41-51 | two hosts share a route id if and only if they are equal, or both exceed 60 characters, agree on the first 60 and have the same digest |
| `RouteIds.IdsSpelled` | internal/caddy/config.go:41-51 | both ids spelled out: the prefix, the host with underscores for dots, and a host of more than 60 characters cut there with its digest |
| `RouteIds.PrefixesDisjoint` | internal/caddy/config.go:127-130 | no canonical id is a sibling id |
| `RouteIds.PutDigits` | internal/caddy/config.go:175-185 | the digit loop writes the decimal numeral at the end of the buffer and stays inside it |
| `RouteIds.Itoa` | internal/caddy/config.go:170-190 | the buffer holds the decimal numeral, except for the smallest integer |
| `RouteIds.ItoaReadsBackIff` | internal/caddy/config.go:170-190 | the numeral reads back if and only if the number is not the smallest 64-bit integer |
| `RouteIds.DialDetermines` | internal/caddy/config.go:165-167 | the dialled address determines upstream and port |
| `RouteList.UpsertSingleRefines` | internal/caddy/client.go:172-207 | upserting one route is the map's own update, and keeps the list a map if and only if no POST takes effect after the failed PATCH of an existing route |
| `RouteList.UpsertSingleLeads` | internal/caddy/client.go:172-207 | on the map of the routes in force, upserting one route is always the map's own update in one of four endings: done, refused, lost, or, only where a route is in force already, shadowed |
| `RouteList.UpsertLeads` | internal/caddy/client.go:135-166 | so is a whole upsert, with the same reply, however its requests end |
| `RouteList.UpsertsLead` | internal/caddy/client.go:135-166 | and so are all the upserts of a swap, one after the other, on a list that was a map when it began |
| `RouteList.LeadsDispatch` | internal/caddy/client.go:172-207 | requests go where the map of the routes in force says, whatever stands behind them |
| `RouteList.DeleteRefines` | internal/caddy/client.go:225-236 | deleting by id is removal from the map, with 404 exactly for an absent key |
| `RouteList.ApplyRefines` | internal/caddy/client.go:135-236 | a whole call on the list is the same call on the map, with the same reply, whatever fails |
| `RouteList.RepliesIff` | internal/caddy/client.go:135-236 | the exact reply to each call from which routes there were and how its requests ended: bad input, failure, success or not found; and which routes of its host a call that went through leaves |
| `RouteList.OthersUntouched` | internal/caddy/client.go:135-236 | no call changes another host's routes or their order, however its requests end |
| `RouteList.RouteListIsMap` | internal/caddy/client.go:135-236 | after any run of calls the list is a map, and each host whose last call did not fail has exactly one canonical route, a plain-HTTP sibling exactly when HTTPS is not forced, and is dispatched there |
| `RouteList.FailedPatchShadows` | internal/caddy/client.go:183-196 | a refused PATCH followed by a POST reports success while the host stays on its old upstream |
| `Caddy.ShortHostsSeparate` | internal/domains/service.go:119-119 | for accepted host names of up to 60 characters no two routes share an id |
| `Caddy.ShortHostsServed` | internal/caddy/client.go:135-236 | for such hosts the run theorem holds of the ids the client computes |
| `Caddy.Client.UpsertSingleRoute` | internal/caddy/client.go:172-207 | the list and the result are those of the route-list model, for every outcome of PATCH and POST; on a server without its block the base configuration is loaded and the POST repeated, which the list sees as one POST |
| `Caddy.Client.UpsertRoute` | internal/caddy/client.go:135-166 | bad input is refused unchanged; otherwise the list and the reply are those of the model, the address being built by the digit loop |
| `Caddy.Client.RemoveRoute` | internal/caddy/client.go:225-236 | sibling first, then the canonical route, with the model's reply |
| `DomainStatus.RowsStaySound` | internal/domains/repo.go:219-275 | in every run pending means unverified and fewer than 96 failed checks, and issuing or active means verified |
| `DomainStatus.StillPendingIff` | internal/domains/dnscheck.go:23-76 | without a retry a domain is still pending if and only if every check missed and fewer than 96 minus count were made |
| `DomainStatus.LeavesPending` | internal/domains/service.go:584-617 | a pending domain leaves pending within 96 minus count further checks |
| `DomainStatus.TrackerIsLog` | internal/domains/sslmonitor.go:38-53 | the tracker is the number and the first time of the failures not cleared yet |
| `DomainStatus.MonitorFailsIff` | internal/domains/sslmonitor.go:178-193 | the monitor fails a domain if and only if it is issuing and at least three uncleared failures span at least ten minutes |
| `DomainStatus.LogIsHistory` | internal/domains/sslmonitor.go:130-193 | those failures are handshakes that failed while the domain was issuing or active |
| `DomainStatus.FailsOnlyBy` | internal/domains/service.go:584-604 | nothing but the monitor and a missed check at the ceiling fails a domain |
| `DomainStatus.GraceIff` | internal/domains/sslmonitor.go:174-193 | over all events from then on, a domain in issuing is sure of ten minutes if and only if no failure from before that time is uncleared |
| `DomainStatus.GivenUpAtOnce` | internal/domains/sslmonitor.go:174-193 | a run in which it has one second |
| `DomainStatus.ActiveIff` | internal/domains/sslmonitor.go:108-167 | a domain is active if and only if some event was a good handshake while it was issuing or active, or a self-signed pass while it was issuing, and since then there was no retry, no forced check that matched and no forced miss that brought the count to 96 |
| `DomainStatus.FailedIff` | internal/domains/service.go:550-617 | failed if and only if a counted miss brought the count to 96 or the monitor gave it up, and since then there was no retry and no forced check that matched |
| `DomainStatus.PendingIff` | internal/domains/service.go:550-617 | pending if and only if, since its creation or a retry, no check matched and none brought the count to 96; otherwise, and if neither active nor failed, issuing |
| `DomainStatus.VerifiedIff` | internal/domains/service.go:584-617 | verified if and only if a check that matched was made, by force or while pending, with no retry since |
| `DomainStatus.CountByHistory` | internal/domains/service.go:584-604 | the stored count is the number of misses counted since the last retry |
| `DomainStatus.LogByHistory` | internal/domains/sslmonitor.go:38-53 | the tracker counts exactly the failed handshakes since the last restart, activation or giving up, and knows the first of them |
| `DomainStatus.Service.RunDnsCheckOnce` | internal/domains/service.go:584-617 | takes that one domain through a check step and changes no other |
| `DomainStatus.Service.RecordSslFailure` | internal/domains/sslmonitor.go:178-193 | takes that one domain and its tracker entry through a failure step and changes no other |
| `DomainStatus.Service.RunDnsCheckPass` | internal/domains/dnscheck.go:52-76 | one check step of every domain that is due, in any order, and of no other |
| `DomainStatus.Service.RunSslPass` | internal/domains/sslmonitor.go:84-107 | one monitor step of every issuing or active domain, in any order, and of no other; what the steps of a run come to is `DomainStatus.ActiveIff` and its companions |
| `DomainTable.RunKeepsValid` | internal/domains/service.go:222-260 | every run of creations, updates (working from stale reads), deletions and app removals keeps at most one primary per app, unique names and valid references |
| `DomainTable.UpdateKeepsValid` | internal/domains/service.go:437-478 | one update does, moves of a primary between apps included |
| `DomainTable.PrimaryTakesOver` | internal/domains/service.go:437-478 | a domain made primary is then its app's only primary, and no other app's primary changes |
| `DomainTable.GoneIff` | internal/domains/service.go:371-391 | an operation removes a domain if and only if it removes the app the domain is bound to, or deletes that domain while it is bound to none and not the panel's own |
| `DomainTable.BoundGoesWithApp` | internal/domains/service.go:371-391 | so in every run a bound domain goes only with its app |
| `DomainTable.KeptRow` | internal/domains/service.go:222-478 | an operation never changes a domain's name or redirect flag, changes the app of no other domain, and takes the primary flag of another domain exactly if it makes a new primary for its app |
| `DomainTable.UpdateSays` | internal/domains/service.go:420-478 | when an update is refused or finds no row, and what app and flag it gives the row otherwise; a domain without an app is never primary |
| `DomainTable.AppDomains` | internal/deploy/engine.go:977-1000 | the loop returns the first flagged domain, or else the first of all, and the rest in order; an empty primary only for no hosts |
| `DomainTable.AppDomainsPartition` | internal/deploy/engine.go:977-1000 | primary and aliases are an exact partition of the app's hosts without repetition, the flagged domain is the primary, and every redirect flag is its host's own |
| `DomainTable.Domains.CreateDomain` | internal/domains/service.go:222-266 | a duplicate name or an unknown app leaves everything as it was, demotions included; otherwise the new primary is the only one; the table stays valid |
| `DomainTable.Domains.UpdateDomain` | internal/domains/service.go:420-478 | the same from a snapshot that may be stale; a row gone in the meantime is reported missing, yet its app's primary has been demoted |
| `DomainTable.Domains.DeleteDomain` | internal/domains/service.go:371-391 | refused exactly for a missing domain, one bound to an app and the panel's own, in that order; otherwise exactly that row goes; the table stays valid |
| `SseLines.SplitUnique` | internal/api/handler/event.go:205-217 | a byte stream splits into lines and an unterminated tail in one way only |
| `SseLines.SplitExists` | internal/api/handler/event.go:205-217 | and every stream does |
| `SseLines.BytesIndexByte` | internal/api/handler/event.go:229-236 | the first position of the byte, or -1 exactly when it is absent |
| `SseLines.StreamWriter.Write` | internal/api/handler/event.go:205-217 | after any write the emitted lines are the lines of everything written, without trailing carriage returns, and the buffer is the unterminated tail |
| `SseLines.ChunkInvariance` | internal/api/handler/event.go:205-217 | how the stream was cut into writes does not matter |
| `Tags.NormalFormIff` | internal/tag/service.go:217-246 | normalisation leaves a name alone if and only if it has the canonical form |
| `Tags.NormalizeIdempotent` | internal/tag/service.go:217-246 | normalising twice is normalising once |
| `Tags.CaseDoesNotMatter` | internal/tag/service.go:217-218 | names that differ in ASCII case share a normal form |
| `Tags.PaddingDoesNotMatter` | internal/tag/service.go:217-218 | nor does white space around a name |
| `Tags.CollapsedIs` | internal/tag/service.go:217-219 | a run of white space becomes one dash, whatever its length, and nothing else changes |
| `Tags.StrippedIs` | internal/tag/service.go:220-236 | of what is left exactly the letters, digits and dashes are kept, in order |
| `Tags.WordsAreJoined` | internal/tag/service.go:217-246 | two words come out joined by one dash, or refused as too long or as starting with a dash |
| `Tags.WordIsKept` | internal/tag/service.go:217-246 | one word is kept or refused for the same reasons, and white space alone is refused as empty |
| `Tags.ColorIff` | internal/tag/service.go:251-264 | a colour is accepted if and only if it is missing, blank, or #rrggbb up to white space around it, and stored without that |
| `Tags.NormalizeName` | internal/tag/service.go:217-246 | the builder loop computes it, and an accepted name is canonical |
| `Tags.CarriesExactly` | internal/tag/service.go:145-204 | after a reconciliation the app carries exactly the wanted names |
| `Tags.ReconcileIdempotent` | internal/tag/service.go:134-204 | reconciling again changes nothing |
| `Tags.Service.Create` | internal/tag/service.go:50-76 | upsert by name: an existing tag keeps its id and colour |
| `Tags.Service.SetAppTags` | internal/tag/service.go:145-204 | success reconciles; other apps' links and existing tags are kept; a bad name changes nothing; an unknown app gets no link |

## Left out

- HTTP handlers, routing, JSON, the CLI and the front end: input and output only.
- SQL text and row scanning: tables are maps, statements are atomic updates; ORDER BY is not modelled, so `Tags.Service.ListForApp` gives a set.
- Password hashing, encryption, signatures and certificate contents: library calls.
- Git, the build engine, DNS and TLS themselves: their results are parameters of the steps.
- Downtime of apps without domains and of apps that publish a host port: the code removes their old container first by design.
- Pre- and post-deploy commands, removal and pruning of images, volumes, resource limits and log files: they do not take part in the promises proved.
- Live delivery to event-bus subscribers beyond the choice of topics (`EventBus.LiveAgreesIff`): it drops events and races with replay by design.
- Resumption among concurrent publishers: `EventBus.ReplayExactIff` is about events appended in the order of their ids.
- The list of hosts exempt from automatic HTTPS, and the contents of the base configuration.
- Expiry times of certificates, wildcard coverage and DNS zones: fields no transition depends on.
- Names shared by containers of different apps: disjointness is assumed.
- Tags.Service.SetAppTags: asks for fresh ids for the tags it may create, and does not model a failing database.
