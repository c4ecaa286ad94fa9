# A verified model of SpinUP

SpinUP is a control plane in Go that stores applications and their functions, builds them into OCI images with
Kubernetes Jobs and deploys them, and a shared worker in Rust that polls the control plane, pulls the images of
`workerpool` applications and serves HTTP requests with them. This project models the parts that carry real
guarantees and proves these guarantees with Dafny. `dafny verify dfyconfig.toml` checks everything.

## The system as a whole

`Protocol.dfy` is one transition system of builder, HTTP handlers, cluster, store, feed and worker. A step is one
store call, one cluster call, one lock acquisition or one metric update, so every interleaving of any number of
builds, of handlers that create, change, deploy and delete applications, and of handlers that create and delete
functions, with one polling worker, is an execution. A run may begin on the database, Jobs and SpinApps that earlier
processes left behind. The status update of the store overwrites unconditionally; that statuses only move forward,
that an application is never served with an older build than before, and that what runs was built or posted are
properties of the whole, proved over every run in `Theorems.dfy` from invariants in `Builds.dfy`, `ClusterSafety.dfy`,
`WorkerSafety.dfy` and `Convergence.dfy`.
A few fields of the state record history only (which build an entry came from, whether a store call has failed);
nothing the system does depends on them.

What this system assumes: build and application ids are fresh; the clock does not run back; there is one control
plane process and one worker, and the worker starts with an empty table; earlier processes named the same registry and
left the rows of a build as its steps leave them. Foreign keys are enforced on every connection: the code says
`PRAGMA foreign_keys = ON` once, on one connection of a pool (`sqlite.go:69-82`), so on the others the referential half
of `Theorems.RowsAreWellFormed` and `Store.SchemaHoldsForever` depends on this assumption. A cluster call may take
effect although it answers an error. Jobs, pulls and list queries answer anything their interface allows.

## The parts

| files | part of SpinUP |
|---|---|
| `Protocol.dfy`, `Builds.dfy`, `ClusterSafety.dfy`, `WorkerSafety.dfy`, `Convergence.dfy`, `Theorems.dfy` | the system, its invariants, and the results over every run |
| `Outcomes.dfy`, `Publishing.dfy` | what a build row tells about the build; what each deploy puts on the cluster |
| `Steady.dfy`, `Runs.dfy`, `LastFunction.dfy`, `Overlap.dfy`, `Rollback.dfy` | polls of a store that stands still; continuing a run; the last function under concurrent deletions; builds that overlap; SpinApps that go back to an older build |
| `Store.dfy`, `Sqlite.dfy`, `Json.dfy`, `Renaming.dfy` | tables and statements as values; the store as an object proved against them; what the JSON column does to source files |
| `Handlers.dfy`, `HandlerEffects.dfy`, `WorkerConfig.dfy`, `Undisturbed.dfy` | the writing HTTP handlers run one at a time, the worker feed, and that the steps of a handler in the system do the same |
| `Policy.dfy`, `Deploy.dfy` | resource policy and the deployer |
| `Manifest.dfy`, `Toml.dfy`, `ManifestRead.dfy`, `ManifestDispatch.dfy` | the text of the synthesized manifest, a reader for it, and what dispatch makes of what is read |
| `Routes.dfy`, `Loader.dfy`, `Router.dfy`, `ImageRef.dfy`, `Transport.dfy` | route matching, pull, reconcile and dispatch, and the path the guest sees |
| `Paths.dfy`, `Archive.dfy`, `Packing.dfy` | `path.Clean`, source archives, and the build context |
| `Sessions.dfy` | the in-memory session store against an ideal timed map |
| `Utf8.dfy`, `Base64.dfy`, `Hex.dfy`, `Envelope.dfy` | the invoke envelope and the byte codecs of the toolbox examples (sections 4, 5 and 8 of RFC 4648, section 4 of RFC 3629) |

Imperative code is modelled by methods and classes, proved against functions on values; the results are then proved
about these functions. `Strings.dfy` stands for the string functions of the Go and Rust libraries that are used.

## Where the code does less than is said of it

- docs/user-guide/building-and-deploying.md says that the builds of one application are serialized. The code starts
  any number of them at once: from every point of a run two can be brought to run their Jobs at the same time
  (`Overlap.BuildsMayOverlap`). The worker still never serves an older build than before, but a SpinApp can go back to
  one (`Rollback.OverlapCanRollBack`). `Rollback.GoesBackIff` says exactly when it does, and `Rollback.NeverGoesBack`
  what a caller has to keep to so that it never does.
- docs/user-guide/invoking.md promises request bodies of 1 MiB. The limit on the JSON comes first: a body sent as
  base64 is refused above 789,504 octets at the latest, and as invalid JSON (`Envelope.Base64RequestIff`).
- base64-decode adds padding by the length with blanks included, so line-wrapped text is decoded only for some
  numbers of blanks (`Base64.BlanksSpoilPadding`).
- An archive import admits a file "." that an export then refuses (`Archive.DotIsRead`, `Archive.ReadThenWriteIff`).
- A path that names no file (".") is admitted as a source and packed under the name of its function's directory
  (`Packing.DotIsAdmitted`, `Packing.StaysUnderItsFunction`).
- Any rooted route is admitted, but the manifest prints it with Go's %q: with a control character in it that TOML has no
  short escape for, the text is no TOML any more (`Toml.ReadsBackIff`,
  `ManifestRead.ManifestReadsBackIff`).
- A name with a NUL is admitted by PUT, and then its builds and exports fail (`Packing.NulIsAdmitted`,
  `Packing.ContextIsPackableIff`).
- Sources go through JSON, which replaces every octet that is not UTF-8, so an imported binary file is stored altered
  (`HandlerEffects.StrayOctetIsStoredAltered`); `HandlerEffects.PutStoresIff`,
  `HandlerEffects.ImportStoresTheArchiveIff` and `HandlerEffects.ExportThenImportIff` say exactly what survives.
- A cap that does not parse is what the deployer falls back on, so it reaches the cluster (`Policy.ClampObeysPolicyIff`).
- Routes are not unique in the schema; `Routes.AnyRoutesOrderIrrelevantIff` says exactly when the order of declaration
  does not matter. A route with "/..." in the middle is sorted by less than it matches by, and loses to a shorter match
  declared before it; exactly the well-formed routes never do (`Routes.NeverLosesIff`). `Routes.OrderCheck` can be
  evaluated on a list of triggers (`Routes.OrderCheckIff`).
- The check that keeps an application's last function is not part of the deletion, so deletions that run at the same
  time can take it (`LastFunction.LastFunctionCanGo`), and only such ones can (`LastFunction.LastFunctionGoesOvertaken`).
- A session store whose wall clock runs back forgets sessions that are still valid, for every clock that does
  (`Sessions.InvisibleIff`).

## Model

| member | source | states |
|---|---|---|
| `Theorems.Provenance` | services/worker/src/router.rs:55-90 | over every run, each (name, image) the worker holds is the image of a build of a workerpool application of that name whose Job was seen to succeed without a failure at an earlier step and whose row then became succeeded, or whose row said succeeded when the run began; the entry is whole |
| `Theorems.NeverServesOlder` | services/control-plane/internal/httpapi/worker.go:72-83 | between any two points of a run, across rebuilds, failed pulls, removals, deletion and re-creation, a name is never served with a build started before the one it was served with earlier |
| `Theorems.RowsMoveForward` | services/control-plane/internal/store/sqlite.go:395-400 | although the status update overwrites unconditionally, over every run a row only moves forward, a terminal row never changes in any column, id, application, image and creation time never change, and a deleted row never returns |
| `Theorems.OneArrowAtATime` | services/control-plane/internal/builder/builder.go:362-463 | each step moves a row along one arrow of pending, running, {succeeded, failed} or pending to failed (other skips only after a store fault), and a new row is pending |
| `Theorems.RowsAreWellFormed` | services/control-plane/internal/builder/builder.go:462-468 | in every reachable state finished_at is set exactly in terminal states and not before created_at, error is non-empty exactly for failed rows, and the application exists; which time and which text they are is `Outcomes.TerminalRowsTell` |
| `Outcomes.TerminalRowsTell` | services/control-plane/internal/builder/builder.go:362-468 | over every run a succeeded row has no error and as its finish time the clock of the step at which its watcher saw the Job succeed; a failed one has either the text and the clock of the poll that failed or found the Job failed (the Job's own message, or "job failed"), or "deploy: " with the deploy's error and the clock at which the Job was seen to succeed, or the error of the start that failed and the clock of the write; only rows of earlier processes stay as they were |
| `Outcomes.WatchEndsOnce` | services/control-plane/internal/builder/builder.go:370-392 | the watch of a build ends at one step only, by a Job seen to succeed, one seen to fail, or a poll that fails |
| `Outcomes.EndsAreWritten` | services/control-plane/internal/builder/builder.go:392-468 | each of the three final writes makes an existing row terminal unless the store fails, and succeeded exactly when it is the write of success |
| `Outcomes.SizeTellsIff` | services/control-plane/internal/builder/builder.go:418-425 | over every run the row of a build of this process shows a size exactly when a step read that size and stored it without a fault |
| `Publishing.RowTellsItsStart` | services/control-plane/internal/builder/builder.go:116-149 | over every run the row of a build belongs to the application its handler loaded, names registry/name:id as its image, and was created at the clock of the step that took its stamp |
| `Theorems.SucceededMeansDeployed` | services/control-plane/internal/builder/builder.go:439-454 | a row says succeeded only after its Job was seen to succeed and, for a spinkube application, only after its own image was applied, unless it said so when the run began |
| `Theorems.ClusterImages` | services/control-plane/internal/httpapi/applications.go:347-353 | whatever PATCH requests read and re-apply in between, a SpinApp runs an image posted to /deploy for its name, one of a build of that name whose Job was seen to succeed, or the one it ran when the run began |
| `Theorems.ClusterObeysPolicy` | services/control-plane/internal/deploy/deploy.go:62-105 | with caps that parse, in every reachable state every SpinApp applied since the run began by any of the three deploy paths obeys the policy and has at least one replica |
| `Publishing.EveryPutPublishes` | services/control-plane/internal/deploy/deploy.go:62-122 | over every run a step that puts a SpinApp on the cluster or changes one is a build's own deploy, a request to /deploy or the end of a PATCH, and what it puts there is published from the row that this one has loaded or stored |
| `Publishing.ShipPublishes` | services/control-plane/internal/builder/builder.go:439-444 | a deploy of a build that takes effect applies exactly one SpinApp: the names, variables and pull secrets of the row as loaded when the build began, the build's own image, one replica, and the row's resources exactly when the policy allows them |
| `Publishing.DeployPublishes` | services/control-plane/internal/httpapi/applications.go:404-427 | so for a request to /deploy: the row as loaded for the request, its image, and its replicas or one |
| `Publishing.PatchPublishes` | services/control-plane/internal/httpapi/applications.go:337-353 | so for a PATCH: the row is the one the PATCH has stored before, which holds each thing given and keeps the rest, the image is what it read to run after that, and replicas, variables and resources are exactly those of the stored row |
| `Publishing.EveryRemovalIff` | services/control-plane/internal/deploy/deploy.go:138-147 | over every run a SpinApp leaves the cluster exactly when the deletion of the application it is named after removes it |
| `Theorems.CountersBalance` | services/control-plane/internal/builder/builder.go:162-167 | in every reachable state builds started = finished + in flight, each finished build is counted under the outcome it wrote, and deploys counted = builds that wrote succeeded + finished /deploy handlers, up to the ones about to count |
| `Theorems.NoGap` | services/worker/src/router.rs:77-87 | over every run an entry leaves the table only in the removal step of a sync whose list does not name it |
| `Theorems.EverySyncIsAtomic` | services/worker/src/router.rs:55-90 | however the lock steps of a sync are interleaved with the rest, it ends with the table an undisturbed sync would make of the table it started from; its list has distinct names |
| `Theorems.StillStoreConverges` | services/worker/src/config.rs:41-79 | if the store stands still during one poll and no query or pull fails, then at its end every due workerpool application, and nothing else, is served, each with its newest succeeded build |
| `Theorems.LeftoversNeverMove` | services/control-plane/internal/builder/builder.go:162-169 | a row that an earlier process left behind, in whatever state, is never changed by a later one: nothing resumes its watcher |
| `Steady.LaterPollsAreFree` | services/worker/src/config.rs:41-79 | if the store stands still from the start of a poll on, leaves no choice of the newest succeeded build, and nothing fails, then once that poll has ended no later step of the run pulls, and the table never changes |
| `Steady.NoTiesDecide` | services/control-plane/internal/httpapi/worker.go:72-83 | the store leaves no choice when no two builds of an application have the same stamp |
| `Overlap.BuildsMayOverlap` | services/control-plane/internal/httpapi/builds.go:124-166 | from every point of a run, two builds of any live application can be brought to run their Jobs at the same time, both rows saying running |
| `Rollback.GoesBackIff` | services/control-plane/internal/builder/builder.go:439-454 | between any two points of a run: a SpinApp that runs a build goes back to one started earlier exactly when, in between, the earlier build ships and the cluster takes it, or a PATCH that had read its image before is applied, or its image is posted to /deploy and applied |
| `Rollback.NeverGoesBack` | services/control-plane/internal/builder/builder.go:439-454 | between any two points of a run a SpinApp never goes from running a build to running one started earlier, provided that no two builds of the name are under way at once, what a PATCH reads runs until it is applied, and a posted image of a build is that of the newest when it is applied |
| `Rollback.StartsAtIff` | services/control-plane/internal/deploy/deploy.go:62-122 | an image that does not run under a name runs after a step exactly when the step is a taken deploy of it: by its build, by a PATCH that has read it, or by /deploy |
| `Rollback.OverlapCanRollBack` | services/control-plane/internal/builder/builder.go:439-454 | from every point of a run, two overlapping builds of any live spinkube application can put its SpinApp back from the later image to the earlier one |
| `LastFunction.KeepsFunctionIff` | services/control-plane/internal/httpapi/functions.go:134-148 | after any series of deletions that have passed the check, the application keeps a function exactly when some function of it is named by none of them |
| `LastFunction.LastFunctionGoesOvertaken` | services/control-plane/internal/httpapi/functions.go:124-150 | over every run an application that stays loses its last function only to a deletion that had found more than one, and that the deletion of another function by another handler has overtaken since its check |
| `LastFunction.LastFunctionCanGo` | services/control-plane/internal/httpapi/functions.go:134-148 | from every point of a run at which an application has two functions or more, deletions can leave it with none |
| `LastFunction.LosesFunction` | services/control-plane/internal/httpapi/functions.go:145-149 | while the application stays, of all steps of the system only the store call of a deletion that passed the check takes a function from it |
| `Undisturbed.ApplicationUndisturbed` | services/control-plane/internal/httpapi/applications.go:140-209 | the steps that creating an application takes in the system, with nothing in between and whichever of them the store fails, leave the tables that the handler leaves |
| `Undisturbed.PatchUndisturbed` | services/control-plane/internal/httpapi/applications.go:262-361 | so for the config PATCH, tables and cluster |
| `Undisturbed.RemovalUndisturbed` | services/control-plane/internal/httpapi/applications.go:370-394 | so for deleting a spinkube application: undeployed, then removed |
| `Undisturbed.FailedRemovalUndisturbed` | services/control-plane/internal/httpapi/applications.go:381-385 | so when it cannot be undeployed: nothing is removed |
| `Undisturbed.PoolRemovalUndisturbed` | services/control-plane/internal/httpapi/applications.go:370-394 | so for deleting a workerpool application |
| `Undisturbed.CreationUndisturbed` | services/control-plane/internal/httpapi/functions.go:18-52 | so for creating a function |
| `Undisturbed.DeletionUndisturbed` | services/control-plane/internal/httpapi/functions.go:124-150 | so for deleting a function, whichever of its calls the store fails |
| `Theorems.InvHolds` | services/control-plane/internal/builder/builder.go:116-169 | the joint invariant of builds, cluster, metrics, feed and worker holds in every state of every run |
| `Builds.NextKeepsBuilds` | services/control-plane/internal/builder/builder.go:116-169 | every step of the system keeps the schema and the fit of each row to the thread of its build |
| `Builds.NextMovesRows` | services/control-plane/internal/builder/builder.go:362-468 | one step moves an existing row along the lifecycle and can only add a pending row, by the insertion of its own build |
| `Builds.StepTouchesOneRow` | services/control-plane/internal/store/sqlite.go:395-407 | a build step leaves all rows but its own alone |
| `ClusterSafety.NextKeepsCluster` | services/control-plane/internal/deploy/deploy.go:62-122 | every step keeps each applied or remembered image justified: posted, or built by a Job seen to succeed |
| `ClusterSafety.NextKeepsPolicy` | services/control-plane/internal/deploy/deploy.go:84-105 | every step keeps all SpinApps within a policy whose caps parse |
| `ClusterSafety.StartedEqualsFinishedPlusLive` | services/control-plane/internal/builder/builder.go:457-463 | conservation of the build counters from the invariant on threads |
| `WorkerSafety.NewestOfList` | services/control-plane/internal/httpapi/worker.go:72-83 | the first succeeded build of a list answer is the newest succeeded build of the application |
| `WorkerSafety.PickIsFresh` | services/control-plane/internal/httpapi/worker.go:51-66 | the entry the handler appends is a published build and no older than what is served under that name |
| `WorkerSafety.NextKeepsWorker` | services/worker/src/router.rs:55-101 | every step of any interleaving keeps feed, table and half-done sync consistent with the builds that were published |
| `Convergence.OnlyUnwantedAreDropped` | services/worker/src/router.rs:77-87 | of all steps of the system only the removal of a sync drops an entry, and only an unwanted one |
| `Convergence.EntriesChangeWhole` | services/worker/src/router.rs:67-73 | an entry changes only by the insertion of a complete one, loaded for that name and the image the list gives, so a reader sees the old or the new entry entirely |
| `Convergence.LoadedStaysLoaded` | services/worker/src/router.rs:57-76 | at every step of a sync an application loaded at its start is present, with its old entry or one loaded since |
| `Convergence.SyncIsAtomic` | services/worker/src/router.rs:55-90 | the interleaved sync leaves exactly the table of the undisturbed one |
| `Convergence.PickIsLatest` | services/control-plane/internal/httpapi/worker.go:72-83 | the chosen build is the newest succeeded one and fewer than 30 builds are newer |
| `Convergence.WindowIsListed` | services/control-plane/internal/store/sqlite.go:367-393 | a succeeded build certainly among the 30 newest is found by the scan of any list answer |
| `Convergence.QuietSyncConverges` | services/worker/src/router.rs:55-90 | one step version of convergence: the end of an undisturbed, successful poll serves exactly the due applications |
| `Router.Router.constructor` | services/worker/src/router.rs:34-43 | the table starts empty, and so valid |
| `Router.Router.Get` | services/worker/src/router.rs:47-51 | answers exactly for names in the table, with the whole entry of that name |
| `Router.Router.Serve` | services/worker/src/server.rs:54-98 | of the table at the time of its one lock: no such application exactly when the name is not there, no route exactly when no trigger matches; otherwise the guest is the compiled file of the component of a matching trigger that no other match beats on prefix length, then order, and it gets what is left of the path: behind a well-formed route what follows the prefix, or "/" |
| `Loader.DispatchServesIff` | services/worker/src/server.rs:54-98 | an answer to a request means this exactly when it is the one dispatch gives |
| `Router.Router.Sync` | services/worker/src/router.rs:55-90 | the loops leave the table `Synced` of the old table, the list and the pull outcomes, keep every entry whole and under its own name, and pull only for changed images |
| `Router.SyncedClosedForm` | services/worker/src/router.rs:55-90 | with distinct names each wanted entry depends on its own old entry and pull only: kept if unchanged, replaced by a successful pull, kept by a failed one; unwanted ones go |
| `Router.SyncConverges` | services/worker/src/router.rs:55-90 | when every pull succeeds the table agrees with the list |
| `Router.SecondSyncIsFree` | services/worker/src/router.rs:57-64 | a second sync of the same list then pulls nothing and changes nothing |
| `Router.FreeSyncAgrees` | services/worker/src/router.rs:57-64 | conversely, a sync that pulls nothing found every wanted image already there |
| `Router.FirstLoopNeverDrops` | services/worker/src/router.rs:57-76 | the first loop keeps every entry, as it was or freshly loaded for its own name |
| `Loader.ComponentTable` | services/worker/src/loader.rs:115-133 | a key for exactly each declared id, holding a declaration of that id |
| `Loader.PullApp` | services/worker/src/loader.rs:83-150 | the loop fills the component table in lock-file order and stops at the first missing blob |
| `Loader.PullAndCompile` | services/worker/src/router.rs:92-101 | every component is compiled or the load fails |
| `Loader.LoadIsWhole` | services/worker/src/router.rs:92-101 | a loaded entry has exactly its application's component keys, each compiled from its own file, and the name, image and triggers asked for |
| `Loader.LoadSucceedsIff` | services/worker/src/loader.rs:83-150 | a load succeeds exactly when the pull did, the reference has a tag, all blobs are present and each component in use compiles |
| `Loader.LinkedAlwaysCompiled` | services/worker/src/server.rs:67-81 | when every trigger names a declared component, dispatch never answers that a component was not compiled |
| `Routes.SortByWeight` | services/worker/src/loader.rs:154-159 | heavier prefixes first, declaration order kept on ties, every trigger exactly as often as declared |
| `Routes.Resolve` | services/worker/src/loader.rs:154-163 | sort and first match give the trigger of longest prefix, the earliest declared on ties, or none exactly when none matches |
| `Routes.BestIndex` | services/worker/src/loader.rs:154-163 | reference definition: the hit of maximal weight and least index, none exactly when there is no hit |
| `Routes.BestIsAnswer` | services/worker/src/loader.rs:154-163 | the best trigger is unique |
| `Routes.MatchRebuildsPath` | services/worker/src/loader.rs:194-212 | for a well-formed route the prefix followed by the remaining path is the request path, except that the bare prefix gives "/" |
| `Routes.MatchHasPrefix` | services/worker/src/loader.rs:194-212 | a route of any shape that matches a path has its sort prefix in front of that path |
| `Routes.GuestPathIsRooted` | services/worker/src/loader.rs:194-212 | for any route the remaining path of a rooted path starts with "/" |
| `Routes.UnambiguousAnswers` | services/worker/src/loader.rs:154-163 | if triggers with one prefix name one component, every permutation of the triggers answers alike |
| `Routes.OrderIrrelevantIff` | services/worker/src/loader.rs:154-163 | for well-formed routes the answer is independent of declaration order exactly when triggers with one prefix name one component |
| `Routes.AnyRoutesOrderIrrelevantIff` | services/worker/src/loader.rs:154-163 | for routes of any shape the answer is independent of declaration order exactly when on every path all matches of maximal weight give one component and one remaining path |
| `Routes.OrderCheckIff` | services/worker/src/loader.rs:154-163 | for routes of any shape the answer is independent of declaration order exactly when a check passes that can be evaluated: ties agree on the shortest path of each route and on the path one fresh segment longer |
| `Routes.NeverLosesIff` | services/worker/src/loader.rs:186-212 | a route never loses to one that matches less of the path, whatever that one is, exactly when it is well formed: one with "/..." in the middle does |
| `Routes.DistinctRoutesAnyOrder` | services/worker/src/loader.rs:154-163 | distinct routes without a pair p and p/... answer alike in every order |
| `Routes.FirstDeclaredWins` | services/worker/src/loader.rs:154-163 | on a path that is a prefix the first trigger declared with that prefix wins |
| `Manifest.SortByName` | services/control-plane/internal/builder/manifest.go:25-26 | the sorted sequence of the functions |
| `Manifest.SynthesizeSpinToml` | services/control-plane/internal/builder/manifest.go:20-46 | fails exactly without functions, otherwise writes the text that `ManifestRead.ManifestReadsBackIff` reads back |
| `Manifest.AppendBlocks` | services/control-plane/internal/builder/manifest.go:34-44 | each loop appends the lines of one block a function in order |
| `Manifest.TextIgnoresOrder` | services/control-plane/internal/builder/manifest.go:25-26 | the same functions in any order give the same manifest |
| `Toml.ReadsBackIff` | services/control-plane/internal/builder/manifest.go:31-37 | what %q prints for a string is read back by TOML as that string exactly when it holds no control character that TOML has no short escape for, and is no TOML string otherwise |
| `ManifestRead.ManifestReadsBackIff` | services/control-plane/internal/builder/manifest.go:20-92 | for good names and a language with a builder, reading the text gives the application's name and, in name order, one trigger a function with its own route and component and one component with its source and workdir under functions/{name}; it can be read at all exactly when no route holds such a control character |
| `ManifestDispatch.EachTriggerHasOneComponent` | services/control-plane/internal/builder/manifest.go:34-44 | in what is read from the text every trigger names exactly one component block |
| `ManifestDispatch.DispatchNeverMissesComponent` | services/worker/src/server.rs:67-81 | an application loaded from the lock file of a manifest that was read dispatches every path to no route or to a compiled component |
| `ManifestDispatch.ManifestResolves` | services/worker/src/server.rs:54-98 | from the text to dispatch: a path no function's route matches has no route, and any other calls the wasm that the build of the winning function left, with the rest of the path; the longest prefix wins and, among equals, the first name in alphabetical order |
| `ImageRef.WorkerParsesPrinted` | services/worker/src/loader.rs:168-184 | the worker recovers host, repository and build id from what the builder printed, and what it recovers when the host does not look like one |
| `ImageRef.ShellParsesPrinted` | builders/go/entrypoint.sh:53-56 | the shell expansions recover host, repository and build id from what the builder printed |
| `ImageRef.ParsersAgreeIff` | builders/go/entrypoint.sh:53-56 | on what the builder printed the two parsers agree exactly when the registry host contains "." or ":" |
| `ImageRef.PrintIsInjective` | services/control-plane/internal/builder/builder.go:125 | two builds share a reference only when they are the same build for one application name |
| `ImageRef.PartsRebuild` | services/worker/src/loader.rs:168-184 | which strings are accepted, and that the parts of an accepted one rebuild it |
| `ImageRef.ParseIsStable` | services/worker/src/loader.rs:168-184 | printing the parts with their host and parsing again gives the parts back |
| `Transport.PathArrivesIff` | services/control-plane/internal/httpapi/invoke.go:137-150 | the inner path the worker resolves is the path asked for, with a "/" put in front unless there is one, exactly when that path has no "?", "#", "%" and no control character |
| `Transport.GuestSeesTheRest` | services/worker/src/server.rs:54-104 | end to end through dispatch: for such a path the guest that is called is the compiled component of the matching trigger of longest prefix, earliest on ties; it sees a rooted path, and behind a well-formed route the prefix followed by it is the path asked for, except that the bare prefix is seen as "/" |
| `Transport.TransparentArrives` | services/control-plane/internal/httpapi/invoke.go:144-150 | a transparent target reaches the server as it is, whatever the query |
| `Transport.OnlyTransparentArrives` | services/control-plane/internal/httpapi/invoke.go:144-150 | only a transparent target reaches the server as it is |
| `Paths.JoinSplit` | services/control-plane/internal/httpapi/archive.go:93 | joining the segments of a path rebuilds it |
| `Paths.CleanRooted` | services/control-plane/internal/httpapi/archive.go:93 | cleaning a rooted path gives "/" followed by its canonical segments |
| `Paths.CleanTwice` | services/control-plane/internal/httpapi/archive.go:93 | Clean is idempotent on rooted paths |
| `Paths.CleanCanonical` | services/control-plane/internal/httpapi/archive.go:134 | Clean leaves a canonical relative path alone |
| `Paths.ParentRemoves` | services/control-plane/internal/httpapi/archive.go:134 | ".." after a plain segment removes it, wherever it stands in a path |
| `Paths.DotsVanish` | services/control-plane/internal/httpapi/archive.go:134 | empty segments and "." do nothing, wherever they stand |
| `Paths.EndsVanish` | services/control-plane/internal/httpapi/archive.go:134 | a leading "." and a trailing slash do nothing |
| `Paths.RootStays` | services/control-plane/internal/httpapi/archive.go:91 | there is nothing above the root |
| `Paths.CleanClimbing` | services/control-plane/internal/httpapi/archive.go:134 | a relative path keeps what climbs in front of plain segments |
| `Paths.EntryNameIsStable` | services/control-plane/internal/httpapi/archive.go:93-97 | entry names are canonical: taking the entry name again changes nothing |
| `Archive.WriteTar` | services/control-plane/internal/httpapi/archive.go:80-112 | fails exactly when some name is refused or has a NUL in the header; otherwise the entries are those of the sorted names, whatever order the map is iterated in |
| `Archive.RefusedIff` | services/control-plane/internal/httpapi/archive.go:93-96 | a name is refused exactly when it names no file or its first real segment starts with ".." |
| `Archive.ReadTar` | services/control-plane/internal/httpapi/archive.go:114-148 | the loop computes `Untar`: regular entries under their cleaned names, later ones replacing earlier, the first bad entry ends it |
| `Archive.DetourReadsSame` | services/control-plane/internal/httpapi/archive.go:134-146 | an entry whose name goes into a directory and back is read as the one whose name does not |
| `Archive.DotIsRead` | services/control-plane/internal/httpapi/archive.go:134-145 | the reader does yield a file ".": an entry of this name within the limit is admitted |
| `Archive.ReadSizes` | services/control-plane/internal/httpapi/archive.go:138-144 | what can be read back are files within the limit only |
| `Archive.ReadNamesAreSafe` | services/control-plane/internal/httpapi/archive.go:134-137 | every name the reader admits is "." or made of plain segments and does not climb |
| `Archive.AdmittedShape` | services/control-plane/internal/httpapi/archive.go:134-137 | the exact shape of a cleaned name the reader admits |
| `Archive.EntryIsAccepted` | services/control-plane/internal/httpapi/archive.go:134-146 | the reader accepts every entry the writer emits for a file within the size limit, under its canonical name |
| `Archive.ReadAfterWrite` | services/control-plane/internal/httpapi/archive.go:80-148 | reading what was written gives the file map with its names canonicalised |
| `Archive.ReadThenWriteIff` | services/control-plane/internal/httpapi/archive.go:80-148 | what was read can be written again exactly when it holds no file "." and no name with a NUL, and is then read back unchanged |
| `Archive.CanonicalContent` | services/control-plane/internal/httpapi/archive.go:80-148 | when names collide, the content of the one later in sort order survives, and nothing is invented |
| `Archive.RoundTripIsIdentityIff` | services/control-plane/internal/httpapi/archive.go:80-148 | the round trip is the identity exactly on file maps whose names are all canonical |
| `Archive.RoundTripIsIdempotent` | services/control-plane/internal/httpapi/archive.go:80-148 | what comes back once goes through unchanged from then on |
| `Renaming.RenamedIsItselfIff` | services/control-plane/internal/httpapi/archive.go:84-97 | a file map whose names are replaced by idempotent keys, the last in sort order winning, stays as it is exactly when every name is its own key |
| `Json.CoerceIff` | services/control-plane/internal/store/sqlite.go:323-334 | a string comes out of encoding/json unchanged exactly when it is UTF-8 |
| `Json.CoerceSplit` | services/control-plane/internal/store/sqlite.go:323-334 | coercion keeps the slashes: the segments of what comes out are what comes out of the segments |
| `Json.CoerceKeepsContained` | services/control-plane/internal/store/sqlite.go:323-334 | a path without a ".." segment has none after it went through JSON |
| `Json.Marshal` | services/control-plane/internal/store/sqlite.go:323-334 | the loop over the sorted names stores `Stored(files)`: of names that JSON makes equal the last in order is read back |
| `Json.StoredIff` | services/control-plane/internal/store/sqlite.go:323-334 | a file map is stored as it is exactly when every name and every content is UTF-8 |
| `Json.StrayOctetIsAltered` | services/control-plane/internal/store/sqlite.go:323-334 | a file that is one octet above 0x7F is stored as U+FFFD |
| `Packing.ValidatePaths` | services/control-plane/internal/httpapi/builds.go:73-78 | rejects exactly the file maps with an inadmissible name, and names one |
| `Packing.AdmittedIsContained` | services/control-plane/internal/httpapi/builds.go:73-78 | a path admitted by PUT has no ".." segment |
| `Packing.ImportedIsContained` | services/control-plane/internal/httpapi/archive.go:134-137 | a path admitted by an archive import has no ".." segment |
| `Packing.BuildContext` | services/control-plane/internal/builder/builder.go:127-140 | the map built for any order of functions and files holds the manifest and each file under its key, and nothing else |
| `Packing.AddFunction` | services/control-plane/internal/builder/builder.go:135-140 | the inner loop adds exactly the files of one more function |
| `Packing.KeyIsInjective` | services/control-plane/internal/builder/builder.go:135-140 | the key functions/{name}/{path} determines function and path |
| `Packing.PackedSegments` | services/control-plane/internal/builder/builder.go:243-250 | the segments of a packed file are its function's directory followed by the cleaned file path |
| `Packing.StaysUnderItsFunction` | services/control-plane/internal/builder/builder.go:243-250 | an admitted file is packed under its own function's directory exactly when its path names a file at all |
| `Packing.DotIsAdmitted` | services/control-plane/internal/httpapi/builds.go:73-78 | a path that names no file, ".", is admitted and packed under the name of the directory itself |
| `Packing.FunctionsNeverCollide` | services/control-plane/internal/builder/builder.go:243-250 | files of different functions never share an entry |
| `Packing.ManifestIsNeverShadowed` | services/control-plane/internal/builder/builder.go:127-140 | nothing but the synthesized manifest is ever packed as spin.toml |
| `Packing.PackingIsReproducible` | services/control-plane/internal/builder/builder.go:236-273 | the same functions in any order give the same context, hence the same archive |
| `Packing.ContextIsPackableIff` | services/control-plane/internal/builder/builder.go:236-273 | packing the context of admitted sources fails exactly when some file name has a NUL once it is cleaned |
| `Packing.NulIsAdmitted` | services/control-plane/internal/httpapi/builds.go:73-78 | PUT admits a name with a NUL in it, which the tar writer then refuses |
| `Store.SchemaHoldsForever` | services/control-plane/internal/store/sqlite.go:19-62 | unique names and referential integrity survive any series of statements, a failing one changing nothing |
| `Store.ExecuteKeepsSchema` | services/control-plane/internal/store/sqlite.go:19-62 | each statement keeps unique names and referential integrity |
| `Store.CascadeIsExact` | services/control-plane/internal/store/sqlite.go:215-225 | deleting an application leaves exactly the rows of the other applications, unchanged |
| `Store.DeleteUndoesCreate` | services/control-plane/internal/store/sqlite.go:161-225 | deleting an application just created restores every table |
| `Sqlite.SqliteStore.constructor` | services/control-plane/internal/store/sqlite.go:69-97 | a new store has empty tables |
| `Sqlite.SqliteStore.CreateApplication` | services/control-plane/internal/store/sqlite.go:161-186 | takes effect as the insertion with its defaults, or changes nothing and says why |
| `Sqlite.SqliteStore.UpdateApplicationConfig` | services/control-plane/internal/store/sqlite.go:188-213 | updates exactly the four config columns of the tenant's row, or changes nothing and says why |
| `Sqlite.SqliteStore.DeleteApplication` | services/control-plane/internal/store/sqlite.go:215-225 | removes the row and all rows that refer to it, or changes nothing and says why |
| `Sqlite.SqliteStore.CreateFunction` | services/control-plane/internal/store/sqlite.go:260-271 | inserts under unique name and existing application, or changes nothing and says why |
| `Sqlite.SqliteStore.UpdateFunctionRoute` | services/control-plane/internal/store/sqlite.go:273-286 | updates the route of the application's own function, or changes nothing and says why |
| `Sqlite.SqliteStore.DeleteFunction` | services/control-plane/internal/store/sqlite.go:288-298 | removes the function and its source, or changes nothing and says why |
| `Sqlite.SqliteStore.PutSource` | services/control-plane/internal/store/sqlite.go:323-334 | replaces the whole source of an existing function by the files as they come out of the JSON column, or changes nothing and says why |
| `Sqlite.SqliteStore.CreateBuild` | services/control-plane/internal/store/sqlite.go:338-347 | inserts a row without size under an existing application, or changes nothing and says why |
| `Sqlite.SqliteStore.UpdateBuildStatus` | services/control-plane/internal/store/sqlite.go:395-400 | overwrites status, error and finish time of the row if it exists, whatever they were |
| `Sqlite.SqliteStore.UpdateBuildImageSize` | services/control-plane/internal/store/sqlite.go:402-407 | overwrites the size of the row if it exists |
| `Sqlite.SqliteStore.GetApplication` | services/control-plane/internal/store/sqlite.go:139-148 | answers the tenant's row exactly when it exists and the query does not fail, and says which it was |
| `Sqlite.SqliteStore.GetFunction` | services/control-plane/internal/store/sqlite.go:248-258 | answers the row exactly when it exists under that application and the query does not fail, and says which it was |
| `Sqlite.SqliteStore.GetSource` | services/control-plane/internal/store/sqlite.go:302-321 | answers the source exactly when there is one and the query does not fail, and says which it was |
| `Sqlite.SqliteStore.ListApplications` | services/control-plane/internal/store/sqlite.go:120-137 | all rows of the tenant, each once, ordered by name |
| `Sqlite.SqliteStore.ListFunctions` | services/control-plane/internal/store/sqlite.go:229-246 | all functions of the application, each once, ordered by name, unless the query fails |
| `Sqlite.SqliteStore.ListBuilds` | services/control-plane/internal/store/sqlite.go:367-393 | the newest builds, newest first, up to the limit (20 when it is not positive); no row left out is newer than one returned |
| `WorkerConfig.LatestSuccessfulImage` | services/control-plane/internal/httpapi/worker.go:72-83 | the early-exit scan finds the newest succeeded build, and finds one whenever one is certainly among the 30 newest |
| `WorkerConfig.GetWorkerConfig` | services/control-plane/internal/httpapi/worker.go:36-70 | no answer exactly when the application list fails; in the answer every entry is a workerpool application with its newest succeeded build, no name twice, and every due application appears except those whose build list could not be read |
| `Handlers.Server.constructor` | services/control-plane/internal/httpapi/applications.go:140-209 | handlers work on the given store and deployer |
| `Handlers.Server.LoadApplication` | services/control-plane/internal/httpapi/applications.go:487-499 | the application, or the reply: not found exactly when it is not there, internal error exactly when the query fails |
| `Handlers.Server.LoadFunction` | services/control-plane/internal/httpapi/applications.go:501-517 | the function of the application, or the reply of the first of the two loads that does not succeed |
| `Handlers.Server.CreateApplication` | services/control-plane/internal/httpapi/applications.go:140-209 | reply and tables: validation, insertion, first function, and compensation when that fails |
| `Handlers.Server.UpdateApplication` | services/control-plane/internal/httpapi/applications.go:262-361 | reply, tables, SpinApps and VirtualServices, whichever store call fails: merged row with the policy applied, and re-apply of the deployed image when the cluster would see a difference |
| `Handlers.Server.Merge` | services/control-plane/internal/httpapi/applications.go:278-336 | the row with each given description, count and list of variables put in, and given resources unless the policy forces its own, the rest kept; or the reply to a bad PATCH. It is `Protocol.Patched`, which the system is stated with |
| `Handlers.Server.CheckedVariables` | services/control-plane/internal/httpapi/applications.go:292-302 | the loop accepts a list of variables unchanged exactly when every name is a variable name |
| `Handlers.Server.Reapply` | services/control-plane/internal/httpapi/applications.go:347-353 | what is deployed is applied again with its own image and the new configuration, and nothing changes when it cannot be read or has no image |
| `Handlers.Server.DeleteApplication` | services/control-plane/internal/httpapi/applications.go:370-394 | reply, tables, SpinApps and VirtualServices, whichever store call fails: undeployed first, rows removed only when that worked |
| `Handlers.Server.CreateFunction` | services/control-plane/internal/httpapi/functions.go:18-52 | reply and tables, whichever store call fails, with the default route |
| `Handlers.Server.UpdateFunction` | services/control-plane/internal/httpapi/functions.go:80-107 | reply and tables, whichever store call fails; a route must be rooted |
| `Handlers.Server.DeleteFunction` | services/control-plane/internal/httpapi/functions.go:124-150 | reply and tables, whichever store call fails; the last function is refused |
| `Handlers.Server.PutSource` | services/control-plane/internal/httpapi/builds.go:55-85 | reply and tables, whichever store call fails; refused exactly for an empty map or an inadmissible path |
| `Handlers.Server.ImportSource` | services/control-plane/internal/httpapi/archive.go:54-78 | reply and tables, whichever store call fails; refused exactly when the upload is no archive, the archive has a bad entry, or it holds no file |
| `Handlers.Server.PrepareBuild` | services/control-plane/internal/httpapi/builds.go:124-166 | an archive, of a context of exactly the application's functions, exactly when the application is loaded, the queries succeed, there is a function, each has a source, the language has a builder, and no file name has a NUL once cleaned; which reply the failures get |
| `Handlers.Server.LoadInputs` | services/control-plane/internal/httpapi/builds.go:134-158 | the inputs of a build are had exactly when the list and each source can be read, there is a function and each has a source |
| `Handlers.Server.ReadSources` | services/control-plane/internal/httpapi/builds.go:145-158 | the loop gives the source of each function in order, or the reply for the first that cannot be had |
| `Handlers.Server.PackInputs` | services/control-plane/internal/builder/builder.go:116-140 | the builder packs the context of the inputs exactly when the language has a builder and no file name has a NUL once cleaned |
| `Handlers.EachCallKeepsIff` | services/control-plane/internal/httpapi/functions.go:129-149 | one call keeps the schema, a function for every application and admitted rows, exactly unless a creation's compensation fails |
| `Handlers.CallsKeep` | services/control-plane/internal/httpapi/applications.go:171-201 | over any series of calls run one at a time in which the compensation never fails, every application always has a function |
| `Handlers.PatchStoresFixedPoint` | services/control-plane/internal/httpapi/applications.go:312-342 | what a successful PATCH stores is a fixed point of the policy, within it, and has a replica |
| `HandlerEffects.FailedCallsChangeNothingIff` | services/control-plane/internal/httpapi/applications.go:140-209 | a handler that answers an error has changed no table, exactly unless a creation could not be compensated |
| `HandlerEffects.CreatedIsServable` | services/control-plane/internal/httpapi/applications.go:171-201 | a created application is new under id and name, holds the name, language, description and runtime asked for (none means spinkube), has one replica, no variables and no resources, and exactly one function, whose route matches every path; nothing else changed |
| `HandlerEffects.CreatedIff` | services/control-plane/internal/httpapi/applications.go:140-209 | a creation succeeds exactly when name, language and runtime are good, neither the ids nor the name are taken, and the store takes both rows |
| `HandlerEffects.FunctionCreatedIff` | services/control-plane/internal/httpapi/functions.go:18-52 | a function is created exactly when its application is there, its name is good and free, and the store takes it; it has the route given, or one that matches its own name and all below it, and nothing else changed |
| `HandlerEffects.FunctionUpdatedIff` | services/control-plane/internal/httpapi/functions.go:80-107 | a route is updated exactly when the function is the application's, the route is rooted and the store takes it; the function then has that route, and nothing else changed |
| `HandlerEffects.MissingIff` | services/control-plane/internal/httpapi/applications.go:487-517 | of all calls, exactly those about an application or function that is not there answer so |
| `HandlerEffects.PatchChangesWhatIsGiven` | services/control-plane/internal/httpapi/applications.go:262-361 | a successful PATCH changes only the config columns of one row: each given description and list of variables is what is stored, given resources too unless the platform's are forced, a given count with zero as one; what is not given stays |
| `HandlerEffects.PatchSucceedsIff` | services/control-plane/internal/httpapi/applications.go:262-342 | a PATCH succeeds exactly when the application is there and the store takes the write, given variables have identifiers as names, the replicas it ends with are not negative, and the resources it ends with obey a known policy or are forced |
| `HandlerEffects.RefusedPatchIsCallersFault` | services/control-plane/internal/httpapi/applications.go:312-331 | under a known policy whose quantities parse a refusal is 400, under an unknown one it is 500 when all else is right |
| `HandlerEffects.PatchAppliesTheRow` | services/control-plane/internal/httpapi/applications.go:337-353 | a successful PATCH that gives replicas, variables or resources applies a running SpinApp again with its own image and exactly the variables, replicas and resources of the row; no other changes a SpinApp |
| `HandlerEffects.DeletedFunctionLeavesOthers` | services/control-plane/internal/httpapi/functions.go:124-150 | a function goes with its source and nothing else, and the application keeps another one |
| `HandlerEffects.LastFunctionRefusedIff` | services/control-plane/internal/httpapi/functions.go:134-144 | the removal of a function is refused exactly when it is the last one of its application |
| `HandlerEffects.PutSucceedsIff` | services/control-plane/internal/httpapi/builds.go:55-85 | a PUT succeeds exactly when the function is the application's, there is a file, each name is not empty, not rooted and without two dots in a row, and the store takes it; nothing but that source changes |
| `HandlerEffects.PutStoresIff` | services/control-plane/internal/httpapi/builds.go:55-85 | a successful PUT stores what it was given exactly when every name and every content is UTF-8, as the names and contents that come out of its JSON request are |
| `HandlerEffects.ImportStoresTheArchiveIff` | services/control-plane/internal/httpapi/archive.go:54-78 | importing the archive of a file map stores the map with its names canonicalised exactly when these names and the contents are UTF-8 |
| `HandlerEffects.StrayOctetIsStoredAltered` | services/control-plane/internal/httpapi/archive.go:54-78 | an archive with one file that holds the octet 0xFF is accepted and stored with U+FFFD in its place |
| `HandlerEffects.ExportThenImportIff` | services/control-plane/internal/httpapi/archive.go:25-78 | a source that was imported comes back from export and import exactly when it has no file ".", no NUL in a name, and no content that outgrew the limit when JSON made it UTF-8 |
| `Handlers.InputsAreGood` | services/control-plane/internal/httpapi/builds.go:124-166 | the inputs of a build are the application's functions, each once, with admitted paths |
| `Policy.AcceptedIsFixedPoint` | services/control-plane/internal/policy/resources.go:69-97 | an accepted value obeys the policy and applying the policy again changes nothing |
| `Policy.RejectsExactlyViolations` | services/control-plane/internal/policy/resources.go:69-119 | in open and max mode exactly the values that break a cap are refused, and accepted ones pass unchanged |
| `Policy.ClampIsGrantedIff` | services/control-plane/internal/deploy/deploy.go:75-105 | what a deploy puts in is the stored resources themselves when they obey a known policy that does not force its own, and the platform's, field by field, when not |
| `Policy.ClampKeepsIff` | services/control-plane/internal/deploy/deploy.go:75-105 | under a known mode but forced, a deploy keeps the stored resources exactly when they obey the policy or are what it falls back on |
| `Policy.ClampObeysPolicy` | services/control-plane/internal/deploy/deploy.go:84-105 | with caps that parse, the deployed values obey the policy whatever was stored |
| `Policy.ClampObeysPolicyIff` | services/control-plane/internal/deploy/deploy.go:84-105 | the deployed values obey the policy for every stored value exactly when, in max mode, every cap is empty or parses |
| `Deploy.DesiredIsPublishable` | services/control-plane/internal/deploy/deploy.go:62-105 | the applied object has at least one replica and obeys a policy whose caps parse |
| `Deploy.DesiredPublishesIff` | services/control-plane/internal/deploy/deploy.go:62-105 | a SpinApp has these fields exactly when it is the one that is applied |
| `Deploy.Deployer.constructor` | services/control-plane/internal/deploy/deploy.go:47-58 | nothing is applied at first |
| `Deploy.Deployer.Deploy` | services/control-plane/internal/deploy/deploy.go:62-122 | on success exactly the SpinApp of that name is replaced, by one with the owner, image, variables and pull secrets given, the replicas of the request if positive, else of the row if positive, else one, and the resources granted; with ingress its VirtualService too, for the application's own subdomain; on failure nothing changes |
| `Deploy.Deployer.Undeploy` | services/control-plane/internal/deploy/deploy.go:138-147 | on success exactly the objects of that name are removed; on failure nothing changes |
| `Sessions.MemoryStore.constructor` | services/control-plane/internal/session/memory.go:19-21 | an empty store that was never swept |
| `Sessions.MemoryStore.Create` | services/control-plane/internal/session/memory.go:23-28 | stores or replaces one session |
| `Sessions.MemoryStore.Get` | services/control-plane/internal/session/memory.go:30-43 | sweeps, then answers the session or drops it as expired |
| `Sessions.MemoryStore.Delete` | services/control-plane/internal/session/memory.go:45-50 | removes one session |
| `Sessions.MemoryStore.GcLocked` | services/control-plane/internal/session/memory.go:54-65 | at most once a minute, by the monotonic clock where both times have read it, removes exactly the sessions expired by the wall clock, in any iteration order |
| `Sessions.OneCallRefines` | services/control-plane/internal/session/memory.go:23-65 | one call answers as the ideal map and keeps the refinement |
| `Sessions.SweepingIsInvisible` | services/control-plane/internal/session/memory.go:23-65 | under a wall clock that never runs back every series of calls is answered as the ideal map answers it |
| `Sessions.SessionComesBack` | services/control-plane/internal/session/memory.go:30-43 | a session neither replaced nor deleted comes back unchanged, roles included, until it expires |
| `Sessions.SweepBoundsWhatIsHeld` | services/control-plane/internal/session/memory.go:54-65 | after any Get the last sweep is under a minute old by the clock that Sub reads, and each held session expires at or after its wall time or was created since |
| `Sessions.SweepBoundsAlong` | services/control-plane/internal/session/memory.go:54-65 | that bound holds after every series of calls |
| `Sessions.InvisibleIff` | services/control-plane/internal/session/memory.go:54-65 | for any list of wall clock readings: every series of calls in which the Gets read the wall clock so, and the monotonic one anyhow, is answered as the ideal map answers it, exactly when the readings never go back |
| `Sessions.BackStepShows` | services/control-plane/internal/session/memory.go:54-65 | whatever went before, creating a session that expires at u and getting it at t > u and then at u is not answered as the ideal map answers it |
| `Utf8.ValidIff` | services/control-plane/internal/httpapi/invoke.go:116 | a body passes the check exactly when it is the UTF-8 of some scalar values |
| `Utf8.DecodeThenEncode` | services/control-plane/internal/httpapi/invoke.go:116 | decoding valid UTF-8 and encoding again gives the octets back |
| `Utf8.EncodeThenDecode` | services/control-plane/internal/httpapi/invoke.go:116 | the octets of any scalar values are valid and decode to them |
| `Envelope.WriteResponse` | services/control-plane/internal/httpapi/invoke.go:112-128 | the flag is set exactly when the body is not UTF-8 or has a content type that is not textual, and the member is then its base64 |
| `Envelope.TextishIff` | services/control-plane/internal/httpapi/invoke.go:199-211 | text is exactly what is of a type text/…, and what is of a type application/… that has json, xml, yaml, javascript or html in it |
| `Envelope.Capture` | services/control-plane/internal/httpapi/invoke.go:169-178 | keeps the body up to 1 MiB and says truncated exactly when something was cut |
| `Envelope.BodyComesBack` | services/control-plane/internal/httpapi/invoke.go:112-128 | for every body and content type, reading the member by the flag after JSON transport gives every octet back |
| `Envelope.PlainSurvivesIff` | services/control-plane/internal/httpapi/invoke.go:116-119 | a string passes through JSON unchanged exactly when it is UTF-8, whatever is made of the others: why the check is there |
| `Envelope.PlainRequestIff` | services/control-plane/internal/httpapi/invoke.go:53-74 | a UTF-8 body sent as text is taken out unchanged exactly when it and its JSON are within the limits |
| `Envelope.Base64RequestIff` | services/control-plane/internal/httpapi/invoke.go:53-74 | a body sent as base64 is taken out unchanged exactly when its base64 text and the rest of the JSON fit the reader's limit, so never above 789,504 octets |
| `Base64.EncodeOctets` | examples/toolbox/base64-encode/src/index.ts:6-11 | the loop builds a Latin-1 string on which btoa succeeds, giving the padded base64 text |
| `Base64.DecodeOctets` | examples/toolbox/base64-decode/src/index.ts:7-14 | the loop fills the array with what atob finds in the normalised, filled-up text |
| `Base64.OctetsInvertSextets` | examples/toolbox/base64-encode/src/index.ts:6-11 | regrouping octets in sextets and back is the identity |
| `Base64.WholeGroupsPrintBack` | examples/toolbox/base64-decode/src/index.ts:7-14 | whole groups of symbols are printed back as they were |
| `Base64.RoundTrip` | examples/toolbox/base64-decode/src/index.ts:7-14 | decode recovers the octets from the padded, unpadded and URL-safe forms |
| `Base64.EveryFormDecodes` | examples/toolbox/base64-decode/src/index.ts:7-14 | any text that is such a form after its alphabet is normalised decodes to the octets |
| `Base64.BlanksSpoilPadding` | examples/toolbox/base64-decode/src/index.ts:8-10 | with blanks inside, such a text decodes exactly when their number is a multiple of four or no padding is added; otherwise it fails |
| `Hex.ReadPairs` | examples/toolbox/hex-to-text/src/index.ts:20-24 | the stride-two loop fills the array with the value of each pair of digits |
| `Hex.Decode` | examples/toolbox/hex-to-text/src/index.ts:6-24 | the answer is the bytes whose printed form the text is, or the right error |
| `Hex.PairsInvertIff` | examples/toolbox/text-to-hex/src/index.ts:5-10 | digits decode to exactly the bytes whose printed form is their lower-case form |
| `Hex.RoundTrip` | examples/toolbox/hex-to-text/src/index.ts:6-24 | in any case and with white space anywhere, the printed form of some bytes decodes to these bytes and to nothing else |
| `Hex.PrintedIsPlain` | examples/toolbox/text-to-hex/src/index.ts:5-10 | what text-to-hex prints is such a text |

## Left out

- Theorems.RowsMoveForward: a store call that fails changes nothing and is not retried; what a fault does to a row that should have moved is that the row stays, as the code ignores these errors.
- Theorems.ClusterObeysPolicy: for caps that parse; `Policy.ClampObeysPolicyIff` shows that this is needed.
- Theorems.StillStoreConverges: an application is due when one of its succeeded builds has fewer than 30 others as new, because rows with equal stamps at the edge of the 30 may be listed or not.
- WorkerConfig.GetWorkerConfig: the id, language, description and function list of each entry are not modelled; the worker does not use them to serve.
- Theorems.Provenance: the worker's table is empty when a run begins; a control plane restarted under a worker that goes on serving is not modelled.
- Handlers.Server.UpdateApplication: the texts of policy errors are not modelled, only which reply they lead to.
- Transport.GuestSeesTheRest: ends at the path handed on; the assembly of the guest's URI may still refuse characters such as spaces.
- Transport.PathArrivesIff: a path is a sequence of octets, and the escaping that clients add to octets outside ASCII and servers take away again is taken as the identity; limits on the length of a URI are left out.
- Manifest.SynthesizeSpinToml: characters beyond ASCII are taken to be printable, so that %q prints them as they are; those that are not would be printed as escapes that TOML reads too.
- ManifestRead.ManifestReadsBackIff: the reader knows the TOML that the manifest is written in: tables, arrays of tables, one key a line, and strings with the short escapes of TOML 1.0. What Spin makes of other files is left out.
- ManifestDispatch.DispatchNeverMissesComponent: that Spin's lock file lists the triggers and components of the manifest in order, each with the digest of its source, is an assumption about Spin, stated as `LockOf`.
- Undisturbed.ApplicationUndisturbed: a creation that is refused, or whose first row the store does not take, is not a step of the system, as it changes nothing.
- Archive.ReadTar: gzip and tar are their sequence of entries; an upload that is no archive is the case `Broken` of the import, and an export that breaks off is left out.
- Archive.WriteTar: of the reasons for which archive/tar refuses a header only the NUL in a name is modelled; sizes and times are always in range. `packFiles` writes the same entries as `writeTarGz`, and one model serves both.
- Handlers.Server.ImportSource: the 8 MiB bound on the request is one of the reasons for a `Broken` upload and is not told apart from the others.
- Handlers.Server.PutSource: decoding the request is left out; it gives names and contents that are UTF-8, and any other map is only admitted here.
- Policy.RejectsExactlyViolations: Kubernetes quantities are read by a parameter into an ordered set of numbers.
- Sessions.SweepingIsInvisible: the mutex makes calls atomic; wall times are counted from Go's zero time.
- Sessions.InvisibleIff: for Gets whose two wall readings agree. They are two calls of `time.Now`, so they differ when the wall clock is set between them; the monotonic readings, by which the sweep is throttled, may differ in any way.
- Protocol: the handlers that change a route or a source are not steps of the system. They write columns of `functions` and `sources` that no result about runs reads; `Handlers` covers them one at a time, and what a build reads of them is an input of its preparation.
- Decoding of request bodies: a body that is not JSON is refused with 400 after the loads and before anything else, and changes nothing.
- Envelope.WriteResponse: the content type is taken in lower case; lower-casing beyond ASCII and the other members of the response (status, headers, duration) are left out.
- Base64.DecodeOctets: `trim` in the handler and the text decoder behind the octets are left out, as the latter drops a leading byte order mark.
- Hex.Decode: the text decoder behind the octets is left out for the same reason.
- `profile`: which image builds a language; which languages have one is modelled.
- wasmtime: compiling a component is an outcome that may fail, invocation is left out.
- Kubernetes, Istio, the registry, OIDC, telemetry and log streaming: the cluster is a map from names to applied objects, Jobs are counters; the rest of the clients is plumbing.
- Polling of a Job and its 15 minute limit: one step sees the Job, or an error, the timeout among them.
- `extractImageSize`: the size found in the log is an input of the step that saves it.
- Process restart: a run is that of one process. Rows, Jobs and SpinApps of earlier ones are there and the rows never move; counters start at zero and requests that were under way are gone.
- Reading handlers, exports, authentication, cookies, role matching, configuration and the user interface: single branches without state.
