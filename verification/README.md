# Models of the editor's loader, bundler and command line, with proofs

Seven parts of the repository, each modelled in Dafny and proved to keep what it is for.

**The AMD module manager** (`src/vs/loader.js`). `LoaderState` is the manager as a
transition system: tables (modules, inverse dependencies, known ids, parked plugin
resources), what the calls in progress still have to do, and a history. One event is one
piece of `_resolve`, `_onModuleComplete`, `_loadPluginDependency` or `_onLoadError` between
two calls of a factory, a plugin or an error handler; events interleave freely, so all of
these and script loads may call back into the manager. `LoaderInvariant` and
`LoaderPreservation` hold the invariant and its preservation, `LoaderTheorems` what follows
for whole runs, `LoaderHistory` what the tables owe to the calls that were made,
`LoaderProgress` that runs come to rest, `LoaderUnsafe` that unsafe plugins block, `LoaderExamples` two runs that end in a
deadlock. `ModuleManager` is the class with its tables updated in place and its
breadth-first and depth-first searches; every method is tied to a run of the transition
system.

**Source-map concatenation** (`scripts/playground-server.ts`). `Alphabet` is the
alphabet of section 4 of RFC 4648; `Vlq` has the character tables, the 32-bit operators and
the base64-VLQ numbers; `SourceMapFormat` is an independent reader of the
format "Proposed Format" of the Source Map Revision 3 Proposal; `SourceMapBuild` the
builder as functions on values; `SourceMapProof` and `SourceMapTheorems` relate the two;
`SourceMapBuilder` has the growing buffers and the builder as classes, and `Bundle` the
depth-first bundler on top of them.

**The multiplexed stream writer** (`cli/src/rpc.rs`). `Streams` has one step for every
section under the lock, every write to a half and every shutdown; `StreamsProof` the
invariant; `StreamsHistory` what was written, delivered, failed and shut down as told by
the events of a run; `StreamsTheorems` and `StreamsProgress` ownership, data and coming to rest.

**Port forwarding** (`cli/src/tunnels/local_forwarding.rs`). `PortCounts` the shared map,
`PortForwarding` the sender and receiver classes, `PortRuns` any number of senders and the
receiver over whole runs.

**Relocated URLs** (`src/vs/css.build.ts`). `CssPaths` the path functions and their loops,
`CssPathsProof`, `CssPathsFollow` and `CssPathsTheorems` when a rewritten URL leads to the
same target, `CssPathsMeaning` the same in terms of the places paths lead to, and
`CssPathsExample` two URLs that lead elsewhere.

**Keyring chunks** (`cli/src/auth.rs`) in `Keyring`, and **the cache of downloads**
(`cli/src/download_cache.rs`) in `DownloadCache`.

Where a wanted property is false of the code, the code is kept, a lemma with a concrete
input or run shows the failure, and an equivalence says exactly when the property holds:

- a plugin resource parked at its plugin can close a circle the cycle check does not see
  (`PluginDeadlock`; `NoDeadlockWithPlugins` says when, at rest,
  `NoDeadlockWithSafePlugins` which declarations are always safe, and `UnsafeBlocks` that
  the others can block);
- `_resolve` gives up on a failed dependency without telling the modules that wait
  (`AbortedDeadlock`, `NoDeadlock`);
- `addVLQ` loses numbers from 2^30 on, the first of which it writes like zero
  (`FirstNumberLost`, `RoundTrip`);
- a source with more `;` than lines unbalances the map (`ExcessLine`, `BundleBalance`);
- a stream id used again too early loses a write half (`LiveIdReused`, `RemovedIdReused`,
  `ReuseIff`); ids are drawn from a 32-bit counter (`cli/src/rpc.rs:251` and `397-400`), so this needs
  the counter to wrap around or another caller of `insert`;
- a port listed with different multiplicities leaks or panics (`DuplicateLeaks`,
  `DuplicatePanics`, `ReplaceConservesIff`);
- a round of `apply_to` during which the senders change their minds ends with the ports they
  wanted when it began (`StaleAfterRound`, `EndToEnd`), and catches up in the next round
  (`TunnelCatchesUp`);
- a URL rewritten for a file whose own folders are `.`, `..` or empty, or cut just before an
  empty segment, is wrong (`WrongUrl`, `RootedUrl`, `RelocationIff`);
- a stored credential that fills its last chunk cannot be read back, or is read back with
  the end of an older one behind it (`FullChunkLost`, `OldTailSpliced`, `RoundTripIff`).

Two details where the code does other than a quick reading suggests, followed as they are:
the `break` on a failed write in `write_loop` leaves the inner loop only, so the writing
task goes back to the lock; and `create` on an existing directory does not mark it as used.

## Model

| member | source | states |
|---|---|---|
| LoaderPreservation.ReachableInv | src/vs/loader.js:1464-1787 | every state that any interleaving of defines, resolutions, completions, plugin loads and the single steps of load errors can reach satisfies the manager's invariant |
| LoaderPreservation.EventKeeps | src/vs/loader.js:1464-1787 | each single event keeps the invariant |
| LoaderTheorems.FactoriesInOrder | src/vs/loader.js:1722-1758 | in every reachable state each factory ran at most once, and only after each of its dependencies ran or was cut off; what is cut off lies on a cycle of declared dependencies |
| LoaderTheorems.NothingCutWithoutCycles | src/vs/loader.js:1685-1695 | if the declared dependencies are acyclic no dependency is ever cut off |
| LoaderTheorems.CountsAndWaits | src/vs/loader.js:1658-1777 | the unresolved count of a resolved module is its occurrences, with multiplicity, in all inverse lists plus pending decrements, and never negative; wait edges lie inside the dependency edges and are acyclic |
| LoaderTheorems.NoDeadlock | src/vs/loader.js:1658-1787 | at rest all modules are complete if and only if no incomplete module waits for one whose resolution gave up or for an id that was never defined |
| LoaderTheorems.NoDeadlockWithoutErrors | src/vs/loader.js:1658-1787 | without errors and plugin dependencies, once everything requested is defined and nothing is in progress, every module is complete, cycles or not |
| LoaderTheorems.NoDeadlockWithPlugins | src/vs/loader.js:1699-1716 | the diagnosis at rest: with plugins and no errors, all modules are complete if and only if wait edges and parked resources form no circle |
| LoaderTheorems.NoDeadlockWithSafePlugins | src/vs/loader.js:1685-1716 | a condition on the declarations: without errors, once everything requested is defined and nothing is in progress, every module is complete if no plugin needs one of its own resources, directly or not; other cycles are allowed |
| LoaderUnsafe.UnsafeBlocks | src/vs/loader.js:1685-1716 | the converse: if a plugin of a program needs one of its own resources, some order of definitions without errors comes to rest in a state from which, however the program goes on, the plugin never completes |
| LoaderProgress.NeverStuck | src/vs/loader.js:1464-1787 | in every reachable state that is not at rest some event other than a definition or a load error can happen |
| LoaderProgress.AnyInterleaving | src/vs/loader.js:1464-1787 | in every reachable state every call in progress can go on whatever the others do, any module may be defined and any script may fail |
| LoaderProgress.InternalLess | src/vs/loader.js:1464-1787 | every such event makes a measure smaller |
| LoaderProgress.ComesToRest | src/vs/loader.js:1464-1787 | left alone, the manager cannot go on for ever, whatever the order of its events, and where it cannot go on it is at rest |
| LoaderTheorems.ErrorsReachWaiters | src/vs/loader.js:1470-1494 | however error callbacks interleave: when no walk is in progress, whoever waits along a chain for a complete module is complete, unless the chain passes a running factory or a resolution that gave up |
| LoaderTheorems.FailedModulesNeverRun | src/vs/loader.js:1172-1180 | whatever event fails a module that still waits, it is complete from then on and its factory never runs, over every later run |
| LoaderHistory.FirstDefinitionCounts | src/vs/loader.js:1352-1370 | in every state of every run a module is in the tables exactly when a definition or a load error came for it, with the dependencies and the error callback of the first of these |
| LoaderHistory.HasHistory | src/vs/loader.js:1352-1787 | every reachable state is the end of such a run |
| LoaderHistory.ClearedIff | src/vs/loader.js:1139-1168 | in every reachable state a module has forgotten its dependencies if and only if its factory has run and returned |
| LoaderHistory.ResolutionOver | src/vs/loader.js:1658-1721 | once a resolution is over: the factory, if it ran, ran after every dependency that was not cut off; every dependency is defined, asked for or parked at a plugin that is, or the resolution gave up and a dependency had failed |
| LoaderHistory.AskedForAReason | src/vs/loader.js:1698-1716 | in every reachable state an id that was asked for is a declared module, the plugin of a declared resource, or a declared resource whose plugin is complete |
| LoaderHistory.AsksWhen | src/vs/loader.js:1591-1645 | an id becomes known only while it is undefined, when a dependency is examined or a parked resource is fetched |
| LoaderHistory.GivesUpOnFailure | src/vs/loader.js:1674-1682 | a resolution gives up only on a dependency that failed |
| LoaderHistory.FailureHasCause | src/vs/loader.js:1464-1498 | in every state of every run, whatever failed to load or threw has failed, and every other failed module needs one of these, directly or not |
| LoaderExamples.PluginDeadlock | src/vs/loader.js:1699-1714 | a run without errors, everything defined, that ends with modules waiting for ever because of a parked plugin resource |
| LoaderExamples.AbortedDeadlock | src/vs/loader.js:1676-1682 | a run without plugins that ends with a module waiting for ever because a resolution gave up |
| ModuleManager.Manager.HasDependencyPath | src/vs/loader.js:1505-1541 | terminates and answers true if and only if a path of at least one edge leads through defined, uncleared modules; the modules queued are distinct, defined and reached, and all of those when the answer is false |
| ModuleManager.Manager.FindCyclePath | src/vs/loader.js:1548-1568 | whatever it returns is, back to front, a dependency chain from the start that ends at the target or is cut off at depth 50; it returns one whenever a path exists |
| ModuleManager.Manager.RequestModule | src/vs/loader.js:1591-1596 | a module that is neither defined nor known becomes known |
| ModuleManager.Manager.ResolveDependency | src/vs/loader.js:1663-1716 | examining one dependency is the resolve step of the transition system |
| ModuleManager.Manager.Resolve | src/vs/loader.js:1658-1721 | a whole resolution, with the completions it sets off, is a run, and leaves nothing of its own in progress |
| ModuleManager.Manager.OnModuleComplete | src/vs/loader.js:1722-1787 | the factory of an incomplete module runs now, that of a complete one does not; the nested cascade is a run that pays every decrement it owes, and it terminates |
| ModuleManager.Manager.DefineModule | src/vs/loader.js:1352-1370 | a second definition of an id changes nothing; a first one is a run that leaves the module declared with exactly the given dependencies and, until it is cleared, with the given error callback; if its factory ran, every dependency ran before it or was cut off; every dependency is defined, asked for or parked at a plugin that is, unless the resolution gave up, and then one of them had failed |
| ModuleManager.Manager.NotifyAffected | src/vs/loader.js:1470-1494 | the walk fails exactly the closure of the failed id under inverse edges, each module once, and leaves every other module as it was; it tells whether one of them has an error callback |
| ModuleManager.WalkLeads | src/vs/loader.js:1470-1494 | a walk that nothing interrupts is a run of the single steps of a walk |
| ModuleManager.Manager.OnLoadError | src/vs/loader.js:1464-1498 | the new state is that of a whole walk, reached by a run; what has failed is what had failed, the id and what waited for it, directly or not; the global handler is called if and only if none of the notified modules has an error callback |
| Vlq.CharRoundTrip | scripts/playground-server.ts:688-696 | the two character tables undo each other on all 64 digits |
| Vlq.TablesAreAlphabet | scripts/playground-server.ts:688-696 | digit i is written as the i-th of the 64 characters, and a byte is read as its position among them, '=' as 64 and every other byte as 255 |
| Vlq.MakeTables | scripts/playground-server.ts:688-696 | the loop over the characters fills both tables so |
| Alphabet.DigitIsPosition | scripts/playground-server.ts:688-696 | the digit the independent reader takes a byte for is its position among the 64 characters |
| Vlq.Separators | scripts/playground-server.ts:557-633 | the bytes compared with are those of ';', ',' and the newline |
| Vlq.Operators | scripts/playground-server.ts:603-740 | the shifts and masks are those of 32-bit integers with wrap-around and shift counts modulo 32 |
| Vlq.RoundTrip | scripts/playground-server.ts:721-740 | for every integer the written bytes are at most 7, and decoding them gives the number back and consumes exactly them if and only if its magnitude is below 2^30; then nothing leaves the signed 32-bit range |
| Vlq.FirstNumberLost | scripts/playground-server.ts:721-740 | 2^30 is written as the single byte 'A', like zero, and read back as zero |
| SourceMapBuild.NamesKept | scripts/playground-server.ts:592-600 | each name of a source is found in the builder's list where the remapping says, and earlier names keep their place |
| SourceMapBuild.NamesDistinct | scripts/playground-server.ts:592-600 | no source is listed twice |
| SourceMapProof.AddSourceMeaning | scripts/playground-server.ts:588-667 | adding a well-formed source appends, for an independent reader, exactly that source's lines with the same positions and source names |
| SourceMapTheorems.ConcatenationMeaning | scripts/playground-server.ts:588-667 | for any sequence of well-formed sources the built mappings read as the sources' mappings one after the other, each shifted by the lines before it |
| SourceMapTheorems.AddLineMeaning | scripts/playground-server.ts:582-586 | a line of text adds one line without segments |
| SourceMapTheorems.RunsIff | scripts/playground-server.ts:629-643 | the builder rejects mappings if and only if they hold a byte outside the alphabet |
| SourceMapTheorems.MakeSourceCounts | scripts/playground-server.ts:552-568 | a source holds the text of its file, followed by a newline exactly where the last line lacks one; it has as many newlines as it claims lines, and the names and mappings of the file |
| SourceMapTheorems.StandsForOne | scripts/playground-server.ts:552-568 | only one source does |
| SourceMapTheorems.LinesBalance | scripts/playground-server.ts:588-667 | the surplus of ';' over newlines grows by exactly the lines of mappings beyond the content |
| SourceMapTheorems.BundleBalance | scripts/playground-server.ts:588-667 | a built map has as many ';' as the output has newlines if and only if no source has more ';' than lines |
| SourceMapTheorems.ExcessLine | scripts/playground-server.ts:588-667 | an empty file with the mappings ";" gives one ';' and no newline |
| SourceMapTheorems.LinesAgree | scripts/playground-server.ts:588-667 | every source begins on the same line of the output and of the meaning, and has the same lines in both |
| SourceMapBuilder.CountNewlines | scripts/playground-server.ts:760-766 | the loop counts the newlines |
| SourceMapBuilder.NewSource | scripts/playground-server.ts:552-572 | the constructor makes that source |
| SourceMapBuilder.DynamicBuffer.EnsureCapacity | scripts/playground-server.ts:707-714 | the buffer grows and keeps its contents |
| SourceMapBuilder.DynamicBuffer.AddVLQ | scripts/playground-server.ts:721-740 | the loop appends exactly the VLQ bytes of the number |
| SourceMapBuilder.DynamicBuffer.AddBuffer | scripts/playground-server.ts:749-753 | appends the bytes |
| SourceMapBuilder.Builder.AddLine | scripts/playground-server.ts:582-586 | the builder changes as the function on values says |
| SourceMapBuilder.Builder.AddNames | scripts/playground-server.ts:592-600 | the loop over the names changes the list and makes the remapping of the functional builder |
| SourceMapBuilder.Builder.CopyMappings | scripts/playground-server.ts:603-666 | the in-place decode and re-encode loop refines the functional builder |
| SourceMapBuilder.Builder.AddSource | scripts/playground-server.ts:588-667 | the whole call refines the functional builder, and fails exactly when it does |
| Bundle.DependenciesFirst | scripts/playground-server.ts:377-386 | in an acyclic graph the end of any dependency path from an emitted module was emitted before it |
| Bundle.Bundler.Visit | scripts/playground-server.ts:377-386 | the recursive walk over a mutable visited set terminates, emits only what the module needs, each module after its dependencies and these in the order in which they are listed, and keeps what is emitted in dependency order; it fails only when a needed module has unreadable mappings |
| Bundle.BundleWithDependencies | scripts/playground-server.ts:373-397 | a bundle is served if and only if the mappings of all modules the entry needs are readable; it holds exactly those modules in post-order, so that a module follows each dependency that does not need it in turn |
| Bundle.BundleOrdered | scripts/playground-server.ts:373-388 | every module occurs exactly once and, in an acyclic graph, after all its transitive dependencies |
| Bundle.BundleMeaning | scripts/playground-server.ts:373-397 | the content is the files of the modules in order, each with its last line ended, and one last line; the served source map says of each line what the map of its module said, every module having the same lines in both |
| StreamsProof.EventKeeps | cli/src/rpc.rs:542-613 | every step keeps the invariant that locates each write half and accounts for its bytes |
| StreamsProof.ReachableInv | cli/src/rpc.rs:542-613 | the invariant holds in every reachable state |
| StreamsHistory.TableRecorded | cli/src/rpc.rs:542-571 | the table has exactly the streams inserted and not removed since, each made with the half of its last insert |
| StreamsHistory.Recorded | cli/src/rpc.rs:542-613 | over every run, what the state records for a half as accepted is the concatenation, in order, of the buffers written while a stream with that half was in the table; what it records as delivered, failed and shut down is what the events did |
| StreamsTheorems.SingleOwnership | cli/src/rpc.rs:542-613 | after every run, a half is somewhere if and only if it was inserted, and then in exactly one place: its record, one task, a remover, or shut down; it is never shut down twice |
| StreamsTheorems.NoLostWakeUp | cli/src/rpc.rs:552-561 | a record with its half has an empty queue, and a record lacks its half if and only if a task serves it, exactly one |
| StreamsTheorems.DeliveredIsPrefix | cli/src/rpc.rs:583-613 | the bytes sent to a half are always a prefix of the buffers written to its stream, whatever failed or was removed |
| StreamsTheorems.NothingLost | cli/src/rpc.rs:552-613 | while the stream exists and no write failed, the bytes sent, the items in hand and the queue are together exactly the buffers written to it, in order; when the half is home all of them were sent |
| StreamsTheorems.AtRest | cli/src/rpc.rs:542-613 | at rest every stream inserted and not removed has its half and has delivered all buffers written to it unless a write failed, and every other half was shut down exactly once |
| StreamsProgress.InternalLess | cli/src/rpc.rs:583-613 | every step the module takes on its own makes a measure smaller |
| StreamsProgress.Bounded | cli/src/rpc.rs:583-613 | left alone the module takes a bounded number of steps |
| StreamsProgress.AnyInterleaving | cli/src/rpc.rs:542-613 | in every reachable state every task and remover can take its next step whatever the others do, buffers may be written and streams removed, and streams inserted under unused ids |
| StreamsProgress.EveryRunRests | cli/src/rpc.rs:542-613 | from any point of a run at which the calls end, in any order and with any failures, the module takes a bounded number of steps, and when it cannot go on it is at rest with all buffers written delivered where no write failed and every half not in the table shut down exactly once |
| StreamsProgress.AllDelivered | cli/src/rpc.rs:542-613 | every run can be continued so without a failure on a half that had none |
| StreamsProgress.ReuseIff | cli/src/rpc.rs:563-571 | inserting an id keeps every half in one place for ever if and only if its record is gone and no task works for it |
| StreamsProgress.LiveIdReused | cli/src/rpc.rs:563-571 | in a reachable state, inserting the id of a stream in the table leaves its half in no place |
| StreamsProgress.RemovedIdReused | cli/src/rpc.rs:563-613 | in a reachable state, inserting the id of a removed stream whose loop still runs lets that loop overwrite the new half |
| PortCounts.ReplaceEffect | cli/src/tunnels/local_forwarding.rs:96-126 | replacing a list fails if and only if some port given up was counted too few times, and otherwise changes every count by exactly what was given up and what is new |
| PortForwarding.Sender.SetPorts | cli/src/tunnels/local_forwarding.rs:96-126 | the two loops change the shared map as the replacement of the sender's list says, and panic exactly when it fails |
| PortForwarding.Sender.Clone | cli/src/tunnels/local_forwarding.rs:129-136 | a clone shares the map and lists nothing |
| PortForwarding.Sender.Drop | cli/src/tunnels/local_forwarding.rs:138-142 | dropping gives up the whole list |
| PortForwarding.ApplyRound | cli/src/tunnels/local_forwarding.rs:164-188 | whatever the iteration order, the tunnel ends up forwarding exactly the observed map at primary privacy, and is never asked to forward a port twice or to stop one it does not forward |
| PortRuns.ReplaceConservesIff | cli/src/tunnels/local_forwarding.rs:96-126 | from right counts replacing a list never panics, and the counts stay right if and only if the ports kept are listed as often as before |
| PortRuns.SendersListed | cli/src/tunnels/local_forwarding.rs:95-142 | over every run a live sender lists what it was last told to, a clone nothing at first |
| PortRuns.AnyInterleaving | cli/src/tunnels/local_forwarding.rs:95-189 | in every state of a run live senders may be cloned, given lists and dropped whatever the receiver does, and the receiver goes on unless it waits with nothing new |
| PortRuns.ReferenceCounts | cli/src/tunnels/local_forwarding.rs:95-142 | over any run of clone, duplicate-free set_ports and drop: each count is the number of live senders listing the port, a port is present if and only if one lists it, nothing panics, and without senders the map is empty |
| PortRuns.EndToEnd | cli/src/tunnels/local_forwarding.rs:162-189 | when a round of any run ends, whatever the senders did between its tunnel operations, the tunnel forwards exactly the ports that were listed when the round observed the map, publicly if and only if a sender asked so; this is what the live senders want if and only if their wishes are still the same |
| PortRuns.CaughtUp | cli/src/tunnels/local_forwarding.rs:164-188 | whenever the receiver waits and nothing was sent since it last woke up, the tunnel forwards exactly what the live senders list |
| PortRuns.TunnelCatchesUp | cli/src/tunnels/local_forwarding.rs:164-188 | once the senders keep still the receiver takes a bounded number of steps, and when it cannot go on the tunnel forwards exactly what they list |
| PortRuns.NothingRefused | cli/src/tunnels/local_forwarding.rs:167-186 | at no time of any run is a port forwarded twice or one stopped that is not forwarded |
| PortRuns.StaleAfterRound | cli/src/tunnels/local_forwarding.rs:162-189 | a sender that gives its port up during a round leaves it forwarded for nobody when the round ends |
| PortRuns.DuplicateLeaks | cli/src/tunnels/local_forwarding.rs:96-126 | a port listed twice and then once is never given back |
| PortRuns.DuplicatePanics | cli/src/tunnels/local_forwarding.rs:96-126 | for every port, a reachable state in which the only sender lists it twice and dropping it panics |
| CssPaths.Push | src/vs/css.build.ts:224-231 | the loop pushes exactly the pieces of the path |
| CssPaths.Join | src/vs/css.build.ts:189-241 | the method refines the path function |
| CssPaths.CommonPrefix | src/vs/css.build.ts:243-251 | the loop finds the longest common prefix |
| CssPaths.Relative | src/vs/css.build.ts:262-279 | the method refines the path function; what starts at the root or with http:// or https:// is returned unchanged |
| CssPaths.PathStartIs | src/vs/css.build.ts:191-201 | the path of a URL starts at the first slash behind //, http:// or https:// and the host, and that of everything else at its beginning |
| CssPaths.CommonFolderIs | src/vs/css.build.ts:253-260 | the shared folder is the longest common prefix that ends in a slash |
| CssPathsProof.FlattenPieces | src/vs/css.build.ts:224-231 | joining the pieces of a path gives the path |
| CssPathsProof.PiecesFlatten | src/vs/css.build.ts:224-241 | splitting joined pieces gives the pieces |
| CssPathsProof.PushAgain | src/vs/css.build.ts:203-222 | normalising what is normal changes nothing |
| CssPathsTheorems.JoinNormal | src/vs/css.build.ts:189-241 | a joined path that does not start at the root or with a protocol is normal |
| CssPathsMeaning.JoinLeads | src/vs/css.build.ts:189-241 | for every file and URL the joined path keeps the host of the folder and leads to the place where following the URL piece by piece from the folder leads, or from the root when it starts there |
| CssPathsFollow.FollowedIff | src/vs/css.build.ts:203-222 | going down some folders, up as often and then on leads where going on alone leads, if and only if no folder is empty and none is '.' or '..', unless one starts on an empty segment |
| CssPathsTheorems.RelocationIff | src/vs/css.build.ts:159-164 | for every file, URL and new file whose target is relative, the rewritten URL leads from the new file to the same target if and only if the new file has no protocol, the URL does not start at the root, no folder below the shared part is empty, and none is '.' or '..' unless the shared part ends in an empty segment |
| CssPathsMeaning.RelocationLeadsIff | src/vs/css.build.ts:159-164 | under the same condition, and only then, the rewritten URL followed from the folder of the new file leads to the same place as the original one from its own |
| CssPathsTheorems.PlainRelocationIff | src/vs/css.build.ts:159-164 | when the target has no empty segment, it does if and only if no folder of the new file below the shared part is '.', '..' or empty, targets above the root included |
| CssPathsTheorems.RelocationKeepsTarget | src/vs/css.build.ts:159-164 | for a new file with ordinary folders it does if and only if the URL was not written as one that starts at the root |
| CssPathsTheorems.RootedIff | src/vs/css.build.ts:262-265 | a rooted target is written unchanged and found again if and only if the new file has no protocol |
| CssPathsExample.WrongUrl | src/vs/css.build.ts:159-164 | a URL to c/i.png rewritten for a file in a/../b/ leads to ../../c/i.png |
| CssPathsExample.RootedUrl | src/vs/css.build.ts:262-279 | the URL x//y.png of c/s.css, rewritten for c/x/n.css, becomes /y.png and leads to the root |
| Keyring.RoundTripIff | cli/src/auth.rs:296-340 | a stored value is read back whatever was stored before if and only if its length is no multiple of the chunk size and its last chunk does not end in the marker; in an empty keyring reading otherwise gives nothing |
| Keyring.ReadAfterStore | cli/src/auth.rs:296-340 | for every value and every keyring, what is read after storing: the value, or the value with what later entries still hold when its last chunk is full or looks continued |
| Keyring.OldTailSpliced | cli/src/auth.rs:296-340 | a value of whole chunks stored over a longer one is read back with the end of the old one behind it |
| Keyring.FullChunkLost | cli/src/auth.rs:208-340 | a value of 1018 characters on Windows, or of 131066 elsewhere, stored in an empty keyring, is not read back |
| Keyring.EntriesFit | cli/src/auth.rs:318-333 | no entry written exceeds the limit |
| Keyring.KeyringStorage.Read | cli/src/auth.rs:296-316 | the loop terminates, reads what the function on the entries reads, and knows afterwards the entries it looked at |
| Keyring.KeyringStorage.Store | cli/src/auth.rs:318-340 | the loop writes the chunks |
| Keyring.KeyringStorage.Clear | cli/src/auth.rs:342-352 | succeeds if and only if every entry known after reading exists, and then exactly these are gone and nothing is read any more; otherwise exactly those before the first missing one are gone |
| DownloadCache.TouchedNames | cli/src/download_cache.rs:98-115 | touching keeps the list free of duplicates and at most five long, and drops at most one name, never the one touched |
| DownloadCache.TouchedByRecency | cli/src/download_cache.rs:98-115 | the list stays in order of last use and what is dropped was used before everything kept |
| DownloadCache.KeptIsTake | cli/src/download_cache.rs:98-115 | dropping one name at a time keeps the five most recently used of all |
| DownloadCache.Cache.Touch | cli/src/download_cache.rs:98-117 | list and directories change together |
| DownloadCache.Cache.Exists | cli/src/download_cache.rs:44-52 | tells whether the directory is cached, moves it to the front, and drops no directory |
| DownloadCache.Cache.Delete | cli/src/download_cache.rs:55-64 | removes exactly the name from the list and from the directories, staging ones included |
| DownloadCache.Cache.Create | cli/src/download_cache.rs:70-96 | the list names exactly the cached directories again although it is updated before the rename; on success the new directory has taken the place of its staging directory and only the one evicted is gone, after a failed creation only the staging directory is new, and an existing name changes nothing |

## Left out

- Export values of modules, `exportsPassedIn` and the arguments of factories: no table of the manager depends on them.
- A factory that throws with error catching switched off: the exception would unwind the cascade; the model has factories that return or whose error is caught.
- ModuleManager.Manager.DefineModule: the class runs factories, error callbacks and script loads without calls back into it; the interleavings such calls cause, also in the middle of a walk over waiting modules, are covered by the transition system and its theorems.
- A module is a value in the manager's table rather than an object of its own: the source never replaces the object in an entry of the table, so updating the object and updating the entry are the same.
- Module ids as strings, `_normalizeModuleId`, configuration, script loading, cached data, build information: ids are numbers below a growing limit.
- `load.error` of a plugin: it reports and changes no table.
- Numbers beyond 2^53 in the source-map builder, where the program's numbers lose precision; source indices are natural numbers or missing.
- The names and the fifth field of segments: the builder drops them, and so does the meaning that is preserved.
- The text of the last line of a bundle (JSON and base64 of the map): a parameter of `BundleWithDependencies`.
- `toString` of the mappings, which replaces bytes outside UTF-8: mappings that are read at all are ASCII.
- The order of bytes seen by a reader of a stream half, the RPC loops, `register_stream`, calls and replies: the model ends at the write half.
- StreamsTheorems.DeliveredIsPrefix: assumes that a half on which a write failed accepts nothing more, as the duplex stream it is made from does.
- StreamsTheorems.NothingLost: says nothing after `remove`, which drops what is queued.
- The end of `apply_to` when all senders are gone, and lock poisoning after a panic and counts beyond 32 bits in port forwarding; taking one from a zero count is a panic, as in a build with overflow checks.
- PortForwarding.ApplyRound: tunnel operations succeed; the code only logs failures and goes on as if they had not happened.
- URL extraction by regular expression (`replaceURL`), inlining of images: URLs are given as strings; characters are Unicode scalar values, not UTF-16 units.
- CssPathsTheorems.RelocationIff: targets that start with a protocol are left out, rooted ones are the subject of `RootedIff`; the code joins a URL with a protocol to the folder like any other path.
- Keyring.RoundTripIff: values are sequences of one-byte characters; slicing elsewhere can panic. Errors of the keyring other than a missing entry are not modelled.
- Sealing and unsealing of credentials, threads with a timeout, file storage.
- DownloadCache.Cache.Exists: names end in neither `.staging` nor name the list file itself, and operations on the file system succeed; the directory of a failed creation stays as a staging directory.
