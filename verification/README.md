# Reusable prefix state: a verified model

This project models how Cusco keeps evaluated prefixes of language-model requests as reusable state, and proves what
that state may be relied on for. Four components are modelled, two of them together.

**Prefix cache.** `Sequence.dfy` is the persistent, chunked token sequence. `PrefixForest.dfy`, `StoreAccounting.dfy`
and `ContextStore.dfy` are the context store: an index of published prefixes with counted references, cascading
reclaim and revision-guarded publication. The counts are related to a definition that does not count: a prefix is
live exactly if it is an ancestor of a catalogued or bound one. `StoreRecords.dfy` says field by field what publishing
writes, `Lineages.dfy` what the lineage of a prefix stands for. `Executor.dfy` is the native executor on its
deterministic backend, one slot for many mappings; `NativeSlot.dfy` is the same slot with snapshots, installation and
rollback that may fail. `EngineModel.dfy`, `HeldExecutor.dfy`, `MappedEngine.dfy`, `MappedSession.dfy` and
`MappedSchedule.dfy` put store and executor together into the mapped engine and its sessions. The main result is
`MappedSchedule.Interleave`: in any schedule of session steps, early ends, drops and spills, with any faults, every
session lets out exactly the tokens of a run that caches nothing, for every chunk size. `MappedSchedule.Complete` adds
that a request which can be served does end.

**Physical manager.** `PhysicalModel.dfy` and `PhysicalManager.dfy` are the tiers, references, transitions, transfers,
growth reservations and block tables of device state, with eviction. `PhysicalRuns.dfy` is about any sequence of its
operations, `PhysicalRecords.dfy` about what each of them writes, field by field. `Totals.dfy` has the sums over maps
that every capacity and gauge is.

**Generation frontier.** `Utf8.dfy`, `StopSearch.dfy` and `Frontier.dfy` are streaming stop detection with bounded
hold-back over bytes that may split characters. Well-formedness is that of section 4 of RFC 3629.

**Window-tail compaction.** `WindowTail.dfy` is the selection of turns under a budget.

## How to read the model

Classes have the fields of the program's objects and methods that change them; each method states the whole new
observable state, usually as a function of the old one, and the properties of those functions are lemmas. Invariants
are predicates over plain values. Many of their quantifiers name the predicate they range over as trigger, so that a
proof unfolds only the instances it mentions.

Assumptions are inputs, never axioms. The model, the sampler and the digests are arbitrary functions. Injectivity of
digests appears only as a named hypothesis (`CollisionFree`, `DigestsDiffer`, `LineagesDiffer`, `BranchesDiffer`) where
a statement needs it; transparency does not. The outcomes of calls outside the model, among them every answer of the physical manager to the engine, are
the fields of `Faults`. A spill file is a map entry that nobody else changes. A session whose step failed is dropped
and not stepped again.

Some statements are narrower than one might first write, because the program does something else. For each there is
an input that shows it and the exact condition:

* Committing a publication releases the old binding before it counts the new one. A target that only the old binding
  keeps alive is reclaimed and the final lookup panics. `CommitPublication` panics exactly then (`TargetLost`),
  `TargetCanBeLost` is a run that gets there, and the mapped engine, which keeps every prefix catalogued, never does
  (`EngineModel.CataloguedTarget`).
* Where a stop sequence is cut may depend on how the stream was split. It does not, and the text is what buffering
  everything and searching gives, exactly if the stops are free: whatever part of a stop already holds a stop holds one
  at its beginning (`StopSearch.CutIndependentExactly`, `Frontier.TextSettledExactly`). Stops none of which lies
  strictly inside another are free; some that nest are free too, and some are not (`StopSearch.NestedStopsDepend`).
* A transition prepared as reference-only can be committed at once exactly if nothing of it is off the device
  (`Physical.ReferenceOnlyExact`). A part without bytes adds nothing to the bytes asked for and may still need a
  transfer (`Physical.ReferenceOnlyNeedsTransfer`).
* Room for a transition is made before its own parts are reserved, so it may evict one of them. A part whose only copy
  was on the device is then stranded (`Physical.PrepareMayStrand`). Whether that will happen can be told before the
  call, from the representations, the bytes asked for and the capacity (`Physical.PreparedProvidedExactly`).
* Bound, growth, transition and detached bytes together may exceed the device capacity: binding what is on the device
  already adds bytes that no request for room has counted (`PhysicalRuns.CommitMayExceed`). No operation that ends no
  transition goes beyond it (`PhysicalRuns.Perform`), and what ending one comes to is an equation
  (`PhysicalRuns.CommittedGuards`, `PhysicalRuns.ClosedGuards`).

## Model

| member | source | states |
|---|---|---|
| `TokenSequence.Append` | crates/context-store/src/lib.rs:102-121 | the loop that fills chunks gives the chunked sequence that the specification function gives, over the whole input |
| `TokenSequence.AppendedTokens` | crates/context-store/src/lib.rs:102-121 | appending to a chunked sequence is appending to the plain one |
| `TokenSequence.PrefixTokens` | crates/context-store/src/lib.rs:123-142 | a chunked prefix is the slice of the plain sequence, also when it cuts into a parent that is only partly visible |
| `TokenSequence.Prefix` | crates/context-store/src/lib.rs:123-142 | the prefix loop is refused exactly beyond the length and otherwise stands for the slice |
| `TokenSequence.HashStateOfTokens` | crates/context-store/src/lib.rs:150-157 | the cached hash states of chunks and parents fold to the hash of the plain tokens |
| `TokenSequence.IdOfTokens` | crates/context-store/src/lib.rs:87-100 | the id of a sequence is the digest of its tokens |
| `TokenSequence.IdIgnoresSegmentation` | crates/context-store/src/lib.rs:87-100 | equal tokens have equal ids however they were appended and however much of a parent is visible |
| `TokenSequence.BranchesSharePrefix` | crates/context-store/src/lib.rs:167-180 | two continuations of one sequence keep that sequence as their common prefix |
| `TokenSequence.ReverseTokens.Next` | crates/context-store/src/lib.rs:205-219 | the reverse iterator yields the tokens from the last to the first, each once, across chunks |
| `TokenSequence.Collect` | crates/context-store/src/lib.rs:144-148 | collecting backwards and reversing gives the tokens in order |
| `TokenSequence.Equal` | crates/context-store/src/lib.rs:182-202 | comparison by length and reverse iteration says yes exactly for equal tokens |
| `PrefixForest.WalkNeverRejects` | crates/context-store/src/lib.rs:592-627 | in a forest the ancestor walk never rejects a prefix whose epochs and tokens match the context |
| `PrefixForest.LongestUnique` | crates/context-store/src/lib.rs:552-571 | greatest end, then smallest id, determines one prefix |
| `PrefixForest.CountedIsTraced` | crates/context-store/src/lib.rs:652-690 | where every live prefix is referred to, counting and tracing from the roots keep the same prefixes |
| `PrefixForest.NoLeafGarbage` | crates/context-store/src/lib.rs:652-690 | a forest in which every prefix without children is a root has nothing that no root depends on |
| `PrefixForest.TracedAgain` | crates/context-store/src/lib.rs:652-690 | a root that other roots already depend on keeps nothing more alive |
| `StoreAccounting.SweptIsTraced` | crates/context-store/src/lib.rs:652-690 | what cascading reclaim leaves is exactly what is an ancestor of a root |
| `StoreAccounting.DroppedConsistent` | crates/context-store/src/lib.rs:652-690 | dropping one unreferenced prefix and its reference on its parent keeps counts, bindings, index and forest |
| `StoreAccounting.InsertedConsistent` | crates/context-store/src/lib.rs:496-550 | inserting a prefix and counting its parent keeps counts, bindings, index and forest |
| `StoreAccounting.UnboundConsistent` | crates/context-store/src/lib.rs:641-650 | releasing a binding keeps everything counted, with one prefix that may have lost its last reference |
| `StoreAccounting.BoundConsistent` | crates/context-store/src/lib.rs:641-650 | binding a context to a live prefix of its own tokens keeps everything counted |
| `ContextStore.Store.constructor` | crates/context-store/src/lib.rs:301-307 | a new store is empty and consistent |
| `ContextStore.Store.NothingToCollect` | crates/context-store/src/lib.rs:652-690 | in every reachable store nothing is live that no root depends on |
| `ContextStore.Store.Create` | crates/context-store/src/lib.rs:309-329 | a fresh context with the given tokens and epochs, at revision zero, everything else unchanged |
| `ContextStore.Store.Branch` | crates/context-store/src/lib.rs:331-339 | a branch is a fresh context over a prefix; missing context and too long a prefix are refused |
| `ContextStore.Store.Append` | crates/context-store/src/lib.rs:341-354 | tokens appended and revision raised; the binding stays valid |
| `ContextStore.Store.RemoveContext` | crates/context-store/src/lib.rs:360-366 | the context is gone, and with it exactly the prefixes only its binding kept alive |
| `ContextStore.Store.SetEpochs` | crates/context-store/src/lib.rs:368-389 | changed epochs drop the binding, raise the revision and collect what that leaves unheld |
| `ContextStore.Store.Reclaim` | crates/context-store/src/lib.rs:652-690 | the reclaim loop ends and removes exactly the unreferenced chain of ancestors |
| `ContextStore.Store.ReleaseMapping` | crates/context-store/src/lib.rs:585-590 | one catalog reference less, and what that leaves unheld is collected |
| `ContextStore.Store.PreparePublication` | crates/context-store/src/lib.rs:391-457 | the prepared metadata, or the refusal, of every branch in the order of the program |
| `ContextStore.Store.ValidatePublication` | crates/context-store/src/lib.rs:459-494 | the refusal of every branch in the order of the program |
| `ContextStore.Store.MappingValidForContext` | crates/context-store/src/lib.rs:592-627 | the loop over ancestors decides the same as the walk over the forest |
| `ContextStore.Store.ValidMappingFromIds` | crates/context-store/src/lib.rs:629-639 | the smallest valid id of a bucket |
| `ContextStore.Store.LongestValidPrefix` | crates/context-store/src/lib.rs:552-571 | the indexed lookup equals the naive search over all prefixes: greatest end, then smallest id |
| `ContextStore.Store.CommitPublication` | crates/context-store/src/lib.rs:496-550 | refusals change nothing; it panics exactly if the target is lost; otherwise prefix and binding are in place and only unheld prefixes are gone |
| `ContextStore.PreparedParentFits` | crates/context-store/src/lib.rs:459-494 | with a collision-free id a recorded parent fits whenever it is live, even if it was reclaimed and published again |
| `ContextStore.TargetCanBeLost` | crates/context-store/src/lib.rs:535-548 | a run of a store, from its creation on, in which every call is accepted and the last publication panics |
| `ContextStore.HistoryLater` | crates/context-store/src/lib.rs:341-389 | over whole runs context ids are not reused and a revision determines tokens, epochs and binding |
| `ContextStore.PublicationSeesItsOwnState` | crates/context-store/src/lib.rs:459-494 | a publication that is not refused finds the context exactly as it was prepared from, whatever happened between |
| `Lineages.LineageIsChain` | crates/context-store/src/lib.rs:411-427 | where lineage digests do not collide, two prefixes have the same lineage exactly if their dependencies up to the root have the same branches and ends |
| `Lineages.SameLineageSameTokens` | crates/context-store/src/lib.rs:411-427 | where token digests do not collide either, exactly if the tokens agree at every step of the chain |
| `Lineages.RunGoesOn` | crates/context-store/src/lib.rs:391-550 | in every store reached from an empty one each lineage goes on from the live parent, however long ago the publication was prepared |
| `StoreRecords.RefusedExactly` | crates/context-store/src/lib.rs:459-494 | on the fields: what passes validation, and which refusal stands for which mismatch |
| `StoreRecords.PublishedRecords` | crates/context-store/src/lib.rs:496-550 | on the fields: the context is bound one revision later, the prefix is there, catalogued once if it is new; nothing else is written, and only what nothing holds is gone |
| `StoreRecords.LostExactly` | crates/context-store/src/lib.rs:535-548 | the target is lost exactly if whatever depends on it is held by nothing but the binding that is given up |
| `StoreRecords.FoundExactly` | crates/context-store/src/lib.rs:552-571 | the prefix found begins the tokens of the context in its epochs, and none that does so is longer, or as long with a smaller id |
| `Snapshot.SnapshotRoundTrip` | native/shim/cusco_executor.cpp:951-1000 | decoding the exported bytes gives the tokens back |
| `Snapshot.DecodeDefined` | native/shim/cusco_executor.cpp:991-992 | bytes are a token state exactly if their number is a multiple of four |
| `Snapshot.LittleEndian` | native/shim/cusco_executor.cpp:951-978 | four bytes for each token, lowest first, that make up the token modulo the width of a word |
| `Execution.StepIsolates` | native/shim/cusco_executor.cpp:521-549 | no operation changes content or position of a mapping somebody refers to, except a decode the active one |
| `Execution.RunIsolates` | native/shim/cusco_executor.cpp:814-1038 | the same over whole runs |
| `Execution.ForkEqualsSource` | native/shim/cusco_executor.cpp:814-857 | a published fork has content and position of its source at the time of the fork |
| `Execution.StepKeepsFork` | native/shim/cusco_executor.cpp:814-882 | a prepared fork keeps content and position under everything but its own commit or discard |
| `Execution.RunKeepsFork` | native/shim/cusco_executor.cpp:814-882 | so whenever it is committed, it is what its source was when it was prepared |
| `Execution.ImportOfExport` | native/shim/cusco_executor.cpp:951-1038 | importing what was exported gives a mapping with the same content and position |
| `Execution.StepWellFormed` | native/shim/cusco_executor.cpp:706-762 | active, published and prepared mappings stay apart and below the next number |
| `Execution.GoneForGood` | native/shim/cusco_executor.cpp:735-746 | after a fork or an import, refused or not, every published mapping is active or referred to; what was not is gone, and no later run publishes its number again |
| `Execution.OnlyReleasesLoosen` | native/shim/cusco_executor.cpp:706-934 | as long as nothing is released, no run leaves a mapping that is neither active nor referred to |
| `Execution.Executor.DecodeTokens` | native/shim/cusco_executor.cpp:521-549 | appends to the active mapping and gives the logits of all its tokens; a cancelled decode changes nothing |
| `Execution.Executor.ReclaimUnreferenced` | native/shim/cusco_executor.cpp:735-746 | the two-phase sweep removes exactly what nobody refers to and is not active |
| `Execution.Executor.PrepareMappingFork` | native/shim/cusco_executor.cpp:814-852 | a copy of the source under a fresh number, not yet published |
| `Execution.Executor.CommitMapping` | native/shim/cusco_executor.cpp:859-882 | publishes a prepared fork with one reference; anything else is refused and changes nothing |
| `Execution.Executor.DiscardMapping` | native/shim/cusco_executor.cpp:706-714 | a discarded fork leaves no trace; what is committed or gone stays as it is |
| `Execution.Executor.ActivateMapping` | native/shim/cusco_executor.cpp:884-934 | swaps the slot; the previous mapping is parked, or gone if nobody refers to it |
| `Execution.Executor.ExportMapping` | native/shim/cusco_executor.cpp:951-978 | the bytes of the content and the position; a buffer that is too small gets only size and position; nothing changes |
| `Execution.Executor.ImportMapping` | native/shim/cusco_executor.cpp:980-1038 | a fresh mapping of the decoded bytes; refused exactly for a ragged number of bytes |
| `NativeSlot.NativeExecutor.ActivateMapping` | native/shim/cusco_executor.cpp:901-934 | with snapshots and installation allowed to fail, every mapping keeps its state unless rollback failure is reported, and then only the active one is lost |
| `NativeSlot.NativeExecutor.ImportMapping` | native/shim/cusco_executor.cpp:997-1016 | the same for import |
| `EngineModel.FreeRunLength` | crates/server/src/mapped.rs:540-616 | a cache-free run extends its input by one token a step |
| `EngineModel.TrieGrows` | crates/server/src/mapped.rs:871-1018 | publishing the next block keeps the block trie |
| `EngineModel.NodeUnique` | crates/server/src/mapped.rs:871-1018 | a published prefix with these tokens is the block that tokens and parent determine |
| `EngineModel.BlockRecords` | crates/server/src/mapped.rs:871-922 | every published block has the components the profile requires and the epochs of the engine, and a parent unless it is the first |
| `EngineModel.BlockNamesItself` | crates/server/src/mapped.rs:923-924 | a block that names a published prefix is that prefix, unless two digests collide |
| `EngineModel.LookupCovers` | crates/server/src/mapped.rs:418-429 | the longest prefix found covers the request to its last cached whole block |
| `EngineModel.SoundPublish` | crates/server/src/mapped.rs:1001-1017 | a block that joins the cache with the fork of a request keeps every cached content equal to its tokens |
| `EngineModel.SoundMove` | crates/server/src/mapped.rs:776-850 | a cache entry that is spilled or restored keeps every other entry |
| `EngineModel.SoundFrame` | crates/server/src/mapped.rs:540-616 | what requests do on their own mappings does not touch the cache |
| `EngineModel.CataloguedTarget` | crates/server/src/mapped.rs:999-1000 | a target that still has its catalog reference is never lost |
| `HeldExecutor.Handles.Fork` | crates/server/src/mapped.rs:863-869 | a committed fork is held locally, everything held keeps owner, content and position, and nothing else is published than what has an owner or is active |
| `HeldExecutor.Handles.ImportAndSwitch` | crates/server/src/mapped.rs:793-850 | an import that is not committed goes away with its handle |
| `HeldExecutor.Handles.DecodeOn` | crates/server/src/mapped.rs:501-515 | activates one mapping and decodes on it; everything else held is untouched |
| `MappedEngine.PrepareBlock` | crates/server/src/mapped.rs:912-922 | the next block can always be prepared |
| `MappedEngine.BlockRefusal` | crates/server/src/mapped.rs:923-927 | validation refuses a prepared block only if two digests collide |
| `MappedEngine.CommitBlock` | crates/server/src/mapped.rs:998-1001 | committing a validated block neither fails nor panics |
| `MappedEngine.Engine.constructor` | crates/server/src/mapped.rs:254-274 | a new engine is sound, with an empty root and nothing spilled |
| `MappedEngine.Engine.DecideBlock` | crates/server/src/mapped.rs:871-998 | which publications go through; only a refusal of the physical manager sends the slot back to the parent, want of capacity leaves it |
| `MappedEngine.Engine.PublishBlock` | crates/server/src/mapped.rs:871-1018 | all or nothing: a failure moves only the slot, and says where to; a success publishes the block under its tokens, binds the context to it and leaves the slot; without faults it fails only on a digest collision |
| `MappedEngine.Engine.ActivatePrefix` | crates/server/src/mapped.rs:757-851 | succeeds exactly if nothing it needs fails; the slot then holds exactly the tokens of the prefix, or nothing for the root, and otherwise stays where it was; whatever fails, the cache is intact |
| `MappedEngine.Engine.Restore` | crates/server/src/mapped.rs:776-846 | a spilled entry comes back with its content; only a committed switch removes the file |
| `MappedEngine.Engine.SpillEntry` | crates/server/src/mapped.rs:306-340 | when an entry is skipped, fails or is spilled; it loses its mapping only after file and demotion succeeded, and its file then holds its tokens; what is spilled is counted exactly and stays within the spill capacity |
| `MappedEngine.Engine.SpillInactive` | crates/server/src/mapped.rs:281-341 | in any order and with any failures: exactly the entries that are counted lost their mapping, none whose write or demotion fails; if nothing failed, what kept it outside the slot does not fit any more; no request notices |
| `EngineModel.OneMoreSpilled` | crates/server/src/mapped.rs:329-338 | one entry spilled or restored changes the sum of what is spilled by its size |
| `MappedEngine.Engine.Begin` | crates/server/src/mapped.rs:412-446 | a request starts on a branch that holds its longest published prefix, with the saved logits of just these tokens; it fails exactly if that prefix cannot be reached |
| `MappedEngine.Engine.Evaluate` | crates/server/src/mapped.rs:509-515 | the branch of the request grows by the tokens and the logits are those of all its tokens |
| `MappedEngine.Engine.CompleteBlock` | crates/server/src/mapped.rs:519-535 | snapshot and publication of a completed block |
| `MappedEngine.Engine.Retire` | crates/server/src/mapped.rs:635-652 | the request gives up its mapping; the slot holds the tokens of its parent if that has a mapping, else it goes to the root or stays |
| `SessionModel.ColdPrefix` | crates/server/src/mapped.rs:540-616 | the tokens at any point are a prefix of the cold output, all of it where the run ends |
| `SessionModel.ColdStep` | crates/server/src/mapped.rs:553-575 | one more token of the cold run |
| `SessionModel.ColdExact` | crates/server/src/mapped.rs:540-616 | the cold output token by token: the input, then what the sampler makes of the logits of all tokens before, up to the first ending token or the limit |
| `SessionModel.RunningFits` | crates/server/src/mapped.rs:406-416 | no running session has ever more tokens than the context window |
| `SessionModel.SessionFrame` | crates/server/src/mapped.rs:368-386 | what others do does not touch a session |
| `SessionModel.OneStepsAllHold` | crates/server/src/mapped.rs:368-386 | a step of one session keeps the invariants of all |
| `SessionModel.OutputOf` | crates/server/src/mapped.rs:629-680 | what a session may return at any point, and when that is the whole cold output |
| `SessionModel.ChunkEnd` | crates/server/src/mapped.rs:502-507 | the next chunk makes progress and ends with the tokens, with its block or after as many tokens as a chunk may have, whatever comes first |
| `SessionModel.CoverStep` | crates/server/src/mapped.rs:502-526 | evaluating up to the end of a block makes that block the next one |
| `MappedSessions.EvaluateTo` | crates/server/src/mapped.rs:501-526 | decoding a chunk and publishing the block it completes leaves the branch with exactly these tokens and their logits |
| `MappedSessions.MappedSession.constructor` | crates/server/src/mapped.rs:718-750 | a session starts with nothing |
| `MappedSessions.MappedSession.Prepare` | crates/server/src/mapped.rs:388-460 | a request that does not fit the context window, or is cancelled or cannot be tokenized, fails and leaves the engine as it is; any other branches off its longest published prefix |
| `MappedSessions.MappedSession.PrefillStep` | crates/server/src/mapped.rs:462-538 | one prefill step keeps the session on the cold run and makes progress |
| `MappedSessions.MappedSession.DecodeStep` | crates/server/src/mapped.rs:540-616 | one decode step lets out exactly the next token of the cold run |
| `MappedSessions.MappedSession.Publish` | crates/server/src/mapped.rs:629-680 | the output is a prefix of the cold output, and all of it if the run has ended; the slot goes to the parent or stays |
| `MappedSessions.MappedSession.Drop` | crates/server/src/mapped.rs:700-714 | a dropped session gives up its mapping and disturbs nobody; the slot goes to the parent or to the root |
| `MappedSessions.MappedSession.Step` | crates/server/src/mapped.rs:682-693 | any step, in any stage: invariants kept, only cold tokens let out, failure by fault, collision or an unservable request and then always; no fault the step meets goes unnoticed |
| `MappedSchedule.TakeSpill` | crates/server/src/mapped.rs:752-754 | spilling between steps is never seen by a session |
| `MappedSchedule.Interleave` | crates/server/src/mapped.rs:683-715 | in every schedule each session streams a prefix of its own cold run and never goes on after its end; what it returns is a prefix too, and the whole if it ran to its end; whoever streams anything fits the context window |
| `MappedSchedule.Complete` | crates/server/src/mapped.rs:388-680 | without faults and collisions a servable request ends after finitely many steps with its whole cold output, whatever the cache held |
| `PhysicalModel.UnprotectedIsFree` | crates/physical-manager/src/lib.rs:67-71 | a reference count is zero exactly if nobody refers to the representation, so no count goes below zero |
| `PhysicalModel.NothingDangles` | crates/physical-manager/src/lib.rs:442-470 | whatever is bound, reserved or in flight exists |
| `PhysicalModel.Touched` | crates/physical-manager/src/lib.rs:773-847 | moving an unprotected representation keeps the books |
| `PhysicalModel.UnboundSound` | crates/physical-manager/src/lib.rs:442-457 | giving up a binding keeps the books |
| `PhysicalModel.BoundSound` | crates/physical-manager/src/lib.rs:690-713 | binding a composite on the device keeps the books |
| `PhysicalModel.ReservedSound` | crates/physical-manager/src/lib.rs:531-539 | reserving keeps the books |
| `PhysicalModel.TransferringSound` | crates/physical-manager/src/lib.rs:540-562 | starting a transfer keeps the books |
| `PhysicalModel.EndedSound` | crates/physical-manager/src/lib.rs:586-629 | ending a transfer, detached or not, keeps the books |
| `PhysicalModel.EndedRecords` | crates/physical-manager/src/lib.rs:607-629 | a transfer that ends is completed with the success it was told, a detached one is forgotten; no other transfer is written |
| `PhysicalModel.ClosedSound` | crates/physical-manager/src/lib.rs:743-771 | ending a transition keeps the books; transfers in flight become detached |
| `Eviction.VictimsUnique` | crates/physical-manager/src/lib.rs:925-949 | order and request alone determine who is evicted |
| `Eviction.NextVictim` | crates/physical-manager/src/lib.rs:931-946 | evicting the first evictable one prolongs the shortest prefix |
| `Eviction.VictimExact` | crates/physical-manager/src/lib.rs:925-949 | who will be evicted can be told before: exactly those for whom it does not suffice that all ahead of them leave |
| `Eviction.UsedAfter` | crates/physical-manager/src/lib.rs:951-957 | the device and host sums after one representation changes tiers |
| `Readiness.RefusalExact` | crates/physical-manager/src/lib.rs:658-687 | a commit goes through exactly at the prepared revision of a transition whose transfers succeeded and whose parts are on the device |
| `Readiness.RefusedBecause` | crates/physical-manager/src/lib.rs:658-687 | which refusal: no such transition, another revision, the first transfer that has not succeeded, or a part that is not on the device |
| `Readiness.StaysCommittable` | crates/physical-manager/src/lib.rs:658-687 | once committable, a transition stays so under everything that keeps it |
| `Readiness.ProvidedCommits` | crates/physical-manager/src/lib.rs:586-629 | a transition for which everything is on the device or on its way can be committed when its transfers have succeeded |
| `Readiness.StaysProvided` | crates/physical-manager/src/lib.rs:586-629 | and it stays provided for |
| `Readiness.ClosedKeeps` | crates/physical-manager/src/lib.rs:743-771 | ending one transition keeps all others as ready as they were |
| `PhysicalTransitions.CompositeWhole` | crates/physical-manager/src/lib.rs:857-888 | validation passes exactly for live parts of this mapping and end, one for each required component |
| `PhysicalTransitions.UnfitRefused` | crates/physical-manager/src/lib.rs:857-888 | the first part that does not fit decides whether the refusal says missing or misplaced |
| `PhysicalTransitions.MissingTotal` | crates/physical-manager/src/lib.rs:499-518 | the bytes asked for are the sum over all parts that are off the device |
| `PhysicalTransitions.MissingFails` | crates/physical-manager/src/lib.rs:499-518 | when that sum is refused, and why |
| `PhysicalTransitions.AskedExact` | crates/physical-manager/src/lib.rs:489-518 | what a preparation asks for: refused exactly for what is no composite, has a part without source or overflows, else the bytes off the device and whether any must be computed again |
| `PhysicalTransitions.PreparedRecords` | crates/physical-manager/src/lib.rs:564-581 | the record of a fresh transition has context, revision, mapping, parts, reservation and kind as given; no other transition, binding, table or growth reservation is written |
| `PhysicalTransitions.MissingExact` | crates/physical-manager/src/lib.rs:499-518 | when the bytes asked for are zero and when recomputation is needed |
| `PhysicalTransitions.TookOnAll` | crates/physical-manager/src/lib.rs:531-562 | the reserving loop: everything listed is reserved, exactly what needs a transfer has one |
| `PhysicalTransitions.PreparedProvided` | crates/physical-manager/src/lib.rs:489-581 | a fresh transition is provided for exactly if nothing is off the device without a copy |
| `PhysicalTransitions.PreparedStands` | crates/physical-manager/src/lib.rs:489-581 | a fresh transition can be committed at once exactly if nothing is off the device |
| `PhysicalTransitions.CommittedSound` | crates/physical-manager/src/lib.rs:688-724 | the switch of a binding keeps the books, the tiers and all other transitions |
| `Physical.ReferenceOnlyExact` | crates/physical-manager/src/lib.rs:520-522 | a reference-only transition evicts nobody and is committable at once exactly if all parts are on the device |
| `Physical.ReferenceOnlyNeedsTransfer` | crates/physical-manager/src/lib.rs:520-539 | a reference-only transition of a part without bytes that still needs a transfer |
| `Physical.PrepareMayStrand` | crates/physical-manager/src/lib.rs:519-539 | making room may evict the only copy of a part of the very composite it is made for |
| `Physical.PreparedProvidedExactly` | crates/physical-manager/src/lib.rs:519-539 | told from the state before the call: a prepared transition is provided for exactly if each part stays, has a copy or fits before its turn to leave, and none has to be computed again |
| `Physical.ReservingRecords` | crates/physical-manager/src/lib.rs:489-581 | the new transition reserves exactly the bytes of its parts that were off the device, told from the state before the call |
| `PhysicalRecords.RegisteredRecords` | crates/physical-manager/src/lib.rs:279-324 | what is registered is in its tier and no other, with one logical reference |
| `PhysicalRecords.LessLogicalRecords` | crates/physical-manager/src/lib.rs:459-470 | the last logical reference of what nothing protects removes it, else one reference less |
| `PhysicalRecords.LeavesFirst` | crates/physical-manager/src/lib.rs:931-946 | of what nothing protects, none that leaves is worth more than one that stays, of equals none was used later |
| `PhysicalRecords.GrantedExactly` | crates/physical-manager/src/lib.rs:902-949 | a request for room is granted exactly if it fits beside what is guarded and, with all that may leave gone, beside what is on the device |
| `PhysicalRecords.MovesUnlessHeld` | crates/physical-manager/src/lib.rs:773-847 | what some context binds, some transition reserves or some transfer has in flight does not move, and everything else does |
| `PhysicalRecords.AskedOfTiers` | crates/physical-manager/src/lib.rs:489-518 | told from tiers and sizes: what may be prepared |
| `PhysicalRecords.ClosedRecords` | crates/physical-manager/src/lib.rs:743-771 | of the transfers of a transition that ends, the completed are forgotten and the others go on, detached |
| `PhysicalRecords.CommittedRecords` | crates/physical-manager/src/lib.rs:688-724 | a commit binds the context to just the reserved parts under a new number, without a table; transition and transfers are gone |
| `PhysicalRecords.CommittedParts` | crates/physical-manager/src/lib.rs:690-713 | what is bound was used now, of nothing else than uses and references is anything written |
| `PhysicalRecords.MappedRecords` | crates/physical-manager/src/lib.rs:384-437 | a mapped commit adds a table of just that binding, block for block, for this mapping of the executor |
| `PhysicalRecords.ActiveIsBound` | crates/physical-manager/src/lib.rs:959-966 | the bytes counted as active are exactly those that some context binds |
| `PhysicalRecords.DeviceSplits` | crates/physical-manager/src/lib.rs:951-1005 | the device holds what is active, what is held for transitions and what may be evicted |
| `Physical.PhysicalManager.constructor` | crates/physical-manager/src/lib.rs:242-260 | a new manager is valid |
| `Physical.PhysicalManager.Refresh` | crates/physical-manager/src/lib.rs:983-1005 | all gauges equal freshly computed sums |
| `Physical.PhysicalManager.Evict` | crates/physical-manager/src/lib.rs:823-847 | one tier less, refused exactly for what is missing or protected |
| `Physical.PhysicalManager.FindVictim` | crates/physical-manager/src/lib.rs:925-949 | the least evictable representation by reuse value, last use and id, or none |
| `Physical.PhysicalManager.EnsureDeviceSpace` | crates/physical-manager/src/lib.rs:925-949 | the loop ends and evicts exactly the shortest prefix, in order, that makes the request fit; on failure everything evictable is gone |
| `Physical.PhysicalManager.EnsureDeviceCapacity` | crates/physical-manager/src/lib.rs:902-923 | refused without effect if the request does not fit beside what is guarded |
| `Physical.PhysicalManager.Register` | crates/physical-manager/src/lib.rs:279-324 | a new representation within the capacity of its tier |
| `Physical.PhysicalManager.ReleaseLogicalReference` | crates/physical-manager/src/lib.rs:459-470 | the last reference removes what nothing protects |
| `Physical.PhysicalManager.DemoteToHost` | crates/physical-manager/src/lib.rs:773-797 | to the host within its capacity, off the device |
| `Physical.PhysicalManager.DemoteToStorage` | crates/physical-manager/src/lib.rs:799-821 | to storage, off device and host |
| `Physical.PhysicalManager.ReserveGrowth` | crates/physical-manager/src/lib.rs:472-478 | a growth reservation within guarded capacity |
| `Physical.PhysicalManager.ReleaseGrowth` | crates/physical-manager/src/lib.rs:480-487 | the reservation is gone |
| `Physical.PhysicalManager.ReleaseBinding` | crates/physical-manager/src/lib.rs:726-741 | the binding and its table are gone and exactly its references with them |
| `Physical.PhysicalManager.PublishDeviceBlockTable` | crates/physical-manager/src/lib.rs:340-382 | a table of the current binding, block for block; refused exactly if the binding is not current |
| `Physical.PhysicalManager.PrepareTransition` | crates/physical-manager/src/lib.rs:489-581 | refused without effect, or for want of room after evicting, or reserved with its transfers: exactly the bytes off the device, the kind they make it; all other transitions are as before |
| `Physical.PhysicalManager.CompleteTransfer` | crates/physical-manager/src/lib.rs:586-629 | success brings the part onto the device; the transfer is then completed with just that success, a detached one gone; without room it stays in flight; a second completion does nothing |
| `Physical.PhysicalManager.CompleteRecompute` | crates/physical-manager/src/lib.rs:631-656 | brings a part of a recompute transition onto the device |
| `Physical.PhysicalManager.CommitTransition` | crates/physical-manager/src/lib.rs:658-724 | commits exactly when nothing refuses, and then replaces the binding; otherwise nothing changes |
| `Physical.PhysicalManager.CommitMappedTransition` | crates/physical-manager/src/lib.rs:384-437 | atomic: no change at all, or binding and table together; the inner commit cannot fail |
| `Physical.PhysicalManager.AbortTransition` | crates/physical-manager/src/lib.rs:743-761 | the transition is gone, its unfinished transfers are detached |
| `PhysicalRuns.Perform` | crates/physical-manager/src/lib.rs:279-847 | every operation keeps all transitions it does not end, and one that ends none keeps what is guarded within the device |
| `PhysicalRuns.Run` | crates/physical-manager/src/lib.rs:279-847 | through any operations that do not end it, a committable transition can still be committed at its revision, and one provided for still is |
| `PhysicalRuns.RunFor` | crates/physical-manager/src/lib.rs:586-629 | through any run in which the transfers of a transition are only completed with success, those that were accepted stay completed and succeeded |
| `PhysicalRuns.Fulfil` | crates/physical-manager/src/lib.rs:586-724 | a provided transition each of whose transfers is completed with success and accepted ends committable, and its commit at its revision succeeds and binds the context |
| `PhysicalRuns.PreparedGuards` | crates/physical-manager/src/lib.rs:561-572 | a prepared transition guards exactly the bytes it asked for |
| `PhysicalRuns.ClosedGuards` | crates/physical-manager/src/lib.rs:743-771 | the end of a transition gives up the bytes it asked for and guards what it still has in flight |
| `PhysicalRuns.CommittedGuards` | crates/physical-manager/src/lib.rs:688-724 | exactly what a commit does to what is guarded: what was asked for and the old binding go, the parts nobody binds yet come in |
| `PhysicalRuns.CommitMayExceed` | crates/physical-manager/src/lib.rs:489-724 | a run after which more is guarded than the device holds |
| `Utf8.HeadOf` | crates/server/src/generation.rs:222-228 | bounds on the length of a character and of a malformed part |
| `Utf8.FormIsRead` | crates/server/src/generation.rs:222-228 | every code point in the form that RFC 3629, section 4, allows is read back |
| `Utf8.ReadIsForm` | crates/server/src/generation.rs:222-228 | nothing else is read as a code point |
| `Utf8.ValidIsForms` | crates/server/src/generation.rs:202 | well-formed bytes are the forms of one text, and lossy decoding finds it |
| `Utf8.FormsAreValid` | crates/server/src/generation.rs:202 | the forms of any text are well-formed and decode to it |
| `Utf8.CompletePrefix` | crates/server/src/generation.rs:222-228 | at most three bytes are left |
| `Utf8.CompleteIsValid` | crates/server/src/generation.rs:222-228 | the complete prefix of what is not malformed is well-formed |
| `Utf8.LossyAppend` | crates/server/src/generation.rs:202 | lossy decoding of whole characters first and the rest later is decoding all at once |
| `Utf8.LossyShows` | crates/server/src/generation.rs:202 | lossy decoding shows each character, and one replacement character for each maximal malformed part and for an unfinished end |
| `Utf8.ShownIsLossy` | crates/server/src/generation.rs:202 | there is no other way to show the input so |
| `Utf8.OpenExact` | crates/server/src/generation.rs:222-228 | what may not be rendered yet is exactly an end that begins a character, after whole characters |
| `Utf8.StartsCharacter` | crates/server/src/generation.rs:202 | a byte that continues nothing stands at the start of a character |
| `Utf8.TrimExact` | crates/server/src/generation.rs:204 | exactly the whitespace before the first other character is dropped |
| `Utf8.TrimAppend` | crates/server/src/generation.rs:203-208 | trimming piece by piece is trimming the whole |
| `Frontier.ShownExactly` | crates/server/src/generation.rs:203-211 | a raw continuation is shown as it is, of any other exactly the leading whitespace is left out |
| `StopSearch.SearchIsExact` | crates/server/src/generation.rs:144-156 | the search over everything finds the leftmost stop, ties by list order |
| `StopSearch.NewHitOverlaps` | crates/server/src/generation.rs:158-170 | a new stop begins in what was held back |
| `StopSearch.CutIndependentExactly` | crates/server/src/generation.rs:109-125 | the cut does not depend on when the stream is searched exactly if the stops are free: whatever part of a stop holds a stop holds one at its beginning |
| `StopSearch.NotNestedIsFree` | crates/server/src/generation.rs:109-125 | stops none of which occurs strictly inside another are free |
| `StopSearch.NestedMayBeFree` | crates/server/src/generation.rs:109-125 | nesting alone is no obstacle: three stops that nest and are free |
| `StopSearch.NestedStopsDepend` | crates/server/src/generation.rs:109-125 | stops that are not free, and a split of a stream that is cut elsewhere for it |
| `Frontier.ClassifiedAlike` | crates/server/src/generation.rs:172-186 | the boundaries kept classify a stop as all boundaries would |
| `Frontier.ClassifiedByTokens` | crates/server/src/generation.rs:172-186 | without boundaries: aligned exactly if whole tokens come before the stop and through it, inside a token exactly if one token has all of the rest, else across tokens |
| `Frontier.AlignmentByTokens` | crates/server/src/generation.rs:172-186 | so for the stop that ends a run |
| `Frontier.StopEnds` | crates/server/src/generation.rs:110-119 | stopping cuts at the leftmost stop of the whole stream, at a character, and shows the text before it |
| `Frontier.GoesOn` | crates/server/src/generation.rs:120-125 | going on keeps all that is needed of stream, boundaries and text |
| `Frontier.HoldBackBounded` | crates/server/src/generation.rs:158-170 | never more than an unfinished character and an unfinished stop is held back |
| `Frontier.WithLimit` | crates/server/src/generation.rs:60-85 | too many stops, a bad length, or a fresh frontier |
| `Frontier.GenerationFrontier.StopMatch` | crates/server/src/generation.rs:144-156 | the leftmost stop in what is pending, ties by list order |
| `Frontier.GenerationFrontier.LongestPossibleStopSuffix` | crates/server/src/generation.rs:158-170 | the longest end that begins a stop |
| `Frontier.GenerationFrontier.EmitPrefix` | crates/server/src/generation.rs:188-220 | renders, trims and consumes, or leaves the text pending if it is not accepted |
| `Frontier.GenerationFrontier.Push` | crates/server/src/generation.rs:87-126 | stops on exactly the push with which the whole stream first holds a stop, or at a terminal token, and classifies the stop by the boundaries of the stream |
| `Frontier.GenerationFrontier.Finish` | crates/server/src/generation.rs:128-142 | what was held back is shown, the reason is the length limit unless it stopped before |
| `Frontier.TextSettledExactly` | crates/server/src/generation.rs:109-125 | exactly for free stops the text shown does not depend on when the stream is searched |
| `Frontier.Generate` | crates/server/src/generation.rs:87-142 | a whole run: which tokens it uses, and text, reason and alignment as by searching all of them at once; the alignment told from the pieces of the tokens; malformed or not, the text is that of all bytes before the stop, decoded piece by piece; for free stops and nothing malformed it is what buffering everything and searching gives, for every split |
| `Turns.SplitIsWell` | crates/server/src/context_strategy.rs:293-326 | splitting loses nothing and cuts exactly before role boundaries |
| `Turns.SplitConcat` | crates/server/src/context_strategy.rs:293-326 | splitting joined turns gives the turns back |
| `Turns.SplitTurns` | crates/server/src/context_strategy.rs:293-326 | the loop over tokens is the split |
| `TurnSelection.KeptExact` | crates/server/src/context_strategy.rs:217-236 | a turn without anchor is kept exactly if it fits beside the anchors and the newer kept turns |
| `TurnSelection.KeptUnique` | crates/server/src/context_strategy.rs:217-236 | that determines the selection |
| `TurnSelection.KeptWithin` | crates/server/src/context_strategy.rs:217-236 | the budget holds unless the anchors alone exceed it, and nothing omitted would still fit |
| `Compaction.Idempotent` | crates/server/src/context_strategy.rs:159-287 | compacting again for the same target changes nothing, in every branch |
| `Compaction.CompactedFits` | crates/server/src/context_strategy.rs:217-251 | the output fits the aligned budget, or is the anchors alone, or the newest turn whole |
| `Compaction.AnchorsSurvive` | crates/server/src/context_strategy.rs:217-251 | no anchor token is lost in any branch |
| `Compaction.AnchorTurnsStayWhole` | crates/server/src/context_strategy.rs:217-251 | every turn with an anchor is, whole, a turn of the output |
| `Compaction.BudgetExact` | crates/server/src/context_strategy.rs:164-169 | the budget: the target, rounded down to whole cache blocks where it holds one |
| `Compaction.LastResortIsEnd` | crates/server/src/context_strategy.rs:238-251 | when no turn can be kept the output is the end of the source: the whole newest turn if it fits or the budget is below a block, else as much of it as fits |
| `Numbered.CompactedInOrder` | crates/server/src/context_strategy.rs:253-258 | kept indices strictly increase and each names its token |
| `Numbered.CompactTexts` | crates/server/src/context_strategy.rs:253-258 | numbering does not change what is kept |
| `Numbered.LastIndices` | crates/server/src/context_strategy.rs:238-258 | the last index kept is then the last of the source |
| `WindowTail.KeepAnchors` | crates/server/src/context_strategy.rs:217-224 | all turns with an anchor, in order |
| `WindowTail.KeepNewest` | crates/server/src/context_strategy.rs:226-236 | the backward loop gathers exactly the selected turns |
| `WindowTail.Choose` | crates/server/src/context_strategy.rs:217-254 | both loops, the last resort and the sort give the compaction |
| `WindowTail.Apply` | crates/server/src/context_strategy.rs:159-287 | output, indices, counts, reason and fallback flag of every branch; with no turn kept, the output ends where the source does |
| `WindowTail.ApplyWindowTailStrategy` | crates/server/src/context_strategy.rs:159-287 | on strings: the compaction, idempotent, with every anchor retained |
| `WindowTail.Recognized` | crates/server/src/context_strategy.rs:328-357 | which tokens begin a turn and which are anchors |

## Left out

- Integer widths: token counts, byte counts, revisions, ids and the clock are unbounded, except where the program
  checks a sum for overflow and refuses it; exhaustion of 64-bit counters is not modelled.
- Physical manager inside the engine: the engine sees its answers as faults, so the accounting of
  `Physical.PhysicalManager` and the engine are not composed into one state.
- MappedEngine.Engine.PublishBlock: registering and releasing physical representations are among the faults.
- MappedEngine.Engine.ActivatePrefix: the physical transition is among the faults.
- MappedEngine.Engine.constructor: the refusals of opening (profile, capabilities, context size) are not modelled.
- MappedSessions.MappedSession.constructor: the refusals of starting a session (cancelled, chunk size zero, another
  model) are not modelled; a chunk size is positive.
- ContextStore.Store.CommitPublication: a live parent is assumed to fit the prefix; only a digest collision can break
  that (`ContextStore.PreparedParentFits`).
- TokenSequence.BranchesSharePrefix: sharing is equality of the chunks, not identity of their storage.
- Trace events, metrics, timings and the counts in a session's output: of the manager's counters only prepared, committed and aborted are kept.
- Temporary handles: the executor's reference counts count the lasting handles exactly and a handle inside one step
  only where dropping it has an effect.
- llama.cpp calls, samplers, grammars, rendering and floating-point logits are uninterpreted; the executor's
  checkpoint capture and restore are not modelled.
- SHA-256 is an uninterpreted fold with a digest; that digests differ is a hypothesis where it is used.
- The context store works on plain token sequences; that chunked sequences stand for them is proved in
  `TokenSequence`.
- The reserved mapping zero on the native path and CUDA graph capture are not modelled.
- The compaction strategy's ids, mode strings and epoch field are constants and are left out of the proposal.
- `unbind` and `release_binding` of the manager have the same body and are one method.
- Frontier after a refused emission: the program ends the generation with the error, so nothing is stated about
  further pushes.
- HTTP routes, admission, residency planning, the response store, lifecycle, catalog and configuration.
- crates/server/src/scheduler.rs and crates/server/src/structured.rs are not part of this model.
