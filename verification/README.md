# A verified model of the zlog shared log

zlog is a CORFU-style shared log: a client that holds the *sequencer* hands out log positions, an
object map spreads positions over storage objects, and views (object map plus sequencer
configuration) replace each other through compare-and-swap. This project models the parts where
those mechanisms meet and proves what they promise, in Dafny 4.11.

`dafny verify dfyconfig.toml` checks everything.

## What is modelled

**Reconfiguration and append** (`Protocol`, `History`, `CoreSteps`, `Handoff`, `Threads`,
`TaskSteps`, `Runs`, `Theorems`, `Calls`, `Outcomes`, `Deeds`, `Seeds`, `Sequencing`, `Turns`,
`Example`). Any number of clients, each with its installed view, its
sequencers and any number of threads running appends, reads, fills, trims, range trims, sequencer
proposals, map expansions, tail look-ups and stripe initialisation. Every backend call, and every access to state
that a client's threads share, is one atomic step; `Do` makes one step, `Reached` folds a sequence of
steps, and a thread that is never scheduled again has crashed. This file group is a state machine and
not a set of methods because its subject is what other threads do between two calls. Theorems speak
about `Reachable(s)` (some run reaches `s`) and `Precedes(s, s')` (some run reaches `s` and goes on to
`s'`). The state carries the history of successful writes, fills and trims as a bookkeeping device; it
is tied to the store by `Theorems.ContentIsReplay`. `Theorems` says what stays true along every run.
`Outcomes`, `Turns` and `Sequencing` say what each operation does next and how it ends, in terms of the
log's content and of the committed views; `Deeds` ties every event to the operation that asked for it and
says which results exist; `Seeds` says exactly where a new sequencer starts.

**Object map** (`Arithmetic`, `Stripes`, `PlainLists`, `ObjectMaps`, `MapTo`, `Expansion`, `Names`,
`Views`). The run-length form of the stripes is proved against a plain list of stripes. Two findings:
`map_to` is right exactly for stripes whose first position is a multiple of the width, which `valid()`
does not demand but every map built by `create_initial` and `expand_mapping` has; and the constructor
lets a width times slots of exactly 2^32 through, for which the 32-bit product in `map` is 0.

**Storage objects** (`Cells`, `Contract`, `Ram`, `RamBackend`, `Cls`, `CephObject`, `Backends`,
`Reclaim`, `RangeTrim`, `TrimEquivalence`, `CephRuns`, `UniqueIds`). One contract (a small state machine per position, an epoch guard,
a running maximum), the in-memory backend and the Ceph object class as two implementations of it, and
the steps of a full trim interleaved with everybody else's calls. `CephRuns` puts the two halves
together: runs of the protocol in which every log object is also a Ceph object with interleaved reclaim
steps. The classes `RamBackend` and
`CephObject` update their fields as the program does, each method proved against the function that the
theorems are about. Findings: the object class stores the trim limit as a signed number, so trimming
works exactly below 2^63; it stores extent offsets in 32 bits, so among the sizes that an object can
have (at most 2^33 - 2) writing leaves other entries alone exactly below 2^32; a full trim that meets an
entry above its own position fails with EIO even if an earlier limit covers that entry; the two
backends disagree on calls with epoch 0 to missing objects.

**Gate and caches** (`Gate`, `Indexes`, `Arc`, `Lru`). The gate on operations in flight, and the
ARC and LRU caches with their owner's map. `arc_p` has no initial value in the program, so it starts
as any real number. Finding: a gate that allows 0 operations in flight never wakes anybody.

Modelling decisions. Positions, epochs and counters are unbounded; the places where the program's
integer width matters (32-bit products, 32-bit offsets, the signed limit) are written out. A client's
token is its index, so tokens are distinct; `UniqueIds.IdsDistinct` is why. At most one `refresh_view`
of a client is in flight. Waits may end at any time, and an operation that calls `try_expand_view` or
`advance_min_valid_position` leaves that to an `Update` thread, which may be started at any time: both
add behaviours and remove none. Products and quotients of positions go through recursive definitions
that `Arithmetic.MachineOperations` shows to be the machine's. Ordered maps are sequences in key
order, hash maps of list iterators are their key sets. Where an entry that does not exist is
invalidated, the program writes an uninitialised `bytestream` flag; the model writes `false`, and
nothing reads it.

## Model

| member | source | states |
|---|---|---|
| Theorems.SequencerHandOff | src/libzlog/view_manager.cc:169-301 | Once a view with a new sequencer configuration of epoch i+1 and first position s is committed, in every later state of every interleaving no successful write, fill or trim with an epoch up to i is about a position from s on, and every object that holds such a position refuses every call with such an epoch as stale, unchanged |
| Theorems.OlderViewsAgree | src/libzlog/object_map.cc:28-53 | An object that holds a position in any older view holds it in every later one, so the refusals above cover every call a client can still make with an older view |
| Seeds.FirstPositionIsExact | src/libzlog/view_manager.cc:245-297 | The first position of every committed configuration is exact: 0 if nothing was done under older epochs; else one past the highest position that older epochs named in the last stripe that they used, which is sealed with all stripes above it, and an object of the previous view reports at least that position for ever |
| Seeds.MaxPosOfRun | src/libzlog/view_manager.cc:191-206 | In every reachable state an object's reported maximum is the highest position or limit that a successful write, fill or trim named on it, and it reports none exactly if there was none |
| Seeds.RunCommits | src/libzlog/view_manager.cc:283-297 | A step commits nothing, or a view that differs from the latest by its own client's configuration at the seed found, or by exactly the change asked for; a proposal is taken exactly if it was made in the latest view |
| Seeds.ChangeMeans | src/libzlog/view.cc:76-100 | An expansion is none exactly if its position is mapped, and else the smallest that maps it; an advance is none exactly if the minimum is not below its position, and else sets the minimum to it; neither changes anything else |
| Turns.ProposalGoesOn | src/libzlog/view_manager.cc:245-331 | A proposer's search always moves on, object by object, from sealing to asking and from stripe to lower stripe, to its proposal, which ends it with 0 exactly if it worked in the latest view |
| Turns.UpdateGoesOn | src/libzlog/view_manager.cc:108-167 | An expansion or advance is done once its view is committed; on a stale view it begins again or gives up |
| Turns.InitGoesOn | src/libzlog/view_manager.cc:351-384 | Initialising a stripe goes through its objects one by one and ends behind the last |
| Expansion.InitialPlain | src/libzlog/view.cc:26-54 | A new log maps one stripe of the configured width and slots from position 0, or nothing, as it was asked to |
| Theorems.EraOrder | src/libzlog/log_impl.cc:205-281 | Across all clients and runs, a position appended under an earlier sequencer configuration is strictly below every one appended under a later configuration; equal positions mean the same append |
| Theorems.AppendAllOrOnce | src/libzlog/log_impl.cc:205-281 | An append that returned 0 has written its data exactly once and at the position it reports; one that failed or has not ended has written nothing |
| Theorems.AppendedStays | src/libzlog/log_impl.cc:205-281 | From a successful write on, the log holds its data at its position in every later state, until and only until a trim covers the position, and is invalid from then on |
| Theorems.PositionLifecycle | src/storage/ram/ram.cc:299-411 | Along every run a position of the log only moves from unwritten to its data to invalid, or from unwritten to invalid, across view changes, reseals and full trims |
| Theorems.ReadReturnsAppended | src/libzlog/log_impl.cc:117-159 | A read operation of a position that ends after an append there has succeeded, whoever runs it and in whatever view it began, returns exactly the appended data, or ENODATA and then a trim covers the position, or EIO because a view expansion failed |
| Outcomes.PointEnds | src/libzlog/log_impl.cc:117-159 | A read, fill or trim ends with EIO, changing nothing, because its view could not be expanded; or the content of its position at that moment decides: a read returns the data, ENODATA where it is invalid and ENOENT where nothing was written; a fill is refused with EROFS where there are data and else returns 0; a trim returns 0; and no content but that position's changes: a fill invalidates an unwritten position, a trim any |
| Turns.PointEndsInStep | src/libzlog/log_impl.cc:117-159 | The same for whatever step of whatever thread it is after which a read, fill or trim has ended: it is the operation's own |
| Outcomes.PointTries | src/libzlog/log_impl.cc:327-425 | The exact next step of a read, fill or trim that works in a view: unmapped, missing object, stale view, or its end as above |
| Outcomes.AppendTries | src/libzlog/log_impl.cc:230-281 | The exact next step of an append that holds a position: it goes on to create a missing object and starts again where its view is stale, keeping its position; it writes its data and ends with 0 where nothing was written; where the position was consumed it gives it up and starts again |
| Outcomes.AppendEnds | src/libzlog/log_impl.cc:205-281 | An append ends with 0, having turned its unwritten position into its data and changed no other content; or with EIO, where its view has no sequencer or could not be expanded; in no other way |
| Sequencing.NextPositionIsNew | src/libzlog/log_impl.cc:211-229 | A position that an append holds after it held none, because it had just begun or was refused, was issued in between by a sequencer of its own client |
| Sequencing.RefusedThenNew | src/libzlog/log_impl.cc:271-281 | An append that was refused and returns 0 in the end has written its data at a position that its client's sequencer issued after the refusal |
| Sequencing.AppendTakes | src/libzlog/log_impl.cc:211-229 | An append takes the next position of its view's sequencer, and none exactly if it holds one of that sequencer |
| Outcomes.MissingIsCreated | src/libzlog/log_impl.cc:246-270 | An operation that found its object missing, or initialises a stripe, creates it with exactly its view's epoch, which never lowers one that the object has, changes no cell, does not end, and goes on as the source does |
| Deeds.EventsAreMade | src/libzlog/log_impl.cc:205-550 | In every reachable state each successful write was made by an append of that data, each fill by a fill of that position, each single trim by a trim of that position, and each range trim of an object by a range trim with that limit |
| Deeds.ResultsAre | src/libzlog/log_impl.cc:205-550 | In every reachable state an append that has ended ended with 0 or EIO; a read, fill or trim with EIO or with the reply for some content; a range trim with EIO, or with 0 and then the minimum valid position is above its limit; a proposal that ended with 0 has committed a view that makes its own client the sequencer; an initialised stripe has the target and all its objects exist |
| Theorems.ReadSeesLog | src/storage/ram/ram.cc:260-297 | A backend read call through any committed view that maps the position is answered with the content of the log, or as stale, or with a missing object if the position is unwritten |
| Theorems.ContentIsReplay | src/storage/ram/ram.cc:260-484 | What the latest view's objects hold at each position is the replay of the successful writes, fills and trims |
| Theorems.TrimToComplete | src/libzlog/log_impl.cc:462-550 | When a range trim has returned 0, every position up to its limit is invalid in every later state, whatever ran beside it |
| Turns.RangeTrimGoesOn | src/libzlog/log_impl.cc:505-550 | The exact next step of a range trim: target by target, stripe by stripe, until it ends with 0 behind its view's last stripe; it creates a missing object and starts again on a stale view; it changes no content but that of its target's positions up to the limit, which become invalid |
| Turns.OperationsBegin | src/libzlog/log_impl.cc:60-550 | How every operation begins, and begins again, in the view its client has installed: an append or tail look-up fails with EIO exactly without a sequencer; a range trim goes on exactly if its limit is mapped and below the minimum; a proposer starts at the last stripe; an update is done exactly if there is nothing to change; an initialisation finds the stripe that has its target |
| Theorems.ViewHistory | src/libzlog/view_manager.cc:108-167 | Committed views are never replaced, the first has no sequencer, and each later one is its immediate predecessor with an expanded mapping, an advanced minimum or a new sequencer configuration of that epoch |
| Theorems.ViewsOnlyExtend | src/libzlog/view.cc:76-100 | Between any two committed views mapped positions keep their object, the minimum valid position does not fall and the configuration's epoch does not fall |
| Theorems.ConfigsNeverReturn | src/libzlog/view_manager.cc:283-297 | Two views with configurations of equal epoch carry the same configuration, and so does every view between them |
| Theorems.OneSequencer | src/libzlog/view_reader.cc:150-215 | At most one sequencer is ever created for a configuration, by whatever client; sequencers of equal epoch are the same instance |
| Theorems.IssuedOnce | src/libzlog/sequencer.h:9-32 | No position is issued twice under one configuration, whether an append takes it or a tail look-up with increment |
| Sequencing.IssuedExactly | src/libzlog/sequencer.h:9-32 | In every reachable state what a sequencer has issued is exactly every position from the first of its configuration up to, and without, its own: no gap and no repetition |
| Sequencing.TailReports | src/libzlog/log_impl.cc:60-71 | A tail look-up reports the position that its view's sequencer will issue next, and takes it exactly if asked to increment; otherwise nothing else changes |
| Sequencing.RefreshInstallsLatest | src/libzlog/view_reader.cc:127-215 | A refresh that runs undisturbed installs the latest committed view, with a sequencer exactly if it names the client, made for its configuration |
| Runs.LookStep | src/libzlog/log_impl.cc:60-71 | A tail look-up with or without increment keeps the invariant; with increment it issues a position that was not issued before |
| TaskSteps.LookStarts | src/libzlog/log_impl.cc:60-71 | The start of a tail look-up keeps the invariant and knows the sequencer of its view |
| Theorems.SequencerIffToken | src/libzlog/view_reader.cc:168-211 | An installed view is the committed view of its epoch and carries a sequencer exactly if its configuration carries the client's token, and then the one made for that configuration |
| Theorems.InstalledViewsMoveForward | src/libzlog/view_reader.cc:150-215 | Along every run a client keeps its installed view or has moved to one of a strictly later epoch; it keeps its sequencers, whose positions only move up |
| Theorems.EpochsBounded | src/libzlog/view_manager.cc:245-301 | Every object's epoch is at most the head's plus one, and every successful call carried an epoch of a committed view |
| Runs.ReachedInv | src/libzlog/log_impl.cc:205-281 | Every state of every run of any number of clients satisfies the protocol invariant |
| Runs.DoStep | src/libzlog/log_impl.cc:608-646 | Every step of every thread and client keeps the invariant |
| Runs.InstallOk | src/libzlog/view_reader.cc:150-215 | Installing a fetched view keeps a client in order, and the assertions of refresh_view hold: the fetched epoch is not older, and a reused sequencer exists |
| TaskSteps.AppendStep | src/libzlog/log_impl.cc:205-281 | Each step of an append keeps the shared invariant and records a write exactly when the append ends well; which step it is, Outcomes.AppendTries, Outcomes.AppendEnds and Turns.OperationsBegin state |
| TaskSteps.PointStep | src/libzlog/log_impl.cc:327-425 | Each step of a read, fill or trim of one position keeps the shared invariant and records no write; which step it is, Outcomes.PointTries, Outcomes.PointEnds and Turns.OperationsBegin state |
| TaskSteps.TrimToStep | src/libzlog/log_impl.cc:462-550 | Each step of a range trim keeps the shared invariant, and the targets behind it are invalid |
| TaskSteps.ProposeStep | src/libzlog/view_manager.cc:245-331 | Each step of a sequencer proposal keeps the shared invariant and what the proposer has established about sealed objects and the highest position; which step it is, Turns.ProposalGoesOn states, and the exact seed Seeds.FirstPositionIsExact |
| TaskSteps.UpdateStep | src/libzlog/view_manager.cc:108-167 | Each step of an expansion or an advance keeps the invariant; a committed one follows the view it was made from |
| TaskSteps.InitStep | src/libzlog/view_manager.cc:351-384 | Stripe initialisation keeps the invariant |
| TaskSteps.RangeTargeted | src/libzlog/object_map.cc:55-104 | The object map discharges the promise behind a full trim: a target flagged full has no position above the limit |
| Handoff.ScanOne | src/libzlog/view_manager.cc:191-206 | An object's reported maximum bounds every position that older epochs touched in it, although other clients keep running |
| Handoff.FoundSeed | src/libzlog/view_manager.cc:265-286 | The first stripe from the top that is not empty yields a seed above everything older epochs did anywhere, with all objects above it sealed |
| Handoff.ProposeLasts | src/libzlog/view_manager.cc:169-301 | No step of another thread takes away what a proposer has established |
| Example.AppendsHappen | src/libzlog/log_impl.cc:205-281 | For every payload there is a run in which a client becomes the sequencer and its append succeeds |
| UniqueIds.IdsDistinct | src/storage/ceph/ceph.cc:133-177 | In every interleaving two calls of uniqueId return different numbers, none of them 0 |
| Stripes.ListLaws | src/libzlog/stripe.h:212-240 | A run of stripes stands for a plain list: stripe_by_id indexes it, extend appends one stripe |
| Stripes.RunStripes | src/libzlog/stripe.h:112-147 | The stripes of a run meet the constructor's assertions, are adjacent and fill exactly the run's range |
| Stripes.ProductBoundary | src/libzlog/stripe.h:128-147 | The constructor accepts exactly the products up to 2^32, and the 32-bit product of map is exact for those below and 0 at 2^32 |
| PlainLists.LocateIsHolds | src/libzlog/stripe.cc:6-30 | In the plain list a position is located exactly if it is below the top, at the one object that holds it |
| PlainLists.ObjectPositions | src/libzlog/stripe.cc:13-30 | In an aligned stripe object i holds exactly its `slots` rows, one after the other |
| PlainLists.PrefixKeeps | src/libzlog/object_map.cc:106-153 | Appending stripes moves no mapped position and gives no old object a new one |
| ObjectMaps.BuildIndex | src/libzlog/object_map.h:14-31 | The constructor's loop builds the index by id, which on a valid map has the same runs in the same order |
| ObjectMaps.LookupsAgree | src/libzlog/object_map.cc:7-53 | map, map_stripe and stripe_by_id, through both indexes and the 32-bit product, agree with the plain list, and the flag of map marks exactly the last stripe |
| ObjectMaps.MapIsHolds | src/libzlog/object_map.cc:28-53 | map answers exactly with the object that holds the position, and with nothing exactly above the last mapped position |
| MapTo.ExactIffAligned | src/libzlog/object_map.cc:55-104 | The targets of map_to are exact for every limit if and only if the stripe is aligned; an unaligned one has a limit at which an object is wrongly flagged full |
| MapTo.ValidAdmitsUnaligned | src/libzlog/object_map.cc:220-278 | A map of two runs, width 2 and then width 3 from position 2, satisfies valid() and has an unaligned stripe |
| MapTo.Next | src/libzlog/object_map.cc:55-104 | One call of the iterator: nothing exactly if the limit is unmapped, done exactly behind the last stripe, otherwise the targets of that stripe |
| MapTo.StripeTargets | src/libzlog/object_map.cc:79-101 | The loop over a stripe computes its targets |
| MapTo.Enumerate | src/libzlog/object_map.cc:55-104 | Iterating from stripe 0 until done yields each object holding a position up to the limit exactly once and no other, flagged full exactly if all its positions are covered |
| Expansion.GrowIsMinimal | src/libzlog/object_map.cc:106-153 | The expanded map is valid and aligned, has the old stripes as a prefix, maps the target, and no shorter prefix of it does; new stripes have the shape of the last |
| Expansion.ExpandMapping | src/libzlog/object_map.cc:106-153 | The loop of expand_mapping terminates, measured by the distance to the target, with that map, or with nothing exactly if the target is mapped already |
| Names.ObjectNameInjective | src/libzlog/stripe.cc:13-30 | Printed object names are equal only for equal stripe and index |
| Names.KeysOrdered | src/storage/ceph/cls_zlog.h:19-25 | Padded keys are ordered as the numbers are, and equal only for equal numbers |
| Views.FollowsExtends | src/libzlog/view.cc:76-100 | Each of the three ways to make a view extends the mapping, does not lower the minimum, and keeps the configuration or brings one of that epoch |
| Contract.TopIsMaximum | src/storage/ram/ram.cc:513-548 | The running maximum is empty exactly if there was no successful write, fill or trim, and otherwise the highest position or limit one of them named |
| Ram.AdmittedMeans | src/storage/ram/ram.cc:260-484 | An admitted call gets the reply that the addressed cell determines and changes every cell as the contract says |
| Ram.AdmittedTop | src/storage/ram/ram.cc:342-411 | The highest position stays a running maximum, even across entries.clear() |
| Ram.FullTrimIffPromise | src/storage/ram/ram.cc:342-411 | Clearing all entries is a range trim on every cell if and only if no entry lies above the limit |
| RamBackends.RamBackend.Read | src/storage/ram/ram.cc:260-297 | The method's reply is the one of the store function, and the store is unchanged |
| RamBackends.RamBackend.Write | src/storage/ram/ram.cc:299-340 | The method's reply and new store are those of the store function |
| RamBackends.RamBackend.Fill | src/storage/ram/ram.cc:441-484 | The method's reply and new store are those of the store function |
| RamBackends.RamBackend.Trim | src/storage/ram/ram.cc:342-411 | The method's reply and new store are those of the store function |
| RamBackends.RamBackend.Seal | src/storage/ram/ram.cc:486-511 | The method's reply and new store are those of the store function |
| RamBackends.RamBackend.MaxPos | src/storage/ram/ram.cc:513-548 | The method reports the object's highest position |
| RamBackends.RamBackend.ProposeView | src/storage/ram/ram.cc:223-258 | The list of views grows by the proposal exactly if its epoch is the next one; older epochs are refused as stale |
| RamBackends.RamBackend.ReadViews | src/storage/ram/ram.cc:162-221 | Exactly the requested stretch of views is returned, each under its epoch |
| Cls.AdmittedMeans | src/storage/ceph/cls_zlog.cc:6-212 | Within the stated limits an admitted call of the object class gets the reply that the addressed cell determines and changes every cell as the contract says, with data in the omap or in the bytes |
| Cls.AdmittedTop | src/storage/ceph/cls_zlog.h:97-134 | Live extents stay in bounds and apart, and the header's maximum stays a running maximum |
| Cls.FullTrimFailsIff | src/storage/ceph/ceph.cc:411-492 | A full trim fails, with EIO, exactly if an entry lies above its position; the cells are trimmed either way |
| Backends.LimitSurvivesIff | src/storage/ceph/cls_zlog.h:55-77 | Trimming up to a position does what the contract says, in every object that a legal run of calls leads to, if and only if the position is below 2^63 |
| Backends.OffsetExactIff | src/storage/ceph/cls_zlog.h:226-256 | For every size up to 2^33 - 2: in all objects of that size that legal runs of calls lead to, writing leaves the other positions alone if and only if the size is below 2^32; for each larger size two writes make the object and a third one changes what position 0 reads |
| Backends.SizesBounded | src/storage/ceph/cls_zlog.h:226-256 | No legal run of calls makes an object larger than 2^33 - 2 bytes |
| Cls.GuardsAgreeIff | src/storage/ceph/cls_zlog.h:79-87 | The two backends' checks before a call agree except exactly for epoch 0 on a missing object |
| CephObjects.CephObject.EntryRead | src/storage/ceph/cls_zlog.cc:6-58 | The method's reply is the one of the object function |
| CephObjects.CephObject.EntryWrite | src/storage/ceph/cls_zlog.cc:60-128 | The method's reply, header, omap and bytes are those of the object function |
| CephObjects.CephObject.EntryInvalidate | src/storage/ceph/cls_zlog.cc:130-212 | Forced it is a trim, unforced a fill, and a limit without force is refused |
| CephObjects.CephObject.EntrySeal | src/storage/ceph/cls_zlog.cc:214-258 | The method's reply and header are those of the object function |
| CephObjects.CephObject.MaxPosition | src/storage/ceph/cls_zlog.cc:260-292 | The method reports the header's maximum |
| CephObjects.CephObject.ReclaimSpace | src/storage/ceph/ceph.cc:440-491 | The deletion loop removes every key up to the position, one at a time and in order; it truncates if none is left and stops with EIO at the first key above |
| CephObjects.CephObject.Trim | src/storage/ceph/ceph.cc:411-492 | The method's reply and new object are those of the object function |
| Backends.RamKeepsContract | src/storage/ram/ram.cc:260-548 | On every sequence of calls whose full trims keep their promise the in-memory backend replies as the contract does and holds what the contract says |
| Backends.ClsKeepsContract | src/storage/ceph/cls_zlog.cc:6-292 | The same for the object class within its limits |
| Backends.BackendsAgree | src/storage/ram/ram.cc:260-548 | From the empty store every such sequence of Seal, Write, Read, Fill, Trim and MaxPos gets the same return codes, data and maxima from both backends, and leaves the same cells |
| Backends.RamCellsMoveForward | src/storage/ram/ram.cc:299-411 | Between any two points of a run a cell of the in-memory backend only moves from unwritten to its data to invalid, or from unwritten to invalid |
| Backends.ClsCellsMoveForward | src/storage/ceph/cls_zlog.cc:60-212 | The same for the object class |
| Backends.MaxPosIsRunningMaximum | src/storage/ram/ram.cc:513-548 | After any run MaxPos is empty exactly if no write, fill or trim succeeded, and otherwise the maximum of their positions and limits |
| Backends.ClsMaxPosIsRunningMaximum | src/storage/ceph/cls_zlog.cc:260-292 | The same for the object class |
| Reclaiming.ReclaimIsInvisible | src/storage/ceph/ceph.cc:411-492 | If only range trims name a position above the object's last one and full trims reach it, within the limits of the representation: whatever the interleaving of the limit, list, delete and truncate steps of full trims with other calls, every call is answered as if a full trim were one range trim, the object holds what those calls make it hold, live extents are in bounds and apart, and no full trim fails |
| CephRuns.DirectedIsProper | src/libzlog/object_map.cc:55-104 | That condition holds of every call directed by the object map |
| Calls.CallsDirected | src/libzlog/log_impl.cc:205-550 | Every backend call of every operation, in every state that satisfies the invariant, is directed by the object map |
| Calls.CallIs | src/libzlog/log_impl.cc:205-550 | The call that is read off a task is all that its next step does to the store; a write, fill or trim is recorded exactly if it succeeds, and a step with a call commits no view |
| Calls.ReplyDecides | src/libzlog/log_impl.cc:205-550 | An operation's next step depends on the store through the reply to its call only |
| CephRuns.CephAnswersAlike | src/storage/ceph/ceph.cc:362-492 | In every run of the protocol with Ceph objects and interleaved reclaim steps, within the limits of the representation, each call gets from the Ceph object the reply that the run was made with, and no full trim fails |
| CephRuns.CephHoldsLog | src/storage/ceph/ceph.cc:362-492 | In every such run the Ceph objects hold at every position the content of the log that the protocol's theorems are about, and the protocol's part is a reachable state |
| Reclaiming.UnpromisedTrimLosesData | src/storage/ceph/ceph.cc:429-491 | For every position below another there is an interleaving in which a full trim that does not reach the object's last position truncates the data of a successful write |
| TrimEquivalence.RangeTrimIsSingleTrims | doc/trim.txt:13-18 | After a range trim and after trimming the same positions one at a time, every further sequence of reads, writes, fills, trims, range trims and seals gets the same replies, and the next sequencer's first position is the same before and after any such sequence |
| TrimEquivalence.TwinsAnswer | doc/trim.txt:4-18 | Stores with equal epochs, equal cells at held positions and equal stripe maxima from a non-empty stripe on stay so under every such sequence, which gets equal replies |
| RangeTrims.TrimTo | src/libzlog/log_impl.cc:477-545 | In one view that maps the limit, the undisturbed range trim, restarting whenever it creates an object, terminates, succeeds if no object has seen a later epoch, and then has trimmed exactly the objects that hold a position of the range |
| RangeTrims.TrimOne | src/libzlog/log_impl.cc:408-424 | In one view that maps the position, the undisturbed trim of one position creates its object if it is missing and trims exactly that position |
| RangeTrims.TrimEach | src/libzlog/log_impl.cc:394-425 | Trimming positions 0 to n-1 in order touches exactly the objects that hold one of them |
| RangeTrims.SealStripe | src/libzlog/view_manager.cc:169-220 | Sealing a stripe changes no cell and reports the highest position of its objects |
| RangeTrims.FindSeed | src/libzlog/view_manager.cc:245-287 | The undisturbed reverse scan finds one past the highest position of the last stripe that has one, or 0 |
| Gate.GateBounds | src/libzlog/log_impl.cc:587-646 | In every interleaving the counter is the number of pending and running operations, at most one above the limit, and only the oldest waiter may be woken |
| Gate.BoundIsReached | src/libzlog/log_impl.cc:587-646 | The limit plus one is reached |
| Gate.NoLostWakeupIff | src/libzlog/log_impl.cc:587-646 | With waiters present an operation is in flight or a waiter is woken, in every reachable state, if and only if the limit is positive |
| Gate.NeverStuck | src/libzlog/log_impl.cc:587-646 | With a positive limit, as long as an operation is left, some step other than an arrival can be made |
| Gate.WorkShrinks | src/libzlog/log_impl.cc:587-646 | Every step but an arrival shrinks what remains to be done, so without newcomers everything completes |
| Gate.OperationsConserved | src/libzlog/log_impl.cc:587-646 | What arrived is waiting, pending, running or done, each operation once |
| Gate.FirstInFirstOut | src/libzlog/log_impl.cc:587-646 | In every run operations are taken in the order in which they were let through, and callers that wait resume in the order in which they arrived |
| Gate.EveryRunLogs | src/libzlog/log_impl.cc:587-646 | Every run has the log of orders that FirstInFirstOut is about |
| Gate.OpGate.QueueOp | src/libzlog/log_impl.cc:587-606 | The critical section makes the arrival step and keeps the invariant: the caller waits exactly if the counter has reached the limit, in front of the waiters, and otherwise its operation goes to the back of the pending ones |
| Gate.OpGate.Resume | src/libzlog/log_impl.cc:595-605 | A woken caller is the oldest waiter and enqueues its operation |
| Gate.OpGate.TakeOp | src/libzlog/log_impl.cc:613-629 | A finisher takes the oldest pending operation |
| Gate.OpGate.FinishOp | src/libzlog/log_impl.cc:638-644 | Finishing decrements a positive counter and wakes the oldest waiter |
| Arcs.ArcInvariants | src/eviction/arc.cc:48-156 | For every initial p and every sequence of puts and gets: no position is twice in T1, T2, B1, B2; T1+B1 and T1+T2 are at most c, all four at most 2c; ghosts exist only when T1+T2 is c; the owner's map holds exactly T1 and T2 |
| Arcs.Replaced | src/eviction/arc.cc:133-156 | replace moves one cached position to the ghosts, whatever p is |
| Arcs.PutKeeps | src/eviction/arc.cc:48-111 | put keeps the invariants, and takes no element of an empty list |
| Arcs.PutEvictsAtMostOne | src/libzlog/cache.cc:13-25 | A put is accepted exactly if the capacity is positive, the data are shorter than it and the position is not cached; then it caches its data and loses at most one other position, and only from a full cache; else it changes nothing |
| Arcs.ListsInRecencyOrder | src/eviction/arc.cc:10-42 | T1 and T2 are in order of last use in every state of every run, so the element replace evicts is the least recently used of its list |
| Arcs.HitReturnsInserted | src/libzlog/cache.cc:27-45 | A hit returns the bytes of the put that inserted the position |
| Arcs.ArcAdapts | src/eviction/arc.cc:48-156 | On an accepted put the target p grows by the larger of 1 and B2/B1, up to c, if the position was in B1, shrinks by the larger of 1 and B1/B2, down to 0, if it was in B2, and else stays; a position that was evicted before comes to the front of T2, a new one to the front of T1; a cache that is not full loses nothing; a full one loses the last of T1 if T1 is above its target or the position was in B2, and else the last of T2, to the front of its ghost list, or the last of T1 without trace if T1 has c positions and the put's is new |
| Arcs.GhostsRemember | src/eviction/arc.cc:48-111 | A put forgets an evicted position only if it is the put's own, or the last of its ghost list where a new position needs the room |
| Arcs.HitMoves | src/eviction/arc.cc:10-42 | A hit brings its position to the front of T2, from T1 or T2, and changes nothing else; a miss changes nothing |
| Arcs.ArcCache.Evict | src/eviction/arc.cc:133-156 | The method makes the step of replace |
| Arcs.ArcCache.PutData | src/libzlog/cache.cc:13-25 | The method keeps the invariants and makes the step of put; it accepts exactly what fits and is not cached, and a position whose data fit is cached afterwards |
| Arcs.ArcCache.GetData | src/libzlog/cache.cc:27-45 | The method keeps the invariants and makes the step of get; it finds exactly what is cached and evicts nothing |
| Lrus.LruExact | src/eviction/lru.cc:8-33 | After any puts and gets the cache holds exactly the c most recently used distinct positions, in order of recency, where recency is defined over the calls alone: a put uses its position if the capacity is positive, its data fit and the position is not among the c used last, a get if it is among them |
| Lrus.LruReplies | src/libzlog/cache.cc:13-45 | The cache's answers from the calls alone: a put is accepted exactly if the capacity is positive, the data are shorter than it and the position is not among the c used last; after a put of such data its position is cached; a get finds exactly the c positions used last, with the data put last |
| Lrus.HitReturnsInserted | src/libzlog/cache.cc:27-45 | A hit returns the bytes of the put that inserted the position |
| Lrus.LruCache.PutData | src/eviction/lru.cc:21-33 | The method keeps the invariants and makes the step of put; it accepts exactly what fits and is not cached, and a position whose data fit is cached afterwards, in a full cache too |
| Lrus.LruCache.GetData | src/eviction/lru.cc:8-15 | The method keeps the invariants and makes the step of get; it finds exactly what is cached and evicts nothing |

## Left out

- Liveness of retries: a proposer may seal at the next epoch and die before proposing it, so a stale reply does not imply that a newer view exists; only safety is proved, and termination of local loops.
- CheckTail across clients: it reads the local sequencer only and promises nothing about other clients.
- Two refreshes of one client in flight: their read and install halves can cross, and the assertion in refresh_view is not an invariant then.
- Timeouts, back-off, retry counts, shutdown paths, thread start and join: a retry loop may give up at any ESPIPE.
- Encodings: views, headers and entries are values; flatbuffers, JSON dumps and librados are not part of this model.
- The LMDB backend: a third implementation of the same contract, over a library that is not part of this model.
- Cache::remove: it takes an entry from the owner's map without telling the eviction policy, so the cache theorems are about puts and gets.
- The unlocked lookup in Cache::get, and the rounding of arc_p.
- Wrap-around of 64-bit positions and epochs.
- Short-circuits for testing such as black-hole mode.
- The head object of the Ceph backend: view_create takes the same decisions as ProposeView of the in-memory backend, which is modelled.
- RangeTrims.TrimTo: both ways of trimming run in one view, undisturbed, on the in-memory backend; the first half of the operation, which commits a view with an advanced minimum, and the expansion of an unmapped limit are in the protocol model, where TrimToComplete covers range trims among other clients.
- RangeTrims.TrimOne: the retry after a stale reply and the expansion of an unmapped position are in the protocol model only.
- Reclaiming.ReclaimIsInvisible: keys of log entries only; the other keys that the deletion loop skips do not occur in log objects.
- CephRuns.CephAnswersAlike: the client of a full trim goes on as soon as the limit is set instead of waiting for the reclaim steps, which adds interleavings and removes none.
