# Verification of the distributed-uvm paging path

A Dafny model of how a page travels from the kernel's swap device to a backend on
this or another machine, and back, with proofs of what the code promises about it.
`dafny verify dfyconfig.toml` checks everything.

**The swap protocol.** The block driver, the daemon and the driver's completion
harvester run concurrently over shared memory: two rings, a bitmap of staging slots,
the staging pages. `SwapProtocol` is the step system, one step per access to shared
memory; `SwapInvariant` the inductive invariant and one lemma per step; `SwapSafety`
what holds in every interleaving; `SwapAvailability` that nothing is lost on the way;
`SwapDrain` progress; `SwapOverflow` exactly when the protocol can hang; `SwapTimeout`
what one timeout does to it and `SwapTimeoutRuns` runs with timeouts anywhere in them;
`SwapRuns` builds runs. `SwapDevice` is the code itself, over arrays, each access proved
to be a step and each function a run. The daemon's engine enters as the class of
`Engine`, not as an assumption.

**The daemon's engine.** `Engine`, `Policy` and `Backends` are classes with the
source's fields and loops. Every call is tied to `EngineSpec`: with any backends
failing in any way the engine is a page map that may lose a page and never alters one
(`LossyRuns`); `EnginePlaces` says how the backends' counts move and which backends are
never touched, and `EvenPlacement` that placement is fair, over backends of any kind; over
local backends each outcome is determined (`LocalRuns`), with enough
of them the engine is a plain map (`EngineCapacity`), and with one of them it is the
textbook LRU list (`LruRefinement`, `LruList`). `EngineRuns` ties sequences of calls of
the code to such runs, and shows that pinned pages stay.

**The remote side.** `MemServer` is the memory server's store under any interleaving of
clients, `Wire` the byte protocol and the server's session loop, `WireLaws` what a client
can tell from the replies and that the two servers are one, `Breaker` the client's
reconnection policy over timed runs, `Rdma` slab carving and page addressing.

`Ring`, `Layout`, `Bits` hold the user-space rings, the shared encodings and the bit
arithmetic under all of them; `Counting`, `Fractions` and `Pages` are small helpers.

What the proofs found:

- Data safety of the swap protocol needs no bound on outstanding requests. The daemon
  publishes completions without looking for room, but there are as many staging slots
  as ring entries, so it never overwrites one (`SwapInvariant.RoomToPublish`).
- Short of a timeout the protocol can hang: the driver sets the queue depth equal to
  the ring capacity, and a completion ring filled to the last entry looks empty. A
  depth of one less excludes it (`SwapOverflow.HangsIff`).
- The driver's timeout handler frees a slot whose request is still in flight. That alone
  is harmless, any number of times: reads end right as long as no submission takes such a
  slot (`SwapTimeoutRuns.CarefulReads`), and a submission does damage exactly when it does
  (`SwapTimeoutRuns.AllocRepairsIff`). Nothing prevents it: with two slots and two tags a
  store may overwrite a page the daemon has not read, and a later read then ends as a
  success with the wrong page; with one of either, never (`SwapTimeoutRuns.HarmedIff`).
- The memory server's count is upset by exactly one thing a client can do, storing to an
  offset that is neither stored nor granted and waiting to be (`MemServer.BooksIff`, over
  all interleavings of clients of any kind). On a server that counts nothing it wraps the
  count, and disciplined clients are never granted anything again
  (`MemServer.UndisciplinedUnderflow`).
- An offset freed before it was stored is never taken off the count. Disciplined clients
  can use up the whole server that way, for good (`MemServer.LeakedServer`,
  `MemServer.LeakRun`).
- A TCP backend that loses its connection while it holds no tracked page is never used
  again: it is not chosen for stores while it is down, and only a call would reconnect it
  (`EnginePlaces.NeverUsedAgain`). The recovery that `Breaker.Recovers` promises for the
  next call never comes, as there is no next call.
- The TCP client counts a refused request as a broken connection. A server that is
  merely full is reconnected to on every call, and so is an unusable address; a server
  that answers every call alike in any other way is not (`Breaker.UnboundedIff`).
- The RDMA allocator hands out live handles after frees out of order
  (`Rdma.HandleOutTwice`, `Rdma.FreshIff`), and addresses memory beyond its slab when
  configured for more pages than the server gives it (`Rdma.InsideIff`). The server's
  counter of pages handed out wraps, and the slab it then accepts lies outside its buffer
  (`Rdma.AllInsideIff`).
- DECISIONS.md line 232 says eviction finds the least recently used page across all
  backends. The code takes the least recently used page of the first backend, in
  arbitrary order, that gives one up; the model follows the code.

## Model

| member | source | states |
|---|---|---|
| SwapSafety.EndToEnd | duvm-kmod/src/main.c:216-275 | In every interleaving of submitter, daemon and harvester, with any queue depth, a read that ended OK delivered the page of the last write published before it to a sector of the same 4096-byte page of the device, and that write ended OK |
| SwapSafety.OffsetsApart | duvm-kmod/src/main.c:233-233 | Two requests get the same engine offset if and only if their sectors, of 512 bytes, lie in the same 4096-byte page of the device |
| SwapSafety.Reachable | duvm-kmod/src/main.c:105-189 | The inductive invariant over tags, slots, staging, both rings and the page store holds in every reachable state of every configuration |
| SwapSafety.StepKeeps | duvm-kmod/src/main.c:204-276 | Each of the 22 accesses of the three threads keeps the invariant, whatever the other two are in the middle of |
| SwapSafety.RunKeeps | duvm-kmod/src/main.c:204-276 | The invariant carries over any run from any state that has it |
| SwapSafety.EndsOnceInOrder | duvm-kmod/src/main.c:158-170 | A step ends at most one request: the oldest not yet ended, under its own tag; nothing published or ended is ever taken back. So every request is ended at most once, in publication order |
| SwapSafety.EndedOnce | duvm-kmod/src/main.c:126-170 | Over any run the requests ended are the first so many published, one per end-of-request step; nothing ends unpublished, twice or out of order, and what became of a request never changes |
| SwapSafety.Exclusive | duvm-kmod/src/main.c:69-92 | Requests in flight have pairwise distinct tags and slots, and the set bits of the bitmap are exactly their slots and the one in the submitter's hand |
| SwapSafety.RaceFree | duvm-kmod/src/ring.c:146-181 | The consumer of either ring never copies the entry its producer is writing; the staging slots the three threads touch at any moment are distinct |
| SwapSafety.DeliveredInOrder | duvm-kmod/src/ring.c:139-183 | What a consumer finds at its read index is the oldest entry not yet read; the request ring looks empty iff it is, the completion ring iff it is empty or holds a whole lap |
| SwapSafety.EndedFromInv | duvm-kmod/src/main.c:142-170 | The invariant alone fixes how each ended read ended |
| SwapInvariant.InitInv | duvm-kmod/src/ring.c:75-97 | A freshly initialised ring with no request in flight satisfies the invariant |
| SwapInvariant.SlotsBound | duvm-kmod/src/main.c:69-83 | There are never more slot-owning requests than slots, and with that many no bit is clear |
| SwapInvariant.RoomToPublish | crates/duvm-daemon/src/kmod_ring.rs:251-266 | The daemon's push, which never looks at the harvester's index, never overwrites an unharvested completion |
| SwapInvariant.TagInFlight | duvm-kmod/src/main.c:126-140 | The tag of any request in flight is known to blk-mq, its driver data name its slot and direction, and it is not the one being submitted |
| SwapInvariant.NeverRejects | crates/duvm-daemon/src/kmod_ring.rs:241-244 | The daemon's unknown-opcode branch is never reached |
| SwapInvariant.AllocKeeps | duvm-kmod/src/main.c:69-83 | Taking the first clear bit for a new tag keeps slots and tags exclusive |
| SwapInvariant.FillKeeps | duvm-kmod/src/main.c:232-260 | Filling staging and driver data of a held slot disturbs no request in flight |
| SwapInvariant.CheckKeeps | duvm-kmod/src/ring.c:146-152 | Past the full check there is room for one more entry, and the daemon cannot take that room away |
| SwapInvariant.WriteKeeps | duvm-kmod/src/ring.c:154-154 | Writing the unpublished entry leaves every published one alone |
| SwapInvariant.PublishKeeps | duvm-kmod/src/ring.c:156-157 | Publishing extends the log by exactly the entry written, with its page staged |
| SwapInvariant.BackOutKeeps | duvm-kmod/src/main.c:265-268 | Backing out of a full ring returns slot and tag and leaves no trace |
| SwapInvariant.PollKeeps | crates/duvm-daemon/src/kmod_ring.rs:190-195 | A ring seen non-empty has an oldest unread request |
| SwapInvariant.FetchKeeps | crates/duvm-daemon/src/kmod_ring.rs:197-199 | The entry copied is the oldest unread request |
| SwapInvariant.CopyInKeeps | crates/duvm-daemon/src/kmod_ring.rs:205-213 | The page copied from staging is the one submitted with the request |
| SwapInvariant.StoreKeeps | crates/duvm-daemon/src/kmod_ring.rs:214-220 | After any lossy outcome of the engine's store, what the engine holds is still the last successful write to each index |
| SwapInvariant.LoadKeeps | crates/duvm-daemon/src/kmod_ring.rs:222-239 | What the engine answers to a load is the last write published before it |
| SwapInvariant.CopyOutKeeps | crates/duvm-daemon/src/kmod_ring.rs:225-232 | The loaded page goes to a slot no other request in flight uses |
| SwapInvariant.DaemonAdvanceKeeps | crates/duvm-daemon/src/kmod_ring.rs:247-249 | Advancing the read index frees exactly the served entry |
| SwapInvariant.CompleteKeeps | crates/duvm-daemon/src/kmod_ring.rs:251-262 | The completion written is the answer to the request served, outside the harvester's window |
| SwapInvariant.DaemonPublishKeeps | crates/duvm-daemon/src/kmod_ring.rs:264-266 | Publishing extends the completion window by exactly that answer |
| SwapInvariant.HarvestPollKeeps | duvm-kmod/src/ring.c:172-177 | A completion ring seen non-empty has an oldest unread completion |
| SwapInvariant.HarvestFetchKeeps | duvm-kmod/src/ring.c:179-180 | The completion copied answers the oldest request not yet ended |
| SwapInvariant.HarvestAdvanceKeeps | duvm-kmod/src/ring.c:181-181 | Advancing frees exactly the harvested entry |
| SwapInvariant.DeliverKeeps | duvm-kmod/src/main.c:126-156 | The sequence number leads back to the request it came from, and its staging slot still holds the loaded page |
| SwapInvariant.FreeKeeps | duvm-kmod/src/main.c:158-159 | Freeing the slot leaves the slots of all other requests taken |
| SwapInvariant.EndKeeps | duvm-kmod/src/main.c:161-170 | Ending returns the tag and records the engine's answer to that very request |
| SwapDrain.StepWorks | duvm-kmod/src/main.c:105-189 | Every step except a new submission strictly decreases a measure of the work left |
| SwapDrain.WorkIsNatural | duvm-kmod/src/main.c:105-189 | The measure is never negative |
| SwapDrain.QuietOrBusy | duvm-kmod/src/main.c:174-184 | Where no step but a new submission is possible, every request is ended and every slot free, or the completion ring holds a whole lap with everybody waiting |
| SwapDrain.StuckIsFinal | duvm-kmod/src/ring.c:172-177 | In the latter case as many requests are outstanding as the ring has entries, no slot is free, and no step at all is possible |
| SwapDrain.Drains | duvm-kmod/src/main.c:116-172 | Without new submissions any run from a good state is no longer than its work, and where it stops all is quiet or stuck |
| SwapDrain.DrainsQuiet | duvm-kmod/src/main.c:116-172 | Within the bound everything drains, with any queue depth: from a state with fewer requests pending than ring entries, a run that takes no new ones and can go no further has ended every request and freed every slot |
| SwapDrain.PendingShrinks | duvm-kmod/src/main.c:204-276 | Published and not ended plus in hand never grows without a new submission |
| SwapOverflow.HangsIff | duvm-kmod/src/main.c:503-512 | Some run ends with requests outstanding and no thread able to move if and only if the queue depth is at least the ring capacity and the capacity at least two |
| SwapOverflow.DriverHangs | duvm-kmod/src/main.c:503-512 | So the driver's own choice of depth, equal to the capacity, can hang, for every ring size from two up |
| SwapOverflow.HungIffStuck | crates/duvm-daemon/src/kmod_ring.rs:251-266 | A reachable state is hung exactly when the completion ring holds a whole lap and everybody waits |
| SwapOverflow.PublishSeenIff | crates/duvm-daemon/src/kmod_ring.rs:264-266 | The harvester sees a published completion iff it does not complete a lap |
| SwapOverflow.RoomyNeverHangs | duvm-kmod/src/main.c:512-512 | A queue depth below the capacity never hangs |
| SwapOverflow.AtMostDepth | duvm-kmod/src/main.c:254-260 | Never more requests are outstanding than there are tags |
| SwapOverflow.FullLapHangs | duvm-kmod/src/ring.c:172-177 | A whole lap of unharvested completions looks like none and is final |
| SwapOverflow.Laps | crates/duvm-daemon/src/kmod_ring.rs:189-274 | For every number up to the capacity, a run in which that many reads are submitted and answered and none harvested |
| SwapTimeout.TimeoutKeepsIff | duvm-kmod/src/main.c:341-355 | A timeout of a request in flight keeps the invariant, bitmap included, if and only if its slot bit is clear already; what it takes for reads to go wrong is in the rows on runs with timeouts |
| SwapTimeout.NextTakesSlotIff | duvm-kmod/src/main.c:350-351 | The next submission then takes the slot of the request still in flight if and only if no lower slot is free |
| SwapTimeout.TimeoutLosesPage | duvm-kmod/src/main.c:341-355 | One timeout breaks the end-to-end guarantee, for every ring and queue of at least two: a run from a fresh ring ends two stores as successes, and then a read of one index as a success with the page the other store wrote elsewhere |
| SwapTimeout.OverwrittenRun | duvm-kmod/src/main.c:226-242 | The run up to there: a published store times out, the next one is staged over its page, and only then does the daemon read it |
| SwapTimeout.BothEnd | duvm-kmod/src/main.c:158-170 | Both stores then end, and are reported as successes |
| SwapTimeout.ReadServed | duvm-kmod/src/main.c:142-170 | From a ring at rest a read of a page the engine holds can be run to its end, as a success with that page |
| SwapTimeoutRuns.CarefulReads | duvm-kmod/src/main.c:341-355 | With any number of timeouts anywhere in a run, as long as no submission takes a slot still in use, every read that ended OK delivered the last page written |
| SwapTimeoutRuns.AllocRepairsIff | duvm-kmod/src/main.c:69-83 | After any such timeouts, a submission leaves a state that satisfies the invariant, bitmap aside, if and only if the slot it takes is not in use |
| SwapTimeoutRuns.HarmedIff | duvm-kmod/src/main.c:341-355 | Some run with timeouts ends a read wrongly if and only if the ring has at least two entries and the queue at least two tags |
| SwapTimeoutRuns.RepairCommutes | duvm-kmod/src/main.c:85-189 | Every step but a submission does to a state with bits cleared too early what it does to the state with the bitmap right, so neither daemon nor harvester is misled by them |
| SwapTimeoutRuns.CarefulKeeps | duvm-kmod/src/main.c:341-355 | So a run without stolen slots ends in a state that satisfies the invariant, bitmap aside |
| SwapTimeoutRuns.WrongRun | duvm-kmod/src/main.c:341-355 | In every other configuration some run with one timeout ends a read wrongly |
| SwapTimeoutRuns.OneTagCareful | duvm-kmod/src/main.c:503-512 | With one tag no submission ever takes a slot in use, whatever times out |
| SwapTimeoutRuns.SafeConfig | duvm-kmod/src/main.c:503-512 | With one tag or a ring of one entry, reads end right whatever times out |
| SwapRuns.StageRun | duvm-kmod/src/main.c:225-260 | The steps of a submission up to the ring, alone, as one change of state |
| SwapRuns.PublishRun | duvm-kmod/src/ring.c:146-157 | The steps of a publication into a ring with room, as one change of state |
| SwapRuns.StoreRun | crates/duvm-daemon/src/kmod_ring.rs:189-274 | The steps of a store served, as one change of state: the engine gets what is in the slot now |
| SwapRuns.LoadRun | crates/duvm-daemon/src/kmod_ring.rs:189-274 | The steps of a load served, as one change of state |
| SwapRuns.HarvestRun | duvm-kmod/src/main.c:117-171 | The steps of a completion harvested, as one change of state |
| SwapAvailability.AllSucceed | duvm-kmod/src/main.c:216-275 | In every interleaving over an engine that takes every store and finds every page it took, every write that ended, and every read that ended of a page of the device written before it, ended as a success |
| SwapAvailability.RunDone | crates/duvm-daemon/src/kmod_ring.rs:203-245 | What the engine was due to answer with a success it did, over any run |
| SwapAvailability.AmpleStores | crates/duvm-daemon/src/engine.rs:218-284 | An engine over local backends with capacity for every index stored to is such an engine, and stays one: its stores are |
| SwapAvailability.AmpleLoads | crates/duvm-daemon/src/engine.rs:302-323 | and its loads |
| SwapAvailability.ReliableOn | crates/duvm-daemon/src/kmod_ring.rs:203-245 | A run in which the engine does its part stays one over any further step in which it does |
| SwapAvailability.StoreIsLogged | crates/duvm-daemon/src/kmod_ring.rs:203-213 | A store the daemon has taken is to an index the driver has published a write to |
| SwapDevice.Memory.constructor | duvm-kmod/src/ring.c:64-97 | The initial state of the protocol, reached by the empty run |
| SwapDevice.Memory.AllocStagingSlot | duvm-kmod/src/main.c:69-83 | Returns and sets the least clear bit; sets none when all are set |
| SwapDevice.Memory.Take | duvm-kmod/src/main.c:225-230 | One step of the protocol, or no change when no slot is free |
| SwapDevice.Memory.Fill | duvm-kmod/src/main.c:232-260 | One step of the protocol |
| SwapDevice.Memory.CheckRoom | duvm-kmod/src/ring.c:146-152 | One step of the protocol |
| SwapDevice.Memory.WriteRequest | duvm-kmod/src/ring.c:154-154 | One step of the protocol |
| SwapDevice.Memory.PublishRequest | duvm-kmod/src/ring.c:156-157 | One step of the protocol |
| SwapDevice.Memory.BackOut | duvm-kmod/src/main.c:265-268 | One step of the protocol |
| SwapDevice.Memory.RingSubmit | duvm-kmod/src/ring.c:139-161 | Refuses exactly when the ring is full; otherwise the log grows by exactly this request |
| SwapDevice.Memory.QueueRq | duvm-kmod/src/main.c:204-276 | A run of the protocol. The request is published, with its sector and the page index of it, exactly when a slot is free and the ring not full; otherwise log, bitmap and tags are as before |
| SwapDevice.Memory.SeeRequest | crates/duvm-daemon/src/kmod_ring.rs:190-195 | One step of the protocol, or none when the ring looks empty |
| SwapDevice.Memory.FetchRequest | crates/duvm-daemon/src/kmod_ring.rs:197-199 | One step of the protocol |
| SwapDevice.Memory.CopyIn | crates/duvm-daemon/src/kmod_ring.rs:205-213 | One step of the protocol |
| SwapDevice.Memory.CopyOut | crates/duvm-daemon/src/kmod_ring.rs:225-232 | One step of the protocol |
| SwapDevice.Memory.AdvanceRequests | crates/duvm-daemon/src/kmod_ring.rs:247-249 | One step of the protocol |
| SwapDevice.Memory.WriteCompletion | crates/duvm-daemon/src/kmod_ring.rs:251-262 | One step of the protocol |
| SwapDevice.Memory.PublishCompletion | crates/duvm-daemon/src/kmod_ring.rs:264-266 | One step of the protocol |
| SwapDevice.Memory.Answer | crates/duvm-daemon/src/kmod_ring.rs:203-245 | Whatever the engine and its backends do with the call is a step the protocol allows; with local backends and capacity for every index written it is one in which the engine does its part |
| SwapDevice.Memory.PollOnce | crates/duvm-daemon/src/kmod_ring.rs:189-274 | A run of the protocol over the real engine: one request answered and published if there is one, none otherwise; reliable if the engine has capacity |
| SwapDevice.Memory.DrainRequests | crates/duvm-daemon/src/kmod_ring.rs:289-292 | Ends, with every published request answered |
| SwapDevice.Memory.SeeCompletion | duvm-kmod/src/ring.c:172-177 | One step of the protocol, or none when the ring looks empty |
| SwapDevice.Memory.FetchCompletion | duvm-kmod/src/ring.c:179-180 | One step of the protocol |
| SwapDevice.Memory.AdvanceCompletions | duvm-kmod/src/ring.c:181-181 | One step of the protocol |
| SwapDevice.Memory.PollCompletion | duvm-kmod/src/ring.c:167-183 | Takes the oldest completion, exactly when the ring holds some but not a whole lap |
| SwapDevice.Memory.Deliver | duvm-kmod/src/main.c:122-156 | One step of the protocol; a completion that names no request is skipped |
| SwapDevice.Memory.FreeStagingSlot | duvm-kmod/src/main.c:85-92 | One step of the protocol |
| SwapDevice.Memory.EndRequest | duvm-kmod/src/main.c:161-170 | One step of the protocol |
| SwapDevice.Memory.Finish | duvm-kmod/src/main.c:118-171 | A run of the protocol that leaves the harvester idle |
| SwapDevice.Memory.DrainCompletions | duvm-kmod/src/main.c:116-172 | Ends, with every published completion harvested and its request ended, unless they filled the ring, when nothing moves |
| SwapDevice.Memory.Delivers | duvm-kmod/src/main.c:216-275 | Whatever the code has done so far, every read it ended OK got the last page written |
| SwapDevice.Memory.Fulfils | duvm-kmod/src/main.c:216-275 | While the engine does its part, every write the code ended, and every read it ended of a page of the device written before, ended as a success |
| SwapDevice.Memory.Serve | duvm-kmod/src/main.c:105-276 | Any sequence of submissions, daemon passes and harvester passes of the code, over an engine with local backends and capacity for every index written: all of those end as successes, and the reads with the page written last |
| SwapDevice.Memory.EngineStore | crates/duvm-daemon/src/engine.rs:218-284 | A store by an engine with capacity for the index is a step in which it does its part, and it keeps that capacity |
| SwapDevice.Memory.EngineLoad | crates/duvm-daemon/src/engine.rs:302-323 | So is a load |
| SwapDevice.SubmitterCan | duvm-kmod/src/main.c:216-275 | The submitter is never blocked in the middle of a request |
| SwapDevice.DaemonCan | crates/duvm-daemon/src/kmod_ring.rs:189-274 | Nor the daemon; its staging accesses stay inside the buffer |
| SwapDevice.HarvesterCan | duvm-kmod/src/main.c:117-172 | Nor the harvester |
| SwapProtocol.FirstZero | duvm-kmod/src/main.c:75-75 | The least clear bit: it is clear and all before it are set |
| Engine.DaemonEngine.constructor | crates/duvm-daemon/src/engine.rs:182-192 | A fresh engine tracks nothing and is consistent with its backends |
| Engine.DaemonEngine.StorePage | crates/duvm-daemon/src/engine.rs:218-284 | For every pattern of backend failures: on success the offset holds the new page, on failure nothing, never a stale page. Every other page stays, metadata included, except for at most the least recently used unpinned one of each backend, and for none if a backend not holding the old copy has room. If no call on a backend failed, the page goes to compressed memory if such a backend has room, else CXL, RDMA, GPU, and plain memory last; there a new offset goes to the least utilised backend, whatever the kinds of the backends, whose count grows by exactly one, the others untouched but for one page less where the victim was. A backend that is down and holds no tracked page is left as it is. Over local backends no call fails and the whole outcome is determined. Exactly one of the success and error counters moves |
| Engine.DaemonEngine.LoadPage | crates/duvm-daemon/src/engine.rs:302-323 | A success returns the page held, stamps it and counts the access, and changes nothing else in what is held, in its flags or in any backend's count; a failure leaves the metadata alone; exactly one counter moves |
| Engine.DaemonEngine.InvalidatePage | crates/duvm-daemon/src/engine.rs:326-334 | Afterwards the offset is untracked, even if the backend fails to free; a backend whose only page fails to be freed is abandoned |
| Engine.DaemonEngine.RemoveAndFree | crates/duvm-daemon/src/engine.rs:219-224 | No other offset changes its page; a free that succeeds takes one off its backend's count and touches no other; a page whose free fails is forgotten |
| Engine.DaemonEngine.EvictFrom | crates/duvm-daemon/src/engine.rs:290-296 | Untracks the least recently used unpinned page of one backend and nothing else, or changes nothing if there is none |
| Engine.DaemonEngine.TryEvictOne | crates/duvm-daemon/src/engine.rs:287-299 | Costs at most the least recently used unpinned page of each backend, whatever fails; over local backends gives up only when every page is pinned |
| Engine.DaemonEngine.SelectTier | crates/duvm-daemon/src/policy.rs:119-142 | By name: Compressed iff such a backend has room, Cxl iff one has and no Compressed one, and so on to Rdma, Gpu and Local; none iff no healthy backend has room |
| Engine.DaemonEngine.TierBackendCandidates | crates/duvm-daemon/src/engine.rs:362-412 | Exactly the backends of the tier with room, or all with room if and only if it has none, each once, in order of utilisation and then of id |
| Engine.DaemonEngine.AllocAndStore | crates/duvm-daemon/src/engine.rs:259-273 | Stores under a handle no tracked page has, and counts one more on this backend alone, of any kind; after a failed store nothing tracked has changed |
| Engine.DaemonEngine.TryBackend | crates/duvm-daemon/src/engine.rs:253-279 | Adds exactly this page and one to this backend's count, or leaves the offset untracked for the next backend; no other backend changes |
| Engine.DaemonEngine.TryEach | crates/duvm-daemon/src/engine.rs:253-279 | Adds exactly this page on the first backend that takes it, or changes no other page; if none failed it is the first of the list, whose count alone grows, by one; local ones never fail |
| Engine.DaemonEngine.PlacePage | crates/duvm-daemon/src/engine.rs:248-283 | If no candidate failed, the page goes to the least utilised open backend of the best tier |
| Engine.DaemonEngine.MakeRoom | crates/duvm-daemon/src/engine.rs:226-246 | With any backends, evicts only when no backend has room, and at most one page of each; finds no tier only if none has room, unless a free failed |
| EngineSpec.StoreIsLossy | crates/duvm-daemon/src/engine.rs:218-284 | Both general outcomes of a store are steps of the lossy page map |
| EngineSpec.InsertRanked | crates/duvm-daemon/src/engine.rs:406-411 | Inserting by exact utilisation keeps the candidates ranked |
| EngineSpec.BeforeTransitive | crates/duvm-daemon/src/engine.rs:406-410 | The order of the candidates is transitive |
| EngineSpec.TierByName | crates/duvm-daemon/src/policy.rs:119-142 | The tier of best rank is the first with room in the order Compressed, Cxl, Rdma, Gpu, Local |
| EnginePlaces.PlacedInFirstTier | crates/duvm-daemon/src/engine.rs:226-279 | The tier recorded for a page placed without failures is that one |
| EngineSpec.BeforeByFloats | crates/duvm-daemon/src/engine.rs:374-410 | For backends of up to 94906265 pages, sorting by utilisation as rounded 64-bit floats, ties by id, is this order |
| Fractions.FloatsAgree | crates/duvm-daemon/src/policy.rs:41-47 | Rounded to the nearest double, fractions with totals up to 94906265 compare, and tie, exactly as they do exactly |
| Fractions.Collide | crates/duvm-daemon/src/policy.rs:41-47 | That limit is nearly the best possible: 94911150/94911151 and 94911151/94911152 round to one double |
| Fractions.NeverReversed | crates/duvm-daemon/src/policy.rs:41-47 | For totals of any size the rounded fractions are never in the wrong order; at worst they tie |
| EngineSpec.BestPlacement | crates/duvm-daemon/src/engine.rs:248-279 | The first candidate is the least utilised open backend of the best tier |
| EngineSpec.StoreIsLocal | crates/duvm-daemon/src/engine.rs:218-284 | The steps of a store compose to its exact meaning over local backends |
| EngineSpec.FreeShrinks | crates/duvm-daemon/src/engine.rs:220-224 | Freeing the page of one offset leaves the pages of all others, as no two offsets share a place |
| EngineSpec.TrackAdds | crates/duvm-daemon/src/engine.rs:275-275 | Tracking a page under a new place keeps offsets mapped injectively to places |
| EngineSpec.LoseOne | crates/duvm-daemon/src/engine.rs:289-296 | One more victim, of a backend not tried before, is that backend's least recently used unpinned page from the start |
| EngineSpec.KeepsTheRest | crates/duvm-daemon/src/engine.rs:218-284 | A store takes from the page map exactly what it takes from the metadata |
| LossyRuns.HeldIsLastStored | crates/duvm-daemon/src/engine.rs:218-334 | Over any run of calls with any failures, a page held is the argument of the last store at its offset, and that store succeeded |
| LossyRuns.LoadReturnsLastStore | crates/duvm-daemon/src/engine.rs:302-323 | So a load that succeeds returns it |
| EngineRuns.Execute | crates/duvm-daemon/src/engine.rs:218-334 | Any sequence of calls on the engine's code, over any backends, is a run of the lossy page map, and over local backends a run of the exact engine. Abandoned backends and pinned pages are left alone at every step. If no call on a backend failed and no page was given up, backends filled evenly stay so; over local ones none fails |
| EngineRuns.Do | crates/duvm-daemon/src/engine.rs:218-334 | So is each call |
| EngineRuns.PinnedStays | crates/duvm-daemon/src/policy.rs:146-155 | A page whose bit 1 flag is set stays tracked, with its flag and its bytes, over any sequence of loads, flag changes and stores to other offsets, over any backends and failures, until it is unpinned, stored over or invalidated |
| EngineRuns.StorePins | crates/duvm-daemon/src/engine.rs:287-299 | No store to another offset costs a pinned page |
| EngineRuns.LoadPins | crates/duvm-daemon/src/policy.rs:86-92 | No load unpins one |
| LocalRuns.StoreTakenApart | crates/duvm-daemon/src/engine.rs:218-284 | A store over local backends fails iff the offset is untracked, no backend has room and every page is pinned; it drops at most one other page, unpinned and least recently used in its backend, and none if there was room |
| LocalRuns.StepConserves | crates/duvm-daemon/src/engine.rs:218-334 | Every call keeps each backend's count equal to the offsets tracked in it and within its limit |
| LocalRuns.RunConserves | crates/duvm-daemon/src/engine.rs:218-334 | Over every run from a fresh engine: pages stored = tracked + invalidated or evicted + silently replaced, and every backend's count is what is tracked in it |
| LocalRuns.StorePages | crates/duvm-daemon/src/engine.rs:218-284 | The exact meaning of a local store is a step of the lossy page map |
| LocalRuns.StepPages | crates/duvm-daemon/src/engine.rs:218-334 | Where each page held after a call comes from |
| EvenPlacement.RunStaysEven | crates/duvm-daemon/src/engine.rs:362-412 | Over every run of stores to fresh offsets and loads, with backends of any kind and no failed call: every count is what is tracked there, and no backend gets more than one page ahead, in proportion, of another of its tier, evictions included |
| EvenPlacement.StoreStaysEven | crates/duvm-daemon/src/engine.rs:218-284 | One store keeps it so, and with no failed call it fails only where nothing can be evicted |
| EvenPlacement.EvictThenTake | crates/duvm-daemon/src/engine.rs:226-279 | When all backends are full the new page goes where the victim was |
| EvenPlacement.FillStaysEven | crates/duvm-daemon/src/engine.rs:406-411 | Filling the least utilised keeps it so |
| EvenPlacement.FreshSettled | crates/duvm-daemon/src/engine.rs:182-192 | A fresh engine over fresh backends of any kind is even |
| EnginePlaces.NeverUsedAgain | crates/duvm-daemon/src/engine.rs:366-371 | A backend that is down and holds no tracked page is never used again: over any calls that follow it stays as it was and nothing is stored on it |
| EnginePlaces.FailedFreeAbandons | crates/duvm-daemon/src/engine.rs:326-334 | That is how a TCP backend ends up after a failed free of its only page |
| EnginePlaces.StoredOneMore | crates/duvm-backend-tcp/src/lib.rs:238-325 | On a backend of any kind an allocation and a store that succeed count one more |
| EnginePlaces.LoadIsQuiet | crates/duvm-daemon/src/engine.rs:302-323 | A load that succeeds changes no count and takes no backend down |
| EngineCapacity.PlainMap | crates/duvm-daemon/src/engine.rs:218-334 | Over any run that stores to no more offsets than the local backends can hold together, the engine is a plain map: every store succeeds, no page is evicted, loads find all that was stored and not invalidated |
| EngineCapacity.AmpleStore | crates/duvm-daemon/src/engine.rs:218-284 | One such store succeeds and costs nothing but the old copy |
| EngineCapacity.RoomBelowCapacity | crates/duvm-daemon/src/policy.rs:36-38 | Fewer pages than the backends may hold together leave one with room |
| LruRefinement.RunRefines | crates/duvm-daemon/src/engine.rs:218-334 | With one local backend and a ticking clock, the tracked offsets in order of last access are the textbook LRU list of the trace |
| LruRefinement.StoreRefines | crates/duvm-daemon/src/engine.rs:220-246 | A store moves its offset to the front; into a full backend a new one drops the last, a resident one drops nothing |
| LruRefinement.LoadRefines | crates/duvm-daemon/src/engine.rs:302-323 | A load that hits moves to the front, one that misses changes nothing |
| LruRefinement.InvalidateRefines | crates/duvm-daemon/src/engine.rs:326-334 | An invalidation removes |
| LruRefinement.VictimIsLast | crates/duvm-daemon/src/policy.rs:146-155 | The eviction candidate is the last of the list |
| LruRefinement.NoBelady | crates/duvm-daemon/src/engine.rs:218-334 | For every trace, what is held with the smaller memory is held with the larger, with the same bytes |
| LruRefinement.RunsAgree | crates/duvm-daemon/src/engine.rs:302-334 | Two engines fed the same trace agree on every offset both hold |
| LruList.MoreHoldsMore | crates/duvm-daemon/src/policy.rs:146-155 | The LRU list of a larger capacity contains that of a smaller one after every trace |
| LruList.RunOneMore | crates/duvm-daemon/src/policy.rs:146-155 | With one more place the list is the same or has exactly one more element |
| LruList.RunWellFormed | crates/duvm-daemon/src/policy.rs:70-104 | The list never repeats an offset nor exceeds its capacity |
| Policy.PolicyEngine.RecordLoad | crates/duvm-daemon/src/policy.rs:86-92 | The stamp becomes the time of the load and the count one higher, saturating at 2^32-1; handle, backend, tier and flags, and all other offsets, are as before; an unknown offset changes nothing |
| Policy.PolicyEngine.FindEvictionCandidate | crates/duvm-daemon/src/policy.rs:146-155 | Among the pages of the backend with bit 1 of their flags clear, one with the earliest stamp, and of those the fewest accesses; none only if all are pinned |
| Policy.PolicyEngine.SetFlag | crates/duvm-daemon/src/policy.rs:192-197 | The flag is contained afterwards and nothing else changes |
| Policy.PolicyEngine.ClearFlag | crates/duvm-daemon/src/policy.rs:200-205 | A non-empty flag is not contained afterwards and nothing else changes |
| Policy.FlagBits | crates/duvm-common/src/page.rs:101-111 | Inserting makes a flag contained, removing makes it not |
| Backends.Backend.constructor | crates/duvm-backend-memory/src/lib.rs:22-51 | Empty, healthy and balanced |
| Backends.Backend.AllocPage | crates/duvm-backend-memory/src/lib.rs:53-61 | Never a handle in use; a local backend refuses exactly when full |
| Backends.Backend.StorePage | crates/duvm-backend-compress/src/lib.rs:89-101 | Exactly the page at the handle changes, or on a failed connection maybe it; byte counts stay balanced for a fresh handle |
| Backends.Backend.FreePage | crates/duvm-backend-compress/src/lib.rs:78-87 | Only the page at the handle may go, on success it is gone; byte counts stay balanced |
| Backends.Backend.LoadPage | crates/duvm-backend-compress/src/lib.rs:103-121 | A page returned is the page stored; a local load fails only for a missing page |
| Backends.StoreBalancedIff | crates/duvm-backend-compress/src/lib.rs:89-101 | Raw bytes stay 4096 per page and packed bytes the sum of sizes if and only if the handle stored to holds nothing |
| Backends.FreeBalanced | crates/duvm-backend-compress/src/lib.rs:78-87 | A free keeps them so, for any handle |
| Backends.PackedSumRemove | crates/duvm-backend-compress/src/lib.rs:83-84 | Taking out any page takes its own packed size off the sum |
| MemServer.Reachable | crates/duvm-memserver/src/main.rs:105-147 | In every interleaving of any number of disciplined clients, with load, compare-and-swap, fetch-and-add, removal and decrement as separate steps: the count never exceeds the limit, and is stored pages + granted and never stored + reservations under way whenever no free is half done; grants are never reassigned |
| MemServer.StepKeeps | crates/duvm-memserver/src/main.rs:105-147 | Every step of every client keeps the books |
| MemServer.SwapKeeps | crates/duvm-memserver/src/main.rs:111-115 | A compare-and-swap that succeeds stays within the limit, whatever happened since the load and whatever clients store and free |
| MemServer.GrantKeeps | crates/duvm-memserver/src/main.rs:116-116 | A grant turns one reservation into one offset |
| MemServer.GrantIsFresh | crates/duvm-memserver/src/main.rs:116-116 | An offset granted was never granted before |
| MemServer.StoreAccepted | crates/duvm-memserver/src/main.rs:121-128 | A store to an offset granted and not freed is never refused, and that offset is stored or waiting to be |
| MemServer.StoreKeeps | crates/duvm-memserver/src/main.rs:121-128 | A store that is not stray moves an offset from never stored to stored, or overwrites |
| MemServer.RemoveKeeps | crates/duvm-memserver/src/main.rs:139-141 | The removal takes one page and leaves one unit of the count to take |
| MemServer.DecrementKeeps | crates/duvm-memserver/src/main.rs:142-142 | The decrement takes that unit and never wraps |
| MemServer.Isolated | crates/duvm-memserver/src/main.rs:121-147 | No step of another client touches a client's page |
| MemServer.IsolatedRun | crates/duvm-memserver/src/main.rs:130-137 | After any steps of the others a client finds its page as it left it |
| MemServer.BalancedIff | crates/duvm-memserver/src/main.rs:105-147 | A step of any client, with no discipline assumed, upsets the books if and only if it is a store, accepted, at an offset neither stored nor granted and waiting to be |
| MemServer.BooksIff | crates/duvm-memserver/src/main.rs:105-147 | Over every interleaving of clients that keep no discipline at all, the count stays what it should be throughout if and only if nobody makes such a store, and then it never exceeds the limit |
| MemServer.BooksKeep | crates/duvm-memserver/src/main.rs:105-147 | Every other step of every client keeps the books, whoever owns the offset |
| MemServer.PagesBounded | crates/duvm-memserver/src/main.rs:121-128 | Whatever clients do, stray stores included, the server never stores more pages than its limit |
| MemServer.LeaksStay | crates/duvm-memserver/src/main.rs:139-147 | An offset freed before it was stored stays counted for ever |
| MemServer.LeakedServer | crates/duvm-memserver/src/main.rs:139-147 | Once as many have leaked as the server may hold, no offset is granted again and no page stored, in any interleaving of disciplined clients |
| MemServer.LeakRun | crates/duvm-memserver/src/main.rs:105-147 | For every limit, a disciplined client that allocates and frees without storing gets there |
| MemServer.StrayPair | crates/duvm-memserver/src/main.rs:121-147 | Such a store, freed again, leaves the map as it was and the count one too low, wrapped if it was zero |
| MemServer.StaysDead | crates/duvm-memserver/src/main.rs:105-119 | A server at its limit on which nobody owns anything stays so in every interleaving |
| MemServer.UndisciplinedOvercommit | crates/duvm-memserver/src/main.rs:105-147 | On a full server one such store and free makes it grant one page more than its limit |
| MemServer.UndisciplinedUnderflow | crates/duvm-memserver/src/main.rs:139-147 | From any state that counts nothing, one such store and free wraps the count to the largest word, and in every interleaving of disciplined clients from there on no offset is ever granted again |
| Wire.RemoteIsDirect | crates/duvm-backend-tcp/src/lib.rs:238-325 | For any sequence of requests: the server ends in the state of the direct calls, and the client reads their results with no byte left over |
| Wire.ServeIsPerform | crates/duvm-memserver/src/main.rs:259-341 | Serving any concatenation of encoded requests performs exactly that sequence |
| Wire.RepliesRead | crates/duvm-backend-tcp/src/lib.rs:238-325 | For every operation and outcome the client takes exactly the bytes the server wrote |
| Wire.ParseEncoded | crates/duvm-memserver/src/main.rs:272-333 | The server parses back exactly the request written, whatever follows it |
| Wire.ReadEncodedReply | crates/duvm-backend-tcp/src/lib.rs:242-249 | The client reads back exactly the reply written, refusals included |
| Wire.LeRoundTrip | crates/duvm-backend-tcp/src/lib.rs:249-249 | Little-endian words round-trip at any width |
| WireLaws.GrantsDistinct | crates/duvm-memserver/src/main.rs:105-119 | Over any requests to an empty server, by the replies alone: no offset is granted twice, short of a wrap of the 64-bit counter |
| WireLaws.LoadsFind | crates/duvm-memserver/src/main.rs:121-137 | A LOAD is answered with a page if and only if it is that of the last acknowledged STORE at the offset and no acknowledged FREE came since |
| WireLaws.FreesSucceed | crates/duvm-memserver/src/main.rs:139-147 | A FREE is acknowledged if and only if the offset holds a page in that sense |
| WireLaws.StoresRefused | crates/duvm-memserver/src/main.rs:121-128 | A STORE is refused if and only if its offset holds none and as many offsets hold one as the server may store |
| WireLaws.AllocsRefused | crates/duvm-memserver/src/main.rs:105-119 | An ALLOC is refused if and only if grants less acknowledged FREEs, as a 64-bit counter, have reached the limit; STATUS reports both |
| WireLaws.OneClientRefines | crates/duvm-memserver/src/main.rs:105-147 | Any sequence of requests is a run of the concurrent server with one client on it, ending with the same pages, count and next offset |
| WireLaws.Refines | crates/duvm-memserver/src/main.rs:105-147 | ALLOC is load, compare-and-swap and grant; FREE is removal and decrement; STORE and LOAD one step each |
| WireLaws.ServeItems | crates/duvm-memserver/src/main.rs:256-342 | Whatever mixture of requests and unknown bytes a client sends, and wherever the stream breaks off, exactly the whole requests are performed, and each unknown byte is answered with one error byte |
| WireLaws.Messages | crates/duvm-backend-tcp/src/lib.rs:238-325 | Opcodes 1 to 5, status bytes 0 and 1, and the length of every message: 4105, 9 or 1 bytes out, and 9, 4097, 17 or 1 back |
| WireLaws.LowByteFirst | crates/duvm-backend-tcp/src/lib.rs:249-249 | Words go low byte first |
| Wire.PageStore.AllocOffset | crates/duvm-memserver/src/main.rs:105-119 | Reserves and grants, or refuses at the limit |
| Wire.PageStore.StorePage | crates/duvm-memserver/src/main.rs:121-128 | Refuses exactly a new page beyond the limit |
| Wire.PageStore.LoadPage | crates/duvm-memserver/src/main.rs:130-137 | The page stored, or nothing |
| Wire.PageStore.FreePage | crates/duvm-memserver/src/main.rs:139-147 | Removes and counts down; an absent page changes nothing |
| Wire.PageStore.Turn | crates/duvm-memserver/src/main.rs:259-341 | One request read, performed and answered; nothing happens on a stream that breaks off |
| Wire.PageStore.HandleClient | crates/duvm-memserver/src/main.rs:256-342 | For any bytes a client may send, malformed ones included, ends with what the session specification says |
| Breaker.AttemptsBounded | crates/duvm-backend-tcp/src/lib.rs:131-171 | In any run, whatever came before and whatever attempts come to, a stretch of time sees at most five attempts, five more per connection made, one per unusable attempt, and one per five seconds |
| Breaker.UnreachableBounded | crates/duvm-backend-tcp/src/lib.rs:131-171 | While a server stays unreachable: five, and one more per whole backoff |
| Breaker.UnboundedIff | crates/duvm-backend-tcp/src/lib.rs:108-171 | Of more than five equal calls at one instant on a fresh connection, every one tries to connect if and only if what they come to is never counted |
| Breaker.BoundIsMet | crates/duvm-backend-tcp/src/lib.rs:131-171 | For every number of backoffs some run meets the bound exactly |
| Breaker.TripsAt | crates/duvm-backend-tcp/src/lib.rs:108-143 | At one instant an unreachable server is tried exactly five times from a fresh connection, and four after a live one was lost, as the lost call counts |
| Breaker.LastIsAttempt | crates/duvm-backend-tcp/src/lib.rs:145-145 | The time remembered is that of the last attempt, unusable ones included |
| Breaker.LiveMeansNoFailures | crates/duvm-backend-tcp/src/lib.rs:92-128 | In every run a live stream has no failures counted |
| Breaker.OnceOpen | crates/duvm-backend-tcp/src/lib.rs:133-143 | Once the breaker is open, attempts not accounted for by connections made or unusable addresses are a whole backoff apart |
| Breaker.EveryCallAttempts | crates/duvm-backend-tcp/src/lib.rs:108-127 | A server that accepts connections and refuses requests, or an unusable address, is tried again on every call, however fast they come |
| Breaker.Recovers | crates/duvm-backend-tcp/src/lib.rs:154-160 | After any run a server that is back serves the first call made a backoff later |
| Breaker.Connection.TryReconnect | crates/duvm-backend-tcp/src/lib.rs:131-171 | Succeeds exactly when the breaker lets it and the connection is made |
| Breaker.Connection.WithStream | crates/duvm-backend-tcp/src/lib.rs:92-128 | Succeeds exactly when there is or can be a stream and the operation succeeds on it |
| Rdma.SlabsDisjoint | crates/duvm-backend-rdma/src/server.rs:292-304 | Over any connections and disconnections that do not wrap the counter no slab is issued twice, no two overlap, and all lie in the registered buffer |
| Rdma.SafeIff | crates/duvm-backend-rdma/src/server.rs:292-304 | The slabs of so many requests all lie in the buffer if and only if those requests do not wrap the 64-bit counter |
| Rdma.WrapEscapes | crates/duvm-backend-rdma/src/server.rs:292-304 | The request that wraps it is accepted with a slab outside the buffer; with room below the buffer it starts there and runs into the first client's slab |
| Rdma.AllInsideIff | crates/duvm-backend-rdma/src/server.rs:292-304 | Over any connections, refusals and disconnections, all slabs lie in the buffer if and only if no request that was set up wrapped the counter |
| Rdma.SlabEscapes | crates/duvm-backend-rdma/src/server.rs:303-304 | Where a slab whose request wraps the counter lies, with 64-bit address arithmetic |
| Rdma.RunAscends | crates/duvm-backend-rdma/src/server.rs:292-304 | Slabs are issued in ascending order, each before the counter |
| Rdma.AcceptedIff | crates/duvm-backend-rdma/src/server.rs:292-304 | As long as the counter does not wrap, a request is issued a slab if and only if it is set up and it and all requests before it, refused ones included, fit into the buffer; the slab is the next one |
| Rdma.BurstIssued | crates/duvm-backend-rdma/src/server.rs:292-304 | Of so many requests in a row, all set up, as many are accepted as slabs fit into the buffer |
| Rdma.LiveIff | crates/duvm-backend-rdma/src/server.rs:103-180 | Live are exactly the connections accepted and not disconnected since, each with its own slab |
| Rdma.Isolated | crates/duvm-backend-rdma/src/lib.rs:562-604 | Two connections of one server, each with no more pages than its slab, never touch a common byte, after any allocations and frees |
| Rdma.TransfersInside | crates/duvm-backend-rdma/src/lib.rs:128-155 | A transfer of any handle ever live lies in the client's own slab |
| Rdma.TransfersApart | crates/duvm-backend-rdma/src/lib.rs:562-604 | The 4096 bytes of two handles of one slab overlap if and only if the handles are the same |
| Rdma.InsideIff | crates/duvm-backend-rdma/src/lib.rs:541-582 | The client does not look at the size of its slab: all it may address is inside iff its page limit is at most the slab's |
| Rdma.FreshIff | crates/duvm-backend-rdma/src/lib.rs:541-560 | Handles are not always fresh: allocating on never hands out a live handle iff the live handles are the lowest ones |
| Rdma.ProperCounted | crates/duvm-backend-rdma/src/lib.rs:541-560 | As long as no handle has been out twice, over any allocations and frees, the counter counts the live handles, so the condition applies |
| Rdma.HandleOutTwice | crates/duvm-backend-rdma/src/lib.rs:541-560 | It does fail: after two allocations and a free of the first, the next allocation hands out the second again |
| Rdma.LifoKeeps | crates/duvm-backend-rdma/src/lib.rs:557-560 | A free keeps it so iff it frees the last handle |
| Rdma.RdmaServer.HandleConnect | crates/duvm-backend-rdma/src/server.rs:286-391 | Accepts with a slab of its own or refuses, and while the counter does not wrap refuses only a request not set up or one that does not fit; the counter moves on either way |
| Rdma.RdmaBackend.AllocPage | crates/duvm-backend-rdma/src/lib.rs:541-555 | A handle below the limit, exactly when one is left |
| Ring.SpscRing.constructor | crates/duvm-common/src/ring.rs:39-48 | An empty queue |
| Ring.SpscRing.TryPush | crates/duvm-common/src/ring.rs:51-59 | Appends to the queue; refuses exactly when one entry less than the capacity is held, for every power of two, one included |
| Ring.SpscRing.TryPop | crates/duvm-common/src/ring.rs:62-69 | Takes the oldest entry; none exactly when empty |
| Ring.SpscRing.PopBatch | crates/duvm-common/src/ring.rs:72-84 | Appends exactly the first min(max, length) entries in order and leaves the rest |
| Ring.SpscRing.Len | crates/duvm-common/src/ring.rs:87-93 | The length of the queue, across the wrap-around |
| Ring.SpscRing.IsEmpty | crates/duvm-common/src/ring.rs:95-97 | Whether the queue is empty |
| Ring.FirstInFirstOut | crates/duvm-common/src/ring.rs:51-69 | Over any run what was accepted is what came out followed by what is held |
| Ring.SpscRing.Execute | crates/duvm-common/src/ring.rs:51-69 | Any sequence of pushes and pops on an empty ring: what was accepted is what came out, in order, followed by what is held |
| Layout.HandleRoundTrip | crates/duvm-common/src/page.rs:16-27 | Packing an 8-bit backend and a 56-bit offset loses nothing |
| Layout.HandleOnto | crates/duvm-common/src/page.rs:21-35 | Every 64-bit word is the handle of exactly one pair |
| Layout.AlignUpIsLeast | crates/duvm-daemon/src/kmod_ring.rs:321-323 | The least multiple of a power of two not below the argument |
| Layout.LayoutsAgree | crates/duvm-daemon/src/kmod_ring.rs:144-181 | The driver and the daemon compute the same regions, for every capacity and staging size |
| Layout.WholePages | duvm-kmod/src/ring.c:33-73 | The numbers: a header of 4096 bytes, 64 bytes an entry in either ring, 4096 bytes a staged page |
| Layout.NoOverlap | duvm-kmod/src/ring.c:33-73 | No two header fields, ring entries or staged pages share a byte, and all lie in the mapping |
| Layout.Inside | duvm-kmod/src/ring.c:33-73 | Each lies in its own region, and the regions follow one another |
| Bits.AndMask | crates/duvm-common/src/ring.rs:52-57 | Masking with a power of two minus one is the remainder |
| Bits.AndHigh | crates/duvm-daemon/src/kmod_ring.rs:321-323 | Masking the low bits away rounds down to a multiple |
| Bits.OrShifted | crates/duvm-common/src/page.rs:18-18 | Or-ing a shifted word into one that fits below the shift adds them |
| Bits.AdvanceWraps | duvm-kmod/src/ring.c:149-149 | A masked index moves on by one and wraps exactly at the capacity |

## Left out

- Rdma.SlabsDisjoint: stated, like RunAscends and Isolated, for request sequences that do not wrap the 64-bit counter; AllInsideIff and SafeIff say exactly when slabs leave the buffer beyond. The registered buffer is taken to lie between address zero and the end of the address space.
- LruRefinement.RunRefines: stated, like NoBelady and RunsAgree, for one local backend, no flag calls, and accesses at strictly increasing instants; with equal instants the code falls back on access counts.
- EvenPlacement.RunStaysEven: compares utilisations as exact fractions, where the code divides 64-bit floats; BeforeByFloats shows that the two agree for backends of up to 94906265 pages, Collide that they differ soon after, and NeverReversed that larger ones can at worst be tied, up to 2^53 pages, where converting a count to a float is no longer exact.
- MemServer.Reachable: for clients that store to, load and free only offsets granted to them and not yet freed; BooksIff says what any clients can do to the books, and a free by another client may take a page away.
- Breaker.AttemptsBounded: the failure counter's 32-bit overflow is not modelled.
- Layout.LayoutsAgree: for a capacity and a staging size of 32 bits, which is what the header has room for.
- Engine.DaemonEngine.StorePage: with a TCP backend the outcome is bounded (LossyStore), not determined, because the connection may fail before or after the server acts. Handles are (backend, offset) pairs; their packing is in Layout, and the panic at 2^56 allocations is not modelled.
- Backends.Backend.StorePage: LZ4 is a size function on pages; that decompressing what was compressed gives the page back is assumed by keeping the page itself. One class stands for the memory, compression and TCP backends.
- Wire.RemoteIsDirect: one stream carries on after a refused request. The server's does; the client drops its stream on any refusal and goes on over a new one. The client never sends STATUS, and has no reader for its reply.
- WireLaws.GrantsDistinct: for up to 2^64 requests, and OneClientRefines for fewer, as the counter of offsets then wraps; MemServer's does not.
- Wire.PageStore.AllocOffset: one client's compare-and-swap loop, which goes round once; the contended loop is in MemServer.
- SwapDevice.Memory.QueueRq: like PollOnce and the drain loops, one thread's function without accesses of the others in between; the interleavings are those of SwapProtocol, whose steps the accesses are.
- Hardware memory ordering: steps are sequentially consistent, barriers are step boundaries.
- The staging copy and the driver data of one submission are one step; both belong to a slot and a tag no other thread holds.
- Concurrent submissions: one submitter at a time is assumed. `duvm_ring_submit` (duvm-kmod/src/ring.c:139-161) takes no lock, nor does its caller `duvm_queue_rq`; the request ring is single-producer only if blk-mq never calls the driver from two processors at once, which one hardware queue (duvm-kmod/src/main.c:511) does not by itself ensure. Two submitters between the full check and the publication could write one entry; that is outside the model.
- Timeouts within the progress and hang results (SwapTimeoutRuns has them for what reads return), daemon connect and disconnect, the in-kernel fallback store used without a daemon, and multi-page requests.
- The sequence-number wait loop `duvm_ring_submit_and_wait`, which nothing calls.
- blk-mq, vmap, kthread, mmap, poll and device registration: kernel interfaces.
- The server's restart, which would issue offsets again.
- The RDMA backend inside the engine: its handles are not fresh, which the engine relies on; connection setup, registration and the foreign structures.
- Several threads calling one engine at once; a backend's health changing between calls.
- `find_eviction_candidates` and the page counts of the policy: easy queries nothing in the core calls.
- Wall-clock latency statistics, logging, configuration, the control socket, userfaultfd, the C library and the command-line tools.
