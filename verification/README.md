# Verified model of the Netsukuku core protocols

This project models the parts of the Netsukuku daemon that decide who may stand where: the search
for a migration path and its execution, the coordinator's allocator and its flood of propagation
messages, the negotiation of one arc and the slot that serialises commits, the ANDNA name store, the
identity manager, and two pieces of arithmetic (the Internet checksum and link-cost smoothing).

State that the program updates in place is a class whose methods are proved against functions on
values; the laws are lemmas about those functions, stated over every input, every interleaving or
every reachable state. What comes from outside (a peer, the clock, a random generator, a coordinator
reached over the network) is an argument: an untrusted router is any function of the call number and
the request, a run of an arc is driven by any finite sequence of answers, background completions of
the identity manager are commands with any content.

| module | models |
|---|---|
| `Tuples`, `Routing` | g-node tuples, the deliver-or-forward rule, how far a message travels |
| `SearchStep`, `Search` | one search answer, the breadth-first search over an untrusted router |
| `Migration`, `SearchServer` | hops, packets, their execution, the server side of a search |
| `Allocator`, `Flood` | the coordinator's reservations, and its deduplicated propagation |
| `ArcTrace`, `ArcEpisode`, `CommitSlot` | the per-arc negotiation and its laws, and the actor's exclusive commit slot |
| `Registration`, `SigningBytes`, `Snsd`, `NameCache`, `Counter`, `AndnaActor` | the ANDNA name store |
| `Identities`, `IdentityManager` | the identity registry, its arc table and its command handlers |
| `Checksum`, `LinkCost` | RFC 1071 and the smoothed link cost with its hysteresis gate |

Four places where code and text differ, or where a promise holds only under a condition:

- The comment on the coordinator's record says the first virtual position is `gsize`. The code
  increments before use, so it is `gsize + 1`; the model follows the code.
- A signed registration cannot be accepted twice if and only if the name TTL is above twice the
  allowed clock skew (`NoReplay`, `ReplayWhenShort`).
- The server of a search settles every reservation it recorded exactly when its time budget lasts (or
  nothing was recorded); otherwise they sit until they expire (`SearchMigrationPath`,
  `LeakedReservation`).
- `abort_migration` leaves the identity table inconsistent exactly when the main identity is given
  as both sides of the migration while arcs exist (`AbortKeepsInvIff`).

## Model

| member | source | states |
|---|---|---|
| Tuples.MakeTupleFromLevel | crates/ntk-hooking/src/domain.rs:102-114 | the loop yields the node's own positions and elderships from a level outwards, empty above the hierarchy |
| Tuples.TupleToHc | crates/ntk-hooking/src/domain.rs:154-170 | the outermost level at which the tuple and the node's address disagree, with the tuple's position there; none for an empty or overlong tuple |
| Tuples.InsideIffNoDivergence | crates/ntk-hooking/src/domain.rs:129-170 | being inside a g-node and having no divergence from it coincide if and only if the tuple fits the hierarchy |
| Tuples.TruncateContains | crates/ntk-hooking/src/domain.rs:34-82 | a truncated tuple is at the target level and contains the original |
| Routing.DroppedIffTooLong | crates/ntk-hooking/src/routing.rs:88-125 | a message has no direction if and only if its tuple is longer than the hierarchy |
| Routing.HopRank | crates/ntk-hooking/src/routing.rs:88-125 | a relay never raises the divergence; entering the g-node a message was forwarded to strictly lowers it |
| Routing.CrossingsBounded | crates/ntk-hooking/src/routing.rs:88-125 | on every walk a message crosses at most as many g-nodes as its tuple names levels |
| SearchStep.ExecuteSearch | crates/ntk-hooking/src/search.rs:98-173 | reserves at the lowest level that answers, climbs to the first real slot, fails when a level above fails |
| SearchStep.HonestAnswerShape | crates/ntk-hooking/src/search.rs:98-173 | every such answer has consistent levels, a real position where it names one, and a connectivity position, virtual in the host, exactly when it climbed; its levels are the lowest that qualify, its positions and elderships those their coordinators granted |
| SearchStep.ComputeDistance | crates/ntk-hooking/src/search.rs:260-271 | the length of the parent chain |
| SearchStep.GetPathHops | crates/ntk-hooking/src/search.rs:368-388 | the hops of a request are the steps from the root to the step, in order |
| SearchStep.TruncatedIsExplored | crates/ntk-hooking/src/search.rs:454-467 | truncating the current step keeps its chain well formed, its distance and its g-nodes distinct |
| SearchStep.CleanupTargetExists | crates/ntk-hooking/src/search.rs:290-300 | every solution has a g-node to release its reservation against, at its final host level |
| Search.ExpandNeighbours | crates/ntk-hooking/src/search.rs:502-555 | every neighbour up to the await where it is cut is queued exactly if it is real, at the host level, not visited and not on the way, whatever the router explores; queued g-nodes stay distinct, visited, real and not answered before |
| Search.InPreviousStep | crates/ntk-hooking/src/search.rs:528-542 | found if and only if some step of the chain, truncated to the level, is the neighbour |
| Search.QueueNeighbour | crates/ntk-hooking/src/search.rs:518-555 | a neighbour is appended to queue and visited list, with the border g-node that migrates and the answer's connectivity position and eldership, if and only if it is new; otherwise nothing changes |
| Search.ExpandedFully | crates/ntk-hooking/src/search.rs:502-555 | after all neighbours every eligible one is visited or on the chain, and every step queued comes from one that was named |
| Search.VisitNext | crates/ntk-hooking/src/search.rs:427-555 | one turn: a failed g-node is forgotten, an answer of use recorded and its neighbours queued, and nothing else changes; it keeps the invariant, and shrinks the set of g-nodes not yet answered or, leaving it alone, the queue |
| Search.FindShortestMig | crates/ntk-hooking/src/search.rs:400-559 | terminates for every router, dropped or not; solutions are well formed, start at the node's own g-node, have strictly decreasing host level, nondecreasing distance within the prune bound, all but the last above the acceptable level; with an honest router every one is real; they are exactly what its visits yield, each visit prolongs an earlier one as answered, and if there is none every eligible neighbour named was asked |
| Search.SecondVisit | crates/ntk-hooking/src/search.rs:427-555 | when the first answer names a new g-node and nothing is found, a neighbour it names was asked next; a solution that visit yields is found |
| Search.NamedIsFound | crates/ntk-hooking/src/search.rs:427-555 | a search that is not cut finds a solution if any of its visits names a new g-node about which every request yields one |
| Search.RetainForgets | crates/ntk-hooking/src/search.rs:441-446 | a failed g-node, and no other, leaves the visited set |
| Search.FinalAddressIsReal | crates/ntk-hooking/src/search.rs:479-500 | the address a real solution ends in has no virtual position at any level |
| Migration.GetMigs | crates/ntk-hooking/src/search.rs:581-626 | the hops from the entrant to the farthest one; no subtraction, drain or unwrap fails on a solution of the search |
| Migration.ExecuteShortestMig | crates/ntk-hooking/src/search.rs:678-702 | all prepares precede all finishes, each farthest hop first; it stops at the first failure or where it is dropped, and completes only when every packet was acknowledged |
| Migration.HopPackets | crates/ntk-hooking/src/search.rs:628-702 | in a completed execution the prepare and the finish of each hop, and no other packet, go to the g-node the chain migrates there, at its own level and under one migration id |
| Migration.HopTakesElderships | crates/ntk-hooking/src/search.rs:581-676 | a hop takes the elderships of the successor it follows, the farthest those of the g-node that holds the reserved place |
| Migration.ResolveEntryData | crates/ntk-hooking/src/search.rs:309-365 | the entrant gets the first hop's old place, or at distance zero exactly the reserved place; either lies in the server's own g-node, with its elderships |
| Migration.ExactShift | crates/ntk-hooking/src/search.rs:290-702 | entrant and hops together take exactly the addresses the hops leave plus the reserved one: each hop that of its successor, the farthest the reserved position |
| Migration.HopsDistinct | crates/ntk-hooking/src/search.rs:518-555 | no two hops leave the same place |
| Migration.FinishIgnoredIff | crates/ntk-hooking/src/search.rs:214-247 | a finish packet is ignored exactly when a position it carries is missing or does not fit 31 bits; otherwise it assigns its address, eldership and connectivity position |
| Migration.HonestFinishApplied | crates/ntk-hooking/src/search.rs:214-247 | with honest answers no finish packet is ignored, and the connectivity position is virtual in the g-node left |
| SearchServer.SearchMigrationPath | crates/ntk-hooking/src/rpc.rs:160-237 | every recorded reservation is offered or released, each once, if and only if the time budget lasts or nothing was recorded; what a cut in the search or in the execution releases; the chosen solution has the lowest host level; packets follow the plan; the offered address is the reserved place or the one the first hop leaves |
| SearchServer.LeakedReservation | crates/ntk-hooking/src/rpc.rs:193-236 | an input whose budget ends while a neighbour is explored: a recorded reservation is neither offered nor released |
| Allocator.Servant.ReserveEnter | crates/ntk-coordinator/src/actor.rs:98-164 | succeeds exactly for a level in range with room, and changes that level's record only |
| Allocator.Servant.DeleteReserveEnter | crates/ntk-coordinator/src/actor.rs:166-176 | no booking of the request is left at that level, and the others, of this and every other level, stay |
| Allocator.DeleteExact | crates/ntk-coordinator/src/actor.rs:166-176 | a deletion leaves no booking of the request, frees its position, and keeps all others in order |
| Allocator.DeletedIsReissued | crates/ntk-coordinator/src/actor.rs:98-176 | over every run, a deleted position nobody else was issued goes to the next new request that is offered it first, the same request included, under a new eldership |
| Allocator.ExpiredIsReissued | crates/ntk-coordinator/src/actor.rs:98-164 | so does an expired one |
| Allocator.LevelsIndependent | crates/ntk-coordinator/src/actor.rs:98-176 | over every run each level's record depends on its own commands only |
| Allocator.AllocatorRun | crates/ntk-coordinator/src/actor.rs:98-176 | over every run simultaneous bookings differ in request, position and eldership, virtual positions lie above gsize and are never reissued, elderships strictly increase |
| Allocator.ServantRun | crates/ntk-coordinator/src/domain.rs:39-53 | the same for every level of a servant that starts with fresh records |
| Allocator.VirtualIffFull | crates/ntk-coordinator/src/actor.rs:98-164 | a new request gets a virtual position if and only if every free real position is booked |
| Allocator.RetryReturnsSame | crates/ntk-coordinator/src/actor.rs:98-164 | a retry before expiry returns the same reservation, whatever other requests came between |
| Flood.Deduplicator.CheckPropagation | crates/ntk-coordinator/src/actor.rs:245-301 | accepts exactly an unseen id whose positions and fingerprint match, and then remembers it |
| Flood.AppliedAtMostOnce | crates/ntk-coordinator/src/actor.rs:835-923 | in every interleaving, losses included, a node applies a propagation at most once and only if the envelope names its g-node |
| Flood.MessagesBounded | crates/ntk-coordinator/src/actor.rs:718-923 | messages ever sent for an id are at most the sum of the degrees of the matching nodes |
| Flood.FloodCovers | crates/ntk-coordinator/src/actor.rs:718-923 | once quiet and without loss, every matching node connected to the originator through matching nodes applied the id exactly once |
| Flood.ImpatientExpiryReapplies | crates/ntk-coordinator/src/actor.rs:347-355 | an id forgotten too early is applied again exactly when a message of it reaches the node |
| ArcEpisode.GuardedAbort | crates/ntk-hooking/src/arc.rs:112-161 | the guard is disarmed if and only if the abort succeeded at the level it holds |
| ArcEpisode.NegotiateEntry | crates/ntk-hooking/src/arc.rs:403-563 | the begin/search loop makes exactly the calls of the state machine, whatever it is answered, and leaves the guard armed exactly as the machine does |
| ArcEpisode.FinishNegotiation | crates/ntk-hooking/src/arc.rs:500-586 | an offered entry is completed if and only if it is into the network decided on and not already entered; otherwise the level is aborted |
| ArcEpisode.EvaluateEnter | crates/ntk-hooking/src/arc.rs:342-401 | the level granted is the one the last evaluation accepted; retries are those of the state machine |
| ArcTrace.EntryAsDecided | crates/ntk-hooking/src/arc.rs:501-569 | an entry is completed only directly after a search at that level that offered a place in the network of the last data retrieved, not already entered |
| ArcTrace.GrantReleased | crates/ntk-hooking/src/arc.rs:100-161 | every level an evaluation accepted is released at that level, by a successful call or by the guard, before the slot is given back |
| ArcTrace.BeginsBounded | crates/ntk-hooking/src/arc.rs:409-489 | at most the granted level plus four calls of begin_enter under one grant |
| ArcTrace.UnreachableBounded | crates/ntk-hooking/src/arc.rs:381-399 | an unreachable coordinator is retried at most five times |
| ArcTrace.AnswerLeadsOn | crates/ntk-hooking/src/arc.rs:190-586 | after no path above level 0 and a successful abort the level below is begun; after an execute failure with attempts left a sleep and the same level again; after accepted or foreign data the slot is asked for; after a begun level its search; after an entry that may be made its completion |
| ArcEpisode.RespondTracks | crates/ntk-hooking/src/arc.rs:190-586 | every answer at every await leaves the machine where only calls that are due can follow, with the right guards |
| ArcEpisode.RespondSettles | crates/ntk-hooking/src/arc.rs:190-586 | every answer at every await leads the machine to the call that answer makes due |
| ArcEpisode.PlayIsSound | crates/ntk-hooking/src/arc.rs:187-588 | every trace of the machine, dropped anywhere, is legal and prompt, records the answers as they came, owes no call at its end and gives the slot back |
| ArcEpisode.SmoothEnters | crates/ntk-hooking/src/arc.rs:187-588 | with cooperative answers the arc enters the network it found at the level it was granted |
| ArcEpisode.RunArcHandler | crates/ntk-hooking/src/arc.rs:187-588 | at every point a run can end or be dropped: the calls, each with the answer it got, are those of the state machine; every answer is followed by the call it makes due; entries are as decided, granted levels released, attempts and retries bounded, the slot given back |
| CommitSlot.Actor.Handle | crates/ntk-hooking/src/manager.rs:285-367 | each command's effect on the slot, the published phases, the chosen address and the running arcs, with its reply |
| CommitSlot.StepKeepsInv | crates/ntk-hooking/src/manager.rs:226-236 | every step keeps the balance of holders, grants and releases with the slot's flag, and the order of the mailbox |
| CommitSlot.AtMostOneHolder | crates/ntk-hooking/src/manager.rs:314-323 | in every interleaving, aborts included, at most one arc is in its commit phase |
| CommitSlot.ReleaseFrees | crates/ntk-hooking/src/arc.rs:89-98 | when a release is processed nobody holds the slot or a grant, and it is free afterwards |
| CommitSlot.NothingLost | crates/ntk-hooking/src/manager.rs:314-323 | if no waiting task is aborted, holders, grants under way and queued releases add up to one while the slot is taken and to zero while it is free |
| CommitSlot.RefusedBecauseOfOthers | crates/ntk-hooking/src/arc.rs:324-331 | a request is refused exactly because of another task's use of the slot, never because of the asker's own release |
| CommitSlot.LostGrantWedges | crates/ntk-hooking/src/manager.rs:226-236 | after a grant to an aborted waiting task no continuation of the run frees the slot |
| CommitSlot.ChosenIsSticky | crates/ntk-hooking/src/manager.rs:299-313 | the first address entered is never replaced |
| CommitSlot.HandledHistory | crates/ntk-hooking/src/manager.rs:285-367 | over every sequence of commands the chosen address is the first one entered, the running arcs are those added and not removed, each phase is the last published |
| SigningBytes.AppendTarget | crates/ntk-andna/src/record.rs:44-63 | appends the target's encoding to the buffer and changes nothing before it |
| SigningBytes.BuildSigningBytes | crates/ntk-andna/src/record.rs:138-157 | the buffer is the encoding of the claim, lengths cut to 32 bits |
| SigningBytes.RoundTrip | crates/ntk-andna/src/record.rs:138-157 | a decoder reads back every claim, whatever bytes follow |
| SigningBytes.Unambiguous | crates/ntk-andna/src/record.rs:133-157 | equal encodings come from equal claims, and no encoding is a prefix of another |
| Snsd.SnsdTable.Insert | crates/ntk-andna/src/snsd.rs:124-144 | enforces both caps and keeps the total equal to the sum of the bucket lengths |
| Snsd.SnsdTable.SetZeroRecord | crates/ntk-andna/src/snsd.rs:149-167 | replaces the zero bucket only, keeps the total exact, never underflows |
| Snsd.InsertedAllIff | crates/ntk-andna/src/record.rs:355-360 | a list of records is taken if and only if it is within the caps, and each service then holds its records in order |
| Snsd.PickOne | crates/ntk-andna/src/snsd.rs:210-220 | every pick from 1 to the total weight stops inside one record's weight interval |
| Snsd.SelectsOne | crates/ntk-andna/src/snsd.rs:210-220 | a pick selects one record only |
| Snsd.PicksOf | crates/ntk-andna/src/snsd.rs:210-220 | each record is selected by exactly as many picks as its weight |
| Snsd.WeightedShuffle | crates/ntk-andna/src/snsd.rs:204-224 | draws by weight without replacement, for every sequence of random numbers |
| Snsd.Resolve | crates/ntk-andna/src/snsd.rs:173-197 | a permutation of exactly the enabled records of the chosen bucket, in nonincreasing priority |
| NameCache.Cache.Register | crates/ntk-andna/src/record.rs:289-388 | accepted if and only if signature, form, time, caps and the stored record allow it; a rejection names a failing condition and changes nothing |
| NameCache.Cache.PurgeExpired | crates/ntk-andna/src/record.rs:406-417 | removes and reports exactly the expired names |
| NameCache.PurgeKeepsLive | crates/ntk-andna/src/record.rs:406-417 | a purge keeps exactly the live names, as they are |
| NameCache.Cache.ResolveName | crates/ntk-andna/src/record.rs:392-403 | nothing for an unknown or expired name, otherwise the name's enabled records in order |
| NameCache.RegisteredResolves | crates/ntk-andna/src/record.rs:355-387 | an accepted claim resolves each service to its own records, or to the owner's address |
| NameCache.StepKeepsOwner | crates/ntk-andna/src/record.rs:327-353 | a live name keeps its owner, and an accepted renewal strictly raises its sequence |
| NameCache.OwnerAndSequence | crates/ntk-andna/src/record.rs:289-417 | over every run, accepted registrations of a name that stays live, through any number of renewals, have one owner and strictly increasing sequences |
| NameCache.RenewalsAreSpaced | crates/ntk-andna/src/record.rs:340-347 | accepted registrations of a name that stays live are at least the renewal interval apart, over every run |
| NameCache.FirstDateIsKept | crates/ntk-andna/src/record.rs:362-387 | a renewal keeps the first registration's date and changes no other name |
| NameCache.RunIsStoredSound | crates/ntk-andna/src/record.rs:289-388 | every stored record of every run expires its time to live after its last renewal and has one bounded zero record and services within the caps |
| NameCache.LiveForTtl | crates/ntk-andna/src/record.rs:362-386 | a registered name is live for at least its time to live |
| NameCache.NoReplay | crates/ntk-andna/src/record.rs:39-39 | with a TTL above twice the skew no run accepts one claim twice |
| NameCache.ReplayWhenShort | crates/ntk-andna/src/record.rs:307-315 | with any shorter TTL a node with room accepts every well-formed claim within the caps twice |
| NameCache.HostedBounded | crates/ntk-andna/src/record.rs:317-325 | hosted names never exceed their cap |
| Counter.CounterCache.TryReserve | crates/ntk-andna/src/counter.rs:79-102 | succeeds if and only if the registrant may be tracked and has room or holds the name; reports its live count |
| Counter.CounterCache.PurgeExpired | crates/ntk-andna/src/counter.rs:106-111 | drops expired names and empty registrants without changing any live count |
| Counter.ReserveKeepsCaps | crates/ntk-andna/src/counter.rs:79-102 | a reservation keeps both caps |
| Counter.ReservationHolds | crates/ntk-andna/src/counter.rs:79-111 | an accepted reservation is held and counts until its time to live is over, whatever reservations and purges come in between |
| Counter.ReservationCounts | crates/ntk-andna/src/counter.rs:79-102 | a new name raises its registrant's live count by one, a renewed one leaves it, and no other registrant changes |
| Counter.CapsPersist | crates/ntk-andna/src/counter.rs:49-53 | caps that hold now hold at every later time |
| Counter.PurgeKeepsLive | crates/ntk-andna/src/counter.rs:104-122 | purging changes no live count, now or later |
| Counter.PurgeLeavesLive | crates/ntk-andna/src/counter.rs:104-122 | after a purge every registrant has names, all of them live |
| AndnaActor.State.Handle | crates/ntk-andna/src/actor.rs:112-203 | each command's effect on store, counter and published snapshot, with its reply and events; a resolution is answered in descending priority |
| AndnaActor.RunIsSound | crates/ntk-andna/src/actor.rs:112-203 | after every command of every run the published names are the stored ones and all caps hold, now and later |
| AndnaActor.RecordsOf | crates/ntk-andna/src/actor.rs:112-203 | the names a run of the actor stores are those of its registrations and purges alone |
| AndnaActor.NoReplay | crates/ntk-andna/src/actor.rs:112-203 | no run of the actor accepts one claim twice, with a TTL above twice the skew |
| AndnaActor.OwnerAndSequence | crates/ntk-andna/src/actor.rs:112-203 | over every run of the actor a name that stays live keeps its owner and its sequence strictly increases |
| AndnaActor.Run | crates/ntk-andna/src/actor.rs:250-260 | the command loop produces exactly the run the laws speak about |
| Identities.HandleKeepsInv | crates/ntk-identities/src/actor.rs:254-652 | a command keeps the main identity registered and alone in its role, the arc table exactly identities × arcs, and the snapshot equal to the registry, if and only if it does not abort the main identity onto itself while arcs exist |
| Identities.AbortKeepsInvIff | crates/ntk-identities/src/actor.rs:769-844 | an abort keeps that unless the main identity is named as both sides while arcs exist |
| Identities.RunKeepsInv | crates/ntk-identities/src/actor.rs:254-361 | the same in every run of commands and late completions without that one command |
| Identities.AbortRestoresRegistry | crates/ntk-identities/src/actor.rs:816-844 | an abort restores the registry of before the migration, whatever happened to arcs in between |
| Identities.AbortUndoesMigrate | crates/ntk-identities/src/actor.rs:480-568 | directly after a migration the abort restores everything but the pending entries of that pair |
| Identities.DuplicatedArcPeers | crates/ntk-identities/src/actor.rs:587-641 | duplication gives the new identity one identity-arc per outcome and changes no other identity's peers |
| Identities.DuplicatedOneAddresses | crates/ntk-identities/src/actor.rs:587-641 | the old identity's first arc to the peer takes the peer's new address if it migrated, the new identity's arc carries that same address, empty if there is none, and every other identity-arc stays |
| Identities.DuplicatedArcAddresses | crates/ntk-identities/src/actor.rs:587-641 | the same for every list of outcomes of one arc |
| Identities.DuplicatedAllByArc | crates/ntk-identities/src/actor.rs:570-641 | a list of outcomes does to each registered arc what its own outcomes do, in order |
| Identities.AddThenRemoveArc | crates/ntk-identities/src/actor.rs:225-376 | a new arc has an empty row for every identity, and removing it restores the state |
| Identities.RemovedArcIsGone | crates/ntk-identities/src/actor.rs:225-252 | a removed arc has no row left, and no other row changes |
| Identities.PeerIsAdded | crates/ntk-identities/src/actor.rs:393-424 | the main identity gains the peer with the address of the arc, and no other row changes |
| Identities.PeerIsRemoved | crates/ntk-identities/src/actor.rs:739-762 | the first identity-arc to the peer is removed, and nothing else |
| Identities.RemovedIdentityIsGone | crates/ntk-identities/src/actor.rs:769-804 | a dismissed identity leaves registry, snapshot and table, and no other identity or row changes |
| Identities.MigrationHandsOver | crates/ntk-identities/src/actor.rs:480-544 | the new identity takes the status and, if it was the main one, the role, with empty rows; the old one keeps address and rows for connectivity |
| Identities.MigrationIsTold | crates/ntk-identities/src/actor.rs:432-680 | peers are told exactly the new identity and address of a migration carried out, nothing before it and nothing after its cleanup |
| Identities.NaddrIsSet | crates/ntk-identities/src/actor.rs:309-315 | an address is set on one identity, and published |
| Identities.NeighbourSwapsAddress | crates/ntk-identities/src/actor.rs:682-737 | the neighbour's new identity takes the address its old one had, and the old one the new address |
| Identities.Registry.Dismiss | crates/ntk-identities/src/registry.rs:123-130 | never removes the main identity |
| IdentityManager.State.RemoveOneArc | crates/ntk-identities/src/actor.rs:225-252 | removes the arc with its row for every identity, and nothing when it is unknown |
| IdentityManager.State.OnMigrate | crates/ntk-identities/src/actor.rs:480-544 | the loops and updates of a migration amount to its specification |
| IdentityManager.State.OnApplyDuplication | crates/ntk-identities/src/actor.rs:570-652 | the nested loops over outcomes amount to their specification, which `Identities.DuplicatedArcAddresses` and `Identities.DuplicatedAllByArc` pin value by value; outcomes of removed arcs are ignored |
| IdentityManager.State.OnAbortMigration | crates/ntk-identities/src/actor.rs:816-844 | the update of an abort amounts to its specification |
| IdentityManager.State.Handle | crates/ntk-identities/src/actor.rs:254-361 | every command does what its specification says and keeps the invariant |
| Checksum.InternetChecksum | crates/ntk-neighborhood/src/rtt.rs:182-195 | the complement of the one's-complement sum, additions wrapping at 32 bits; the fold loop ends |
| Checksum.VerifiesIff | crates/ntk-neighborhood/src/rtt.rs:180-195 | for data of any length an inserted checksum verifies if and only if adding it does not carry out of the 32-bit sum |
| Checksum.SumExactIff | crates/ntk-neighborhood/src/rtt.rs:183-190 | the 32-bit sum is exact for all data of a length if and only if it is at most 131074 bytes |
| Checksum.InsertedVerifies | crates/ntk-neighborhood/src/rtt.rs:168-195 | up to that length, odd or even, the inserted checksum always verifies |
| Checksum.BuildEchoRequest | crates/ntk-neighborhood/src/rtt.rs:170-178 | every packet carries its identifier and sequence and verifies |
| LinkCost.StepCloses | crates/ntk-neighborhood/src/cost_model.rs:54-62 | a step closes the gap by a tenth rising or a third falling, at least by one, and never overshoots |
| LinkCost.GapHalves | crates/ntk-neighborhood/src/cost_model.rs:36-62 | twenty ticks halve any gap of at least 20 |
| LinkCost.Converges | crates/ntk-neighborhood/src/cost_model.rs:36-62 | on a constant sample the value reaches the sample exactly within a logarithmic bound and stays |
| LinkCost.RiseIsPublished | crates/ntk-neighborhood/src/cost_model.rs:64-95 | a link settling at or above twice a positive published cost opens the gate within that bound |
| LinkCost.FallIsPublished | crates/ntk-neighborhood/src/cost_model.rs:64-95 | so does a link settling below half of it |
| LinkCost.SettledGateIff | crates/ntk-neighborhood/src/cost_model.rs:64-95 | once a link has settled the gate is open exactly outside the band from half to twice the published cost, twice included |

## Left out

- Sockets, netlink, RPC servers and clients, protobuf codecs, tracing: plumbing around the modelled logic.
- ed25519 and blake3: signature verification is any predicate over the signing bytes, hashes are opaque values.
- Durations: a timeout is one of the answers an await may receive, the clock is an argument, the time budget of a search is the number of awaits it lasts; `ask_again_backoff` and the other waits only change when a step happens.
- Completeness of the search: it skips a step whose final host level is above the hierarchy together with its neighbours, so a reachable slot can be missed.
- The reserve request id of a search: constant within one search, it is folded into the router and the coordinator oracles.
- `make_tuple_from_hc` and the adjacency set of a search answer: arguments of the model, the search trusts neither.
- The factor 1.3 of the prune bound is the exact fraction 13/10 instead of a floating-point product.
- Generated ids (`idgen`, propagation ids, identity ids): assumed fresh where the source assumes it.
- `apply_replica` and hand-off of the coordinator's records: an incoming record replaces the local one and may be older, so history claims do not survive it.
- The coordinator's cached node count and hooking memory, the pending-reply maps of the router: independent maps with easy laws.
- Wrap-around of the allocator's `u32` counters: counters are unbounded, and never exceed the group size plus the reservations issued.
- SigningBytes.Unambiguous: names, addresses and record lists of 2^32 entries and more are outside it, because their lengths are cut to 32 bits; a `Hostname` has at most 511 bytes.
- The sum `now + ttl` and the weight total of a bucket are unbounded integers; they stay within 64 and 32 bits for clocks before 2^63 and buckets below 2^24 records.
- The published `counters` of ANDNA: an untouched registrant keeps a count taken at an earlier time, so only `hosted` is exact.
- ANDNA's replication to other nodes and its client side.
- The events of the identity manager, its read-only queries other than the duplication data told to peers, the work list a migration hands to its duplication task and that task itself; its outcomes are arguments.
- In the source an arc task is aborted only after the actor's command loop has ended, so the wedged slot of `LostGrantWedges` outlives no command there.
- The end of an arc task outside its commit phase only removes it from the running arcs, and is not a step of `CommitSlot`.
- QSPN, PeerServices and the neighborhood manager are not part of this model.
