# CRAFT client-driven replication in Dafny

CRAFT replicates a block volume over N replicas under the control of one client. The
client numbers its writes with dense data LSNs (dLSNs), broadcasts them, acks at a
majority and sends each read to one replica at a per-block horizon. This project models
that protocol and the code around it, and proves what the protocol is for: which version
of a block a read may return while writes are in flight, failed, filled late or declared
Empty.

## How it is organised

Every stateful component appears twice. A value-level specification says what one
operation does to the component's state, and an imperative class, with the loops and
in-place updates of the source, is proved equal to it. The protocol theorems are about
the specifications; each class method is thereby one of the operations they speak of.

| part | specification and theorems | imperative form |
|---|---|---|
| replica: journal, index, tail overlay, reads | `Replica`, `ReadLayout` | `MemReplica.dfy` |
| login and resolution round over the replica set | `Cluster` | `MemTransport.dfy` |
| dLSN tracker, frontier F, highest acked Ha, want | `Tracker`, `TrackerRuns`, `FrontierRace` | `DlsnTracker.dfy` |
| split-read planner | `ReadPlan`, `PlanSpec`, `PlanAcross`, `Pieces` | `DlsnTracker.dfy` |
| two-tier read router | `Router`, `FoldEffect`, `RouterRuns`, `RouterExact`, `RotatedMisses`, `CompletionRace`, `FillRace` | `ReadRouteMap.dfy` |
| client verbs | `Protocol`, `LegResults` | `Client.dfy` |
| one session as a state machine | `Protocol`, `Exclusion*`, `Runs`, `Safety*`, `ReadSafety`, `SessionExact`, `SessionIndex`, `Watermarks`, `RoundClosure` | |
| several sessions | `Handover`, `FreshSession` | |
| wakeup gate | `Gate` | |
| resolution want and legs | `Want` | `Resolution.dfy` |
| resolution from peer evidence | `PeerEvidence` | `PeerEvidence.dfy` |
| wire codec, digests, stream reassembly, sparse read replies | `Crc32c`, `Wire`, `Conn`, `SparseReply`, `Scatter`, `ReplyRoundTrip`, `StreamRead` | same files |
| lazy-deletion timer heap | `Watchdog` | same file |

A fold and a routing decision take one step per lock or atomic region: the queue swap, the
map apply and the publication of a slow fold, the decision and the publication of a fast
one, the truncation; the map read, the fold load and each slot read of `eligible()`. A
plan reads its watermarks and slots one by one. A completion, a fill and a watermark report
are one step each (`CompletionRace` and `FillRace` take the first two access by access; a
report holds the fold lock), and so are a resolve (`FrontierRace` takes its frontier part
access by access) and a resolution round together with the client's retire of its reply. A
write leg is acked, deterministically rejected, or timed out with a delivery that may still
happen later. Quorum-counting theorems (`Runs.AckedNeverEmpty`, `Handover.*`,
`Watermarks.Sandwich`) allow any live majority in every round. Theorems about what a
member serves are stated for `SafeRun`s, in which a round that declares something Empty
reaches every member, because nothing in the source reconciles a member that was left out
of one.

Lengths and dLSNs are unbounded integers. Widths are explicit where they decide
something: digests and the CRC register are `bv32`, extent arithmetic wraps at 2^64
(`Scatter.InRange`), the framing bound wraps at 2^32 (`ReplyRoundTrip.FramedBodyMax`), and
a frame's body length is stored modulo 2^32. A journal slot's `term` and an index cell's
dLSN are never read by the modelled code and are left out of the state.

## Where the code does less than its comments say

* A member eligible at Hmax is not always good for a segment at a lower horizon, and not
  always good for Hmax either. The maps of misses and the fold are read in two regions, and
  a fold moves both in more than one. What matters is the dLSN m up to which the maps, when
  read, reflected what was missed, and the dLSN b at or below which the scan that followed
  saw nothing. `ReadSafety.ReadSafe` proves read safety for horizon h when
  min(b, h) <= m <= h (or nothing of the session is involved), and
  `SessionExact.ReadSafeExactly` that this is exact in the session of every fresh login:
  with three members or more every other position loses a write that a quorum acked, with
  one or two members none does. The ways to miss it are sessions of their own, for every
  position and payload: `ReadTooEarly` and `TruncatedUnderScan` (the write is folded
  between the reads), `ReadTooLate`, `FoldPassed` and `MapsAhead` (a newer write has erased
  its mark), `FoldOvertaken` (a fast fold passes a batch that is off the queue and not in
  the maps). A session run is a run of the index (`SessionIndex.RunIsIndexRun`), so the
  condition is exact there too (`RouterExact.AnswerSoundExactly`).
* A fill is not always noted before the fold can pass its dLSN. `retire_upto` finds a slot
  unresolved, notes the fill and then resolves the slot, and the slot's own acks may resolve
  it in between. `FillRace.FillPrecedesExactly` says exactly when a fill is still ahead of
  every fold, `FillRace.InTimeAgrees` that fills in time keep the index right, and
  `FillRace.LateFill` is a run in which a late one erases the mark of a newer miss, so that
  an undisturbed `eligible()` is wrong at the horizon itself. In the session machine a round
  and its retire are one step, so there every fill is in time.
* A replica's commit_lsn can pass the client's frontier. A round that straddles a dLSN
  taken by `reserve()` but not yet published commits through it, while the retire skips
  it. `Watermarks.FrontierOvertaken` gives such a session; `Watermarks.RoundKeepsHeldBack`
  proves that this is the only way (an if-and-only-if).
* `resolve_and_apply` can install a dLSN from a peer and list it as Empty in the same
  pass. `PeerEvidence.InstalledAndListed` says exactly when, and
  `PeerEvidence.InstalledAndListedHappens` gives the smallest case.
* A reader whose event was swapped out by one resolver may see a second resolver finish
  before the first completes the event. `Gate.LateWakeup` gives the interleaving;
  `Gate.NoLostWakeup` says that this is the only exception (an if-and-only-if).
* `recv_message` leaves a receive buffer's worth of zero bytes behind when the peer closes
  the stream. `Conn.CraftConn.RecvMessage` says that this happens exactly when the stream
  ends before anything but an incomplete message has come (`Conn.EndsFirst`), and that
  bytes are conserved otherwise; `Conn.ClosedAtOnce` gives the simplest input.
* A timer callback may begin after `cancel()` or `reset()` has returned, because the worker
  drops its lock between the pop and the callback. `Watchdog.BeginsAfterCancelExactly` and
  `Watchdog.BeginsAfterResetExactly` say exactly when, `Watchdog.BeginsAfterCancel` and
  `Watchdog.BeginsAfterReset` give runs.
* A one-shot timer reset while its callback is popped or running, by whatever thread, is
  dropped when the callback returns. `Watchdog.ResetKeptExactly` says that nothing else
  loses a reset, `Watchdog.ResetLost` gives a run.
* A header digest does not catch every changed byte: the op byte decides where the digest
  is looked for. `Wire.CorruptHeadRejected` covers every other byte and every op of the
  same header size, `Wire.CorruptOpAccepted` gives frames that are accepted as another op.

## Model

| member | source | states |
|---|---|---|
| `ReadSafety.ReadSafe` | src/client.cpp:298-353 | read safety while everything else goes on: the plan is made across resolves, the maps are read in one state, the fold is loaded in a later one, every slot is read at a moment of its own, and the member serves later still; if the maps were read in time for the segment horizon, each byte served is that of a write acked by then and not older than the highest one acked when the plan began (or the byte at login), never an in-flight, failed or Empty one, and exactly the planned one while the member has not committed past the horizon |
| `ReadSafety.ReadSafeAtomic` | src/client.cpp:298-353 | in every reachable state with no fold under way, a member eligible at Hmax that serves a planned segment returns exactly the bytes of the highest acked write covering each byte, or what the volume held at login |
| `ReadSafety.ServedIsShown` | src/mem/replica.cpp:379-438 | the byte a member serves is the payload byte of the topmost session write it shows, else the byte agreed at login |
| `ReadSafety.RoutedHolds` | src/client.cpp:304-331 | a member let through by the two reads in time holds the planned winner of every byte of the range |
| `ReadSafety.ShownIsAcked` | src/mem/replica.cpp:366-437 | what a member that holds the planned winner shows is acked, not older than the plan, and equal to it while its commit is at or below the horizon |
| `ReadSafety.PayloadByte` | src/mem/replica.cpp:243-250 | cutting a payload into pages and reading a byte back gives the payload byte |
| `SessionExact.ReadSafeExactly` | src/client.cpp:298-353 | the condition of read safety is exact, in the session of every fresh login: all readings taken with the maps at level m and nothing seen at or below b show, at horizon h, a write no older than the highest acked when the plan began if and only if the position is timely or the set has at most two members |
| `SessionExact.ReadTooEarly` | src/read_route_map.hpp:253-257 | for every fresh login of three members or more, every payload and every position with m < min(b, h): a session in which a quorum-acked write is folded between the two reads and the read shows what was there at login |
| `SessionExact.ReadTooLate` | src/read_route_map.hpp:226-237 | the same for every position with h < m <= b: a newer write has erased the mark |
| `SessionExact.FoldPassed` | src/read_route_map.hpp:242-273 | the same with nothing going on: the fold has passed the planned horizon and an undisturbed eligible() lets the stale member through |
| `SessionExact.MapsAhead` | src/read_route_map.hpp:226-237 | the same for every position with h < m and b < m: between the apply and the publication of a fold |
| `SessionExact.FoldOvertaken` | src/read_route_map.hpp:193-226 | the same when a fast fold overtakes a slow one between its queue swap and its apply: even an undisturbed eligible() is wrong |
| `SessionExact.TruncatedUnderScan` | src/read_route_map.hpp:237-271 | the same when a fold and its truncation, at least a batch of dLSNs above the last one, fall between the fold load and the slot read |
| `SessionIndex.RunIsIndexRun` | src/read_route_map.hpp:154-323 | what a session does to the router, with who holds what, is a run of the routing index: each leg completes once and is acked by a holder, every fill is above the folds, every report certifies what it covers |
| `PlanAcross.PlanIsSafe` | src/dlsn_tracker.cpp:179-273 | a plan whose watermarks and slots are each read at a moment of their own is safe at its end: every horizon shows an acked write or nothing of the session, no later resolve changes that, and no write acked when the plan began is above it |
| `PlanAcross.CertifiedLater` | src/dlsn_tracker.cpp:227-230 | what such a horizon shows never changes again |
| `SafetyRound.RunKeepsSafe` | src/client.cpp:139-260 | every step of the session machine keeps the agreement of tracker, router and replicas, over whole runs |
| `SafetyRound.StepKeepsSafe` | src/client.cpp:139-260 | one step keeps that agreement |
| `Runs.AgreedLogin` | src/client.cpp:79-98 | a login to a volume of any size on which every member holds the same content up to the login dLSN is a fresh session, so the theorems about fresh sessions and the failing sessions start from states that exist |
| `FreshSession.LoginIsFreshExactly` | src/mem/cluster.cpp:338-369 | a login that reaches every member starts a fresh session if and only if the members agree wherever two have an entry and one has no hole up to the dLSN the login returns |
| `SafetyRound.FreshSafe` | src/client.cpp:79-98 | a fresh login establishes it |
| `Runs.RunKeepsExcl` | src/client.cpp:151-219 | whole runs keep the exclusion invariant and only ever add |
| `Runs.AckedNeverEmpty` | src/mem/cluster.cpp:371-419 | over whole runs and any live majorities: once acked (by tracker or by a quorum of legs) never Empty (by round, tracker or all-rejected), and once Empty never acked |
| `Exclusion.QuorumAckedNotEmpty` | src/client.cpp:185-212 | a quorum of acks excludes an Empty verdict and means a majority holds the write |
| `Exclusion.AckedXorEmpty` | src/mem/replica.cpp:235-250 | the invariant excludes acked and Empty for every dLSN |
| `Exclusion.RejectedHeldByNone` | src/client.cpp:192-212 | when every member rejected deterministically, no leg was accepted and no replica holds the write |
| `ExclusionRound.StepKeepsExcl` | src/mem/cluster.cpp:371-419 | each of the eleven steps keeps the exclusion invariant |
| `Runs.StepLater` | src/dlsn_tracker.hpp:129-132 | each step only adds: resolved outcomes, reports, verdicts, journal entries and watermarks are never taken back |
| `Watermarks.Sandwich` | src/read_route_map.hpp:299-323 | all_committed <= synced[i] <= commit_lsn of replica i in every reachable state, each monotone; commit_lsn <= F when no round straddles an unpublished dLSN |
| `Watermarks.RoundKeepsHeldBack` | src/dlsn_tracker.hpp:145-173 | after a round every replica is at or behind F if and only if no counted dLSN up to it was unpublished |
| `Watermarks.StepKeepsHeldBack` | src/mem/replica.cpp:355-364 | no step other than a round moves a replica past F |
| `Watermarks.StepKeepsReported` | src/read_route_map.hpp:305-323 | no step reports more to the router than a replica has committed |
| `Watermarks.FrontierOvertaken` | src/dlsn_tracker.cpp:70-74 | a concrete session in which a replica commits past F |
| `RoundClosure.RoundResolvesAll` | src/mem/cluster.cpp:382-418 | round plus retire: live members have every entry up to `upto`, have committed it and agree on Empty versus data; down members are untouched; a formerly unresolved slot is Empty exactly when listed; F covers `upto` if and only if nothing was unpublished |
| `Handover.LoginCoversAcked` | src/mem/cluster.cpp:338-369 | a write quorum-acked under an earlier term, even with acks after the later login, has a dLSN at most the one that login returned |
| `Handover.SessionsDisjoint` | src/mem/cluster.cpp:338-369 | no two sessions share a quorum-acked dLSN |
| `Handover.EventKeeps` | src/mem/replica.cpp:507-521 | logins, logouts, late legs, keep_alives and rounds keep the handover invariant |
| `Handover.HistoryKeeps` | src/mem/cluster.cpp:338-369 | so do whole histories |
| `Handover.DeposedForGood` | src/mem/replica.cpp:507-516 | once a member has taken part in a later login or in a logout, whatever happens next, no request of the old term changes it or is acked by it |
| `Handover.LeavesSession` | src/mem/replica.cpp:507-516 | a later login and a logout leave every session there has been |
| `Handover.LeftRefuses` | src/mem/replica.cpp:225-279 | such a request is answered STALE_TERM, or invalid_argument when it is malformed |
| `Gate.NoLostWakeup` | src/dlsn_tracker.hpp:60-92 | in every interleaving: once a resolve published after a reader's re-test has finished signalling, the reader's event is complete, and the reader can go on, if and only if no resolver holds that event swapped out and uncompleted |
| `Gate.QuietMeansAwake` | src/dlsn_tracker.cpp:275-289 | with no signal under way such a reader can go on |
| `Gate.OwnerWakes` | src/dlsn_tracker.cpp:275-289 | otherwise one move of some resolver lets the reader go on |
| `Gate.LateWakeup` | src/dlsn_tracker.hpp:60-92 | a concrete interleaving in which the resolve has finished and the reader still sleeps |
| `Gate.StepsKeep` | src/dlsn_tracker.hpp:63-92 | every interleaving keeps the gate invariant |
| `Want.NoStrandedWant` | src/client.cpp:230-260 | while a want is pending every member has a leg that will look at it, a failed write about to start one, or had its last leg end in an error |
| `Want.CleanExit` | src/client.cpp:243-246 | a leg that ends without an error leaves no pending want or another owner of its member's flag |
| `Want.CoveringReplyConsumes` | src/client.cpp:236-241 | a reply that covers the pending want consumes it |
| `Want.OneLegPerMember` | src/read_route_map.hpp:332-337 | at most one leg per member owns the flag, and the flag is set exactly while one does |
| `Want.WantKept` | src/dlsn_tracker.cpp:148-154 | a want stays at least as high until a round that covers it is consumed |
| `ResolutionLegs.ResolutionClient.Note` | src/client.cpp:249-250 | the want becomes the higher of the one pending and the one recorded; over the tracker object this is the Note move, so the no-stranding invariant holds of the objects |
| `ResolutionLegs.ResolutionClient.Fire` | src/client.cpp:256-258 | a leg is started exactly when no other owns the member's flag, and then it is the one owner |
| `ResolutionLegs.ResolutionClient.Peek` | src/client.cpp:232-234 | a leg asks for exactly the want that is pending, or releases when none is; the invariant holds |
| `ResolutionLegs.ResolutionClient.Clear` | src/client.cpp:240-241 | every visible unresolved slot up to the reply is retired in tracker and router, and the want is consumed if and only if the reply covered it; the invariant holds |
| `ResolutionLegs.ResolutionClient.Release` | src/client.cpp:243 | the flag is free and the leg looks once more |
| `ResolutionLegs.ResolutionClient.Fail` | src/client.cpp:236-239 | the flag is free, the leg has ended with an error and the want is left |
| `ResolutionLegs.ResolutionClient.Recheck` | src/client.cpp:244-246 | the second look ends the leg if and only if nothing is pending |
| `ResolutionLegs.ResolutionClient.Retry` | src/client.cpp:246 | the leg goes on if and only if the flag was free, and then owns it |
| `TrackerRuns.FrontierExact` | src/dlsn_tracker.cpp:70-132 | after any sequence of reserve (in two steps), resolve and retire, F is exactly the longest resolved prefix, Ha exactly the highest acked dLSN, and no resolved slot has changed |
| `Tracker.ResolveExact` | src/dlsn_tracker.cpp:76-110 | one resolve changes at most one unresolved slot and leaves F and Ha exact |
| `Tracker.RetireExact` | src/dlsn_tracker.hpp:145-173 | slot by slot effect of a retire; F and Ha stay exact |
| `Tracker.RetireReaches` | src/dlsn_tracker.hpp:149-173 | the frontier reaches the end of a retire if and only if no counted dLSN in it is unpublished |
| `Tracker.WatermarksDetermined` | src/dlsn_tracker.hpp:20-23 | F, Ha and the completion bits are determined by the slots alone |
| `Tracker.AdvanceExact` | src/dlsn_tracker.cpp:112-132 | the frontier moves to the end of the completed run and nothing else changes |
| `Tracker.CreateExact` | src/dlsn_tracker.cpp:70-74 | publishing a counted dLSN keeps F and Ha exact, even below dLSNs already resolved |
| `Tracker.ResetExact` | src/dlsn_tracker.cpp:57-68 | a fresh session has exact watermarks |
| `FrontierRace.NoAdvanceLost` | src/dlsn_tracker.cpp:112-132 | concurrent lock-free advances: F never passes an uncompleted dLSN and is exact whenever no resolver is under way |
| `DlsnTracking.OpenExact` | src/dlsn_tracker.cpp:156-177 | the unresolved list is exactly the unresolved dLSNs of the range, ascending |
| `DlsnTracking.Hop` | src/dlsn_tracker.cpp:164-175 | completed_upto lands just below the next unresolved dLSN |
| `DlsnTracking.DlsnTracker.constructor` | src/dlsn_tracker.cpp:54-55 | a fresh tracker and its winner-scan cap |
| `DlsnTracking.DlsnTracker.ResetAt` | src/dlsn_tracker.cpp:57-68 | a new session starts at the login dLSN with no slots and no want |
| `DlsnTracking.DlsnTracker.Reserve` | src/dlsn_tracker.cpp:70-74 | counts the next dLSN and publishes its slot; watermarks stay exact |
| `DlsnTracking.DlsnTracker.AdvanceFrontier` | src/dlsn_tracker.cpp:112-132 | the frontier becomes the end of the completed run, capped at the last issued dLSN, and never falls: the advance Tracker.AdvanceExact speaks about |
| `DlsnTracking.DlsnTracker.Resolve` | src/dlsn_tracker.cpp:76-110 | a resolved slot is left alone, any other takes the outcome, and F and Ha are exact afterwards: the longest resolved prefix and the highest acked dLSN |
| `DlsnTracking.DlsnTracker.Stats` | src/dlsn_tracker.cpp:156-177 | the gap-hopping loop counts exactly the unresolved dLSNs in (F, issued] and samples the first ones in order |
| `DlsnTracking.DlsnTracker.NoteWant` | src/dlsn_tracker.cpp:136-140 | the want rises to the maximum |
| `PlanSpec.PlanIsBest` | src/dlsn_tracker.cpp:179-273 | a plan that is not fenced tiles the range in order with at most eight segments, every byte at the greatest horizon <= max(F, Ha) at which the top non-Empty slot covering it is acked; and a read is fenced if and only if something unresolved or unpublished is in its way and a dLSN is unpublished, or one in the way is more than the scan cap below Ha, or the range has no block size or over 4096 blocks, or no tiling with at most eight segments exists |
| `PlanSpec.SplitExact` | src/dlsn_tracker.cpp:227-273 | the coalesced split is within eight segments if and only if any tiling with the largest safe horizons is, since every such tiling has at least as many segments |
| `Pieces.FewestPieces` | src/dlsn_tracker.cpp:262-273 | a cut whose neighbours differ has no more pieces than any other cut that gives every byte the same tag |
| `PlanSpec.WalkIsBest` | src/dlsn_tracker.cpp:227-259 | the ascending winner walk finds the largest safe horizon of a byte |
| `PlanSpec.SplitIsBest` | src/dlsn_tracker.cpp:231-273 | after grouping, every byte of a segment has that segment's horizon as its largest safe one |
| `PlanSpec.FenceSound` | src/dlsn_tracker.cpp:227-259 | what the walk maintains: the fence is the lowest unresolved slot above the last acked one |
| `PlanSpec.NoHitIsBest` | src/dlsn_tracker.cpp:219 | with nothing unresolved in the way Ha is the largest safe horizon |
| `PlanSpec.FrontierIsBest` | src/dlsn_tracker.cpp:183-185 | with F at or above Ha the frontier is the largest safe horizon of every byte |
| `Pieces.CoalesceGroups` | src/dlsn_tracker.cpp:261-272 | the grouping is an ordered, maximally coalesced partition in which each block keeps its own horizon |
| `ReadPlan.BestHorizonSeesAcked` | src/dlsn_tracker.cpp:227-230 | no acked write on the byte lies above its best horizon |
| `ReadPlan.BestHorizonShowsLastAcked` | src/dlsn_tracker.cpp:227-230 | what is on top at the best horizon is the highest acked write |
| `ReadPlan.BestHorizonUnique` | src/dlsn_tracker.cpp:227-230 | the best horizon is unique |
| `DlsnTracking.DlsnTracker.FindHits` | src/dlsn_tracker.cpp:187-217 | the hopping loop finds the lowest hit and whether a hit has failed or is not visible yet |
| `DlsnTracking.DlsnTracker.MarkBlocks` | src/dlsn_tracker.cpp:240-257 | marking one slot on the block array gives every block the next step of its own fence walk |
| `DlsnTracking.DlsnTracker.WinnerPass` | src/dlsn_tracker.cpp:237-259 | after the pass over the slots every block of the array holds its fence, the lowest unresolved slot above its last acked one |
| `DlsnTracking.GroupBlocks` | src/dlsn_tracker.cpp:261-272 | the segment loop computes the grouping, or nothing beyond eight segments |
| `DlsnTracking.DlsnTracker.Split` | src/dlsn_tracker.cpp:231-273 | after a scan that found nothing unpublished, the segments are a best plan whenever the range has 1 to 4096 blocks and some tiling into at most eight segments gives every byte its largest safe horizon; otherwise there are none |
| `DlsnTracking.DlsnTracker.Compute` | src/dlsn_tracker.cpp:179-225 | fenced if and only if PlanSpec.Unreadable says so, otherwise a best plan; failed is reported if and only if it is fenced and a failed write in the way overlaps |
| `RouterRuns.NeverRoutedStale` | src/read_route_map.hpp:160-323 | after any interleaving of completions, fills, watermark reports and the atomic regions of any number of folds, a timely yes of eligible() is right: the member holds the highest durable write at or below the horizon on every byte, as of the map read |
| `RouterRuns.PendingStaysAbove` | src/read_route_map.hpp:171-198 | every pending miss is above everything any fold has published or aims at, and not below the hint |
| `RouterExact.EligibleSoundExactly` | src/read_route_map.hpp:242-273 | for three members or more, over every run from a reset and with no fold under way, an undisturbed eligible() certifies a horizon if and only if the fold has not passed it (or it shows no write of the session); the failing runs are sessions that lose an acked write |
| `RouterExact.AnswerSoundExactly` | src/read_route_map.hpp:185-273 | for three members or more, over every run from a reset: a yes that reads the maps at level m and then sees nothing at or below b is right for horizon h if and only if h or b is at most the login dLSN, or min(b, h) <= m <= h; the failing runs are sessions that lose an acked write |
| `FillRace.FillPrecedesExactly` | src/dlsn_tracker.hpp:152-173 | over every interleaving of writes, completions, resolves, folds and retires: a fill noted now is ahead of every fold, however the folds go on, if and only if the frontier has not reached its dLSN or some leg up to it is still out; so it is whenever the slot is still unresolved |
| `FillRace.InTimeAgrees` | src/read_route_map.hpp:275-299 | as long as every fill is noted in that time the index agrees with who holds what |
| `FillRace.LateFill` | src/read_route_map.hpp:275-299 | for three members or more, a run with one late fill: the slot is found unresolved, its own acks resolve it, it is folded with a newer write on the same byte, and the late fill then erases the mark of the member that missed that one; with no fold under way and the fold at the horizon, eligible() lets that member through |
| `CompletionRace.SeenMeansQueued` | src/read_route_map.hpp:154-180 | in every interleaving of the accesses of completions and a fill: when the completed bit of a dLSN is visible, every leg is counted and a durable slot somebody missed is queued or about to be queued by the fill |
| `CompletionRace.AloneIsCompletion` | src/read_route_map.hpp:160-180 | the accesses of one completion taken together are the one-step completion |
| `Router.EligibleHoldsWinner` | src/read_route_map.hpp:242-273 | with no fold under way, a member that misses the winner of any byte at a horizon between fold and Hmax is not eligible |
| `Router.ResetAgrees` | src/read_route_map.hpp:123-148 | a reset router agrees with any holdings: what it excludes covers what members lack |
| `Router.OpenSlotAgrees` | src/read_route_map.hpp:150-152 | opening a slot keeps the agreement |
| `Router.CompletionAgrees` | src/read_route_map.hpp:154-180 | a completion keeps the agreement, handing a durable, not universally held slot to the fold |
| `Router.FilledAgrees` | src/read_route_map.hpp:275-297 | noting a fill above every fold keeps the agreement |
| `Router.FoldAgrees` | src/read_route_map.hpp:182-240 | a whole fold with nobody else folding keeps the agreement, whatever order the sort leaves ties in |
| `Router.TakeAgrees` | src/read_route_map.hpp:205-222 | so does the queue swap of a fold among others; the map level stays |
| `Router.ApplyTakenAgrees` | src/read_route_map.hpp:223-236 | so does the map apply, which brings the maps to the target or to a fold that overtook it |
| `Router.CloseAgrees` | src/read_route_map.hpp:237 | so does the publication of a slow fold; the map level stays |
| `Router.JumpAgrees` | src/read_route_map.hpp:193-196 | so does the lock-free publication of a fast fold, whatever slow fold is under way |
| `Router.AnswerHolds` | src/read_route_map.hpp:251-273 | a clear map and a later clear scan certify the winner at a horizon whenever the maps were read in time |
| `Router.BatchMarksWinner` | src/read_route_map.hpp:226-236 | after a sorted batch a byte is marked by the newest covering write the member misses, whatever the order of ties |
| `Router.SyncedAgrees` | src/read_route_map.hpp:299-323 | a watermark report that holds the fold lock and certifies what it covers keeps the agreement, although it erases misses |
| `RouteMapping.Partition` | src/read_route_map.hpp:205-221 | the in-place split of the pending queue keeps exactly what is above the target, in order, and the hint is the lowest dLSN kept |
| `RouteMapping.SortMisses` | src/read_route_map.hpp:224-225 | the batch comes out as an ascending permutation of itself |
| `RouteMapping.ApplyAll` | src/read_route_map.hpp:226-236 | the loops over batch and members give each member the map Router.BatchMarksWinner speaks about |
| `RouteMapping.MinSynced` | src/read_route_map.hpp:313-316 | the loop finds the least reported watermark |
| `RouteMapping.ReadRouteMap.constructor` | src/read_route_map.hpp:123-148 | a new router is the reset one of Router.ResetAgrees |
| `RouteMapping.ReadRouteMap.CreateSlot` | src/read_route_map.hpp:150-152 | the object follows Router.OpenSlotAgrees |
| `RouteMapping.ReadRouteMap.RecordCompletion` | src/read_route_map.hpp:160-180 | the leg counts as completed and, if acked, as held; the last one completes the slot and queues it if and only if most members hold it and not all: the object follows Router.CompletionAgrees |
| `RouteMapping.ReadRouteMap.NoteFilled` | src/read_route_map.hpp:282-297 | the verdict overrides a sub-quorum holder count, the leader counts as holder and the slot is queued unless everybody holds it: the object follows Router.FilledAgrees |
| `RouteMapping.ReadRouteMap.FoldTo` | src/read_route_map.hpp:185-240 | with nobody else folding, the fold rises to the end of the completed run or to f, whichever is lower, and never falls; no miss at or below it stays queued; and each map shows on every byte whether the member held the newest miss folded onto it, or what it showed before; slots are dropped once the fold is 512 past the last drop |
| `FoldEffect.FoldAdvances` | src/read_route_map.hpp:185-240 | how far a fold gets, in the fields before and after: to f or to just below the first dLSN that is not complete |
| `FoldEffect.FoldDrains` | src/read_route_map.hpp:197-240 | whatever order the sort leaves equal dLSNs in, exactly the misses above the new fold stay queued, and every byte of every map shows the newest folded miss or is as it was |
| `FoldEffect.QueueAgrees` | src/read_route_map.hpp:160-180 | wherever the routing invariant holds, hence in every session, the queue is above the fold and the hint not above it, so FoldDrains applies |
| `FoldEffect.LastMissDecides` | src/read_route_map.hpp:223-232 | of a batch the last miss covering a byte decides what the map shows there |
| `RotatedMisses.FoldLetsIn` | src/client.cpp:306-331 | from every login of three members or more there is a session in which each member misses one of the acked writes of a block: before the fold no member is eligible at the frontier, after it a member is if and only if it has proved the login dLSN and did not miss the newest; the anchor is one |
| `RouteMapping.ReadRouteMap.TakeDue` | src/read_route_map.hpp:205-225 | the queue region of a slow fold: what is due leaves the queue in ascending order, the object follows Router.TakeAgrees |
| `RouteMapping.ReadRouteMap.ApplyDue` | src/read_route_map.hpp:223-236 | the map region: the loops follow Router.ApplyTakenAgrees |
| `RouteMapping.ReadRouteMap.TestMap` | src/read_route_map.hpp:252-256 | the first read of eligible: yes exactly when the member has proved itself and its map is clear on the range |
| `RouteMapping.ReadRouteMap.ScanSlots` | src/read_route_map.hpp:257-272 | the second read: yes exactly when every visible slot above an earlier reading of the fold is clear |
| `RouteMapping.ReadRouteMap.Eligible` | src/read_route_map.hpp:251-273 | yes if and only if the member has proved the login dLSN, no byte of the range is marked in its map, and it holds every overlapping slot above the fold up to Hmax that a majority holds or a round filled |
| `RouteMapping.ReadRouteMap.AdvanceSynced` | src/read_route_map.hpp:305-323 | the watermark rises to the report, the floor is the least watermark, and of the marks exactly those at or below a higher report are erased, on that member only |
| `ClientVerbs.Classify` | src/client.cpp:185-212 | acked if and only if most legs succeeded, Empty if and only if every leg returned invalid_argument or REPLICA_DOWN, failed otherwise |
| `ClientVerbs.ClassifyAgrees` | src/client.cpp:192-212 | counting results classifies as the session machine does |
| `LegResults.AnswerReported` | src/client.cpp:192-203 | a delivered leg: however the session goes on, reporting the replica's own answer, or a timeout, is a step the session allows, and the answer counts as an ack if and only if the replica accepted |
| `LegResults.DropReported` | src/client.cpp:192-203 | a leg never delivered may be reported as REPLICA_DOWN or as a timeout |
| `LegResults.TimeoutReported` | src/client.cpp:192-203 | a leg may time out whether it has arrived or not |
| `LegResults.AnswerHeard` | src/client.cpp:139-149 | an Ok answer to a write carries the commit and append dLSNs the replica is left with, and feeding its commit to the router stays allowed for the rest of the session |
| `LegResults.PingHeard` | src/client.cpp:358-364 | the same for keep_alive and read replies |
| `ClientVerbs.RetireUpTo` | src/dlsn_tracker.hpp:151-173 | the hopping loop retires the tracker and notes every filled slot in the router first |
| `ClientVerbs.Pick` | src/client.cpp:321-331 | the first eligible member going round from the start, or none if and only if there is none |
| `ClientVerbs.PeersMeetAll` | src/client.cpp:325-326 | the rotating order meets every member |
| `ClientVerbs.HighestHorizon` | src/client.cpp:310-313 | the loop finds the highest of F and the segment horizons |
| `ClientVerbs.Route` | src/client.cpp:304-331 | the router is folded as far as the frontier allows and the member picked is the first one, going round, that is eligible at the highest of F and the segment horizons, or none is |
| `ClientVerbs.ServeRead` | src/client.cpp:321-351 | the first eligible member that can be reached decides the read and feeds its watermark to the router; otherwise NO_QUORUM if somebody was eligible and NOT_ELIGIBLE if nobody was |
| `ClientVerbs.Combine` | src/client.cpp:286-296 | the segments of a split read succeed together with the highest watermarks, or fail with the first error |
| `Replica.ReadRefinesReplay` | src/mem/replica.cpp:366-437 | overlay plus index equals naive replay of the journal at every horizon |
| `Replica.ReadDependsOnDeliveredSet` | src/mem/replica.cpp:225-279 | two in-session runs that delivered the same dLSNs, in any order, with any duplicates and commit timing, read the same block at every horizon at or above both committed prefixes, and have equal indexes when those prefixes are equal |
| `Replica.JournalAfterRun` | src/mem/replica.cpp:225-255 | after any in-session run the journal is what was there, unchanged, plus the one content of each dLSN delivered: first copy kept, tombstones kept |
| `Replica.WriteKeepsInv` | src/mem/replica.cpp:225-255 | a write keeps the index equal to the replay of the committed prefix |
| `Replica.ApplyKeepsInv` | src/mem/replica.cpp:355-364 | applying up to any target keeps the index equal to the replay of the committed prefix |
| `Replica.ReplayIsTop` | src/mem/replica.cpp:366-377 | naive replay shows, at each block, the highest covering write above any split point, else the replay up to it |
| `ReadLayout.ReadBytesAreReplay` | src/mem/replica.cpp:379-438 | read_range returns byte for byte what naive replay gives |
| `ReadLayout.RangeIsReplay` | src/mem/replica.cpp:379-438 | the same for a byte range |
| `ReadLayout.RangeIsTold` | src/mem/replica.cpp:379-438 | the extents tile the range, data and holes alternate, and a block is in a hole if and only if all its bytes are zero |
| `ReadLayout.ShownPagesOk` | src/mem/replica.cpp:408-427 | every page shown is one block long |
| `MemReplicas.MemReplica.constructor` | src/mem/replica.cpp:51-57 | a replica with nothing journaled or committed meets the replica invariant |
| `MemReplicas.MemReplica.ApplySlot` | src/mem/replica.cpp:343-353 | maps the blocks of data, unmaps those of a zero write |
| `MemReplicas.MemReplica.ApplyUpTo` | src/mem/replica.cpp:355-364 | applies the contiguous prefix, stalling at the first Missing dLSN |
| `MemReplicas.MemReplica.DoWrite` | src/mem/replica.cpp:225-255 | refused in order for a malformed request, another term or a tombstone, and exactly for these, leaving the replica as it was; otherwise the slot is journalled, the piggybacked commit applied up to the first gap, and the reply carries the commit and append dLSNs the replica is left with |
| `MemReplicas.MemReplica.DoRead` | src/mem/replica.cpp:257-269 | refused exactly for a misaligned range, a short destination or another term, leaving replica and destination untouched; otherwise the piggybacked commit is applied first, the bytes are those of naive replay at the horizon, the extents tile the range and are holes exactly where a block is all zeros, and the reply carries the watermarks the replica is left with |
| `MemReplicas.MemReplica.DoKeepAlive` | src/mem/replica.cpp:271-279 | refused exactly for another term, leaving the replica as it was; otherwise the piggybacked commit is applied up to the first gap and the reply carries the watermarks the replica is left with |
| `MemReplicas.MemReplica.HighestSlotLe` | src/mem/replica.cpp:366-377 | the highest tail slot at or below the horizon that covers the block |
| `MemReplicas.MemReplica.ReadRange` | src/mem/replica.cpp:379-438 | fills the destination and returns the maximally coalesced layout |
| `MemReplicas.MemReplica.ResolveLocal` | src/mem/replica.cpp:317-339 | refused exactly for another term; otherwise every dLSN up to upto has an entry and is committed, the holes above the old committed prefix being tombstones and everything else as it was, and exactly the tombstones of that range are reported, in order |
| `MemReplicas.MemReplica.PeekEmpties` | src/mem/replica.cpp:550-558 | every tombstone up to the bound, ascending |
| `MemReplicas.MemReplica.MarkEmpty` | src/mem/replica.cpp:539-548 | an Empty verdict replaces the entry |
| `MemReplicas.MemReplica.InstallSlot` | src/mem/replica.cpp:532-537 | a fetched copy never overwrites |
| `MemReplicas.MemReplica.ApplyLogin` | src/mem/replica.cpp:507-511 | adopts token and term |
| `MemReplicas.MemReplica.ApplyLogout` | src/mem/replica.cpp:512-516 | token and term are cleared, data kept |
| `MemReplicas.MemReplica.TruncateAbove` | src/mem/replica.cpp:517-521 | no entry above the bound stays, everything below does |
| `MemReplicas.EmptiesExact` | src/mem/replica.cpp:324-335 | the local round reports exactly the tombstones of its range |
| `MemTransports.LocalIsRound` | src/mem/replica.cpp:317-339 | a lone replica's round leaves what a cluster round over a set of one leaves |
| `Cluster.RoundClosesGap` | src/mem/cluster.cpp:371-419 | a round closes the gap on every live member and leaves the others alone |
| `Cluster.RoundAt` | src/mem/cluster.cpp:382-413 | what a round leaves at one dLSN of one member: down members untouched, live members hold the settled entry in the scanned range and their old entry outside it, watermarks never fall |
| `Cluster.RoundCommits` | src/mem/cluster.cpp:412-413 | every live member commits through the round |
| `Cluster.RoundSettles` | src/mem/cluster.cpp:388-411 | every live member has each entry, Empty exactly when the verdict says so |
| `Cluster.LiveAgree` | src/mem/cluster.cpp:388-411 | any two live members agree on Empty versus data over the scanned range |
| `MemTransports.MemTransport.Inspect` | src/mem/cluster.cpp:389-402 | a tombstone anywhere decides, else the first copy in member order |
| `MemTransports.MemTransport.Settle` | src/mem/cluster.cpp:388-411 | one dLSN of the scan, verdict and copies, over all live members |
| `MemTransports.MemTransport.CommitFloor` | src/mem/cluster.cpp:382-386 | the lowest committed prefix of the live members |
| `MemTransports.MemTransport.SettleAbove` | src/mem/cluster.cpp:382-411 | floor and scan together settle everything above the shared prefix |
| `MemTransports.MemTransport.RunResolution` | src/mem/cluster.cpp:371-419 | Ok if and only if the caller is up, leads, is asked in the current term and a majority is live; REPLICA_DOWN, NOT_LEADER, STALE_TERM and NO_QUORUM in that order otherwise, with nothing changed; on success the replicas go through an enabled round step of every session they may be in and the list is the caller's tombstones up to upto, ascending |
| `MemTransports.MemTransport.RunLogin` | src/mem/cluster.cpp:338-369 | a down caller, a follower and a minority change nothing and say so; otherwise the term rises by one, every live member is in the new session with its journal intact and applied up to its first gap, and the dLSN returned is the highest any live member appended |
| `MemTransports.MemTransport.RunLogout` | src/mem/cluster.cpp:421-433 | REPLICA_DOWN and NOT_LEADER in that order change nothing; otherwise every live member has neither term nor token, and keeps its data |
| `MemTransports.MemTransport.GatherAppends` | src/mem/cluster.cpp:352-355 | the highest append mark of the live members |
| `PeerEvidence.MissingExact` | src/raft/raft_replica.cpp:193-208 | exactly the absent dLSNs of the range, ascending |
| `PeerEvidence.GetMissingSlots` | src/raft/raft_replica.cpp:193-208 | the hopping loop returns exactly the absent dLSNs in (commit_lsn, watermark] |
| `PeerEvidence.Weigh` | src/raft/raft_replica.cpp:234-254 | lacks-evidence and data for one dLSN, stopping at the first answer that holds it |
| `PeerEvidence.ResolveAndApply` | src/raft/raft_replica.cpp:210-270 | installs what was found, lists what enough members lack, and reports -1 exactly when every dLSN was decided, else the least undecided one |
| `PeerEvidence.ListedExact` | src/raft/raft_replica.cpp:256-258 | the list is exactly the missing dLSNs with enough lacks-evidence |
| `PeerEvidence.MajorityNeverListed` | src/raft/raft_replica.cpp:234-258 | a dLSN a majority holds as data is never listed as Empty |
| `PeerEvidence.InstalledAndListed` | src/raft/raft_replica.cpp:237-258 | one pass leaves a dLSN both in the journal and in the list of Empties if and only if it was missing and a holder answered after enough members that lack it |
| `PeerEvidence.InstalledAndListedHappens` | src/raft/raft_replica.cpp:237-258 | with three members and an empty journal, one answer lacking dLSN 0 followed by one holding it leaves it in both |
| `Crc32c.TableStep` | src/wire.cpp:70-90 | eight register steps are one table lookup xored with the shifted register, for every register value |
| `Crc32c.MakeTable` | src/wire.cpp:72-82 | the nested loops put eight bit-steps of every byte value into the table |
| `Crc32c.Compute` | src/wire.cpp:85-90 | the table-driven loop equals the bit-at-a-time reflected register of section 12.1 of RFC 3720 |
| `Crc32c.DigestNotices` | src/wire.cpp:85-90 | strings that differ in exactly one byte have different digests |
| `Crc32c.CheckValue` | test/test_wire.cpp:200-203 | the digest of the digits one to nine is the check value 0xE3069283 |
| `Crc32c.Castagnoli` | src/wire.cpp:70-82 | the polynomial is 0x1EDC6F41 with its bits reversed |
| `Wire.ParseFramed` | src/wire.cpp:92-138 | a frame followed by any suffix parses to what was framed and its exact length |
| `Wire.PrefixIncomplete` | src/wire.cpp:94-110 | every strict prefix of a frame is incomplete |
| `Wire.ParseOwnBytes` | src/wire.cpp:92-127 | a parsed message parses the same from its own bytes alone |
| `Wire.CorruptBodyRejected` | src/wire.cpp:117-121 | with the data digest on, one changed body byte is rejected as bad_digest |
| `Wire.CorruptHeadRejected` | src/wire.cpp:112-116 | with the header digest on, one changed byte of the two headers is never accepted, provided the op byte does not come to name an op with a header of another size; it is bad_digest unless the byte belongs to the op or the body length |
| `Wire.CorruptOpAccepted` | src/wire.cpp:99-116 | the proviso is needed: writes whose header contains the right four bytes are accepted as a helo when their op byte changes |
| `Wire.HeaderRefused` | src/wire.cpp:99-103 | unknown_op, a body above max_tx and a body on an op that has none are refused on the first eight bytes |
| `Wire.WriteTravels` | src/wire.cpp:92-127 | a write frame with any 40-byte header and payload within max_tx parses back to both |
| `Wire.OpHeaderSizes` | src/wire.cpp:24-52 | every operation header has the size of its packed struct |
| `Wire.HeaderLayout` | include/craft/wire.hpp:107-112 | op, status, request id and body length are at offsets 0, 1, 2 and 4 of the message header |
| `Wire.LittleEndian` | include/craft/wire.hpp:48-52 | numbers travel lowest byte first |
| `SparseReply.DescLayout` | include/craft/wire.hpp:179-184 | address, length and hole flag of an extent are at offsets 0, 8 and 16 |
| `StreamRead.RspLayout` | include/craft/wire.hpp:171-176 | commit dLSN, append dLSN and extent count of a read reply are at offsets 0, 8 and 16 |
| `Wire.Parse` | src/wire.cpp:92-127 | a message is never longer than the buffer it was parsed from |
| `Wire.HeaderBack` | include/craft/wire.hpp:334-348 | decoding undoes encoding of the message header |
| `Wire.FrameMessage` | src/wire.cpp:129-138 | appends exactly the frame |
| `Conn.FrameArrives` | src/net/conn.cpp:201-209 | a buffer shorter than the next frame is incomplete, a longer one yields it |
| `Conn.CraftConn.RecvMessage` | src/net/conn.cpp:197-225 | returns the next legal frame whole however it was cut and keeps the bytes past it; the result is Closed if and only if the stream ends before anything but an incomplete message has come; pending bytes are conserved in exactly the other cases, and in this one the bytes received are followed by one receive buffer of zeroes |
| `Conn.ClosedAtOnce` | src/net/conn.cpp:212-220 | a connection closed before anything arrived is left with exactly those zeroes |
| `Conn.RecvFrames` | src/net/conn.cpp:197-225 | any concatenation of legal frames in arbitrary non-empty chunks comes out as the same frames in order |
| `SparseReply.DescBack` | include/craft/wire.hpp:179-184 | decoding undoes encoding of an extent descriptor |
| `SparseReply.TableBack` | src/wire.cpp:175-181 | decode_extents undoes the extent table |
| `SparseReply.DecodedSmall` | src/wire.cpp:175-181 | whatever the bytes, the table decodes to 64-bit values |
| `SparseReply.BuildBody` | src/net/cluster_server.cpp:325-339 | the body is the table followed by the packed data extents |
| `Scatter.ScatterInBounds` | src/wire.cpp:183-195 | for all 64-bit values an extent that passes the plan stays inside the destination |
| `Scatter.PlanScatter` | src/wire.cpp:183-195 | accepts exactly when every extent is in range, and splits data from holes in order |
| `Scatter.FillFromReply` | src/net/wire_client.cpp:146-160 | accepted exactly when the table is whole, every extent is in range and the packed bytes are all there; nothing outside the request is ever touched; an honest body rebuilds the image byte for byte |
| `Scatter.ScatterData` | src/net/wire_client.cpp:151-158 | accepted exactly when the packed bytes suffice; bytes of an image land where the targets say and nothing else changes |
| `Scatter.ScatterHoles` | src/net/wire_client.cpp:159-160 | zeroes the holes and nothing else |
| `ReplyRoundTrip.ServerIsHonest` | src/net/cluster_server.cpp:325-339 | the body built from a read's layout describes exactly its bytes |
| `ReplyRoundTrip.ServerReply` | src/net/cluster_server.cpp:311-339 | the server passes on the replica's refusal, else applies the commit and its body describes exactly the bytes shown; past 2^64 its first descriptor still starts at the request |
| `ReplyRoundTrip.RemoteRead` | src/net/wire_client.cpp:126-164 | replica, server body and client scatter together, for all 64-bit ranges: every refusal leaves everything untouched; a range past 2^64 is refused by the client with its buffer untouched; otherwise the destination holds, byte for byte, what naive replay of the journal gives |
| `StreamRead.ReadOverStream` | src/net/wire_client.cpp:126-164 | the same through the byte stream, however the network cuts the reply up: framed and digested by the server, reassembled, parsed, decoded and scattered by the client; a refusal comes back as its status byte, the watermarks of the replica come with it, and exactly the reply is taken off the stream |
| `StreamRead.ServeRead` | src/net/cluster_server.cpp:298-341 | the server sends one legal frame whose status is that of the refusal, whose header carries the watermarks and the extent count, and whose body, within the framing bound, describes exactly the bytes shown |
| `StreamRead.ReceiveRead` | src/net/wire_client.cpp:136-164 | from a legal reply in any chunks: a refusal leaves the destination alone, an acceptable body is filled in, any other is malformed; the stream is left empty |
| `StreamRead.EveryCut` | src/net/conn.cpp:197-225 | every sequence of non-empty chunks no larger than the receive buffer is one of the cuttings the stream read is proved for |
| `StreamRead.RspBack` | include/craft/wire.hpp:171-176 | the op header of a read reply decodes to the extent count, and to the signed watermarks, it was encoded from |
| `StreamRead.StatusBack` | include/craft/status.hpp:32-62 | every error but a timeout comes back from its status byte as itself |
| `StreamRead.StatusCodes` | include/craft/status.hpp:31-62 | the status bytes are those of the wire format, and an unknown one reads as REPLICA_DOWN |
| `ReplyRoundTrip.BodyFits` | include/craft/wire.hpp:186-195 | the body never exceeds framed_body_max while that 32-bit sum does not overflow |
| `Watchdog.OneCurrentEntry` | src/watchdog.cpp:16-55 | every registered timer that is not running has exactly one heap entry of its current generation, at its deadline |
| `Watchdog.NoPopAfterCancel` | src/watchdog.cpp:29-35 | no pop decides for a timer that was cancelled |
| `Watchdog.NoPopBeforeDeadline` | src/watchdog.cpp:76-81 | no pop decides before the deadline its timer has then |
| `Watchdog.NoPopBeforeReset` | src/watchdog.cpp:16-27 | after a reset no pop decides before a whole period has passed |
| `Watchdog.NoPopBeforePeriod` | src/watchdog.cpp:92-100 | a recurring timer left alone while its callback ran is not popped again before a whole period after the callback returned |
| `Watchdog.PopsAPeriodApart` | src/watchdog.cpp:74-100 | two consecutive pops of a recurring timer that nobody resets or cancels in between are at least a period apart |
| `Watchdog.DueFires` | src/watchdog.cpp:63-86 | a registered timer that is due fires as soon as the worker is free and nothing is due before it |
| `Watchdog.BeginsAfterCancelExactly` | src/watchdog.cpp:29-35 | after cancel() returned the callback is still entered if and only if its entry was popped and the callback not entered at that moment |
| `Watchdog.BeginsAfterResetExactly` | src/watchdog.cpp:16-27 | the same for reset() and the deadline before it |
| `Watchdog.BeginsAfterCancel` | src/watchdog.cpp:76-89 | a concrete run in which a callback is entered after cancel() returned |
| `Watchdog.BeginsAfterReset` | src/watchdog.cpp:76-89 | a concrete run in which a callback is entered after reset() returned, before the new deadline |
| `Watchdog.ResetKeptExactly` | src/watchdog.cpp:92-103 | a timer whose reset() succeeded and that is then left alone stays registered, except exactly a one-shot that was popped or running at the reset, once its callback returns |
| `Watchdog.ResetLost` | src/watchdog.cpp:92-103 | a concrete run in which such a one-shot is lost |
| `Watchdog.WatchdogTimers.AddTimer` | src/watchdog.cpp:37-55 | an id never used before, with one heap entry at its deadline; the timer invariant holds |
| `Watchdog.WatchdogTimers.ResetTimer` | src/watchdog.cpp:16-27 | the old entry goes stale and one new entry is current; the invariant holds |
| `Watchdog.WatchdogTimers.CancelTimer` | src/watchdog.cpp:29-35 | the timer is unregistered, so its entries are all stale; the invariant holds |
| `Watchdog.WatchdogTimers.TakeDue` | src/watchdog.cpp:63-86 | nothing happens before the earliest deadline; else the earliest entry is popped and a callback starts if and only if that entry is current, and then it is due |
| `Watchdog.WatchdogTimers.EnterCallback` | src/watchdog.cpp:88-90 | entering the callback, without the lock, changes nothing others see; the timer invariant holds |
| `Watchdog.WatchdogTimers.CallbackDone` | src/watchdog.cpp:92-103 | a one-shot is unregistered; a recurring timer that was not reset or cancelled meanwhile is armed one period after now; anything else is left; the invariant holds |

## Left out

- Reconciliation of a member that was down for a round or a login: the source has no resync, so a fresh session starts with every member at the new term and no stale tail, and serving theorems need rounds that declare an Empty to reach every member.
- Finer interleavings inside one login or one resolution round, and between a round and the retire of its reply; `FillRace` takes the accesses of a retire one by one, on the client alone.
- `resolve()` is one step of the session machine; its completion bit, frontier load and compare-and-swap are separate steps only in `FrontierRace`, and the compare-and-swap loop that raises Ha is one assignment.
- A completion, a fill and a watermark report are one step of the session machine; the accesses of the first two are separate only in `CompletionRace` and `FillRace`. A report is placed where it stores the watermark: the erase that follows under the same lock only removes marks. The first check of `eligible()`, on a watermark that never falls, is taken together with its map read.
- Acquire/release orderings and fences: interleavings are sequentially consistent.
- `StreamTracker` and boost.icl are modelled as a map with a completed set and as a map from byte to dLSN; truncation of the tracker's resolved slots is omitted.
- `note_filled` on a dLSN whose router slot does not exist yet is taken to do nothing.
- Clocks, sockets, io_uring, coroutines, thread pools and ring affinity: time and received chunks are inputs, a leg's result is an ack, a deterministic reject or a timeout with possible late delivery.
- The RAFT plane (login handshake, log store, state machine and manager) and the peer codec.
- `put_member`, `decode_members`, `decode_lsns` and the other fixed message layouts: easier instances of the same framing.
- The admission probe of `login()` and its deadline; its outcome is the anchor member of a fresh session.
- ReplyRoundTrip.BodyFits: one direction only; beyond it the 32-bit bound has itself wrapped.
- Scatter-gather lists: a destination is one contiguous buffer.
- The keep_alive cadence, the read rotor's thread-local state, the fold batch size, metrics, logging, fault-injection knobs and builders.
- Journal reclaim below the floor: the source computes the floor and does not reclaim.
