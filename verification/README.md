# Durable actors: a verified model

This project models how Little Actors keeps the state of an actor durable, and proves what its
documentation promises: once a caller has been told that an operation completed, no crash, lost
reply, replica failure or change of owner makes the actor forget it.

The model follows the system's own parts.

| file | models |
|---|---|
| `Names.dfy`, `ActorNames.dfy` | object names: actor, owner epoch and state version, written and read back |
| `Snapshots.dfy`, `Witnesses.dfy` | snapshots, references, positions and the fold of recovery witnesses |
| `ReplicaViews.dfy`, `Activation.dfy` | the protocol of one activation as a state machine |
| `ActivationInvariant.dfy`, `ActivationSafety.dfy` | what every event keeps, and what that means for every run |
| `Takeover.dfy`, `TakeoverProgress.dfy` | the chain of activations of one actor across owners, and that a takeover can finish |
| `ProtocolGaps.dfy` | three runs that fall short of the promise, with the exact conditions |
| `ReplicaDisk.dfy`, `StreamOrder.dfy`, `ReplicaStore.dfy`, `StoreRefinement.dfy` | the replica store over a directory that keeps any part of what was not synced when power fails |
| `Recovery.dfy`, `RecoveryRefinement.dfy` | reading the newest state back, and sealing |
| `BucketObjects.dfy`, `FileBucket.dfy` | conditional writes with ambiguous replies |
| `Replication.dfy` | parallel writes and the replacement of a replica set |
| `ActorRuntime.dfy`, `RuntimeRefinement.dfy`, `Admission.dfy` | the commit machine of one actor and its admission loop |
| `LeaseFence.dfy` | how a host's authority ends |
| `ExecutorDriver.dfy`, `HostDispatcher.dfy`, `Sockets.dfy`, `SpareHandles.dfy` | the machines around it |

## How the protocol is modelled

An `Epoch` is one activation: a serial writer, a bucket that never replaces a snapshot, replicas
with a volatile and a synced view, the session record with its generation, replacements of that
record that are still in flight, and any number of concurrent recoveries. Every event is atomic.
A snapshot that was ever issued may reach the bucket or a replica at any later time and any number
of times, which covers lost replies, ambiguous errors and detached writes that finish late. A
crashed replica comes back with any view between what was synced and what it last showed. A `Chain`
is the sequence of activations; old owners go on acting while new ones start.

A version is acknowledged once the bucket or every replica in use has confirmed it to the writer
(`committed`); it is answered once a client was told that its request completed (`answered`).
Everything answered is acknowledged, not the other way round: a later request may resolve a pending
write and then fail. A recovery owes what was acknowledged when it began (its `floor`).

A snapshot stands for its encoded bytes, the encoding being a deterministic injective pair. SHA-256
is an injective constructor; the first byte of the digest of an actor key is a parameter. Base64url
(section 5 of RFC 4648) is modelled character by character. Clocks, the network, the executor, the
provisioner and every failure are inputs or free choices.

A replica's directory is a durable part and the operations since the last sync. A power failure
keeps any subset of these, in their order: a removal may survive a rename that came before it. Every
state the directory goes through is kept in a log that syncs do not reset, and an operation's crash
clauses are about all of it. Such a state is sturdy if every blob that a durable or pending head
names is durable and spared by what is pending; `SurvivorsAreOk` says what that is good for.

The runtime keeps a ghost account of its steps: what it issued, what it counts as durable, what it
answered and when its authority ended. `StoreRefinement`, `RecoveryRefinement` and
`RuntimeRefinement` tie the imperative parts to the protocol: a directory is a replica, a fold is a
reader, and the runtime's account is that of the protocol's writer, step by step and over whole runs.

## Where the code falls short

Six promises do not hold as stated. For each, the project shows where it fails and exactly when it
holds.

- The admission loop checks authority before it resolves what is pending and not again before it
  answers a repeated request (src/host/actor_host/admission.rs:84-99). If the lease lapses during
  that write, a caller can be told `Completed` for a version the next owner lacks. `Admit` says that
  an answer is not backed by the protocol exactly if something was pending that was not known
  durable at the check and authority lapsed while it was written; `LateAnswerCanBeLost` is the run.
  `AcknowledgedSurvivesExactly` says which acknowledged versions every later owner starts with.
  Every other path to `Completed` checks again, and is proved to be an answer of the protocol.
- A recovery that is neither a takeover nor made by the current owner lists the bucket before it
  reads the session record. If a takeover seals the session in between, the recovery asks no replica
  and can return less than was acknowledged. `FallsShortExactlyWhenSealedAfterListing` gives the
  exact condition, `OverlappingRecoveryCanBeStale` the run.
- `replace` also succeeds when its swap had no effect but the object read back already holds the same
  bytes. The session record has no nonce, so a replacement to the set that is already recorded can
  succeed without moving the generation, and an older replacement of that generation can still
  land, before or after the set is taken into use. `ConfirmedSetStaysRecorded` gives the exact condition, over every run from the confirmation
  to the next repair; `RivalReplacementCanLoseState` gives the run, in both orders. `Possible` is what the
  code may do and `Enabled` adds this one condition, at the confirmation; the safety theorems are
  about runs of enabled events. Ownership records carry a nonce, and for them
  `DistinctContentsExclude` holds.
- The replica store's restart prunes blobs before it syncs the directory. If the store had stopped
  between the rename of a head and the sync after it, a power failure during the restart can keep
  the removal of the old blob and lose the rename: the old head is reported without its blob
  (`RestartPruningCanLoseHead`). `PruningIsSafeIff`
  gives the exact condition, and `Restore` is crash safe under it. Every other operation survives
  every reordering, and after a power failure so does the restart.
- State effects that the executor publishes while it runs carry versions nobody checks, so a socket
  can be sent an older version after a newer one (`UncheckedVersionCanGoBack`). `ApplyKeepsOrder`
  states the exact condition under which the order is kept; versions that never go back, as those
  the host stamps, keep it over every run (`StampedStateArrivesInOrder`).
- A sandbox handle can be detached and held at once (`KeepTwice`); `Keep` says that this happens
  exactly if an open cache is given a handle that was kept before and not handed out since.

## Model

| member | source | states |
|---|---|---|
| `Takeover.NothingAcknowledgedIsLost` | src/bucket/runtime.rs:305-363 | from the actor's first activation on, over every run with any number of owners, crashes, lost replies and late writes: what an owner had acknowledged is reached by every later recovery of its activation and, if it had authority then or no takeover had listed without it, by every recovery of every later activation; what it had answered is reached by all of them in any case (unless the session was sealed after the recovery's listing); what is returned was stored with exactly those bytes |
| `ActivationInvariant.EventKeepsInv` | src/bucket/runtime.rs:305-390 | every event of an activation keeps the invariant: committed state is in the bucket or on every recorded replica, and every recovery in progress can still reach what it must |
| `ActivationInvariant.CommitIsDurable` | src/replication/transport.rs:88-180 | a write counts as committed only when the bucket or every member of the recorded set holds it, whatever is in flight |
| `ActivationInvariant.ReplicaEventKeepsInv` | src/replication/store.rs:267-297 | appends, confirmations, sealing, syncs and crashes of a replica in any order keep the invariant |
| `ActivationInvariant.StepKeepsSafety` | src/bucket/runtime/session.rs:73-130 | registering, replacing, recovering and sealing the session record loses no committed state |
| `ActivationInvariant.DeliverKeepsSafety` | src/bucket/runtime/repair.rs:137-191 | a replacement of the replica set that lands late loses no committed state |
| `ActivationSafety.RunKeepsInv` | src/bucket/runtime.rs:305-390 | the invariant holds after every run of events, of any length |
| `ActivationSafety.RecoveryReachesAcknowledged` | src/bucket/runtime.rs:305-363 | a finished recovery returns at least what the bucket or all replicas had acknowledged when it began, whichever non-empty set of replicas answered, unless the session was sealed after its listing |
| `ActivationSafety.LaterRecoveryReachesAcknowledged` | src/replication/transport.rs:88-180 | over any run of one activation, a recovery that begins after a version was acknowledged returns it or a later one |
| `ActivationSafety.FallsShortExactlyWhenSealedAfterListing` | src/bucket/runtime.rs:310-352 | over any run, a recovery returns less than was acknowledged if and only if its listing did and it then found the session sealed |
| `ActivationSafety.TakeoverReachesAcknowledged` | src/bucket/runtime/activation.rs:20-38 | a takeover returns everything acknowledged when it began, which is at least everything its predecessor ever answered, and the predecessor can answer nothing more |
| `ActivationSafety.AuthorizedReadReachesAcknowledged` | src/host/storage.rs:165-184 | a recovery by a host that still holds its lease afterwards returns everything acknowledged before it began, with no further condition |
| `ActivationSafety.RecoveryReturnsIssued` | src/bucket/runtime.rs:333-382 | a recovery returns the activation's base or a snapshot with exactly the bytes the writer issued, never an invented or mixed one |
| `ActivationSafety.RecoveryReturnsLastOrPending` | src/bucket/runtime/session.rs:60-71 | every finished recovery, takeover or not, that was not sealed after its listing returns a state between the one acknowledged last when it began and the one issued last; with nothing acknowledged meanwhile, the last acknowledged state or the single pending one |
| `ActivationSafety.LaterRecoveryReturnsLastOrPending` | src/bucket/runtime.rs:305-390 | the same over any run from a state before the recovery began |
| `ActivationSafety.WitnessesNeverConflict` | src/bucket/runtime.rs:478-494 | no recovery ever fails on conflicting witnesses |
| `ActivationSafety.LaterRecoveryIsNotOlder` | src/bucket/runtime.rs:365-390 | a recovery that begins after another has finished, under the same ownership record, never returns an older version |
| `ActivationSafety.SealFreezes` | src/replication/store.rs:104-121 | a replica that was durably sealed keeps its head through every later event, crashes included |
| `ActivationSafety.SealCapsReplicaCommits` | src/replication/store.rs:267-297 | a sealed replica's head caps every version its set can ever have committed through replicas |
| `Takeover.StartIsOk` | src/bucket/runtime/activation.rs:39-56 | the first activation of an actor meets the chain's invariant |
| `Takeover.EventKeepsChain` | src/bucket/runtime/activation.rs:5-56 | every event of any owner, old or current, and every takeover keep the invariant of the whole chain |
| `Takeover.FollowKeepsChain` | src/bucket/runtime/activation.rs:5-56 | the chain's invariant holds after every run with any number of takeovers |
| `Takeover.LaterOwnersStartHigher` | src/bucket/runtime/activation.rs:39-52 | every later owner starts at or above everything any earlier owner answered |
| `Takeover.AnsweredStateSurvives` | src/bucket/runtime/activation.rs:20-38 | whatever follows, with any number of takeovers, no later owner starts below what an owner had answered at any point |
| `Takeover.AcknowledgedSurvivesExactly` | src/bucket/runtime/activation.rs:20-56 | what an owner has acknowledged is reached by every later owner in all that can follow, if and only if the next owner started with it or, while there is none, no takeover has listed the bucket without reaching it |
| `Takeover.AuthorityCarries` | src/host/storage.rs:165-184 | an owner with authority always meets that condition |
| `TakeoverProgress.TakeoverCanFinish` | src/bucket/runtime/activation.rs:5-38 | from every safe state without authority, one initialized replica of the recorded set is enough for some run in which a takeover seals the session and finishes, with at least what was acknowledged |
| `TakeoverProgress.CollectedStays` | src/bucket/runtime/session.rs:73-188 | the sealed replicas a recovery collected stay as they were through every run, and their newest head can always be restored, so the recovery can finish with it unless another has |
| `Takeover.VersionsAreNotReused` | src/bucket/runtime/activation.rs:39-52 | every version a later owner issues is above everything an earlier owner answered |
| `ProtocolGaps.OverlappingRecoveryCanBeStale` | src/bucket/runtime.rs:312-352 | a run in which a plain recovery returns less than was acknowledged before it began |
| `ProtocolGaps.ConfirmedSetStaysRecorded` | src/host/replication.rs:145-168 | over every run from the moment `replace` confirms a set until the next repair, whatever lands late and whenever the set is taken into use, the record names that set if and only if no rival replacement of this generation was in flight at the confirmation |
| `ProtocolGaps.RivalReplacementCanLoseState` | src/bucket/runtime/repair.rs:157-186 | runs in which a rival replacement lands late, before or after the set is taken into use, and acknowledged state is lost |
| `ProtocolGaps.LateAnswerCanBeLost` | src/host/actor_runtime.rs:122-158 | a run in which a takeover finishes without a version that then becomes durable after authority has lapsed, so that answering its request would report state the next owner lacks |
| `Witnesses.FoldDominates` | src/bucket/runtime.rs:478-494 | a fold that succeeds ends at one of the witnesses, and that one has the greatest position |
| `Witnesses.ArrivalOrderDoesNotMatter` | src/bucket/runtime.rs:341-348 | two arrival orders of the same witnesses that both succeed give the same snapshot |
| `Witnesses.TopConflictFails` | src/bucket/runtime.rs:478-494 | two different witnesses at the greatest position fail the fold in every order |
| `Witnesses.ConflictHasWitnesses` | src/bucket/runtime.rs:478-494 | a fold fails only if two of the witnesses differ at one position |
| `Witnesses.CleanTopSucceeds` | src/bucket/runtime.rs:478-494 | without such a conflict some order succeeds |
| `Recovery.NewestKey` | src/bucket/runtime.rs:312-321 | the newest listed key of the epoch, or none if there is none |
| `Recovery.LoadListed` | src/bucket/runtime.rs:322-332 | the newest listed snapshot, of the epoch and version its name says, or what is known; fails only if that object is missing, does not decode or is another snapshot |
| `Recovery.RecoverSnapshot` | src/bucket/runtime.rs:365-390 | succeeds exactly if the bucket has the object with the digest of the reference or, if it has none, the first replica that answers has such bytes; the bucket then has them and nothing stored before changed |
| `Recovery.FoldHeads` | src/bucket/runtime.rs:336-352 | succeeds exactly if every answer is for this stream, the fold has no conflict and, with replicas, somebody answered; the result is what it started from or a head some replica answered with, and at least as new as every such head |
| `Recovery.FoldStream` | src/bucket/runtime/session.rs:165-180 | one more reported head: its stream's entry dominates it and all before it, or it is misnamed or contradicts an earlier one |
| `Recovery.Latest` | src/bucket/runtime.rs:305-363 | the result is the base, the newest listed snapshot or a head some replica answered with, is at least as new as the base, every listed object and every head answered with, and has the digest of its reference; a failure has one of five causes, each in terms of what was listed and answered |
| `Recovery.SealReplicas` | src/bucket/runtime/session.rs:147-188 | success means that some replica is initialized and sealed, or none was asked; each stream then has a head reported by such a replica, at least as new as all of them, and all are of this session and well named; a failure means an answer for another session, a misnamed head, two such heads that differ at one position, or no such replica |
| `RecoveryRefinement.ReaderFolds` | src/bucket/runtime.rs:333-348 | the protocol's reader, taking one witness at a time, ends where the recovery code's fold does |
| `RecoveryRefinement.RepliesAreRead` | src/bucket/runtime.rs:333-352 | answers read off the replicas make a run of the protocol in which the reader asks them one by one: the fold never conflicts and ends at the candidate of that reader |
| `RecoveryRefinement.SealingFinishesRecovery` | src/bucket/runtime/session.rs:147-188 | a successful sealing, over answers read off the replicas' disks, is what the protocol's recovery step asks for: with the newest head in the bucket it can finish with these witnesses |
| `RecoveryRefinement.SealedTop` | src/bucket/runtime/session.rs:147-188 | what sealing returns for the activation's stream is the newest head among the replicas that answered and are initialized and sealed |
| `RecoveryRefinement.HeadsArePositioned` | src/bucket/runtime.rs:496-501 | in every safe state a replica's head is at the position its version says, as `SealedTop` asks |
| `ReplicaDisk.SurvivorsAreOk` | src/replication/store.rs:228-355 | whichever operations since the last sync a power failure keeps, every head left has its blob with the matching digest and prefixes stay apart |
| `ReplicaDisk.CrashLeavesBetween` | src/replication/store.rs:228-355 | whichever operations a power failure keeps, every stream shows a view between the synced and the last one |
| `ReplicaDisk.DroppingNamedBreaks` | src/replication/store.rs:335-355 | removing a blob that a durable or pending head names always admits a power failure that leaves a head without its blob |
| `ReplicaStore.Store.Put` | src/replication/store.rs:228-254 | a blob is stored once, within capacity and 64 bits, or matched byte for byte; on success it is durable |
| `ReplicaStore.Store.SaveHead` | src/replication/store.rs:323-333 | a head whose blob is stored becomes durable; every state on the way is sturdy and holds the old head or the new one |
| `ReplicaStore.Store.PruneStream` | src/replication/store.rs:335-355 | only blobs of the stream other than its head go, and all of them; `used` never underflows and no head changes in any state on the way; unless the head was replaced since the last sync, every such state survives every power failure |
| `ReplicaStore.PruningIsSafeIff` | src/replication/store.rs:335-355 | what pruning removes is named by no durable or pending head, of this or any other stream, if and only if the stream's head was not replaced since the last sync |
| `ReplicaStore.RestartPruningCanLoseHead` | src/replication/store.rs:222-226 | the run behind that condition: a head renamed but not synced, its predecessor pruned by a restart, and a power failure after which the old head is reported and its blob is gone |
| `ReplicaStore.Store.Advance` | src/replication/store.rs:286-296 | a higher version: blob, then head, then pruning; succeeds exactly if there is room, and every state on the way is sturdy and a stage of this append |
| `ReplicaStore.Store.Append` | src/replication/store.rs:267-297 | accepted exactly when the bytes decode to a snapshot of the stream's epoch above its base version, the protocol's view allows it and there is room; then the head, with the name, version, request and digest of those bytes, is durable and the only blob of its stream; every state on the way is sturdy and a stage of this append, so that nothing but old and new heads is ever pending; a store within capacity stays within it |
| `ReplicaStore.StageCrash` | src/replication/store.rs:267-355 | a power failure at any stage of an append, whatever it keeps, leaves the heads it could have left before, those in use when the append began, or these with the new head |
| `ReplicaStore.OverlappingPrefixLosesHead` | src/replication/store.rs:335-344 | why prefixes must be apart: pruning a stream would remove the head of every stream whose prefix extends its own |
| `ReplicaStore.AppendCrashReopen` | src/replication/store.rs:144-355 | an append, a power failure at any of its states that keeps any of the operations not synced, and a restart that may itself stop part-way: the stream shows the new head, the head it showed when the append began, or what a failure before the append could have left; every other stream one of the last two; every head has its blob, and the store survives the next failure too |
| `ReplicaStore.Store.InitializeSession` | src/replication/store.rs:75-84 | a session that is not sealed becomes initialized durably; no head and no other session changes, and every state on the way is sturdy |
| `ReplicaStore.Store.SealSession` | src/replication/store.rs:104-121 | the session is sealed durably, exactly the heads of its streams are reported, once each and in the order of their prefixes, and no append to it is accepted any more |
| `StreamOrder.LessIsLexicographic` | src/replication/store.rs:116-117 | the order of prefixes is by the first character that differs, a prefix coming first |
| `ReplicaStore.Store.SaveSession` | src/replication/store.rs:311-321 | a session mark becomes durable; every state on the way is sturdy and holds the session as it was or as it is |
| `ReplicaStore.Store.HeadOf` | src/replication/store.rs:92-102 | the head the protocol sees, for a session that exists and the stream stored under the prefix |
| `ReplicaStore.Store.Read` | src/replication/store.rs:132-142 | the bytes of every stored head are there and match its digest |
| `ReplicaStore.Count` | src/replication/store.rs:216-220 | the sizes of all blobs, or an error exactly if 64 bits cannot hold them |
| `ReplicaStore.Store.Scan` | src/replication/store.rs:168-221 | memory after a restart matches the directory, with every byte counted; fails exactly if a file is malformed or 64 bits cannot hold the total |
| `ReplicaStore.Store.Restore` | src/replication/store.rs:168-226 | a restart keeps every head and session even where it stops part-way; unless a directory operation fails, it succeeds exactly if no file is malformed and 64 bits hold the total; then memory matches the directory, with every byte counted and every stream pruned; unless a head was replaced since the last sync every state on the way is sturdy |
| `StoreRefinement.CrashRefines` | src/replication/store.rs:144-226 | a power failure that keeps any of the pending operations, and the store opened on what is left, are a crash and a sync of the protocol's replica |
| `StoreRefinement.MovingRefines` | src/replication/store.rs:323-333 | an append that moved the head, durable or not, is the protocol's append |
| `StoreRefinement.AppendRefines` | src/replication/store.rs:267-297 | a successful append of the store is the protocol's append and confirmation |
| `StoreRefinement.IssuedIsAccepted` | src/replication/stream.rs:43-54 | the converse: in every safe state a store takes an issued version exactly if it is valid and the protocol's append allows it there |
| `StoreRefinement.RuntimeVersionIsAccepted` | src/replication/store.rs:267-297 | whatever the runtime issued is valid, so for it only the view decides |
| `StoreRefinement.EmptyIsFresh` | src/replication/store.rs:299-309 | an empty directory is a fresh replica, neither initialized nor sealed, and a mark shows in its own session alone |
| `StoreRefinement.SealedHeadIsRecoverable` | src/bucket/runtime.rs:365-390 | once a replica is durably sealed, its store has the bytes of that head after every further run and every power failure, so a recovery that hears from it first can restore them |
| `BucketObjects.RunKeepsInv` | src/bucket.rs:35-58 | over any run with late, repeated and lost requests, a call of `replace` that returned true had its bytes stored, and generations are only added |
| `BucketObjects.DistinctContentsExclude` | src/bucket/runtime/activation.rs:143-156 | with bytes no other call writes, a call that returned true won exactly the generation it expected, and no other call did |
| `BucketObjects.WriteOnce` | src/bucket/runtime.rs:384-390 | an object that is only ever created holds, for good, the bytes of every call that returned true |
| `BucketObjects.EqualBytesConfirmTwice` | src/bucket.rs:45-56 | two calls with equal bytes can both return true for one generation |
| `BucketObjects.IdenticalRetryConfirms` | src/bucket/runtime.rs:384-390 | over any run in which calls only create, once the bytes are stored a retry with the same bytes can always return true: a recovery's repair write never blocks the writer's identical retry |
| `FileBucket.Bucket.CompareAndSwap` | src/bucket/file.rs:40-67 | the bytes become the next generation exactly if the key is valid, the generation is the expected one, its successor fits and the request does not fail; an error leaves open whether they did, any other answer does not |
| `FileBucket.ValidKeyStaysInside` | src/bucket/file.rs:81-90 | a key is valid exactly if it has no backslash, does not end with a slash and no part of it begins with a slash or a dot |
| `FileBucket.Bucket.Replace` | src/bucket.rs:35-58 | true means that the bytes were stored since the object's last state before the call, even if replies were lost and others wrote meanwhile; a write that works returns true, and if others only create so does one whose reply was lost, and a retry of what is already stored even if it fails, as long as the object can be read back |
| `Replication.Replicate` | src/replication/transport.rs:143-180 | succeeds exactly if every replica confirmed |
| `Replication.Race` | src/replication/transport.rs:88-125 | succeeds exactly if the bucket or the replicas did, and reports one that did |
| `Replication.ActorReplication.Send` | src/bucket/runtime/repair.rs:212-231 | succeeds exactly if every member answers; exactly those that answer hold the version, or the later one they had |
| `Replication.ActorReplication.WriteNext` | src/host/replication.rs:188-205 | succeeds exactly if the upload did or replication is enabled and every enabled replica answered; every acknowledged version is in the bucket, or every recorded replica holds it or a later one; a failed version, wherever it may have landed, is the next to be written |
| `Replication.ActorReplication.Repair` | src/host/replication.rs:138-183 | replacing the replica set, with writes going on, never loses an acknowledged version and ends; it succeeds exactly if the targets answered every round, the record names them, by this swap or before, and the caller learned of it; it enables only a recorded set that holds the last acknowledged version |
| `ActorRuntime.AttemptsAgree` | src/host/actor_runtime.rs:687-718 | all write attempts ever made for one version carry the same name and the same bytes |
| `ActorRuntime.CommitsRiseByOne` | src/host/actor_runtime.rs:687-718 | after every run of the runtime's steps the next commit is the version after the last one |
| `ActorRuntime.FromLoaded` | src/host/actor_runtime.rs:937-956 | a stored snapshot becomes the cache exactly if it decodes, has the expected version and is of no later epoch; request and result are kept for replay |
| `ActorRuntime.StoredReadsBack` | src/state_log.rs:52-86 | a snapshot reads back as itself exactly if its version and epoch are positive, its request ID has 1 to 255 characters and its state is an object of at most 16 MiB |
| `ActorRuntime.Runtime.TakeOrLoad` | src/host/actor_runtime.rs:472-497 | the cache if there is one, else what is stored, decoded and checked; a store that cannot be read or does not match gives nothing |
| `ActorRuntime.Runtime.PrepareWrite` | src/bucket/runtime.rs:269-303 | a ticket names the next version, its object and the activation's stream |
| `ActorRuntime.Runtime.NextTicket` | src/host/actor_runtime.rs:641-669 | the ticket is for the next version of this activation and lasts beyond the safety margin; a chained one that does is used |
| `ActorRuntime.Runtime.TryWrite` | src/host/actor_runtime.rs:801-804 | one attempt for the pending version, with its bytes and its name; only a success counts as durable |
| `ActorRuntime.Runtime.Renew` | src/host/actor_runtime.rs:784-800 | succeeds exactly if the ticket outlasts the safety margin or a new one is granted; afterwards it does, for the same stream, object and bytes, and one that did is kept |
| `ActorRuntime.Runtime.FinishPending` | src/host/actor_runtime.rs:775-821 | resolves the pending commit, exactly under the stated conditions, without issuing anything; afterwards the cache shows it; a failure leaves the same snapshot pending |
| `ActorRuntime.Runtime.Publish` | src/host/actor_runtime.rs:627-718 | issues the next version only when nothing is pending, for this request, result, state and attribution; succeeds exactly if there is a ticket that lasts, the snapshot can be stored, the write reports success and there is a version after it; what was issued but not confirmed stays pending with the same content |
| `ActorRuntime.Runtime.Prepare` | src/host/actor_runtime.rs:122-158 | a repeated request, cached or reloaded, is answered exactly if authority held and what is pending resolves, with the stored result and no execution; the answer is one the protocol knows if and only if the state was known durable at the check or authority still holds once the pending write is |
| `ActorRuntime.Runtime.CompleteWith` | src/host/actor_runtime.rs:440-470 | answers exactly if authority holds and a needed notification is sent; exactly a notifying completion with authority notifies, with the committed version, so versions never go back |
| `ActorRuntime.Runtime.FinishMethod` | src/host/actor_runtime.rs:380-438 | a completed call's state is the one the call returned, durable, and answered with authority, as an answer of the protocol; a version is issued exactly for a state that is new, under this request and with this result; completes exactly under the stated conditions |
| `ActorRuntime.Runtime.InvokeActor` | src/host/actor_runtime.rs:253-266 | `Completed` is always an answer of the protocol, for the state committed last; repeating the latest request, also after an ambiguous failure or with no cache and only the stored bytes, returns the stored result with no execution and no new version, exactly if what is pending resolves with authority; otherwise what is returned is what the behavior made of the state shown or pending, and a version is issued, under this request and with its result, exactly if that state is new; with nothing in the way the call completes |
| `ActorRuntime.InvokeTwice` | src/host/actor_runtime.rs:122-158 | a call and its retry, whatever fails in between: once the first has issued a version, completed or not, the second executes nothing, issues nothing and can only return what the first execution returned |
| `ActorRuntime.RetryAfterReload` | src/host/actor_runtime.rs:472-497 | after a restart a retry of the request that made the stored snapshot returns its result unexecuted, exactly if the state loads and authority holds |
| `ActorRuntime.Runtime.HandleSocketEvent` | src/host/actor_runtime.rs:289-354 | the same for socket events, which are never answered from the cache and whose result is null, also in the version they issue |
| `ActorRuntime.Runtime.CommitInterleaved` | src/host/actor_runtime.rs:173-215 | with nothing pending, an interleaved outcome is durable, under its request and with its result, and is an answer of the protocol, before it is reported; completes exactly under the stated conditions |
| `RuntimeRefinement.StepRefines` | src/host/actor_runtime.rs:687-702 | each step of the runtime, issuing, counting as durable, answering and losing authority, is an enabled event of the protocol's writer with the same effect |
| `RuntimeRefinement.RunAccounts` | src/host/actor_runtime.rs:122-470 | in every run of the protocol the writer's account is what its steps add up to, so what the runtime answers and what the protocol calls answered are the same |
| `RuntimeRefinement.NotifiedStateArrivesInOrder` | src/host/actor_runtime.rs:440-470 | with the state effects one runtime sends, any number per completion, over any run of connections and receives, every socket receives a snapshot first and versions that never go back |
| `Admission.Mailbox.Permit` | src/host/actor_host/admission.rs:40-44 | letting the next invocation in keeps the mailbox's invariant: nothing is pending while anything runs |
| `Admission.Mailbox.Admit` | src/host/actor_host/admission.rs:72-115 | an invocation starts only with nothing pending, under a fresh number; a repeated request is answered with the stored, durable result and no execution; that answer is not one of the protocol if and only if authority lapsed while a write not known durable at the check was resolved |
| `Admission.Mailbox.CommitNext` | src/host/actor_host/admission.rs:202-228 | the outcome whose turn it is commits with nothing pending: its own state becomes the durable one, its own result is told to its own caller, and a version issued is for its request; `Completed` is an answer of the protocol, and a failure stops the actor |
| `Admission.Mailbox.CommitReady` | src/host/actor_host/admission.rs:202-230 | interleaved outcomes commit in the order 1, 2, 3, ... without gap or repetition; the k-th reply is the result of the k-th of them, to its caller; what cannot commit yet waits unchanged, and the next invocation is held up exactly until the one that holds it up is answered |
| `Admission.Mailbox.Executed` | src/host/actor_host/admission.rs:141-200 | whatever finishes, serial or interleaved, no commit starts while another is unresolved and every caller is told the result of its own execution; a serial outcome completes exactly when the runtime says; a repeated sequence number stops the actor |
| `LeaseFence.Fence.CheckAt` | src/control_plane/client.rs:185-192 | succeeds exactly before the deadline of an unfenced, confirmed lease, as the step of the run laws |
| `LeaseFence.Fence.BeginAt` | src/control_plane/client.rs:157-163 | fails exactly if fenced or past the deadline |
| `LeaseFence.Fence.ConfirmAt` | src/control_plane/client.rs:165-183 | succeeds exactly if the fence is live and the response arrives more than 5 seconds before the end of the lease, which then is the deadline; a failure fences |
| `LeaseFence.Fence.UnregisterAt` | src/host/storage.rs:294-300 | fences at once |
| `LeaseFence.AuthorityIsBacked` | src/control_plane/client.rs:165-192 | every successful check lies before the start plus duration minus 5000 milliseconds of the latest confirmed registration |
| `LeaseFence.CheckSucceedsExactly` | src/control_plane/client.rs:165-192 | over any sequence of calls, a check after the latest confirmed registration succeeds if and only if it comes before that time and nothing in between unregistered or came too late |
| `LeaseFence.FailureIsFinal` | src/control_plane/client.rs:156-193 | once authority was held, a failed begin, check or confirmation makes all later ones fail |
| `LeaseFence.AuthorityIsContiguous` | src/host/storage.rs:236-300 | between two calls that show authority every check succeeds and nobody unregistered |
| `LeaseFence.FencedForGood` | src/host/storage.rs:294-300 | after a lapse or an unregistration nothing succeeds any more |
| `LeaseFence.AuthorityEndsBeforeLease` | src/bucket/runtime/activation.rs:117-133 | while a check succeeds the stored lease has not expired, as long as the clocks drift apart by at most the margin |
| `ExecutorDriver.Driver.Enqueue` | src/actor/executor_connection.rs:823-868 | a command is sent under a message ID never used before, or gets its one reply if it cannot be encoded; fails exactly if the IDs run out or the writer does not accept it |
| `ExecutorDriver.Driver.HandleCommand` | src/actor/executor_connection.rs:715-725 | exactly an invocation or socket event of a resident actor leaves the state out, and then a success reply for the actor arrived after its previous command was handed over; evictions never carry it; no actor is resident while its command is out |
| `ExecutorDriver.Driver.AllowNextInvocation` | src/actor/executor_connection.rs:744-763 | an invocation grants admission at most once |
| `ExecutorDriver.Driver.StartPublication` | src/actor/executor_connection.rs:793-821 | at most one publication at a time, and only for a pending message |
| `ExecutorDriver.Driver.StartLookup` | src/actor/executor_connection.rs:765-791 | at most one lookup at a time, and only for a pending message that is no eviction |
| `ExecutorDriver.Driver.FinishPublication` | src/actor/executor_connection.rs:682-692 | an acknowledged publication belongs to a message that is still pending |
| `ExecutorDriver.Driver.FinishLookup` | src/actor/executor_connection.rs:693-706 | so does an answered lookup |
| `ExecutorDriver.Driver.Deliver` | src/actor/executor_connection.rs:870-906 | at most one reply and at most two sends per exchange; work in flight for the message refuses the reply; a second send carries the state; exactly a success makes the actor resident |
| `ExecutorDriver.SendKeepsLog` | src/actor/executor_connection.rs:823-853 | message IDs rise, and every send without state, evictions aside, is justified by the log before it |
| `HostDispatcher.Dispatcher.Admit` | src/host/actor_host.rs:338-380 | a request is admitted, exactly under the stated conditions, or answered at once; at most 33 are active and the actor never changes |
| `HostDispatcher.Dispatcher.Complete` | src/host/actor_host.rs:428-441 | the active count stays the number of admitted requests, also when a completion arrives after its task ended |
| `HostDispatcher.Dispatcher.TaskStopped` | src/host/actor_host.rs:460-478 | the end of the actor task releases every drain waiter, with nothing active |
| `HostDispatcher.Dispatcher.Drain` | src/host/actor_host.rs:326-331 | a drain waits exactly while something is active; earlier ones are forgotten exactly if their caller went away |
| `HostDispatcher.Dispatcher.EvictIdle` | src/host/actor_host.rs:443-458 | only an actor with nothing active leaves the executor |
| `Sockets.ReceivedIsPrefix` | src/sockets/mod.rs:340-378 | over any run of sends and receives, a socket receives a gap-free prefix of what was sent and then only the overflow close |
| `Sockets.EverythingArrivesOrCloses` | src/sockets/mod.rs:340-378 | over any run, a socket that never fell 32 messages behind receives all that was sent once it catches up; one that did is closed at its next receive |
| `Sockets.Registry.InsertSocket` | src/sockets/mod.rs:76-100 | at most 128 connections; a refused one changes nothing; a new one starts closed, without state and with an empty channel, and touches no other; snapshots go on preceding updates on every socket |
| `Sockets.Registry.ApplyEffect` | src/sockets/mod.rs:188-315 | by the fields of each socket: a broadcast is offered once to exactly the open sockets not excepted with any or all of the tags, a state update to those with state, anything else to its one socket, and nothing else changes |
| `Sockets.ApplyKeepsOrder` | src/sockets/mod.rs:188-315 | an effect keeps all versions in order if and only if no recipient was sent a later one |
| `Sockets.StampedStateArrivesInOrder` | src/sockets/mod.rs:188-378 | over every run of connections, effects and receives whose state effects carry versions that never go back, every socket receives a snapshot first and then versions that never go back |
| `Sockets.UncheckedVersionCanGoBack` | src/actor/executor_connection.rs:793-821 | a run in which a version published by the executor goes back |
| `SpareHandles.Cache.Expire` | providers/modal-go/spare_handles.go:92-101 | stopping at the first live entry leaves exactly the live ones |
| `SpareHandles.FirstLiveFilters` | providers/modal-go/spare_handles.go:92-101 | because entries are in order of expiry, dropping from the front until one is live drops exactly the expired ones |
| `SpareHandles.Cache.Keep` | providers/modal-go/spare_handles.go:33-50 | live entries of other sandboxes stay, all of them unless the cache was full and then all but the one that expires first; the handle is kept until the time to live from now; earlier handles are only detached, and the handle ends up detached and held at once if and only if the cache is open and the handle was kept before and not handed out since |
| `SpareHandles.KeepTwice` | providers/modal-go/spare_handles.go:33-50 | the run behind that: one handle kept twice |
| `SpareHandles.Cache.Take` | providers/modal-go/spare_handles.go:52-65 | a handle is handed out at most once and only while live; an expired one is detached |
| `SpareHandles.Cache.Close` | providers/modal-go/spare_handles.go:67-75 | everything still held is detached, and nothing is held afterwards |
| `ActorNames.ObjectPosition` | src/bucket/runtime.rs:496-501 | the name of every version of every activation parses back to its epoch and version |
| `ActorNames.ObjectActor` | src/storage_paths.rs:25-46 | the name of every snapshot of a valid actor parses back to that actor |
| `ActorNames.KeyActor` | src/storage_paths.rs:48-63 | the storage key of a valid actor parses back to that actor |
| `ActorNames.StreamsAreSeparate` | src/storage_paths.rs:65-77 | prefixes of different activations are never prefixes of each other |
| `ActorNames.Base64ReadsBack` | src/storage_paths.rs:79-84 | a name component decodes to what was encoded |
| `Names.DecimalReadsBack` | src/replication/stream.rs:39-41 | a version in decimal parses back |
| `Names.HexReadsBack` | src/bucket/runtime.rs:109-117 | an epoch in padded hexadecimal parses back |

## Left out

- The Google Cloud Storage and PostgreSQL clients, gRPC and HTTP: only success, failure and ambiguous outcomes of a call are kept.
- Capabilities, tokens and signatures: they guard who may call, not what is durable.
- Control plane routing, regions, deployment and the provisioning of replicas: which replicas a repair is given is an input.
- Request traces, metrics, logs, timings and inventories: they do not affect state.
- JSON: encoding and decoding are a deterministic injective pair with the validity checks of a snapshot.
- Actor state history and its inspection: they only read what recovery reads.
- Activation of an actor through the admission loop, and refusal while the host is draining: both would only add easy branches.
- The registry's metadata and tags updates: they send nothing. Removing, opening and receiving are modelled as actions of the runs that `Sockets.StampedStateArrivesInOrder` ranges over.
- Takeover.NothingAcknowledgedIsLost: does not promise later owners what was acknowledged after a takeover had listed the bucket, nor count the answers that `Admission.Mailbox.Admit` names as given without authority, because for both the promise is false (`Takeover.AcknowledgedSurvivesExactly`, `ProtocolGaps.LateAnswerCanBeLost`).
- ActivationInvariant.EventKeepsInv: asks that a replacement is confirmed only while no rival replacement is in flight, because without it the promise is false; the same holds of every theorem about runs of enabled events.
- ReplicaStore.Store.Append: asks for prefixes that do not overlap, which `ActorNames.StreamsAreSeparate` shows of all that the system names; with others pruning removes another stream's head (`ReplicaStore.OverlappingPrefixLosesHead`).
- ReplicaStore.Store.Restore: takes as an input whether a file is malformed; temporary files, which it removes unread, are not modelled.
- Replication.ActorReplication.Repair: takes the attempts to write that happen meanwhile as finite in number, in any interleaving; replacements by rivals are covered by the protocol model.
- Recovery.SealReplicas: does not restore the snapshots it collects; the protocol's recovery step requires the newest one in the bucket.
- HostDispatcher.Dispatcher.Admit: takes the outcome of the bounded mailbox as an input.
- SpareHandles.Cache.Keep: takes the clock, which it reads twice as the source does, to be monotonic.
- ActorRuntime.Runtime.InvokeActor: one owner epoch per runtime, so the cache is never dropped for another epoch; effects other than automatic state notifications are not modelled.
