# SandLocker control plane: a Dafny model

SandLocker runs code in Firecracker microVMs. Its control plane is a set of short
protocols over one abstraction, a revisioned key-value store with leases and
compare-and-swap. This project models that store, the protocols on it, and the pieces of
the data path whose correctness is arithmetic or interleaving, and proves what they keep
over every input and every run.

| file | what it holds |
|---|---|
| `Keys.dfy` | the key space, and how the scans read it |
| `LeaseStore.dfy`, `SqliteStore.dfy` | the store as step functions; the SQLite store as a class proved against them, with its event log |
| `Election.dfy` | leader election: the interleaved protocol, and the participant object |
| `Tickets.dfy`, `TicketReuse.dfy` | gateway tickets: the signed payload, one-time consumption across replicas, `verify`; how lease reuse defeats it |
| `Convergence.dfy` | first-writer-wins secrets (gateway secret, project keys) |
| `Cluster.dfy` | reclaiming the sandboxes of lost nodes |
| `Orch.dfy`, `LeaseReuse.dfy` | the orchestrator's live table, backend instances and leased keys; how lease reuse mixes up two sandboxes |
| `Sums.dfy`, `Sched.dfy`, `SchedRuns.dfy` | totals; survey and placement; whole runs of survey, place and record |
| `Quota.dfy` | the usage scan, the check, and checked operations over whole runs |
| `Bytes.dfy`, `SnapHeader.dfy`, `SnapCrypt.dfy` | the `SLSNAP1` container under an ideal AEAD |
| `Frames.dfy`, `ExecStream.dfy` | framing; two forwarders and an exit frame on one channel |
| `Reaper.dfy` | the bounded table of reaped children |
| `DialAgent.dfy` | the check-then-increment stream limit |
| `Layers.dfy`, `ImageRef.dfy` | layer flattening; image references |

Conventions. A protocol is a state, a `Step` per store operation, `Can` and `Next`, and a
`Run`; safety is stated for every run. Classes carry the fields the source updates, and
their methods are proved against the step functions, so the lemmas about runs apply to
them. Clock readings, random ids, backend outcomes and failing store calls are
parameters. Stored values are modelled parsed: text, a size, an amount, limits. Integers
are unbounded except where the source's width matters, which is then written out.

What turned out not to hold as documented, each with its exact condition:

- SQLite numbers a lease one above the largest id still present, so ids come back. Election
  safety needs ids nobody still holds on to (`GrantKeepsSoundIff`); with SQLite's numbering it
  fails (`ReissuedIdBreaksIt`, `ThenResigningDeposes`). An id comes back exactly as
  `ReissuedIff` says. Retention GC leaves the sandbox live (`GcLeavesItLive`), so a run of
  create, pause, collect and create puts two live sandboxes on one lease, and destroying one
  wipes the other's records (`CollectedLeaseIsShared`, `CreateKeepsDistinctIff`,
  `SharedLeaseHitsNeighbour`). And a gateway call that was refused can give back an id that by
  then carries another ticket's nonce, which is then accepted twice although every swap is
  prompt (`ReusedLeaseAcceptsTwice`, `GiveBackKeepsRecordsIff`).
- The store's interface says a leased key expires with its lease. `put` checks the lease,
  compare-and-swap does not, so a swap can leave a key that no sweep removes
  (`DanglingOnlyByCas`, `DanglingOutlivesSweeps`).
- A ticket's payload is injective among colon-free nonces, but a client may present any nonce:
  then a second reading exists exactly for ids with an embedded action, port and expiry
  (`SecondReadingIff`); real ids have none (`FewColonsEmbedNothing`).
  One-time use needs the ticket's own swaps to reach the store before it expires
  (`LateSwapAcceptsTwice`) and no refused call to revoke a lease it depends on; lease ids that
  never repeat give the latter (`AcceptedAtMostOnceWithDistinctIds`).
- `changes_since` answers for any revision, but after a compaction only copies from the cut on
  are brought up to date (`CopyCatchesUp`, `CompactedCopyStaysBehind`).
- The scheduler's admission test turns requests of 2^63 and above negative (`AdmissionExactIff`).
- `decrypt_file` trusts the chunk size of the header for a buffer of fixed size: it panics
  exactly when the smaller of length and chunk size exceeds 4 MiB, and then leaves an empty
  output file (`DecryptFile`). A header of length 0 opens no chunk (`ForgedEmpty`).
- A pid reaped again while queued keeps its old place and may be evicted next
  (`RefreshedKeepsPlace`).
- In-place layer application differs from the layered meaning as soon as a marker follows the
  entry it hides (`InPlaceIsLayeredIff`); whiteouts named `.wh.` or `.wh..` at the top remove
  the stage itself (`StageHiddenIff`).

## Model

| member | source | states |
|---|---|---|
| Keys.ScanFindsExactly | crates/sl-store/src/cluster.rs:62-69 | stripping `sandbox/` and a field's suffix picks out exactly the keys of that field and recovers the id, whatever the id contains |
| Keys.KeyTexts | crates/sl-node/src/gateway.rs:25-29 | the strings of the key space |
| Keys.RenderIsInjective | crates/sl-store/src/cluster.rs:20-27 | no two keys of the key space have the same string |
| Keys.SweptKeyNamesItsSandbox | crates/sl-node/src/orch.rs:636-644 | the id read off a swept key is the sandbox's, and only sandbox keys yield one |
| LeaseStore.RunAdvances | crates/sl-store/src/contract.rs:48-86 | over any run of operations revisions only grow, and a key changes only at a later revision |
| LeaseStore.CasSeesWhatWasRead | crates/sl-store/src/contract.rs:107-138 | a swap that succeeds on the revision once read replaces exactly the value once read, whatever ran in between |
| LeaseStore.ReapOneMore | crates/sl-store/src/lib.rs:476-505 | reaping leases one by one, key by key, is reaping them all at once, revisions included |
| LeaseStore.DanglingOnlyByCas | crates/sl-store/src/lib.rs:346-385 | an operation leaves a key on a dead lease if and only if it is a succeeding swap with a lease that does not exist |
| LeaseStore.DanglingOutlivesSweeps | crates/sl-store/src/lib.rs:415-417 | such a key survives every sweep at every time |
| LeaseStore.SweepIsExact | crates/sl-store/src/contract.rs:209-247 | with live leases only, a sweep removes exactly the keys whose lease is due |
| ChangeLog.CatchUp | crates/sl-store/src/lib.rs:424-459 | replaying the events of a prefix after a revision on the contents at that revision gives the current contents |
| ChangeLog.CopyCatchesUp | crates/sl-store/src/contract.rs:140-165 | a copy made when the store stood at a revision is brought to the later store's contents by the changes since, also across a compaction up to that revision |
| ChangeLog.CompactedCopyStaysBehind | crates/sl-store/src/contract.rs:194-207 | for every compaction above the copy's revision there is a log on which the copy stays behind |
| SqliteStore.Sqlite.List | crates/sl-store/src/lib.rs:274-301 | each key below the prefix once, in key order, and no other |
| SqliteStore.Sqlite.Put | crates/sl-store/src/lib.rs:303-327 | refused exactly on a missing lease; else the row holds value and lease at one new revision, keeps the revision it was created at, and nothing else changes; log still replays to the table |
| SqliteStore.Sqlite.Delete | crates/sl-store/src/lib.rs:329-344 | removes the key with a new revision and an event, or changes nothing |
| SqliteStore.Sqlite.CompareAndSwap | crates/sl-store/src/lib.rs:346-385 | writes exactly when the expected modification revision matches, otherwise returns the current row and changes nothing; the revision returned is the store's |
| SqliteStore.Sqlite.LeaseGrant | crates/sl-store/src/lib.rs:387-398 | the new id is one above the largest present and the lease ends `ttl` from now |
| SqliteStore.Sqlite.LeaseKeepalive | crates/sl-store/src/lib.rs:400-409 | an existing lease now ends its ttl from now, no other changes; errs on a missing one |
| SqliteStore.Sqlite.LeaseRevoke | crates/sl-store/src/lib.rs:411-413 | the lease goes with exactly its keys, which are reported |
| SqliteStore.Sqlite.LeaseSweep | crates/sl-store/src/lib.rs:415-417 | exactly the leases that end by `now` go, with exactly their keys, which are reported |
| SqliteStore.Sqlite.ChangesSince | crates/sl-store/src/lib.rs:424-459 | exactly the events of the prefix after the revision, ascending, which bring the table of that revision up to date while the log reaches back that far |
| SqliteStore.HistoryKept | crates/sl-store/src/lib.rs:303-385 | no write, deletion or reaping changes what the log tells of an earlier revision, and of the current one it tells the table |
| SqliteStore.Sqlite.Compact | crates/sl-store/src/lib.rs:467-471 | the table is untouched, exactly the rows up to the cut go and are counted, and every table from the cut on can still be told |
| ElectionProtocol.AtMostOneLeader | crates/sl-store/src/election.rs:65-105 | in every interleaving of any number of participants, expiry, crashes, lost replies and other clients, while no id still held is reissued, at most one recorded lease is alive and the leader key holds that participant's id on that lease |
| ElectionProtocol.ConfirmedMeansHeld | crates/sl-store/src/election.rs:70-75 | a confirming read that answers "leader" is right about key and lease |
| ElectionProtocol.OthersNeverDepose | crates/sl-store/src/election.rs:77-87 | no step of another participant takes a leader's key away |
| ElectionProtocol.DistinctIdsSuffice | crates/sl-store/src/etcd.rs:229-237 | a store that never repeats a lease id meets the condition the safety theorem needs |
| ElectionProtocol.GrantKeepsSoundIff | crates/sl-store/src/lib.rs:390-392 | a grant, to a participant or to any other client, keeps the invariant if and only if every participant that records its id holds the leader key on it |
| ElectionProtocol.ReissuedIdBreaksIt | crates/sl-store/src/lib.rs:390-392 | with SQLite's numbering a run of two participants ends with both recording one live lease |
| ElectionProtocol.ThenResigningDeposes | crates/sl-store/src/election.rs:100-105 | from there the first one's resignation removes the second's leadership |
| Election.Participant.HoldsLeadership | crates/sl-store/src/election.rs:91-97 | true exactly when the leader key holds this id |
| Election.Participant.Renewal | crates/sl-store/src/election.rs:70-75 | an alive lease whose keepalive reports now ends its ttl from now and no other lease changes; leadership is kept exactly when the key then confirms; only the confirming read can err, and then the lease stays recorded |
| Election.Participant.Campaign | crates/sl-store/src/election.rs:77-87 | errs exactly when grant or swap does, else won exactly when the key was free, with the key on a new lease that ends `ttl` from now and nothing else changed; a lost attempt leaves leases and keys as they were |
| Election.Participant.TryCampaign | crates/sl-store/src/election.rs:65-88 | the answer, or the error, in terms of the state before and the failing calls, and the expiry of the lease it leads on; with any call failing, applied or not, the call is a run of the protocol |
| Election.Participant.Resign | crates/sl-store/src/election.rs:100-105 | nothing recorded, the lease gone unless the revocation had no effect, idempotent; a run of the protocol |
| TicketEncoding.NameRoundTrip | crates/sl-node/src/gateway.rs:72-108 | every action is read back from its name |
| TicketEncoding.ActionNames | crates/sl-node/src/gateway.rs:90-108 | the fourteen names, and that no other string is one |
| TicketEncoding.PayloadText | crates/sl-node/src/gateway.rs:157-159 | the signed text, field by field |
| TicketEncoding.DecReads | crates/sl-node/src/gateway.rs:157-159 | printed numbers read as themselves in base ten |
| TicketEncoding.PayloadInjective | crates/sl-node/src/gateway.rs:157-159 | tickets with colon-free nonces, as minted, and equal payloads are equal, whatever their ids contain |
| TicketEncoding.SecondReadingIff | crates/sl-node/src/gateway.rs:157-159 | a minted ticket's payload has another reading, with any nonce a client may present, if and only if its id embeds an action, a 32-bit port and a 64-bit expiry |
| TicketEncoding.FewColonsEmbedNothing | crates/sl-node/src/gateway.rs:64-69 | ids with at most two colons embed none |
| TicketEncoding.ConstantTimeEq | crates/sl-node/src/gateway.rs:162-171 | the accumulated difference is zero exactly for equal strings |
| TicketProtocol.AcceptedAtMostOnce | crates/sl-node/src/gateway.rs:228-265 | over any run of any number of replicas, with expiry, lost replies and other clients, a minted ticket is accepted at most once if its own swaps are prompt and no refused call revokes a lease it depends on |
| TicketProtocol.GiveBackKeepsRecordsIff | crates/sl-node/src/gateway.rs:258-261 | giving a lease back keeps every accepted ticket on record if and only if the lease carries no nonce of an accepted ticket with time left |
| TicketProtocol.UnheldSuffices | crates/sl-node/src/gateway.rs:254-261 | refused calls are harmless while no grant hands out an id that a call in progress holds |
| TicketProtocol.DistinctIdsSuffice | crates/sl-store/src/etcd.rs:229-237 | a store that never repeats a lease id meets that condition |
| TicketProtocol.AcceptedAtMostOnceWithDistinctIds | crates/sl-node/src/gateway.rs:228-265 | on such a store promptness of the ticket's own swaps is all it takes |
| TicketReuse.ReusedLeaseAcceptsTwice | crates/sl-node/src/gateway.rs:252-262 | for any two tickets with different nonces and expiries there is a run with SQLite's lease ids and only prompt swaps that accepts one of them twice |
| TicketProtocol.LateSwapAcceptsTwice | crates/sl-node/src/gateway.rs:252-262 | for every ticket there is a run with one late swap that accepts it twice |
| Gateway.Shared.Verify | crates/sl-node/src/gateway.rs:228-265 | accepts exactly tickets with the right signature and time left whose nonce is unused, when grant and swap are answered; then the nonce is on a new lease that ends with the ticket and nothing else changed; with any call failing, applied or not, the call is a prompt run of the protocol |
| Gateway.Shared.Consume | crates/sl-node/src/gateway.rs:252-262 | the nonce is taken exactly when it was free; a refused call gives its lease back and leaves the keys as they were |
| Gateway.Local.Verify | crates/sl-node/src/gateway.rs:235-250 | on one machine no two accepted tickets ever share a nonce, and bad tickets leave the nonce set alone |
| Convergence.AllObtainTheSame | crates/sl-node/src/gateway.rs:270-297 | in every interleaving all replicas that obtain a secret obtain the one on record |
| Convergence.NoneFails | crates/sl-node/src/orch.rs:370-398 | with a record that decodes, or none, a replica fails only when a store call of its own errs, whatever happens to the others |
| Secrets.Ensure | crates/sl-node/src/gateway.rs:270-297 | one replica's call, with any store call failing, is a run of the protocol; what it returns is what is stored, its own secret exactly when the key was free, and no other key changes |
| Cluster.ReclaimOrphans | crates/sl-store/src/cluster.rs:57-86 | against the node set read first: exactly the sandboxes whose owner is neither in it nor protected are reclaimed, each reported once; a store error ends it with exactly the reported ones reclaimed |
| Cluster.ListLive | crates/sl-store/src/cluster.rs:42-48 | exactly the nodes with a heartbeat key |
| Cluster.ReclaimIsExact | crates/sl-store/src/cluster.rs:57-86 | with one lease per sandbox, every key of exactly the orphans goes and no other key changes |
| Cluster.SecondCallIff | crates/sl-store/src/cluster.rs:57-86 | on any store a second call finds nothing if and only if no orphan's owner key hangs on a dead lease |
| Cluster.ProtectedStay | crates/sl-store/src/cluster.rs:55-57 | the protected node's sandboxes keep every key |
| Lifecycle.LedgersAgree | crates/sl-node/src/orch.rs:244-481 | in every run, with any store call of a registration failing, each backend's instances are exactly the live sandboxes routed to it |
| Lifecycle.LeasesStayApart | crates/sl-node/src/orch.rs:262-318 | while no recorded lease id is reissued, live leases are distinct and every sandbox's keys are on its own lease |
| Lifecycle.CreateKeepsDistinctIff | crates/sl-node/src/orch.rs:272-303 | a successful create keeps live leases distinct if and only if its lease is recorded for nobody |
| Lifecycle.TickClears | crates/sl-node/src/orch.rs:454-481 | on any state: after a tick nothing live is past its TTL and no lease due by `now` is left |
| Lifecycle.TickIsExact | crates/sl-node/src/orch.rs:454-481 | a sandbox is reaped if and only if its deadline is at or before `now` or its lease is alive and ends by `now` |
| Lifecycle.DeadlineFixed | crates/sl-node/src/orch.rs:432-441 | no operation moves a live sandbox's deadline, lease or backend |
| Lifecycle.TtlIsHardCap | crates/sl-node/src/orch.rs:628-633 | whatever keepalives came in between, a tick at or past the deadline ends the sandbox |
| Lifecycle.GcLeavesItLive | crates/sl-node/src/orch.rs:576-578 | retention GC takes the keys and the lease but leaves the sandbox in the live table |
| LeaseReuse.ReissuedIff | crates/sl-store/src/lib.rs:390-392 | a revoked lease's id is the next one granted if and only if it is above all others and the one below it is present, or it is 1 and alone |
| LeaseReuse.CollectedLeaseIsShared | crates/sl-node/src/orch.rs:576-578 | for any two sandboxes a run on SQLite's numbering (create, pause, collect, create) ends with both live on one lease, and destroying the first wipes the second's records |
| Lifecycle.SharedLeaseHitsNeighbour | crates/sl-node/src/orch.rs:444-448 | two live sandboxes on one lease: destroying one removes the other's keys |
| Lifecycle.DestroyIsLocal | crates/sl-node/src/orch.rs:444-448 | with distinct leases a destroy leaves every other sandbox's keys alone |
| Orchestrator.Orch.Populate | crates/sl-node/src/orch.rs:272-302 | succeeds exactly without failing calls, and then the store holds size, state `running`, the node's id as owner and a lease of the idle time; otherwise, also when a failed call took effect, nothing of the attempt is left unless the revocation failed too |
| Orchestrator.Orch.Register | crates/sl-node/src/orch.rs:262-318 | success adds those keys and the live entry with its deadline, held within 64 bits; failure removes the instance |
| Orchestrator.Orch.CreateIn | crates/sl-node/src/orch.rs:244-258 | when exactly it succeeds, the keys, entry and instance it leaves, and that it is a create step of the run model, rollback included |
| Registration.CreateIsArrival | crates/sl-node/src/orch.rs:290-297 | a create on a node is an arrival recorded in full there, and an orphan exactly when that node is neither alive nor protected |
| Orchestrator.Orch.ArmKey | crates/sl-node/src/orch.rs:370-405 | before a pause, resume or fork: the project's key on record, unwrapped, or a fresh one put on record without a lease, and nothing else changed |
| Orchestrator.Orch.Fork | crates/sl-node/src/orch.rs:352-360 | succeeds exactly from a live, paused parent on a capable backend with every call answered, and leaves the child's keys and entry as a create does |
| Orchestrator.Orch.Pause | crates/sl-node/src/orch.rs:321-339 | when exactly it succeeds, the flag, the state, the size and the retention of seven days it sets, and that failure changes nothing |
| Orchestrator.Orch.Resume | crates/sl-node/src/orch.rs:342-349 | succeeds exactly for a paused sandbox on a capable backend; only the state key changes, to `running` |
| Orchestrator.Orch.KeepAlive | crates/sl-node/src/orch.rs:433-436 | the sandbox's lease now ends its ttl from now, which is returned, and nothing else changes; errs on an unknown sandbox or dead lease |
| Orchestrator.Orch.DestroySandbox | crates/sl-node/src/orch.rs:444-448 | both tables first, so they agree even when the revocation fails |
| Orchestrator.Orch.ReapTtl | crates/sl-node/src/orch.rs:457-467 | all and only the expired go, with exactly their leases, each reported once |
| Orchestrator.Orch.ReapNamed | crates/sl-node/src/orch.rs:469-479 | the named sandboxes that are still live go, each reported once |
| Orchestrator.Orch.TickAt | crates/sl-node/src/orch.rs:454-481 | Ok exactly when no needed revocation and not the sweep fails, and then a tick step that reports exactly the reaped ids, each once; after a failed sweep the TTL half is done |
| Orchestrator.Orch.TagProject | crates/sl-node/src/orch.rs:534-546 | writes the project on the sandbox's own lease, or on the lease of its meta key when it lives elsewhere; refused exactly on a dead lease |
| Orchestrator.Orch.GcRetention | crates/sl-node/src/retention.rs:110-140 | exactly the paused sandboxes past their retention are collected, with their lease or key by key, each reported once; a failed revocation ends it with exactly the reported ones collected |
| Sched.AdmissionExactIff | crates/sl-node/src/sched.rs:73-82 | the 64-bit admission test is the arithmetic one if and only if the request is below 2^63 |
| Sched.Place | crates/sl-node/src/sched.rs:157-175 | None exactly when no node fits, otherwise a fitting node no fitting node beats in the four-key order |
| Sched.FitsMeans | crates/sl-node/src/sched.rs:158-163 | on sane figures a node fits exactly when it reported a capacity and has room for what is asked in memory and in vcpus |
| Sched.ChosenBeats | crates/sl-node/src/sched.rs:167-173 | the four keys one by one: most room in memory, then fewest sandboxes, then the asking node, then the first id |
| Strings.BeforeMeans | crates/sl-node/src/sched.rs:172 | the order of ids is that of a dictionary |
| Sched.ChoiceIsUnique | crates/sl-node/src/sched.rs:148-175 | the choice does not depend on the order of the list |
| Sched.Survey | crates/sl-node/src/sched.rs:99-146 | every node of the first listing once, by id, charged with exactly the sandboxes the second listing records on it |
| SchedRuns.CapacityHolds | crates/sl-node/src/sched.rs:99-175 | with placements recorded before the next survey no node is ever charged beyond overcommit times capacity |
| SchedRuns.StaysBalanced | crates/sl-node/src/sched.rs:148-175 | from empty equal nodes, the same request repeated any number of times keeps every two nodes within one sandbox |
| Quota.Measure | crates/sl-node/src/quota.rs:58-85 | the two-pass scan equals count and totals over the project's sandboxes |
| Quota.Check | crates/sl-node/src/quota.rs:89-108 | on a store with limits a, b, c, d for the project: Ok exactly when each is zero or covers the usage and what is asked for, with one sandbox more; Ok without limits on record |
| Quota.LimitsHold | crates/sl-node/src/quota.rs:87-108 | with limits fixed no run of checked operations takes a project's count, vcpus, memory or storage past a nonzero limit on record |
| Quota.StartsWithin | crates/sl-node/src/quota.rs:57-58 | a store with nothing booked is within any limits |
| Quota.UsageAfter | crates/sl-node/src/quota.rs:24-27 | a step lowers every usage or leaves it within the limits that were checked, for all projects at once |
| Admission.Create | crates/sl-node/src/api.rs:1319-1362 | succeeds exactly when the quota admits it and the create does; check, create and tag are one admitted step of the quota run, a refused request changes nothing, and limits set without a lease stay |
| Admission.Fork | crates/sl-node/src/api.rs:1663-1697 | the same for forks, booked at 2 vcpus and 512 MiB |
| Admission.Pause | crates/sl-node/src/orch.rs:321-339 | succeeds exactly when the quota admits it and the pause works; one checked step that books the sandbox's memory as storage, or nothing changed; limits stay |
| Admission.Resume | crates/sl-node/src/orch.rs:342-349 | a resume leaves the scan and the limits alone |
| Admission.OthersOnlyRemove | crates/sl-node/src/orch.rs:433-481 | destroy, tick, retention and keepalive only take away from the scan, and no limits |
| SnapHeader.HeaderRoundTripIff | crates/sl-node/src/snapcrypt.rs:290-332 | an encoded header is read back if and only if key name and wrapped key are below 65536 bytes |
| SnapHeader.Layout | crates/sl-node/src/snapcrypt.rs:290-302 | the header byte by byte |
| SnapHeader.BoundBytes | crates/sl-node/src/snapcrypt.rs:261-271 | the associated data and the nonce of a chunk, byte by byte |
| SnapHeader.AadInjective | crates/sl-node/src/snapcrypt.rs:261-271 | the associated data fixes chunk size, length, key name and chunk number |
| SnapHeader.NonceInjective | crates/sl-node/src/snapcrypt.rs:446-450 | nonces of different chunks differ |
| SnapHeader.DivCeilIsQuotient | crates/sl-node/src/snapcrypt.rs:274-276 | counting chunks is rounding the quotient up |
| SnapHeader.ChunkIff | crates/sl-node/src/snapcrypt.rs:274-288 | the chunks are exactly those that start inside the plaintext |
| SnapHeader.ChunksTile | crates/sl-node/src/snapcrypt.rs:279-288 | the chunk intervals tile the file behind the header without gap or overlap |
| SnapCrypt.IdealExists | crates/sl-node/src/snapcrypt.rs:109-112 | the ideal-cipher hypothesis of the integrity results can be met for every log of sealings |
| SnapCrypt.EncryptFile | crates/sl-node/src/snapcrypt.rs:359-394 | the file is the header and the sealed slices in order |
| SnapCrypt.DecryptFile | crates/sl-node/src/snapcrypt.rs:398-424 | the outcome for every file: an error before output, output shredded, panic with an empty output, or all chunks opened |
| SnapCrypt.ChunkIsGenuine | crates/sl-node/src/snapcrypt.rs:407-414 | a chunk that opens, from any file and header, is the sealed chunk of that number under the sealed header |
| SnapCrypt.DecryptedIsGenuine | crates/sl-node/src/snapcrypt.rs:398-424 | success with at least one chunk yields exactly the plaintext sealed under that data key |
| SnapCrypt.ForgedEmpty | crates/sl-node/src/snapcrypt.rs:274-276 | a header of length 0 is accepted with empty output under any data key that unwraps |
| SnapCrypt.SealAndOpen | crates/sl-node/src/snapcrypt.rs:359-424 | decrypt after encrypt is the identity for every length |
| SnapCrypt.SealAndSeek | crates/sl-node/src/snapcrypt.rs:427-443 | a random read of chunk i gives slice i of the plaintext, and nothing beyond the last |
| Frames.FrameRoundTripIff | crates/sl-proto/src/lib.rs:183-206 | a frame is read back, whatever follows, if and only if `write_frame` lets it through |
| Frames.FrameBytes | crates/sl-proto/src/lib.rs:186-193 | four bytes of length, most significant first, then the payload |
| ByteStrings.FromBeMeans | crates/sl-proto/src/lib.rs:197-199 | the value of bytes, most significant first |
| Frames.CutFrameUnread | crates/sl-proto/src/lib.rs:196-206 | nothing is read from a frame cut short |
| Frames.ExecRoundTrip | crates/sl-proto/src/lib.rs:103-145 | output and exit frames are parsed back, negative codes included |
| Frames.ExecBytes | crates/sl-proto/src/lib.rs:98-145 | kinds 0, 1 and 2, and the signed four-byte code |
| Frames.PtyRoundTrip | crates/sl-proto/src/lib.rs:61-94 | terminal input and resize frames are parsed back |
| Frames.PtyBytes | crates/sl-proto/src/lib.rs:57-94 | kinds 0 and 1, columns before rows |
| Frames.HostReadsWhole | crates/sl-proto/src/lib.rs:136-206 | whole frames followed by a cut one are read as exactly the whole ones |
| ExecStream.HostReadsPrefix | crates/sl-envd/src/main.rs:416-519 | at every moment of every interleaving the host has only whole frames, carrying a prefix of stdout and a prefix of stderr |
| ExecStream.HostReadsAll | crates/sl-envd/src/main.rs:434-486 | once the exit frame is out one wait status was collected, and the host has exactly the child's stdout and stderr and, last, the one exit code of that status |
| ExecStream.ExitCodeMeans | crates/sl-envd/src/main.rs:477-483 | the child's own code, 128 and the signal, or -1 |
| ExecStream.CollectedMeans | crates/sl-envd/src/main.rs:505-509 | what is collected per pipe is the data of stdout and of stderr frames, in order |
| ExecStream.NeverStuck | crates/sl-envd/src/main.rs:490-519 | no interleaving deadlocks before the exit frame is out |
| ReaperModel.TableIsFaithful | crates/sl-envd/src/main.rs:94-152 | the queue is duplicate-free, lists exactly the table, holds at most 4096; a status in the table is the latest reaped and unclaimed |
| ReaperModel.LostOnlyWhenCrowded | crates/sl-envd/src/main.rs:127-132 | an unclaimed pid goes only when 4096 later-queued pids are all still unclaimed |
| ReaperModel.SafeUntilCrowded | crates/sl-envd/src/main.rs:90-93 | a newly queued status stays until taken while fewer than 4096 children are reaped after it |
| ReaperModel.RefreshedKeepsPlace | crates/sl-envd/src/main.rs:124-126 | a pid reaped again at the head of a full table goes with the next new pid |
| Reaper.ReapedTable.Insert | crates/sl-envd/src/main.rs:121-133 | one reaping event, invariant kept |
| Reaper.ReapedTable.TryTake | crates/sl-envd/src/main.rs:142-152 | the status and its removal from table and queue, or nothing |
| DialAgent.BoundsHold | crates/sl-node/src/dataplane.rs:588-643 | in every interleaving the counter stays in 0..max+pool-1 and at most max+2*pool-1 handlers run |
| DialAgent.BoundsAreReached | crates/sl-node/src/dataplane.rs:588-643 | for every limit and pool size a run reaches both bounds |
| LayerModel.InPlaceIsLayeredIff | crates/sl-node/src/oci.rs:382-438 | applying a layer in place is its layered meaning if and only if no marker follows an entry it hides that is not put again |
| LayerModel.MarkersFirst | crates/sl-node/src/oci.rs:406-437 | layers whose markers come first qualify |
| LayerModel.FlattenIsLayered | crates/sl-node/src/oci.rs:374-380 | flattening any list of orderly layers is layering them |
| LayerModel.EffectInside | crates/sl-node/src/oci.rs:411-435 | whatever an entry puts, hides or clears lies in the stage |
| LayerModel.StageHiddenIff | crates/sl-node/src/oci.rs:423-430 | the stage itself is removed exactly by `.wh.` or `.wh..` at the top |
| Layers.Join | crates/sl-node/src/oci.rs:441-452 | refuses exactly root and parent components and stays below the stage |
| Layers.FileSystem.RemovePath | crates/sl-node/src/oci.rs:462-471 | the path and everything below it go, nothing else |
| Layers.FileSystem.ClearDirContents | crates/sl-node/src/oci.rs:454-460 | removing child by child clears exactly what is strictly below |
| Entries.OpaqueClears | crates/sl-node/src/oci.rs:411-422 | an opaque marker in a directory takes away exactly what lies strictly below it |
| Entries.WhiteoutRemoves | crates/sl-node/src/oci.rs:423-431 | a whiteout of a name takes away exactly that path and what is below it |
| Entries.EntryPuts | crates/sl-node/src/oci.rs:432-435 | any other plain entry makes exactly its own path hold its own content |
| Entries.DotSkipped | crates/sl-node/src/oci.rs:447 | a leading dot in an entry's path does not matter |
| Entries.ClimbingSkipped | crates/sl-node/src/oci.rs:441-452 | entries below a parent component change nothing |
| LayerModel.InPlaceInOrder | crates/sl-node/src/oci.rs:406-436 | entries take effect in their order |
| LayerModel.FlattenInOrder | crates/sl-node/src/oci.rs:376-378 | layers take effect in their order, later ones on top |
| Layers.FileSystem.FlattenOne | crates/sl-node/src/oci.rs:382-438 | the tree is the layer's entries applied in order, each as stated above, and nothing outside the stage changes |
| Layers.FileSystem.FlattenLayers | crates/sl-node/src/oci.rs:374-380 | the same for a list of layers, in order |
| ImageRef.ParseIsStable | crates/sl-node/src/oci.rs:128-170 | for every accepted string, parsing the canonical form of the result gives the same reference |
| ImageRef.YieldedIff | crates/sl-node/src/oci.rs:53-56 | the references parsing can yield, characterised, and canonical forms of different ones differ |
| ImageRef.BareName | crates/sl-node/src/oci.rs:143-169 | a bare name is the official image of that name, latest version |
| ImageRef.TaggedName | crates/sl-node/src/oci.rs:150-158 | a tag behind it is the version |
| ImageRef.PathName | crates/sl-node/src/oci.rs:143-149 | a first segment that is no host belongs to the repository |
| ImageRef.Padding | crates/sl-node/src/oci.rs:129-132 | white space around a reference does not matter |
| ImageRef.HostedName | crates/sl-node/src/oci.rs:133-149 | behind a host the repository is taken as it is, with its tag, its digest or the latest version |

## Left out

- The etcd backend's transport: only the id-uniqueness it provides is used, as a hypothesis; `watch` and its in-process channels are not part of this model.
- HTTP parsing and routing, `parse_query`, the CLI, metrics, tracing, audit, authentication: plumbing or one-branch facts.
- Backends: Firecracker, jailer, runsc and device handling are a table of instances whose create, pause, resume and fork may fail.
- MAC, key wrapping and AEAD are ideal functions; random ids and nonces are assumed not to collide.
- JSON and UTF-8 decoding of stored values: values are modelled as already parsed, malformed ones count as the source's default.
- Sched.Survey: the `u64` sums are unbounded; with `u32` requests they cannot overflow below 2^32 sandboxes.
- Orchestrator.Orch.Pause: the key record that may be made first is the separate step `ArmKey`; the same holds for `Fork` and `Resume`.
- Orchestrator.Orch.Fork: see `Pause`.
- Orchestrator.Orch.Resume: see `Pause`.
- Orchestrator.Orch.GcRetention: retention deadlines before 1970 are not modelled.
- Sched.Place: the library sort is modelled by a scan for its first element.
- SchedRuns.CapacityHolds: requests and overcommitted capacities are below 2^63, as `AdmissionExactIff` requires.
- The scheduled remote create: its quota check is not atomic with the later tag, so no cross-replica quota law is claimed; `NodePool` queues and TLS record order are not modelled either.
- SnapCrypt.DecryptFile: file errors other than a short read are not modelled; snapshot files shared by hard links across a fork and a later pause are out of scope.
- SnapCrypt.SealAndSeek: plaintexts below 2^63 bytes, so that offsets do not wrap.
- ExecStream.HostReadsAll: no write fails; after a failed write the forwarders only drain, and the channel may end in a cut frame.
- Reaper.ReapedTable.TryTake: blocking and wake-up are not modelled, one look under the lock is.
- LayerModel.InPlaceIsLayeredIff: symbolic links, hard links, type changes, permissions and implicit parent directories of the archive library are not modelled.
- Pools, warm starts, networking, template building and image pulling: external processes or easier members of kinds already covered.
