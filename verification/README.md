# Control plane of the BlueRoute daemon: model and proofs

This project models the control plane of the BlueRoute daemon in Dafny 4.11 and proves
what it is meant to guarantee under failure, cancellation, revocation and late callbacks.
`dafny verify dfyconfig.toml` checks the whole project.

Each component is a module of pure steps with the theorems about all its runs. Where the
daemon changes things in place, a second module holds the class or the methods with loops,
proved equal to those steps.

| component | steps and theorems | imperative form |
|---|---|---|
| join transaction | `JoinTransaction`, `JoinSafety`, `JoinOutcome` | `JoinCoordinator` |
| address plan, bind and dial decisions | `AddressPlan`, `ControlEndpoints` | |
| durable peer authorization | `PeerPins`, `PeerTrust`, `PinFile`, `Lines`, `Hex` | `PeerTrustOwner` |
| session table and registered transports | `SessionRegistry`, `RegisteredTransport`, `ReplayHorizon` | `RegisteredSessionOwner` |
| NAP capacity | `NapLedger`, `NapAdmission` | `NapControlOwner` |
| session liveness | `SessionStream`, `ActiveSession` | `ActiveSessionOwner` |
| session against trust | `ApprovedDelivery` | |
| TLS identity record and certificate preface | `TlsRecords` | `PrefaceExchange` |
| guarded listener and inbound worker | `ControlListener`, `ControlWorker`, `WorkerLiveness` | in the same modules |
| hosted network | `HostLifecycle` | `SingleStarOwner` |
| D-Bus front and diagnostics | `DaemonFront`, `Diagnostics` | `DaemonService` |
| pending handshakes | `ReconnectScheduler`, `AttemptSockets` | `AttemptSocketOwner` |
| outbound supervision | `OutboundSupervision` | in the same module |

## How the daemon is modelled

- Asynchronous code is cut at its awaits. What an awaited call answers, and whether the
  request is dropped there, is an input; theorems quantify over all of it.
- Shared state under a mutex is changed by one step; blocking reads and writes are cut in
  two, so that others may act in between.
- Time is an input: nanoseconds for instants and durations, saturating 64-bit milliseconds
  where the daemon counts in milliseconds.
- The service starts with the status computed from its store.
- A store's save is atomic: on error the file is unchanged.
- Errors carry their kind; the wording of errors raised by the daemon itself is not
  modelled, messages and diagnostics of errors passed through are.
- Histories (`log`, `calls`, `finished`, `saves`, `published`) record what was done, so
  that theorems can speak about whole runs; no decision depends on them.

## What the proofs found

- The lease in real time. The caller's milliseconds are rounded down, and the checks before
  the wait take time the session does not count. A read can therefore really end after the
  lease and still renew it, late by less than the two together
  (`LateByLessThanTheOffset`). `OnTimeExactly` gives the exact condition: the wait starts
  just when the session thinks it does, or its budget ends it before the lease;
  `RenewedInTimeExactly` gives it for the reads that renew. `LateHeartbeatExample` and
  `LateAfterPauseExample` give numbers for either cause. On the caller's own clock the
  promise holds without exception (`LiveReadIsOnTime`).
- A send can outlive its approval. The trust lock is let go between the check and the
  blocking write, and nothing is checked after it, so a forget in between does not stop the
  write (`SentAfterForget`). `OneMoreSendExactly` gives the exact condition,
  `ForgottenIsSilent` shows that it is at most that one, and that a read never does.
- A budget of zero ends the session (`IdlePollExactly`), as does any poll after a Goodbye.
- The replay memory holds 4096 ids. Beyond it a retired owner that its caller still keeps
  can free the entry of a later session that was given the same id
  (`BeyondTheHorizon`). `ExactlyTheFreshRuns` and `SafeExactlyWhenFresh` give the exact
  condition, `FreshWithinHorizon` shows that 4096 admissions always meet it.
- Reporting an attachment twice closes a healthy session, although the ledger treats the
  repetition as harmless (`SecondReportClosesSession`); the slot is not lost.
- `apps/daemon/src/registered_transport.rs:188-190` says that sending a Goodbye makes the
  stream terminal; `apps/daemon/src/control_tls.rs:1152-1167` does not set the flag. The
  model follows the code.
- The private-address check of a lease is implied by the comparison with the plan
  (`LeaseChecksAgree`).

## Model

| member | source | states |
|---|---|---|
| `JoinSafety.FreeExactlyWhenSettled` | apps/daemon/src/join_network.rs:113-148 | in every run of requests, answers and cancellations the coordinator is free exactly when no request runs and every link, lease and session any past attempt obtained was given back by a cleanup call that answered Ok, or belongs to an attempt whose save succeeded, and no acquisition of a past attempt failed or was cancelled |
| `JoinSafety.NeverFreedAgain` | apps/daemon/src/join_network.rs:113-148 | once an attempt ended unsettled the flag is never freed and no later request reaches the runtime |
| `JoinSafety.EveryTraceIsDisciplined` | apps/daemon/src/join_network.rs:255-419 | every finished trace is acquisitions followed by releases; on failure the releases name exactly the verified resources in reverse order, on success nothing is released and all three are held; membership is written at most once; every lease handed to remove_ip was answered by configure_ip and passed all checks |
| `JoinSafety.PrimaryErrorSurvives` | apps/daemon/src/join_network.rs:553-589 | kind and message of a failed join are those of one call that went wrong, all calls before which went well and all calls after which are releases; cleanup failures, in order, only extend its diagnostic |
| `JoinSafety.CommitHoldsAllThree` | apps/daemon/src/join_network.rs:360-417 | a committed attempt still holds its link, its lease and a session of the requested network, and the dialler accepts the lease |
| `JoinSafety.StoreChangesOnlyByCommit` | apps/daemon/src/join_network.rs:360-417 | the store changes only when a request commits, and then to exactly the joined form of the registry just loaded |
| `JoinSafety.JoinedExactly` | apps/daemon/src/join_network.rs:533-551 | joining is refused unless there is no current network and this one is not being left; then exactly this network becomes member, known entries keep name and peers, a new one has the discovered name and no peers, and other networks are untouched |
| `JoinSafety.LeaseChecksAgree` | apps/daemon/src/join_network.rs:278-325 | the coordinator accepts exactly the leases the dial guard accepts |
| `JoinSafety.EveryRunKeepsInv` | apps/daemon/src/join_network.rs:223-421 | at every await: what is held, what may have leaked, what failed first and what cleanup reported all follow from the calls made so far |
| `JoinSafety.ReverseOrder` | apps/daemon/src/join_network.rs:192-216 | what is still held and what was given back make up, in order, all that was kept |
| `JoinSafety.ReleasesComeLast` | apps/daemon/src/join_network.rs:237-419 | no acquisition, load or save follows a release |
| `JoinSafety.SavesAtMostOnce` | apps/daemon/src/join_network.rs:405-416 | a trace holds at most one save |
| `JoinSafety.AddressesAreVerified` | apps/daemon/src/join_network.rs:278-325 | an address that is held or removed was answered by the runtime and has no fault |
| `JoinSafety.ReleaseStep` | apps/daemon/src/join_network.rs:192-216 | a release of the top resource keeps the account exact whether it answers Ok, fails or is cancelled |
| `JoinSafety.PlayIsARun` | apps/daemon/src/join_network.rs:223-421 | a request played to its end is a run of the steps, so all of the above holds of it |
| `JoinOutcome.JoinStartsExactly` | apps/daemon/src/join_network.rs:223-254 | a join starts exactly for a real network, with the flag free, a registry that loads and has no member network, and a valid pool; any other request adds one refusal, with the error of the first check that fails, and changes nothing else |
| `JoinOutcome.PlayCommitsExactly` | apps/daemon/src/join_network.rs:255-419 | a request commits exactly when every call succeeds, every answer passes its checks and the joined registry can be saved |
| `JoinOutcome.AttemptedExactly` | apps/daemon/src/join_network.rs:223-421 | one whole request: refused with nothing but the refusal left, or run, and then successful exactly in that case |
| `JoinOutcome.EveryEndHasAReason` | apps/daemon/src/join_network.rs:237-419 | in every run an attempt was abandoned exactly if its last call was cancelled, and answered with success exactly if it saved |
| `JoinCoordinator.TransactionalJoin.JoinNetwork` | apps/daemon/src/join_network.rs:223-421 | one whole request, for every answer and every cancellation point, changes flag, store and history exactly as the steps do; it starts exactly when it may, a refused one leaves all but one refusal unchanged, and it succeeds exactly when every call does |
| `JoinCoordinator.TransactionalJoin.Transact` | apps/daemon/src/join_network.rs:255-262 | from preflight to the PANU link, with the guard set once mutation starts |
| `JoinCoordinator.TransactionalJoin.Configure` | apps/daemon/src/join_network.rs:263-325 | IP configuration and the three lease checks; every refusal disconnects and keeps the flag |
| `JoinCoordinator.TransactionalJoin.Authenticate` | apps/daemon/src/join_network.rs:326-358 | control session and commit, with the matching rollback |
| `JoinCoordinator.TransactionalJoin.Commit` | apps/daemon/src/join_network.rs:341-417 | network check, second load, mark and save without an await in between |
| `JoinCoordinator.TransactionalJoin.RollbackAfterControl` | apps/daemon/src/join_network.rs:192-203 | session, address and link released in this order; clean only if all three answered Ok |
| `JoinCoordinator.TransactionalJoin.RollbackAfterIp` | apps/daemon/src/join_network.rs:205-215 | address and link released; never clean |
| `JoinCoordinator.TransactionalJoin.Disconnect` | apps/daemon/src/join_network.rs:558-589 | the last release and the combined error |
| `AddressPlan.PlanExists` | crates/blueroute-core/src/addressing.rs:19-47 | a plan exists exactly for a valid pool, so no addition overflows; its prefixes are one aligned segment inside the pool, host and client distinct private addresses strictly inside it |
| `AddressPlan.SegmentInsidePool` | crates/blueroute-core/src/addressing.rs:19-31 | every segment is an aligned block wholly inside the pool |
| `AddressPlan.PoolAddressesArePrivate` | crates/blueroute-core/src/config.rs:44-101 | every address of a valid pool is a 32-bit private, non-loopback address |
| `AddressPlan.SegmentsAreDisjointOrEqual` | crates/blueroute-core/src/addressing.rs:19-47 | two networks of one pool share a whole plan or no address |
| `AddressPlan.ValidExactly` | crates/blueroute-core/src/config.rs:44-101 | a pool is valid exactly when it is an aligned block every address of which is private, divided into segments of at most 30 prefix bits |
| `AddressPlan.SelectedByLeadingBytes` | crates/blueroute-core/src/addressing.rs:23-24 | what selects the segment is the first four bytes of the network id, most significant first |
| `AddressPlan.SamePlanExactly` | crates/blueroute-core/src/addressing.rs:19-47 | two networks have the same plan exactly when those bytes agree modulo the number of segments |
| `AddressPlan.EverySegmentIsUsed` | crates/blueroute-core/src/addressing.rs:21-29 | every segment of the pool is some network's |
| `ControlEndpoints.BindExactly` | apps/daemon/src/control_listener.rs:26-91 | binding is allowed exactly when the observed entries touching the bridge or the host IP are the planned entry alone, and then gives the host IP and the control port |
| `ControlEndpoints.BindReadsASet` | apps/daemon/src/control_listener.rs:26-91 | order and repetition of the observations change nothing, not even the error |
| `ControlEndpoints.DialExactly` | apps/daemon/src/outbound_control.rs:34-65 | the dial guard accepts exactly the planned client lease of this network on this link |
| `ControlEndpoints.DialMeetsBind` | apps/daemon/src/outbound_control.rs:34-65 | for one network and pool the dial target is the bind target |
| `ControlEndpoints.LiveExactly` | apps/daemon/src/outbound_control.rs:73-121 | a lease is live exactly when in both lists the entries with its IP are its own entry alone |
| `ControlEndpoints.LivenessReadsSets` | apps/daemon/src/outbound_control.rs:73-121 | order and repetition of both lists change nothing |
| `PeerTrust.DeliveryNeedsStandingEnrolment` | apps/daemon/src/peer_trust.rs:179-204 | in every run of trust, forget, enrol and network change, with faults and crashes anywhere, a frame is delivered for a peer and key only if the peer is approved now, that exact key was enrolled while the peer was approved there, and no forget of the peer on that network has landed its pin write since |
| `PeerTrust.StandingEnrolmentSuffices` | apps/daemon/src/peer_trust.rs:179-204 | conversely such an enrolment of an approved peer is enough for delivery |
| `PeerTrust.TrustAloneRestoresNothing` | apps/daemon/src/peer_trust.rs:312-330 | a key that is gone stays gone, and nothing is delivered under it, until it is enrolled anew; re-trusting does not bring it back |
| `PeerTrust.ForgetPinFirst` | apps/daemon/src/peer_trust.rs:332-357 | however a forget ends, membership changed only if the pin is gone, only this peer of the current network is affected, and Ok means both records are gone |
| `PeerTrust.ForgetExactly` | apps/daemon/src/peer_trust.rs:332-357 | a forget on the current network succeeds with both records gone exactly when the pin, if any, can be taken out, no crash comes in between and the entry, if any, can be taken out; each failing branch is stated with what it leaves |
| `PeerTrust.ForgetRefused` | apps/daemon/src/peer_trust.rs:332-341 | a forget that does not get to the one current network changes nothing and answers an error |
| `PeerTrust.PinHasOrigin` | apps/daemon/src/peer_trust.rs:258-308 | every stored key was put there by one enrolment that no later forget has undone |
| `PeerTrust.PinChanges` | apps/daemon/src/peer_trust.rs:258-357 | a key appears only by an enrolment of an approved peer and disappears only by a forget of it |
| `PeerTrust.EnrolExactly` | apps/daemon/src/peer_trust.rs:258-308 | enrolment adds the confirmed key of an approved peer or changes nothing; Ok(true) and Ok(false) mean what they say |
| `PeerTrust.EnrolSucceeds` | apps/daemon/src/peer_trust.rs:258-308 | the key is written exactly when the peer is approved, the confirmation matches and is fresh, the peer has no key, nobody else on the network has this one and the file can be saved; that it was there already is answered exactly when it was |
| `PeerTrust.TrustExactly` | apps/daemon/src/peer_trust.rs:312-330 | trusting sets one flag on the current network, keeps the member flag, and touches no key |
| `PeerTrust.TrustSucceeds` | apps/daemon/src/peer_trust.rs:312-330 | trusting succeeds exactly on the one current network when the flag is set already or can be saved |
| `PeerTrust.AuthorizeExactly` | apps/daemon/src/peer_trust.rs:179-204 | a frame passes exactly when nothing fails to load and the peer is approved and presents the very key enrolled for it |
| `PeerTrust.ApprovedExactly` | apps/daemon/src/peer_trust.rs:80-108 | approval holds exactly for a trusted peer of the unique current network |
| `PeerTrust.EveryRunKeepsInv` | apps/daemon/src/peer_trust.rs:258-357 | in every run the pins stay one-to-one per network and at most 128 |
| `PeerPins.EnrollExactly` | crates/blueroute-protocol/src/peer_pin.rs:112-141 | a key is enrolled exactly when the peer is real, has none yet, and one-to-one is kept |
| `PeerPins.RevokeKeepsSound` | crates/blueroute-protocol/src/peer_pin.rs:145-147 | revoking keeps the pins one-to-one |
| `PeerTrustOwner.DurablePeerTrust.EnrollKey` | apps/daemon/src/peer_trust.rs:258-308 | the method over the two files is the specified enrolment |
| `PeerTrustOwner.DurablePeerTrust.TrustPeer` | apps/daemon/src/peer_trust.rs:312-330 | the method is the specified trust |
| `PeerTrustOwner.DurablePeerTrust.ForgetPeer` | apps/daemon/src/peer_trust.rs:332-357 | the method is the specified forget, pin first, with a crash possible in between |
| `PeerTrustOwner.DurablePeerTrust.RevokePin` | apps/daemon/src/peer_trust.rs:344-352 | succeeds exactly when the pins load and, if the peer has one, the rest can be saved; then exactly this pin is gone, otherwise nothing changed |
| `PeerTrustOwner.DurablePeerTrust.WithApprovedPinnedPeer` | apps/daemon/src/peer_trust.rs:179-204 | passes exactly when nothing fails to load and the peer is approved and presents the key enrolled for it |
| `PeerTrustOwner.DurablePeerTrust.ApprovedControlPins` | apps/daemon/src/peer_trust.rs:109-148 | the allowlist is exactly the pinned and approved peers of the network, each once, and given exactly when the network is current |
| `PeerTrustOwner.Select` | apps/daemon/src/peer_trust.rs:134-147 | the loop keeps exactly the records of this network whose peer is trusted |
| `PeerTrustOwner.CheckAllowlist` | apps/daemon/src/control_tls.rs:500-515 | the two-set pass accepts exactly an unambiguous allowlist |
| `PeerTrustOwner.AllowlistNeverAmbiguous` | apps/daemon/src/control_tls.rs:500-515 | an allowlist drawn from the pin file is refused only if empty or naming the local node |
| `PeerTrustOwner.Entries` | crates/blueroute-protocol/src/peer_pin.rs:177-181 | walks every pin once |
| `PeerTrustOwner.PeerPinStore.Load` | apps/daemon/src/peer_pin_store.rs:119-164 | the line loop computes the specified reading of the file |
| `PeerTrustOwner.PeerPinStore.Save` | apps/daemon/src/peer_pin_store.rs:166-187 | a save succeeds exactly within the record bound, and what it wrote reads back as the same pins; otherwise the file is unchanged |
| `PeerTrustOwner.Render` | apps/daemon/src/peer_pin_store.rs:170-179 | the loop appends the specified text |
| `PinFile.RoundTrip` | apps/daemon/src/peer_pin_store.rs:119-187 | for every set of at most 128 pins, walked in any order, the file has 23 + 131 n bytes, fits the bound and reads back as the same pins |
| `PinFile.ReadWritten` | apps/daemon/src/peer_pin_store.rs:137-154 | a record line reads back as its record |
| `PinFile.AcceptedRecords` | apps/daemon/src/peer_pin_store.rs:132-163 | an accepted file holds exactly the records of its lines, one pin per line, one-to-one in each network, at most 128 |
| `PinFile.ReadExactly` | apps/daemon/src/peer_pin_store.rs:119-164 | a file is accepted exactly when it is absent, or is short enough, starts with the version line and lists every pin once, one well-formed record a line, the pins being at most 128 and one-to-one in each network |
| `PinFile.RecordsAreTaken` | apps/daemon/src/peer_pin_store.rs:132-163 | lines that read as records of distinct peers with unshared keys are all taken |
| `PinFile.AcceptedIsSound` | apps/daemon/src/peer_pin_store.rs:119-164 | whatever file is accepted, its pins are one-to-one per network and at most 128 |
| `Hex.DecodeEncode` | crates/blueroute-core/src/id.rs:11-57 | hexadecimal text decodes to the bytes it was made from |
| `Hex.EncodeDecode` | crates/blueroute-protocol/src/peer_pin.rs:38-66 | a strict reader accepts one spelling only |
| `Lines.SplitFirst` | apps/daemon/src/peer_pin_store.rs:126-132 | a plain line is split off as it stands |
| `Lines.ThreeFields` | apps/daemon/src/peer_pin_store.rs:136-154 | three tab-separated texts are three fields |
| `SessionRegistry.AdmissionExactly` | crates/blueroute-protocol/src/session.rs:272-329 | admission succeeds exactly for a valid peer without an active entry, an id that is nonzero, unused and not remembered, and room; otherwise nothing changes |
| `SessionRegistry.ActivateKeepsInv` | crates/blueroute-protocol/src/session.rs:257-329 | bounds, one peer per id and the replay memory are kept |
| `SessionRegistry.MarksKeepInv` | crates/blueroute-protocol/src/session.rs:331-358 | loss and reconnect marks keep them too |
| `SessionRegistry.MarksExactly` | crates/blueroute-protocol/src/session.rs:331-358 | the generation that holds the entry is marked lost once and reconnecting once per loss; nothing else changes |
| `SessionRegistry.RecoversExactly` | crates/blueroute-protocol/src/session.rs:272-358 | after that the peer recovers exactly with a nonzero id that is not remembered and that nobody holds |
| `SessionRegistry.OnlyTheHolderActs` | crates/blueroute-protocol/src/session.rs:331-372 | removal takes out exactly the entry of the generation that holds it; marks and removal by any other are inert |
| `SessionRegistry.RemovalKeepsInv` | crates/blueroute-protocol/src/session.rs:360-372 | so does exact removal |
| `RegisteredTransport.EveryRunKeepsInv` | apps/daemon/src/registered_transport.rs:94-265 | over every interleaving of admit, read, send, cancel and drop each entry is served by an unretired owner of exactly its generation, sockets close before slots are freed, and no call reports frames or a send after the close |
| `RegisteredTransport.ExactlyOneOwner` | apps/daemon/src/registered_transport.rs:94-125 | each table entry matches exactly one unretired owner |
| `RegisteredTransport.FreedAfterClosed` | apps/daemon/src/registered_transport.rs:242-265 | a slot is freed only after its owner closed the socket |
| `RegisteredTransport.EveryRunWithoutLossMarks` | apps/daemon/src/registered_transport.rs:94-265 | without loss marks entries and unretired owners are in bijection |
| `RegisteredTransport.OneOpenSocketPerPeer` | apps/daemon/src/registered_transport.rs:94-125 | two open sockets never belong to the same peer |
| `RegisteredTransport.DeadForever` | apps/daemon/src/registered_transport.rs:155-208 | an owner that was closed or replaced stays so, and never again reports frames or a send |
| `RegisteredTransport.StaleOwnerCannotRemove` | apps/daemon/src/registered_transport.rs:214-257 | once a newer generation holds the entry no call of the old owner touches the table |
| `RegisteredTransport.TrafficIsCurrent` | apps/daemon/src/registered_transport.rs:155-208 | frames or a send are reported exactly when the call succeeded and the owner was the active generation at that moment; otherwise the socket is shut |
| `RegisteredTransport.IdleOwnerMoves` | apps/daemon/src/registered_transport.rs:155-265 | a call starts exactly for the active generation; a cancel by generation acts exactly on its own; whatever ends an owner shuts its socket before the table is touched |
| `RegisteredTransport.FreshWithinHorizon` | crates/blueroute-protocol/src/session.rs:257-270 | up to 4096 admissions no generation repeats |
| `ReplayHorizon.BeyondTheHorizon` | crates/blueroute-protocol/src/session.rs:257-270 | after 4096 other sessions the first id is forgotten, admitted again, and its retired first owner frees the second one's entry |
| `ReplayHorizon.ExactlyTheFreshRuns` | apps/daemon/src/registered_transport.rs:94-125 | at no point of a run can cancelling one owner remove the entry another one serves, exactly when no admission repeats a generation that an owner still carries |
| `ReplayHorizon.SafeExactlyWhenFresh` | apps/daemon/src/registered_transport.rs:94-125 | no owner already there can take a newcomer's entry exactly when none carries its generation |
| `ReplayHorizon.EnoughIds` | crates/blueroute-protocol/src/session.rs:257-270 | so many distinct ids exist |
| `RegisteredSessionOwner.RegisteredControlSession.Admit` | apps/daemon/src/registered_transport.rs:94-125 | an owner exists exactly for an accepted admission, and then may act; a refused session changes nothing |
| `RegisteredSessionOwner.RegisteredControlSession.CloseAndRetire` | apps/daemon/src/registered_transport.rs:242-257 | socket first, then exactly its own entry |
| `RegisteredSessionOwner.RegisteredControlSession.EnsureActiveRegistration` | apps/daemon/src/registered_transport.rs:155-170 | passes exactly for the open, active generation; otherwise closes and retires |
| `RegisteredSessionOwner.RegisteredControlSession.Begin` | apps/daemon/src/registered_transport.rs:155-208 | up to the blocking call |
| `RegisteredSessionOwner.RegisteredControlSession.End` | apps/daemon/src/registered_transport.rs:155-208 | from its outcome to the answer: delivered exactly on success of a still active generation |
| `RegisteredSessionOwner.RegisteredControlSession.Cancel` | apps/daemon/src/registered_transport.rs:214-216 | close and retire |
| `RegisteredSessionOwner.RegisteredControlSession.CancelIfCurrentForPeer` | apps/daemon/src/registered_transport.rs:221-239 | only for this peer and generation; otherwise nothing |
| `NapAdmission.AttachedMeansLeased` | apps/daemon/src/nap_control_admission.rs:165-169 | in every run an owner with a seen attachment holds its lease, leases are never shared, and each slot is granted once and freed at most once |
| `NapAdmission.SlotOutlivesSession` | apps/daemon/src/nap_control_admission.rs:282-331 | over any run a slot whose attachment was seen stays taken through session loss, failed activation, owner drop and stale callbacks; only its detach, its ticket or closing the NAP frees it |
| `NapAdmission.AttachmentProtects` | apps/daemon/src/nap_control_admission.rs:251-280 | seeing the attachment protects the slot at once, whether or not activation succeeds |
| `NapAdmission.DetachAllOrNothing` | apps/daemon/src/nap_control_admission.rs:291-323 | a detach confirmation holds exactly for the attached owner of that network, peer and generation; then session and slot both go, otherwise nothing changes |
| `NapAdmission.ActivationExactly` | apps/daemon/src/nap_control_admission.rs:136-155 | activation succeeds exactly for a live, approved session whose own generation is still pending under the current policy |
| `NapAdmission.ReserveExactly` | apps/daemon/src/nap_control_admission.rs:108-131 | a slot goes exactly to an approved session of this network whose new peer the ledger has room for, with one new open, unattached owner holding the granted ticket; a refusal changes nothing |
| `NapAdmission.LossFreesExactly` | apps/daemon/src/nap_control_admission.rs:171-289 | a lost session is closed and an unattached slot is free again; an attached one stays |
| `NapAdmission.DropFreesExactly` | apps/daemon/src/nap_control_admission.rs:180-401 | so it is when an owner is dropped |
| `NapAdmission.CancelFreesExactly` | apps/daemon/src/nap_control_admission.rs:325-375 | a failed read or write, and a cancel for this very generation, end the session the same way; any other leaves everything as it was |
| `NapAdmission.SecondReportClosesSession` | apps/daemon/src/nap_control_admission.rs:262-279 | reporting an attachment twice keeps the slot but closes the session, though the ledger answers that nothing is wrong |
| `NapAdmission.NeverOverbooked` | crates/blueroute-core/src/nap_admission_ledger.rs:72-150 | in every run, updates included, the slots taken stay within the ceiling in force at each point exactly as long as no update sets a ceiling below what is taken at that moment |
| `NapAdmission.GrantsStayWithin` | crates/blueroute-core/src/nap_admission.rs:42-97 | in whatever state updates have left it, a step takes at most one slot, and only on a usable NAP up to the ceiling in force |
| `NapAdmission.EveryRunKeepsInv` | apps/daemon/src/nap_control_admission.rs:36-400 | the ledger holds exactly the slots granted and not freed, in every run |
| `NapAdmission.FreedAtMostOnce` | crates/blueroute-core/src/nap_admission_ledger.rs:188-205 | granted once, so freed at most once |
| `NapLedger.ReserveExactly` | crates/blueroute-core/src/nap_admission_ledger.rs:96-144 | a slot is granted exactly to a new, real client of an open, usable NAP with room |
| `NapLedger.ReserveTakesOne` | crates/blueroute-core/src/nap_admission_ledger.rs:96-144 | the new slot has a generation never used and is the only change |
| `NapLedger.ActivateExactly` | crates/blueroute-core/src/nap_admission_ledger.rs:150-185 | promotion exactly when this generation is pending and the policy still allows it; idempotent when active |
| `NapLedger.ActivateKeepsSlots` | crates/blueroute-core/src/nap_admission_ledger.rs:150-185 | promotion neither frees nor takes a slot |
| `NapLedger.RetireExactly` | crates/blueroute-core/src/nap_admission_ledger.rs:188-205 | retiring frees exactly this ticket's slot, once |
| `NapLedger.PlanExactly` | crates/blueroute-core/src/nap_admission.rs:42-97 | room for one more if the candidate is new, no overbooking if it is not |
| `NapControlOwner.RegisteredNapControlOwner.Reserve` | apps/daemon/src/nap_control_admission.rs:221-234 | an owner exists exactly for a granted slot |
| `NapControlOwner.RegisteredNapControlOwner.OnTransportLoss` | apps/daemon/src/nap_control_admission.rs:282-285 | closes the session; frees only an unattached slot |
| `NapControlOwner.RegisteredNapControlOwner.ActivateAfterObservedAttachment` | apps/daemon/src/nap_control_admission.rs:251-280 | the method is the specified activation |
| `NapControlOwner.RegisteredNapControlOwner.ConfirmObservedDetachIfCurrent` | apps/daemon/src/nap_control_admission.rs:291-323 | the method is the specified detach |
| `NapControlOwner.RegisteredNapControlOwner.CancelIfCurrent` | apps/daemon/src/nap_control_admission.rs:325-331 | only for this generation |
| `NapControlOwner.RegisteredNapControlOwner.Traffic` | apps/daemon/src/nap_control_admission.rs:333-375 | failure or end of stream counts as loss |
| `NapControlOwner.RegisteredNapControlOwner.Drop` | apps/daemon/src/nap_control_admission.rs:394-400 | an attached slot survives its owner |
| `NapControlOwner.Admission.Retire` | crates/blueroute-core/src/nap_admission_scope.rs:92-97 | frees the slot of a ticket of this instance |
| `ActiveSession.LiveReadIsOnTime` | apps/daemon/src/control_tls.rs:1208-1344 | a session still live after a read completed it strictly before its idle expiry on the caller's clock |
| `ActiveSession.LeaseMovesOnlyWithFrames` | apps/daemon/src/control_tls.rs:1208-1344 | the expiry moves only with delivered frames and never credits time that has not passed |
| `ActiveSession.IdlePollExactly` | apps/daemon/src/control_tls.rs:1208-1330 | exactly which timed-out polls leave a session alive, and that they change nothing |
| `ActiveSession.OnTimeExactly` | apps/daemon/src/control_tls.rs:1231-1290 | for every session, clock reading, pause before the wait and budget: all reads that hand over frames really end before the lease does exactly when no frame can be handed over, or the wait starts just when the session thinks, or the budget ends it in time |
| `ActiveSession.OnTimeUpToAPause` | apps/daemon/src/control_tls.rs:1231-1290 | the same with only a bound on the pause known |
| `ActiveSession.RenewedInTimeExactly` | apps/daemon/src/control_tls.rs:1231-1290 | the same for the reads that push the expiry out |
| `ActiveSession.SliceThatFits` | apps/daemon/src/control_worker.rs:253-256 | a slice of 10 ms that fits before the end of the lease keeps it |
| `ActiveSession.SilenceIsBounded` | apps/daemon/src/control_tls.rs:1202-1290 | between a renewing read and the next live one less than 30 s and the offset of the latter really pass |
| `ActiveSession.LateByLessThanTheOffset` | apps/daemon/src/control_tls.rs:1231-1290 | a live read ends late by less than what rounding the clock took away and the pause before the wait together |
| `ActiveSession.LateHeartbeatExample` | apps/daemon/src/control_tls.rs:1282-1290 | with numbers: a heartbeat that really arrives almost half a millisecond after a lease of 30 s renews it, by rounding |
| `ActiveSession.LateAfterPauseExample` | apps/daemon/src/control_tls.rs:1231-1250 | with numbers: on a whole millisecond the pause alone makes it late, by all of it but a nanosecond, and the lease is renewed |
| `ActiveSession.ClockLagsUnderOneMs` | apps/daemon/src/control_worker.rs:124-129 | the session clock lags by less than a millisecond and never runs backwards |
| `ActiveSession.EveryDeliveryInOrder` | crates/blueroute-protocol/src/session_stream.rs:83-125 | over every run all delivered frames are this peer's and session's, strictly numbered from 3, nothing follows a Goodbye, a dead ingress means a dead session and a closed socket |
| `ActiveSession.DeadForever` | apps/daemon/src/control_tls.rs:1137-1192 | a dead session never again yields frames or sends |
| `ActiveSession.DeliveryNeedsApproval` | apps/daemon/src/pinned_ingress.rs:128-176 | frames are delivered only if the peer was approved before the wait and after it |
| `ActiveSession.SilentSessionExpires` | apps/daemon/src/control_tls.rs:1219-1230 | at or past its expiry a session dies without delivering |
| `ActiveSession.FeedExactly` | crates/blueroute-protocol/src/session_stream.rs:83-125 | what a passing chunk is and does to the stream |
| `SessionStream.AcceptExactly` | crates/blueroute-protocol/src/session_stream.rs:95-116 | a chunk passes exactly when all its frames are in scope, numbered upwards and end at a Goodbye at the latest |
| `SessionStream.FeedPassesExactly` | crates/blueroute-protocol/src/session_stream.rs:83-125 | a chunk passes exactly when it is empty, or whole frames in order before any Goodbye with no bytes after one; all its frames are handed on, and anything else poisons the stream |
| `ActiveSession.ReadHandsExactly` | apps/daemon/src/control_tls.rs:1208-1344 | a read hands frames over exactly when the socket answered in time, the peer was approved before and after and the stream takes the bytes; then exactly the frames of the chunk |
| `ActiveSession.EofClosesExactly` | apps/daemon/src/control_tls.rs:1291-1299 | the end of the stream is a graceful close exactly in time, after a Goodbye and with nothing left over |
| `ActiveSession.GoodbyeShortens` | crates/blueroute-protocol/src/session_activity.rs:72-111 | a Goodbye shortens the lease to five seconds and ends reading |
| `ActiveSessionOwner.PinnedSessionIngress.FeedStream` | crates/blueroute-protocol/src/session_stream.rs:83-125 | the frame loop accepts exactly whole frames in order with no bytes after a Goodbye, hands them on all together, and otherwise ends the stream |
| `ActiveSessionOwner.PinnedSessionIngress.FeedVerifiedPlaintext` | crates/blueroute-protocol/src/session_activity.rs:72-111 | the method is the specified feed |
| `ActiveSessionOwner.PinnedSessionIngress.CheckBeforeRead` | apps/daemon/src/pinned_ingress.rs:128-149 | the method is the specified gate |
| `ActiveSessionOwner.PinnedSessionIngress.ReceiveVerifiedPlaintext` | apps/daemon/src/pinned_ingress.rs:151-176 | the method is the specified gate |
| `ActiveSessionOwner.PinnedSessionIngress.FinishAt` | apps/daemon/src/pinned_ingress.rs:180-196 | the method is the specified end of stream |
| `ActiveSessionOwner.ActiveControlSession.ReceiveNextWithBudget` | apps/daemon/src/control_tls.rs:1208-1344 | the method is the specified read, up to the socket |
| `ActiveSessionOwner.ActiveControlSession.AfterRead` | apps/daemon/src/control_tls.rs:1255-1344 | the method is the specified read, from the socket's answer on |
| `ActiveSessionOwner.ActiveControlSession.SendUntil` | apps/daemon/src/control_tls.rs:1137-1192 | approval first, then the write; any failure is terminal |
| `ActiveSessionOwner.ActiveControlSession.CloseOwnedSocket` | apps/daemon/src/control_tls.rs:1132-1135 | terminal and closed |
| `TlsRecords.EveryIdentityRoundTrips` | apps/daemon/src/control_tls.rs:92-131 | every identity that passes the checks of an identity is written and read back as itself |
| `TlsRecords.IdentityIsKept` | apps/daemon/src/control_tls.rs:230-263 | a record is never replaced, a malformed one included; whoever wrote first, the identity answered is the one in the file and every later start answers it again |
| `TlsRecords.AnsweredExactly` | apps/daemon/src/control_tls.rs:230-263 | an identity is answered exactly when it fits the node and is the one in the file, or, with no file and a fitting new one, what was written or what another writer had put there |
| `TlsRecords.DecodedExactly` | apps/daemon/src/control_tls.rs:92-131 | a record is read as an identity exactly when that identity fits the node and the record is its one encoding |
| `TlsRecords.IdentityRoundTrip` | apps/daemon/src/control_tls.rs:267-330 | the codec alone: what was encoded decodes to itself exactly when certificate and key are both nonempty |
| `TlsRecords.IdentityUnique` | apps/daemon/src/control_tls.rs:289-330 | every accepted record is the one encoding of its result |
| `TlsRecords.PrefaceRoundTrip` | apps/daemon/src/control_tls.rs:649-680 | the announced certificate is what the other side takes, and nothing past it |
| `TlsRecords.PrefaceUnique` | apps/daemon/src/control_tls.rs:664-680 | every accepted front is the one preface of its certificate |
| `PrefaceExchange.WriteUntil` | apps/daemon/src/control_tls.rs:699-732 | writes all bytes or a prefix, however the socket splits them; a smooth socket takes all |
| `PrefaceExchange.ReadExactUntil` | apps/daemon/src/control_tls.rs:734-767 | fills the buffer with the next bytes of the stream and takes none beyond it; a smooth socket fills it |
| `PrefaceExchange.TakePreface` | apps/daemon/src/control_tls.rs:664-683 | the result and what stays unread depend on the stream alone, not on how reads were split |
| `PrefaceExchange.Exchange` | apps/daemon/src/control_tls.rs:649-697 | announces the local certificate, takes the peer's, leaves everything after it unread, and succeeds on a smooth socket with a well-formed front |
| `PrefaceExchange.BothEnds` | apps/daemon/src/control_tls.rs:649-697 | of two ends, each reading what the other put out and a rest, both learn the other's certificate and leave the rest unread whenever both succeed; with smooth sockets both do |
| `ControlListener.RetiredForever` | apps/daemon/src/control_listener.rs:192-234 | retirement is absorbing: no later accept, poll, release or supervision lets out a socket or session, or keeps one |
| `ControlListener.LossRetires` | apps/daemon/src/control_listener.rs:280-404 | ownership lost before the accept, between accept and hand-over, after TLS or during supervision: nothing gets out, then or later |
| `ControlListener.RetiresExactly` | apps/daemon/src/control_listener.rs:280-404 | a call retires a live listener exactly when an observation it makes shows a loss, accepting fails, or it is for another network |
| `ControlListener.PollRegisteredExactly` | apps/daemon/src/control_listener.rs:367-404 | a session is yielded exactly when ownership was confirmed before accept, after accept and after TLS, and the session is this network's and approved |
| `ControlListener.PollExactly` | apps/daemon/src/control_listener.rs:280-305 | a socket is yielded exactly when ownership was confirmed on both sides of a ready candidate |
| `ControlListener.QuietAnswersExactly` | apps/daemon/src/control_listener.rs:280-404 | nothing is answered exactly when ownership is confirmed and nobody waits, an interruption exactly when an observation is cut short; neither changes the listener |
| `ControlListener.MatchesExactly` | apps/daemon/src/control_listener.rs:618-636 | an observation matches exactly when the durable network was the listener's on both sides of an endpoint read that gave its endpoint |
| `ControlListener.SuperviseExactly` | apps/daemon/src/control_listener.rs:420-462 | a failed tick keeps no session, a successful one exactly those that pass their recheck |
| `ControlListener.ObservedControlListener.AcceptCurrent` | apps/daemon/src/control_listener.rs:192-234 | the method is the specified accept |
| `ControlListener.ObservedControlListener.AcceptWithRevalidation` | apps/daemon/src/control_listener.rs:472-487 | the method is the specified accept with an observation after it |
| `ControlListener.ObservedControlListener.FinishAcceptedObservation` | apps/daemon/src/control_listener.rs:489-517 | the gate after an accept: only a matching observation lets the socket out, any other completed one retires |
| `ControlListener.ObservedControlListener.PollWithObservations` | apps/daemon/src/control_listener.rs:280-305 | the method is the specified poll |
| `ControlListener.ObservedControlListener.ReleaseRegistered` | apps/daemon/src/control_listener.rs:527-612 | the method is the specified release |
| `ControlListener.ObservedControlListener.PollRegisteredSession` | apps/daemon/src/control_listener.rs:367-404 | the method is the specified inbound handshake |
| `ControlListener.ObservedControlListener.SuperviseRegistered` | apps/daemon/src/control_listener.rs:420-462 | the retain loop is the specified tick |
| `ControlWorker.EveryIteration` | apps/daemon/src/control_worker.rs:136-333 | at the top of every iteration of every run both timestamp maps have exactly the owned ids as keys, there are at most 32 sessions, the table holds just them, no two share a peer or an id, and each came in through the listener in force; nothing was read, written or admitted in a round whose ownership check failed or after stop was seen |
| `ControlWorker.RunWorker` | apps/daemon/src/control_worker.rs:136-333 | the loop is the fold of its iterations, so the above holds of it |
| `ControlWorker.Iterate` | apps/daemon/src/control_worker.rs:145-332 | one iteration with its early exits is the specified one |
| `ControlWorker.RunRound` | apps/daemon/src/control_worker.rs:202-330 | one round under a listener, phase by phase, is the specified one |
| `ControlWorker.WorkingKeepsInv` | apps/daemon/src/control_worker.rs:202-330 | a round keeps all this; without confirmed ownership nothing is touched and nothing kept |
| `ControlWorker.BindingExactly` | apps/daemon/src/control_worker.rs:149-200 | a listener is taken exactly when the durable network is known before and equals the listener's after the bind |
| `ControlWorker.SupervisedExactly` | apps/daemon/src/control_worker.rs:202-217 | keeps exactly the sessions the listener's supervision keeps, or none |
| `ControlWorker.ServedExactly` | apps/daemon/src/control_worker.rs:219-297 | exactly the sessions whose read and due heartbeat went through stay, with their timestamps |
| `ControlWorker.TurnsAreOrderly` | apps/daemon/src/control_worker.rs:235-285 | turns happen only before stop is seen; if it is not seen every session has one |
| `ControlWorker.LooksExactly` | apps/daemon/src/control_worker.rs:149-301 | an iteration that does not see stop has looked for it before it started, twice around binding, after the ownership check, before every session's turn and before admitting |
| `ControlWorker.WritesExactly` | apps/daemon/src/control_worker.rs:256-285 | a turn writes exactly to answer a Goodbye, or to a session that stays when its last heartbeat is 5 s or more ago |
| `ControlWorker.TakeTurns` | apps/daemon/src/control_worker.rs:235-285 | the loop takes exactly those turns |
| `ControlWorker.PollAdmitsExactly` | apps/daemon/src/control_worker.rs:306-315 | admission exactly for an approved session of this network that the table takes |
| `ControlWorker.AdmittingKeepsInStep` | apps/daemon/src/control_worker.rs:302-329 | an admitted session is added with both timestamps and was not there; without a durable network everything is closed; otherwise the sessions stay |
| `ControlWorker.RegisteredIsRemembered` | apps/daemon/src/control_worker.rs:306-329 | an id whose handshake registered is remembered, whether or not the session is then admitted |
| `ControlWorker.RetainKeepsInStep` | apps/daemon/src/control_worker.rs:221-232 | dropping sessions and their timestamps keeps the collections in step |
| `ControlWorker.BackedMeans` | apps/daemon/src/control_worker.rs:143-144 | owned sessions never share a peer or an id |
| `WorkerLiveness.SilenceIsCutOff` | apps/daemon/src/control_worker.rs:235-285 | with the sessions run as reads under their leases, over whole worker runs: however many rounds a peer is silent through, as long as its session is owned every turn it had came less than 30 s of real time after the peer was last heard |
| `WorkerLiveness.SilentPeersAreDropped` | apps/daemon/src/control_worker.rs:235-297 | a silent peer is dropped in the first round that turns to it 30 s or more after it was heard; with turns at most a gap apart that is less than 30 s and one gap |
| `WorkerLiveness.OwnedPeersWereHeard` | apps/daemon/src/control_worker.rs:136-333 | at the top of every iteration every owned session had its last turn less than 30 s after its peer was heard or it was admitted |
| `WorkerLiveness.RoundShape` | apps/daemon/src/control_worker.rs:202-330 | after a round that did not end the worker each session was admitted in it, or had its turn and stayed |
| `WorkerLiveness.RoundBeats` | apps/daemon/src/control_worker.rs:275-285 | a session there before and after a round was written one heartbeat in it if its last one was 5 s or more before, and otherwise none |
| `WorkerLiveness.IsAWorkerRun` | apps/daemon/src/control_worker.rs:136-333 | such a run is a run of the worker, so all that is proved of it holds |
| `HostLifecycle.CreateExactly` | apps/daemon/src/single_star.rs:516-587 | succeeds exactly when hosting is possible, nothing is member, the last start succeeded and the result can be saved; at most 16 starts and 256 draws, of distinct identities never remembered; all but the last start failed on the address; only the identity whose start succeeded is persisted; a failed save stops its host; otherwise nothing changes |
| `HostLifecycle.CreateFaultExactly` | apps/daemon/src/single_star.rs:516-527 | nothing stands in the way exactly when no transition runs, hosting is possible, the file loads and nothing is member |
| `HostLifecycle.SearchExactly` | apps/daemon/src/single_star.rs:529-562 | the bounded search tries new identities only, goes on only after an address conflict, and sixteen conflicts give AddressConflict |
| `HostLifecycle.SearchGivesUp` | apps/daemon/src/single_star.rs:529-562 | it gives up only without a plan, without new identities, on another error or after sixteen conflicts |
| `HostLifecycle.DrawnExactly` | apps/daemon/src/single_star.rs:996-1011 | at most 16 draws, ending at the first that fails or is new |
| `HostLifecycle.LeaveExactly` | apps/daemon/src/single_star.rs:719-770 | NotMember is committed exactly when the host stopped and the result was saved; if it cannot be saved the store is unchanged and the host is started again |
| `HostLifecycle.LeaveRefuses` | apps/daemon/src/single_star.rs:719-731 | a held flag, a failed load or two member networks are refused with nothing changed; leaving no network is harmless |
| `HostLifecycle.LeftExactly` | apps/daemon/src/single_star.rs:740-757 | leaving ends local and peer membership and keeps trust flags, names and other networks |
| `HostLifecycle.CreatedExactly` | apps/daemon/src/single_star.rs:564-570 | the created network is the one member, with the given name and no peers, and every other entry is kept |
| `HostLifecycle.ReconcileExactly` | apps/daemon/src/single_star.rs:772-791 | succeeds exactly when there is nothing to restore or the host could be started; startup writes nothing and runs a host only for the remembered network |
| `SingleStarOwner.UniqueNetworkId` | apps/daemon/src/single_star.rs:996-1011 | the drawing loop is the specified one |
| `SingleStarOwner.SingleStar.LocalStarAddress` | apps/daemon/src/single_star.rs:1018-1029 | an address can be planned exactly on a valid pool |
| `SingleStarOwner.SingleStar.SelectHost` | apps/daemon/src/single_star.rs:529-562 | the search loop, measure 16 minus attempts, is the specified one |
| `SingleStarOwner.SingleStar.CreateNetwork` | apps/daemon/src/single_star.rs:516-587 | the method is the specified creation, under the transition flag |
| `SingleStarOwner.SingleStar.ClearMembers` | apps/daemon/src/single_star.rs:750-757 | the loop clears every member flag and nothing else |
| `SingleStarOwner.SingleStar.LeaveNetwork` | apps/daemon/src/single_star.rs:719-770 | the method is the specified leave |
| `SingleStarOwner.SingleStar.ReconcileOnStartup` | apps/daemon/src/single_star.rs:772-791 | the method is the specified reconciliation |
| `Vocabulary.CurrentNetwork` | apps/daemon/src/single_star.rs:967-980 | answers exactly when at most one network is member, and then that one |
| `DaemonFront.NoLostUpdate` | apps/daemon/src/lib.rs:432-531 | in every interleaving of requests, dropped ones included, the store is the result of all saves applied one after the other, and holds at most one member network |
| `DaemonFront.SavesBuildOnTheStore` | apps/daemon/src/single_star.rs:521-571 | a save made from a registry loaded before long awaits still builds on the store as it is |
| `DaemonFront.CachedStatusAgrees` | apps/daemon/src/lib.rs:378-385 | whenever no mutation is in flight the cached network is the one the durable store gives |
| `DaemonFront.FlagIsNeverStuck` | apps/daemon/src/lib.rs:615-635 | the flag is taken exactly while some request holds it, and one at most does |
| `DaemonFront.UpdateKeepsOneMember` | apps/daemon/src/lib.rs:471-495 | every command keeps at most one member network, and the status it publishes is the one computed from its result |
| `DaemonFront.UpdateExactly` | apps/daemon/src/lib.rs:471-510 | each command can be carried out exactly when it is enabled, and its effect on the registry is stated in full: the new or changed entry, and that all other peers and networks stay |
| `DaemonFront.HandledExactly` | apps/daemon/src/lib.rs:432-531 | a request alone makes its change exactly when it is granted, claims the free flag, is enabled and nothing fails; else nothing changes |
| `DaemonFront.OnlyGrantedRequestsAct` | apps/daemon/src/lib.rs:432-441 | in every interleaving an event that changes the store is the save of a request whose authorization was granted |
| `DaemonFront.HandledIsARun` | apps/daemon/src/lib.rs:432-531 | a request handled alone is a run of its steps |
| `DaemonService.Service.Request` | apps/daemon/src/lib.rs:407-549 | the method is the specified handling of a request; it answers success exactly when the request succeeds, and then the store has exactly the command's effect |
| `DaemonService.Service.RecordRecentFailure` | apps/daemon/src/lib.rs:364-376 | what is shown is always the last 16 of all failures recorded |
| `DaemonService.Service.UpdateRuntimeObservation` | apps/daemon/src/lib.rs:202-229 | is one uninterrupted call of the interleaved machine: publishes exactly the observation, and reports whether it differs from what was published last |
| `DaemonService.Service.UpdateRuntimeHealth` | apps/daemon/src/lib.rs:234-245 | is one uninterrupted call of the interleaved machine: publishes one more state, and reports whether it differs from the one before |
| `DaemonService.Service.DiagnosticsSnapshot` | apps/daemon/src/lib.rs:314-362 | is one uninterrupted snapshot of the interleaved machine: answers the state published last, in full, with the last 16 failures recorded |
| `Diagnostics.SnapshotsAreCoherent` | apps/daemon/src/lib.rs:314-334 | with any number of updaters and readers interleaved at every step, each snapshot is one published state in full, published between the start of the call and its end |
| `Diagnostics.NoDeadlock` | apps/daemon/src/lib.rs:202-245 | whenever a thread is not finished some thread can move |
| `Diagnostics.UpdatesArePublishedWhole` | apps/daemon/src/lib.rs:202-229 | an update is published as a whole |
| `Diagnostics.EveryRunKeepsInv` | apps/daemon/src/lib.rs:202-334 | locks, facts and the progress of every thread agree in every run |
| `ApprovedDelivery.EveryFrameWasApproved` | apps/daemon/src/pinned_ingress.rs:128-176 | however reads, sends and trust changes interleave, everything a session hands over came in reads at whose beginning and end the peer was approved and this very key stood enrolled and not forgotten since, and is this peer's, in order |
| `ApprovedDelivery.EverySendWasApproved` | apps/daemon/src/control_tls.rs:1137-1191 | every send reported as done began while the peer was approved and this very key stood enrolled |
| `ApprovedDelivery.ForgottenIsSilent` | apps/daemon/src/control_tls.rs:1137-1344 | once the pin is gone nothing is handed over, a read already waiting included and whatever is trusted again, until this key is enrolled anew; at most one more send is reported as done, the write then on its way; whatever else the session does closes it |
| `ApprovedDelivery.OneMoreSendExactly` | apps/daemon/src/control_tls.rs:1137-1191 | that one more send can be reported exactly when an approved write was on its way in a live session |
| `ApprovedDelivery.SentAfterForget` | apps/daemon/src/control_tls.rs:1175-1191 | with events: a heartbeat starts, the peer is forgotten, the write is reported as done |
| `AttemptSockets.EveryRunCorresponds` | apps/daemon/src/attempt_socket.rs:49-168 | under every call and timestamp pending sockets and in-flight generations correspond exactly |
| `AttemptSockets.RetryFollowsClose` | apps/daemon/src/attempt_socket.rs:65-119 | a retry becomes eligible only after the socket of the attempt before it was closed |
| `AttemptSockets.StillOpen` | apps/daemon/src/attempt_socket.rs:49-63 | a socket that was opened stays open until its own close |
| `AttemptSockets.StaleCallbacksAreInert` | apps/daemon/src/attempt_socket.rs:65-168 | a stale generation's callback changes nothing |
| `AttemptSockets.EveryRunIsQuiet` | apps/daemon/src/attempt_socket.rs:65-168 | no watchdog request outlives the call that made it |
| `AttemptSockets.CurrentCallbacks` | apps/daemon/src/attempt_socket.rs:96-150 | for the current generation in flight: the socket is gone after every callback but an early watchdog, a regressed clock or permanent failure gives the generation up, anything else grants the next attempt while one is left |
| `AttemptSockets.BackoffDoubles` | crates/blueroute-protocol/src/session.rs:140-171 | the backoff doubles up to its cap |
| `AttemptSockets.ScheduledExactly` | crates/blueroute-protocol/src/session.rs:415-454 | a loss is scheduled exactly for a real peer and generation without a slot while there is room, due after the first delay |
| `AttemptSockets.BeginsExactly` | crates/blueroute-protocol/src/session.rs:458-484 | an attempt begins exactly when its generation is current, the clock has not gone back, no socket is open and it is due |
| `AttemptSocketOwner.PendingHandshakeSockets.ScheduleLoss` | apps/daemon/src/attempt_socket.rs:37-47 | the method is the specified step |
| `AttemptSocketOwner.PendingHandshakeSockets.Begin` | apps/daemon/src/attempt_socket.rs:49-63 | the method is the specified step |
| `AttemptSocketOwner.PendingHandshakeSockets.Watchdog` | apps/daemon/src/attempt_socket.rs:65-94 | the method is the specified step |
| `AttemptSocketOwner.PendingHandshakeSockets.Failed` | apps/daemon/src/attempt_socket.rs:96-119 | the method is the specified step |
| `AttemptSocketOwner.PendingHandshakeSockets.FailedWithKind` | apps/daemon/src/attempt_socket.rs:121-146 | the method is the specified step |
| `AttemptSocketOwner.PendingHandshakeSockets.Cancel` | apps/daemon/src/attempt_socket.rs:148-151 | the method is the specified step |
| `AttemptSocketOwner.PendingHandshakeSockets.CloseIfCurrent` | apps/daemon/src/attempt_socket.rs:153-168 | closes exactly this generation's socket |
| `AttemptSocketOwner.PendingHandshakeSockets.Drop` | apps/daemon/src/attempt_socket.rs:171-177 | closes every pending socket |
| `OutboundSupervision.Owner.RunPanuSupervision` | apps/daemon/src/outbound_control.rs:367-414 | every tick gone through, and so every heartbeat, has the expected peer approved with its key enrolled before and after the observations, the PAN link there and the lease planned and its alone; the session is closed on every way out; it ends in an error exactly at the first tick that fails before stop |
| `OutboundSupervision.RecheckMeans` | apps/daemon/src/outbound_control.rs:293-340 | what a passed recheck stands for |
| `OutboundSupervision.RecheckSuffices` | apps/daemon/src/outbound_control.rs:293-340 | where the files can be read, the same is enough |
| `OutboundSupervision.Owner.Supervise` | apps/daemon/src/outbound_control.rs:293-357 | the method is the specified recheck, and any failure closes the session |
| `OutboundSupervision.Owner.SuperviseUntilStopped` | apps/daemon/src/outbound_control.rs:458-490 | for any check: the session is cancelled on every way out; the loop ends at the first tick whose check or heartbeat fails, with that error, or when stop is seen; the heartbeats sent are exactly those due |
| `OutboundSupervision.SentIsSpaced` | apps/daemon/src/outbound_control.rs:420-453 | heartbeats start a full interval after the one before completed, end within their budget, and there is at most one a tick |
| `OutboundSupervision.DueIsSent` | apps/daemon/src/outbound_control.rs:420-453 | no heartbeat is left out: a good tick 5 s or more after the last one adds one |
| `OutboundSupervision.BeatenExactly` | apps/daemon/src/outbound_control.rs:420-453 | a tick sends exactly if it is due and its write is good and within 100 ms |
| `OutboundSupervision.Owner.SendHeartbeatIfDue` | apps/daemon/src/outbound_control.rs:420-453 | due exactly after a full interval; the schedule moves only with a heartbeat completed in time; a regressed clock is an error |

## Left out

- Cryptography: TLS, certificates, fingerprints and the exporter are inputs; a handshake is a session that arrived authenticated.
- Frame decoding: a chunk is what the decoder makes of some bytes; the byte format of control frames is not modelled.
- The membership file: its text format is not modelled; what it refuses (zero ids, unsettled states) is.
- File locks, permissions and a failing directory sync after the rename: a save either happens or does not.
- UTF-8 of the pin file: one character stands for one byte, and every accepted file is ASCII.
- Poisoned locks: modelled for the session table only; elsewhere a poisoned lock refuses and changes nothing.
- Threads and parking: steps interleave; how long a worker sleeps is not modelled.
- Discovery, node listing, interface diagnostics and the wording of logs: they touch none of the state above.
- Host activity when a create or leave request is dropped half-way: the daemon makes no promise about it, so `HostLifecycle` models requests that run to their end; `DaemonFront` does model dropped requests for store and status.
- Outbound dialling and reconnect orchestration beyond the checks, the heartbeat schedule and the supervision loop.
- ControlWorker.ServedExactly: the read of one session is an outcome here; `WorkerLiveness` runs the reads as `ActiveSession` does.
- RegisteredTransport.FreshWithinHorizon: up to 4096 admissions; beyond that the exact condition is `ExactlyTheFreshRuns`.
