# Display drivers: commits, fences, content protection, leases and their bookkeeping

This project models the stateful cores of the MSM display drivers and proves what they keep.

- **Atomic commits** (`MaskBits`, `CommitMasks`, `CommitProtocol`, `CommitSafety`, `CommitProgress`, `CommitDriver`).
  A commit waits until its CRTCs, planes and resources are free, marks them in three bit masks, swaps the software
  state and hands the hardware update to a display thread. The protocol is a state machine whose steps are the
  atomic regions of callers and threads; hardware writes are single steps, so all interleavings are covered. The
  central result is that every run is serial in start order. `CommitDriver` is the same protocol on objects.
- **Fence timeline** (`FenceTimeline`, `FenceLedger`, `FenceLists`, `FenceContext`, `FenceInterleaving`). Two wrapping
  32-bit counters refine an unbounded timeline; the list survives its two head insertions; references add up.
- **HDCP 2.2 transmitter** (`HdcpProtocol`, `HdcpSafety`, `HdcpVerdicts`, `HdcpEnding`, `HdcpProgress`,
  `HdcpDiscipline`, `HdcpDriver`). The driver follows the messages of the trusted application with a table of its
  own. The message order is that of sections 2.2 to 2.5 of "Mapping HDCP to DisplayPort, Revision 2.2". What the display client has to keep to is the predicate
  `HdcpSafety.Allowed`; `HdcpDiscipline` shows for each of its clauses a run that goes wrong without it.
  `HdcpEnding` is about how sessions end, `HdcpProgress` about how they go on.
- **Leases** (`LeaseFixup`, `LeasePlanes`, `LeaseTables`, `LeaseChoice`, `LeaseManager`). Planes, connectors and CRTCs
  go to lease devices without overlap; three mutating passes pair primary planes with CRTCs again.
- **Properties** (`PropertyHolders`, `PropertyRefs`, `PropertyQueue`, `PropertyTracker`). A lookup with memory, a dirty
  queue, blob references over duplicated states, a cache of two state objects.
- **Recovery events** (`RecoveryPool`, `RecoveryRuns`, `RecoveryDriver`), **event log** (`EventLog`, `EventLogWrap`),
  **event clients** (`EventClients`, `EventDriver`): a pool of 64 entries with its worker, a ring with an incremental
  dump, reference counting by scanning a list.
- **Power** (`PowerSupplies`, `PowerHandle`): nested switching with rollback. What clocks, regulators, buses and the RSC
  answer is a parameter of each call.
- **CEA data blocks** (`CeaBlocks`, `CeaAudio`): two scanners and a gathering loop over the bytes of an extension
  (section 7.5 of CTA-861-G).

Where the code does not keep a property everywhere, there is a lemma that says exactly when it does and one with a
concrete case in which it does not:

- After a receive timeout the repeated LC_INIT is described as another message unless the driver's table happens to
  be right (`HdcpDiscipline.TimeoutResendsTheChallenge`, `TimeoutFallsOutOfStep`).
- An empty message, a timeout without a new challenge or a failing stream query can leave a session standing still
  (`HdcpProgress.StandsStillExactly`, `HdcpDiscipline.StandstillIsReached`), and a change of streams that comes while
  their announcement is on its way is forgotten (`HdcpProgress.StreamChangeCountsIff`,
  `HdcpDiscipline.AnnouncingReached`).
- A property set whose blob lookup fails drops the old reference and goes on holding the blob (`PropertyRefs.SetKeepsAccountsIff`).
- The regulator rollback disables hardware-controlled regulators it never enabled (`PowerSupplies.FailureRestoresIff`).
- The scanners differ on a last block that is one byte too long (`CeaBlocks.ScannersAgreeIff`), and the gathering loop
  repeats for ever on a refused block after a payload (`CeaAudio.LoopEndsIff`).
- Fence triggers keep the list in creation order as long as none takes it while another holds a part of it
  (`FenceInterleaving.TurnsKeepCreationOrder`); otherwise it can be reordered (`OverlapCanReorder`).
- The signed test of a fence forgets 2^31 signals later (`FenceTimeline.SignedTestExactly`); the flag the fence got
  before does not (`SignalledStaysSignalled`).
- After 2^32 logged events a dump prints too much or too little unless the distance in the ring is right
  (`EventLogWrap.EveryDumpIsExactIff`, `MarkersTell`, `AheadIsReached`).

Clocks, interrupts, memory allocation and calls into other drivers are parameters: a method takes what such a call
answers. A region under one lock is one atomic step.

## Model

| member | source | states |
|---|---|---|
| CommitMasks.BusyIffShared | msm/msm_atomic.c:42-63 | the busy test on the three bit masks is true exactly when the commit and the pending objects share a CRTC, plane or resource |
| CommitMasks.MarkIsUnion | msm/msm_atomic.c:42-63 | or-ing the masks of a commit into the pending masks adds exactly its objects |
| CommitMasks.ClearIsDifference | msm/msm_atomic.c:65-75 | clearing them removes exactly its objects |
| CommitDriver.Driver.StartAtomic | msm/msm_atomic.c:42-63 | a commit starts exactly when none of its objects is pending; then all of them are, otherwise nothing changes |
| CommitDriver.Driver.StartIsAStep | msm/msm_atomic.c:42-63 | the start condition on the device and its effect on the pending objects are those of the protocol |
| CommitDriver.Driver.EndAtomic | msm/msm_atomic.c:65-75 | the pending set loses exactly the objects of the commit |
| CommitDriver.Driver.CommitDestroy | msm/msm_atomic.c:77-83 | the objects are released and only a non-blocking commit is freed here |
| CommitDriver.Driver.CompleteCommit | msm/msm_atomic.c:532-571 | the hardware takes the software state of exactly the commit's objects, one reference to the state goes, the objects are no longer pending |
| CommitDriver.CompletionIsARun | msm/msm_atomic.c:532-571 | a completion is the run of the protocol from the first hardware write to the end of the commit, with the same hardware, pending objects, references and frees |
| CommitDriver.Driver.ChooseThread | msm/msm_atomic.c:607-645 | the thread chosen belongs to the first CRTC of the commit that has a thread entry; none is chosen exactly when there is no entry or the deciding one has no thread |
| CommitDriver.OneThreadDecides | msm/msm_atomic.c:607-645 | at most one thread is right for a commit, and there is none exactly when its caller has to complete it |
| CommitDriver.Driver.Dispatch | msm/msm_atomic.c:607-664 | the commit is last on the list of the thread of its first CRTC with an entry and nothing else changed; if that gives no thread, it is completed on the spot by its caller |
| CommitDriver.Driver.RunWorker | msm/msm_atomic.c:573-587 | a display thread completes the oldest commit of its own list and no other, and it is the thread of that commit's CRTCs |
| CommitDriver.Driver.BlockingCommit | msm/msm_atomic.c:678-794 | a blocking commit with free objects is refused without a trace or takes software and hardware by one step of the serial execution, completed once by the thread of its CRTCs or by its caller if there is none, freed once and with no reference left over |
| CommitProtocol.SerialIsLastPlanned | msm/msm_atomic.c:739-783 | the one-at-a-time execution leaves on each object the last state planned for it |
| CommitSafety.CommitsInFlightAreDisjoint | msm/msm_atomic.c:42-75 | in every interleaving the commits between start and end have pairwise disjoint objects, and the pending masks are exactly their union |
| CommitSafety.EveryRunIsSerial | msm/msm_atomic.c:532-571 | in every reachable state an object that is not pending was given exactly the states of the started commits, in start order; hardware, software and the serial execution agree on it |
| CommitSafety.QuiescentStateIsSerial | msm/msm_atomic.c:678-794 | when nothing is pending, all hardware and software state is that of the commits run one at a time in start order |
| CommitSafety.WorkerWritesItsOwnState | msm/msm_atomic.c:532-571 | a delayed worker still finds its own commit's state for each object it writes |
| CommitSafety.CommitsAreFreedOnce | msm/msm_atomic.c:739-793 | on the queued, fallback and refused paths, blocking or not, no freed commit or unreferenced state is touched, and in the end each commit is freed once and its state has no reference left |
| CommitSafety.StepKeepsInv | msm/msm_atomic.c:607-664 | each single step of a caller or a worker keeps the whole invariant behind these results |
| CommitProgress.RunsAreFinite | msm/msm_atomic.c:607-664 | a run has at most as many steps as the work in it allows: nothing is handed round for ever |
| CommitProgress.UnfinishedCommitsCanMove | msm/msm_atomic.c:42-63 | a commit that is not through is never stuck: some step that brings work forward is possible in every reachable state |
| CommitProgress.MaximalRunsFinishEverything | msm/msm_atomic.c:678-794 | a run that cannot go on has finished every commit, and its hardware state is the serial one |
| FenceTimeline.SignedDifferenceIsExact | msm-hyp/msm_hyp_fence.c:105-114 | the signed 32-bit difference of two wrapped counters is the true difference while that fits 32 bits |
| FenceTimeline.WindowIsTight | msm-hyp/msm_hyp_fence.c:105-114 | with a larger distance the test is wrong: the window is not an artefact of the proof |
| FenceTimeline.RunsRefine | msm-hyp/msm_hyp_fence.c:251-348 | over runs of any length the wrapping counters, the fence list and the signalled flags are those of an unbounded timeline, as long as fewer than 2^31 - 1 commits wait |
| FenceTimeline.HistoryCounts | msm-hyp/msm_hyp_fence.c:251-348 | the unbounded timeline counts one commit for each prepare, one fence for each creation and at most one for each signal |
| FenceTimeline.FenceSignalledAtItsPoint | msm-hyp/msm_drv_hyp.c:1524-1596 | a fence created with offset k after n commits is signalled, and off the list, exactly when n + k signals have been counted: retire fences at their commit, output fences one later |
| FenceTimeline.DoneNeverPassesCommit | msm-hyp/msm_hyp_fence.c:330-348 | after any driven operations the wrapped distance from done to commit is the number of commits that wait, the signed test is never positive, and a signal counts exactly when one waits |
| FenceTimeline.SignalledStaysSignalled | msm-hyp/msm_hyp_fence.c:105-114 | a fence reports signalled, by flag or signed test, exactly when its point was counted, and goes on doing so over all further driven operations |
| FenceTimeline.SignedTestExactly | msm-hyp/msm_hyp_fence.c:105-114 | the signed test without the flag, at any distance: true exactly up to 2^31 signals past the point, modulo 2^32 |
| FenceContext.FenceCtx.TakeAll | msm-hyp/msm_hyp_fence.c:264-280 | the first loop of the trigger reverses the whole list onto a local one |
| FenceContext.FenceCtx.Settle | msm-hyp/msm_hyp_fence.c:280-294 | a signalled fence loses the list's reference, any other returns to the head of the list |
| FenceContext.FenceCtx.Trigger | msm-hyp/msm_hyp_fence.c:264-294 | the two head insertions cancel: the list is the old one without its signalled fences, in the same order, and the references are accounted for |
| FenceContext.FenceCtx.CreateFd | msm-hyp/msm_hyp_fence.c:164-215 | a fence that gets no descriptor leaves no trace, one that does is last on the list with two references |
| FenceContext.FenceCtx.Create | msm-hyp/msm_hyp_fence.c:296-328 | creation is one step of the timeline, or an error without effect |
| FenceContext.FenceCtx.Signal | msm-hyp/msm_hyp_fence.c:330-348 | signalling is one step of the timeline |
| FenceContext.FenceCtx.Prepare | msm-hyp/msm_hyp_fence.c:251-262 | preparing is one step of the timeline |
| FenceContext.FenceCtx.CloseFd | msm-hyp/msm_hyp_fence.c:116-125 | closing a descriptor drops its fence's reference and keeps the accounts |
| FenceContext.FenceCtx.Deinit | msm-hyp/msm_hyp_fence.c:241-249 | the owner drops its reference; fences keep the context |
| FenceContext.FenceCtx.FreedWhenUnused | msm-hyp/msm_hyp_fence.c:241-249 | the context is freed exactly when the owner has dropped it and no fence is left |
| FenceInterleaving.TriggerKeepsCreationOrder | msm-hyp/msm_hyp_fence.c:264-294 | fences appended while a trigger is between its locked steps stay behind the older ones: the list is in creation order |
| FenceInterleaving.QuietTriggerIsExact | msm-hyp/msm_hyp_fence.c:264-294 | a run of one trigger with nothing beside it ends with exactly the fences that were on the list and not signalled, in their order |
| FenceInterleaving.OverlappingTriggersConserve | msm-hyp/msm_hyp_fence.c:264-294 | overlapping triggers, any number of them, neither lose nor duplicate a fence and drop each signalled one once |
| FenceInterleaving.TurnsKeepCreationOrder | msm-hyp/msm_hyp_fence.c:264-294 | with any number of triggers the list stays in creation order in every run in which no trigger takes it while another still holds a part |
| FenceInterleaving.OverlapCanReorder | msm-hyp/msm_hyp_fence.c:264-294 | conversely, when a trigger takes a list with an unsignalled fence while another holds an unsignalled fence, some continuation swaps the two |
| FenceInterleaving.OverlappingTriggersMayReorder | msm-hyp/msm_hyp_fence.c:264-294 | two overlapping triggers can change the order: a concrete interleaving |
| HdcpSafety.StepKeeps | msm/sde_hdcp_2x.c:736-851 | every work and every client command keeps the driver's message automaton in agreement with the trusted application's |
| HdcpVerdicts.DriverStaysInStep | msm/sde_hdcp_2x.c:204-258 | in every disciplined run, receive timeouts included, each message goes out, comes in or is polled under the slot the application means, and the last message is the one it wrote or waits for |
| HdcpSafety.AnswerGoesOutAsItself | msm/sde_hdcp_2x.c:204-258 | whatever the application answers in protocol order, the message the table names next is that answer, and it is what is sent and remembered |
| HdcpVerdicts.KeysFollowTheHandshake | msm/sde_hdcp_2x.c:736-851 | SKE_SEND_EKS, everything later and STATUS_SUCCESS appear only after AKE_INIT, certificate, master key, H', LC_INIT and L' of the same session, in this order |
| HdcpVerdicts.OneVerdictPerSession | msm/sde_hdcp_2x.c:401-429 | whatever client and application do, receive timeouts included, a session reports at most one failure, after which it is off, and at most one success |
| HdcpVerdicts.SuccessMarksAuthentication | msm/sde_hdcp_2x.c:562-589 | in every run, receive timeouts included, STATUS_SUCCESS is sent exactly as often as authenticated rises since START |
| HdcpVerdicts.KeyVerdicts | msm/sde_hdcp_2x.c:562-589 | setting the hardware key sends one success exactly when authenticated rises, and no failure |
| HdcpEnding.CleanExactly | msm/sde_hdcp_2x.c:591-956 | the session is torn down when the application rejects a call, a response stays out, the link fails or the client stops it, and for no other reason |
| HdcpEnding.RejectionIsCleaned | msm/sde_hdcp_2x.c:704-851 | after a rejected message, authentication, start, timeout or repeated stream query, or a response that stays out, the tear-down is queued and the client hears nothing yet |
| HdcpEnding.TornDownSessionsEnd | msm/sde_hdcp_2x.c:401-438 | a session to be torn down stays so until it is off; it is off when the thread has run as many works as there were, and the client hears of exactly one failure, or none if it turned the session off first |
| HdcpEnding.RejectedSessionsEnd | msm/sde_hdcp_2x.c:736-851 | so ends, in every run, every session in which the application rejects something or a response stays out |
| HdcpEnding.RepliesAreAwaited | msm/sde_hdcp_2x.c:260-289 | whenever something is said while H', the pairing info or the first ID list is due, the wait for it is queued |
| HdcpProgress.SentMovesOn | msm/sde_hdcp_2x.c:591-644 | what has to follow each message that went out, in the order of the specification |
| HdcpProgress.ReceivedMovesOn | msm/sde_hdcp_2x.c:736-851 | what has to follow each message of the sink that the application accepts |
| HdcpProgress.QueryMovesOn | msm/sde_hdcp_2x.c:492-531 | a stream query the application answers goes out as stream management |
| HdcpProgress.ChangeMovesOn | msm/sde_hdcp_2x.c:913-956 | a change of streams of an authenticated repeater is queried and goes out |
| HdcpDiscipline.AnnouncingReached | msm/sde_hdcp_2x.c:913-956 | a disciplined run reaches the state in which a change is forgotten |
| HdcpProgress.StreamChangeCountsIff | msm/sde_hdcp_2x.c:913-956 | a change of streams during their announcement is announced in its turn if and only if it comes while the answer of the sink is out |
| HdcpProgress.CommandsAreQueued | msm/sde_hdcp_2x.c:1062-1131 | what the client reports or asks for stands last in the work list, once, beside everything else that stood there |
| HdcpProgress.StandsStillExactly | msm/sde_hdcp_2x.c:736-851 | in step, a work leaves a session without an open request and without any work to carry it on in three cases and no other: an empty message, a timeout without a new challenge, a failing stream query |
| HdcpProgress.SessionsGoOn | msm/sde_hdcp_2x.c:646-702 | in every disciplined run without such a case no session comes to a standstill |
| HdcpDiscipline.StandstillIsReached | msm/sde_hdcp_2x.c:704-760 | each of these cases in a disciplined run |
| HdcpDiscipline.TypeFitsOnlyAfterTheKeys | msm/sde_hdcp_2x.c:462-482 | a changed encryption level goes out as a type message exactly when the keys or a type were the last message |
| HdcpDiscipline.StaleSendFallsOutOfStep | msm/sde_hdcp_2x.c:1069-1079 | a sent message handled only after the next START takes the driver out of step, whatever the message was |
| HdcpDiscipline.StartWaitsForSent | msm/sde_hdcp_2x.c:1069-1079 | such a state is reached: a disciplined run but for a START with a sent message still queued |
| HdcpDiscipline.StartWaitsForAuth | msm/sde_hdcp_2x.c:1069-1083 | a START with an authentication still queued ends out of step in a reachable run |
| HdcpDiscipline.StartWaitsForType | msm/sde_hdcp_2x.c:1069-1079 | a START with a type message still queued ends out of step in a reachable run |
| HdcpDiscipline.AuthBeginsOnce | msm/sde_hdcp_2x.c:1080-1083 | a second START_AUTH in a session ends out of step in a reachable run |
| HdcpDiscipline.SentOnlyWhileSending | msm/sde_hdcp_2x.c:1088-1091 | a sent message reported while one is received ends out of step in a reachable run |
| HdcpDiscipline.LevelOnlyAfterSuccess | msm/sde_hdcp_2x.c:1109-1115 | an encryption level set before success ends out of step in a reachable run |
| HdcpDiscipline.TimeoutResendsTheChallenge | msm/sde_hdcp_2x.c:704-726 | after a receive timeout LC_INIT goes out under its own description exactly in three states of the driver; otherwise it is described as another message or dropped |
| HdcpDiscipline.TimeoutFallsOutOfStep | msm/sde_hdcp_2x.c:704-726 | a disciplined run reaches the state in which the repeated LC_INIT is sent as SKE_SEND_EKS |
| HdcpDiscipline.TimeoutSparesMessages | msm/sde_hdcp_2x.c:704-726 | a timeout that replaces the response while a message is on its way ends out of step in a reachable run |
| HdcpDriver.Transmitter.Wakeup | msm/sde_hdcp_2x.c:309-341 | waking the client moves the control structure by one step of the state machine the theorems are about |
| HdcpDriver.Transmitter.OnMsgSent | msm/sde_hdcp_2x.c:591-644 | the work for a sent message is one step of that machine |
| HdcpDriver.Transmitter.OnMsgRecvd | msm/sde_hdcp_2x.c:736-851 | the work for a received message is one step of that machine; a message the application rejects queues the tear-down and says nothing |
| HdcpDriver.Transmitter.OnStream | msm/sde_hdcp_2x.c:492-531 | the stream query is one step of that machine |
| HdcpDriver.Transmitter.OnClean | msm/sde_hdcp_2x.c:401-429 | tearing down is one step of that machine |
| HdcpDriver.Transmitter.OnOther | msm/sde_hdcp_2x.c:913-956 | initialising, stream management and waiting are steps of that machine |
| HdcpDriver.Transmitter.OnTimeout | msm/sde_hdcp_2x.c:704-726 | the work for a receive timeout is one step of that machine |
| HdcpDriver.Transmitter.RunOne | msm/sde_hdcp_2x.c:646-702 | the worker thread runs the oldest work; if the application answers it in order, driver and application stay in agreement, if it rejects it, the session is torn down |
| HdcpDriver.Transmitter.Command | msm/sde_hdcp_2x.c:1028-1137 | every client command is one step of that machine, and one that is allowed keeps driver and application in agreement |
| HdcpDriver.Transmitter.Live | msm/sde_hdcp_2x.c:646-702 | over a whole disciplined life of the object every message of the session is in step, and keys and success come only after the full handshake |
| LeaseFixup.FixupPairs | msm-lease/msm_lease_drv.c:662-723 | whatever is leased, afterwards every CRTC has a primary plane of its own, exactly the owned planes are primary, and the i-th leased CRTC owns the i-th leased plane |
| LeaseFixup.FillOneKeeps | msm-lease/msm_lease_drv.c:710-722 | there are always as many overlays as CRTCs without a primary, so the last pass never comes up empty |
| LeaseFixup.FixupLeaves | msm-lease/msm_lease_drv.c:662-723 | a CRTC outside the pairing keeps its primary plane unless that plane was leased |
| LeaseFixup.FillOneTakesTheFirst | msm-lease/msm_lease_drv.c:712-722 | a CRTC without a primary is given the first overlay, and one that has a primary is left alone |
| LeaseFixup.FixupIsStable | msm-lease/msm_lease_drv.c:662-723 | repeating the fix-up for the same lease changes nothing at all, also with spare planes or CRTCs in it |
| LeasePlanes.ModeConfig.Collect | msm-lease/msm_lease_drv.c:675-688 | the leased planes and CRTCs in the order of the ids |
| LeasePlanes.FoundIsAll | msm-lease/msm_lease_drv.c:675-688 | these are all planes or CRTCs among the ids, each before those whose ids come later |
| LeasePlanes.ModeConfig.ResetPrimaries | msm-lease/msm_lease_drv.c:690-701 | the first mutating pass over the plane and CRTC objects |
| LeasePlanes.ModeConfig.SetUpPrimaries | msm-lease/msm_lease_drv.c:703-710 | the second pass |
| LeasePlanes.ModeConfig.AssignPrimaries | msm-lease/msm_lease_drv.c:712-722 | the third pass |
| LeasePlanes.ModeConfig.FixupCrtcPrimary | msm-lease/msm_lease_drv.c:662-723 | the passes in place compute the fix-up the lemmas are about, and nothing happens for an empty lease |
| LeaseTables.ConnectorAdded | msm-lease/msm_lease_drv.c:552-624 | adding a connector with a free CRTC keeps every promise made so far and makes the two a pair nobody shares |
| LeaseTables.NarrowingKeepsPairs | msm-lease/msm_lease_drv.c:612-618 | narrowing an encoder to a free CRTC touches no pair made before |
| LeaseTables.PairAdded | msm-lease/msm_lease_drv.c:612-618 | the added connector and its CRTC are a pair, and every pair before them is still one |
| LeaseTables.RefixedSparesOthers | msm-lease/msm_lease_drv.c:662-723 | the fix-up for one lease leaves the pairing inside every other lease alone |
| LeaseTables.RecordKeeps | msm-lease/msm_lease_drv.c:951-956 | recording a list and re-pairing the planes keeps leases separate, pairs intact and planes owned |
| LeaseChoice.TurnsAgree | msm-lease/msm_lease_drv.c:592-607 | taking turns at the free CRTCs has only one outcome |
| LeaseChoice.GoesOn | msm-lease/msm_lease_drv.c:748-763 | where all named connectors can have a CRTC none of them is refused |
| LeaseChoice.Extended | msm-lease/msm_lease_drv.c:552-624 | the connector and the first CRTC free for its encoder continue the list in turn |
| LeaseChoice.NoneAdded | msm-lease/msm_lease_drv.c:552-624 | a refused connector could not have been added by the condition on the tables before |
| LeaseManager.Manager.AddPlane | msm-lease/msm_lease_drv.c:626-660 | each result code with its exact condition, and the plane added |
| LeaseManager.Manager.AddConnector | msm-lease/msm_lease_drv.c:552-624 | each result code with its exact condition, the connector and the first free CRTC added, the encoder narrowed to it |
| LeaseManager.Manager.AddPlanes | msm-lease/msm_lease_drv.c:725-742 | it succeeds exactly if every named plane exists, is free, was not named before and fits; else the planes before the first obstacle and its code |
| LeaseManager.Manager.AddConnectors | msm-lease/msm_lease_drv.c:748-763 | it succeeds exactly if each named connector in turn exists, is free and finds a first free CRTC and room; else the pairs before the first obstacle and its code; only the encoders of these pairs are narrowed |
| LeaseManager.Manager.ParseObjs | msm-lease/msm_lease_drv.c:725-766 | it succeeds exactly if the device can have what it names, as a condition on tables, leases and encoders before the call; the list is its planes, then each connector with the CRTC whose turn it was; otherwise the code of the first obstacle |
| LeaseManager.Manager.ListedArePairs | msm-lease/msm_lease_drv.c:748-763 | in the lease of a device every connector it names stands before a CRTC, the only one its encoder may drive |
| LeaseManager.Manager.AddRemainingPlanes | msm-lease/msm_lease_drv.c:810-821 | every plane nobody leased, in order, up to 64 objects |
| LeaseManager.Manager.IsShared | msm-lease/msm_lease_drv.c:847-866 | a CRTC is shared exactly when a physical encoder can drive it and others |
| LeaseManager.Manager.AddCrtcs | msm-lease/msm_lease_drv.c:837-909 | every free CRTC with a primary plane, in order and up to 64 objects, in the first pass only those no physical encoder shares |
| LeaseManager.Manager.HasCrtc | msm-lease/msm_lease_drv.c:920-945 | a connector is served exactly when its encoder can drive a CRTC of the list |
| LeaseManager.Manager.AddRemainingConnectors | msm-lease/msm_lease_drv.c:911-948 | every free connector that one of the listed CRTCs can drive, in order and up to 64 objects, and no other |
| LeaseManager.Manager.ParseRemainder | msm-lease/msm_lease_drv.c:768-956 | the remainder goes to the last lease without objects once all are bound: its named planes up to the first obstacle or all that are left, then its named connectors each with its CRTC up to the first obstacle, or dedicated CRTCs, the other CRTCs and the connectors they serve, in this order |
| LeaseManager.Manager.Notify | msm-lease/msm_lease_drv.c:988-1071 | it succeeds exactly if the device can have what it names and registration does not fail, else with the code of the first obstacle and without touching leases; it records exactly that list, every named connector before its own CRTC, and keeps leases disjoint, without duplicates and at most 64 long, and in every lease the i-th plane with the i-th CRTC |
| LeaseManager.Manager.NotifyAll | msm-lease/msm_lease_drv.c:988-1071 | after any notifications in any order each connector in the lease of a device that names connectors is still followed by its own CRTC, and all else that one notification keeps holds too |
| PropertyQueue.VisitsEachOnce | msm/msm_prop.c:305-343 | the downward search with wrap-around visits every index exactly once |
| PropertyQueue.SearchIsPlain | msm/msm_prop.c:305-343 | for distinct properties its answer is the one index holding the property, wherever it starts |
| PropertyTracker.PropertyInfo.Index | msm/msm_prop.c:305-343 | the lookup finds the first match from the last hit, -EINVAL exactly when there is none, and keeps the remembered index valid |
| PropertyQueue.DirtyIsFirstSetOrder | msm/msm_prop.c:69-136 | over every history the dirty list holds exactly the properties set since they were last popped, once each, in the order of their first setting |
| PropertyQueue.DrainingIsComplete | msm/msm_prop.c:69-95 | popping to the end yields that order within the number of properties |
| PropertyTracker.PropertyInfo.SetDirty | msm/msm_prop.c:103-122 | a property is appended unless it is listed |
| PropertyTracker.PropertyInfo.PopDirty | msm/msm_prop.c:69-95 | the oldest dirty property, -EAGAIN exactly when there is none |
| PropertyTracker.PropertyInfo.DirtyInOrder | msm/msm_prop.c:69-136 | on the objects, over everything that happened to a state, the dirty list holds exactly the properties set since they were last popped, in the order of their first setting |
| PropertyTracker.PropertyInfo.DrainDirty | msm/msm_prop.c:69-95 | a draining loop returns the whole list in order and ends |
| PropertyRefs.SetKeepsAccountsIff | msm/msm_prop.c:376-403 | blob references equal the slots pointing at each blob after a set if and only if the lookup succeeds or the slot was empty |
| PropertyRefs.FailedLookupLosesCount | msm/msm_prop.c:382-394 | the failing case, concretely |
| PropertyRefs.ResetKeepsAccountsIff | msm/msm_prop.c:482-513 | resetting a state in use keeps the accounts if and only if it holds no blob |
| PropertyRefs.CountingStep | msm/msm_prop.c:533-541 | each copied slot takes its reference while the original keeps the blob alive |
| PropertyRefs.PutKeepsAccounts | msm/msm_prop.c:554-561 | each slot of a destroyed state gives its reference back |
| PropertyTracker.PropertyInfo.AtomicSet | msm/msm_prop.c:359-419 | one slot of one state changes: value, blob pointer and references for a plain property and for a found, a missing and a zero blob id; the property becomes dirty, last, exactly when its value changed or it always is; and exactly when the accounts stay exact |
| PropertyTracker.PropertyInfo.AllocState | msm/msm_prop.c:441-461 | an allocated state is never one in use; the cache is served last in, first out |
| PropertyTracker.PropertyInfo.ResetState | msm/msm_prop.c:482-513 | defaults, no blobs, nothing dirty |
| PropertyTracker.PropertyInfo.DuplicateState | msm/msm_prop.c:515-543 | the copy has the same values, shares the blobs with exact references and starts clean |
| PropertyTracker.PropertyInfo.DestroyState | msm/msm_prop.c:545-565 | all references go back, the object to the cache of two |
| RecoveryPool.EveryEntryIsInOneList | msm/sde_recovery_manager.c:324-370 | each of the 64 entries is in exactly one of the free, reported and in-process lists |
| RecoveryPool.QueueKeeps | msm/sde_recovery_manager.c:324-370 | reporting an event keeps the lists a partition, free of duplicate events, and the order of acceptance |
| RecoveryPool.MoveKeeps | msm/sde_recovery_manager.c:272-322 | so does every step of the worker, whatever is reported in between |
| RecoveryRuns.EventsAreHandledInOrder | msm/sde_recovery_manager.c:272-370 | in every run each accepted event is notified, recovered and answered once, in acceptance order; a reported event always has work queued or about to take it up; at rest all are handled |
| RecoveryRuns.SuccessMeansNothingEverFailed | msm/sde_recovery_manager.c:233-270 | success is announced exactly when no callback, for any event on any CRTC, had failed by the time the static flag was read |
| RecoveryRuns.WorkerProgresses | msm/sde_recovery_manager.c:272-322 | a worker has a step to take exactly when it is not at rest |
| RecoveryRuns.EveryMoveCounts | msm/sde_recovery_manager.c:272-322 | every step brings it closer to rest |
| RecoveryDriver.RecoveryManager.constructor | msm/sde_recovery_manager.c:514-589 | set-up frees all entries of each CRTC |
| RecoveryDriver.RecoveryManager.QueueEvent | msm/sde_recovery_manager.c:324-370 | -EINVAL, -EEXIST and -ENOMEM with their exact conditions on the lists, else the first free entry carries the event, last of the reported ones, and nothing else changes |
| RecoveryDriver.RecoveryManager.GrabEvents | msm/sde_recovery_manager.c:293-299 | the worker takes all reported events in order |
| RecoveryDriver.RecoveryManager.ReleaseEvents | msm/sde_recovery_manager.c:316-322 | and frees their entries in order |
| RecoveryDriver.RecoveryManager.RecoverEvent | msm/sde_recovery_manager.c:233-270 | exactly the clients that have a callback and registered for the event are asked, once each and in order; the flag falls exactly when an answer is an error |
| RecoveryRuns.AskedCounts | msm/sde_recovery_manager.c:242-264 | the number of callbacks in every run is that of these clients |
| RecoveryDriver.RecoveryManager.Broadcast | msm/sde_recovery_manager.c:372-411 | a broadcast succeeds exactly when no CRTC refuses for another reason than -EEXIST and one took the event or none was enabled |
| EventLog.RangeIsPlain | msm/sde_dbg_evtlog.c:103-134 | while the counters have not wrapped a call prints the next entry up to the mark, skipping all but the newest ones |
| EventLogWrap.DumpPrints | msm/sde_dbg_evtlog.c:103-134 | what a dump prints and which markers it leaves, for any markers |
| EventLogWrap.DumpIsExactIff | msm/sde_dbg_evtlog.c:103-134 | for any markers a dump prints exactly the newest 256 or fewer undumped events if and only if the marker is not ahead and the number computed from the markers is right up to 256 |
| EventLogWrap.MarkersTell | msm/sde_dbg_evtlog.c:103-134 | the same condition read off the two markers, branch by branch |
| EventLogWrap.EveryDumpIsExactIff | msm/sde_dbg_evtlog.c:57-134 | the same for every dump of every history of logs and dumps, wraps included |
| EventLogWrap.FewEventsAreExact | msm/sde_dbg_evtlog.c:57-134 | with fewer than 2^32 events logged every dump is exact |
| EventLogWrap.CrossedDumpRepeats | msm/sde_dbg_evtlog.c:103-134 | after any dump across the wrap of one kind the next dump prints 257 entries with nothing new |
| EventLogWrap.AheadIsReached | msm/sde_dbg_evtlog.c:103-134 | an ordinary history leads there |
| EventLog.Log.Record | msm/sde_dbg_evtlog.c:57-100 | the ring holds exactly the newest 2048 events after every log |
| EventLog.Log.DumpToBuffer | msm/sde_dbg_evtlog.c:136-179 | one call prints the next entry not printed yet, as it was logged |
| EventLog.Log.DumpAll | msm/sde_dbg_evtlog.c:181-194 | a dump ends by itself and prints the newest 256 or fewer undumped events once each, in order, even if up to 1792 events are logged meanwhile; those are in the log behind it |
| EventLog.Log.Session | msm/sde_dbg_evtlog.c:57-194 | over any logs and dumps exactly these events are printed: for each dump the newest 256 or fewer since the one before |
| EventLog.PrintedInOrder | msm/sde_dbg_evtlog.c:57-194 | so no event is printed twice and the order is that of logging |
| EventDriver.Device.ClientCount | msm/msm_drv.c:1067-1086 | the count is that of the listed clients of the event |
| EventClients.FirstOn | msm/msm_drv.c:1135-1158 | switching on for the first client keeps on and listed the same and the switches alternating |
| EventDriver.Device.Register | msm/msm_drv.c:1088-1159 | each result with its condition; the event is switched on for the first client only and an error adds nobody |
| EventDriver.Device.Deregister | msm/msm_drv.c:1161-1203 | one entry goes, the event is switched off with the last; it stays on without a client exactly when that fails |
| EventDriver.Device.Release | msm/msm_drv.c:1324-1348 | all entries of the file go, and an event is off exactly when no list has it any more, but for switches that fail |
| PowerSupplies.EnableClocks | msm/sde_io_util.c:435-466 | it succeeds exactly if every clock is there and grants, and then each count is one higher; else nothing changed and the error is that of the first that does not |
| PowerSupplies.EnableVregs | msm/sde_io_util.c:229-304 | it succeeds exactly if every regulator has a handle and grants, with counts and loads after success and after a refusal at any place, and the error of the first refusal |
| PowerSupplies.FailureRestoresIff | msm/sde_io_util.c:288-304 | a refused group is as before if and only if no earlier regulator is controlled by hardware |
| PowerSupplies.HardwareControlledIsDisabled | msm/sde_io_util.c:288-304 | the smallest case in which it is not |
| PowerSupplies.GetVregs | msm/sde_io_util.c:132-204 | the unwinding that jumps backwards out of its own loop gives every handle back exactly once |
| PowerSupplies.PutVregs | msm/sde_io_util.c:166-181 | every handle still held is given back |
| PowerHandle.DataBus.SetQuota | msm/sde_power_handle.c:287-331 | granted exactly if no path denies; then every path votes the average share and the peak in thousands; a denial gives its own code, puts the earlier paths at the remembered vote and restores them if and only if they were there |
| PowerHandle.Handle.VoteBuses | msm/sde_power_handle.c:665-676 | the buses are voted on in order up to the first refusal, whose code is that of its first denied path |
| PowerHandle.Handle.EnableControl | msm/sde_power_handle.c:688-704 | it succeeds exactly if register bus, RSC and clocks grant, which are then all on, or else as before if they were off, with the code of the first that does not |
| PowerHandle.Handle.EnableSupplies | msm/sde_power_handle.c:677-704 | the same with the regulators in front, but for the hardware-controlled ones |
| PowerHandle.Handle.ResourceEnable | msm/sde_power_handle.c:640-753 | it succeeds exactly if everything asked grants, and then every vote, count and load is that of the on state; else the code is that of the first refusal and, from the off state, everything is as before whichever step failed, unless the regulators failed after a hardware-controlled one |
| PowerHandle.Handle.ResourceDisable | msm/sde_power_handle.c:710-731 | disabling takes back every count and vote |
| PowerHandle.Handle.Cycle | msm/sde_power_handle.c:640-753 | enable and disable together change nothing |
| CeaBlocks.BlocksAreTheChain | msm/sde_edid_parser.c:84-101 | the complete blocks are the chain of length bytes from its start to the first block that reaches the end |
| CeaBlocks.LooseIsStrictAndOne | msm/sde_edid_parser.c:180-193 | the second scanner sees these and at most one more, which ends on the byte behind |
| CeaBlocks.FindBlock | msm/sde_edid_parser.c:133-159 | the first complete block whose first byte carries the tag, none without revision 3 or with an end out of range |
| CeaBlocks.FindBlockFrom | msm/sde_edid_parser.c:162-197 | the first block with the tag among those that end at most one byte behind the collection |
| CeaBlocks.ScannersAgreeIff | msm/sde_edid_parser.c:84-197 | for any bytes with an ordinary end the scanners find the same block unless the first incomplete block has the tag and is too long by one byte |
| CeaBlocks.ScannersAgreeOnTiles | msm/sde_edid_parser.c:84-197 | on a collection that tiles its space they always agree |
| CeaBlocks.OverrunIsSeenByOneScanner | msm/sde_edid_parser.c:180-188 | the exception, concretely |
| CeaBlocks.FindBoth | msm/sde_edid_parser.c:72-197 | for an ordinary length byte the exact exception; for 1 to 4 neither finds a block, for 0 the second does not, beyond 127 the first does not |
| CeaAudio.LoopEndsIff | msm/sde_edid_parser.c:443-465 | the gathering loop ends if and only if every audio block is taken or the refused one comes before any payload; the result is the payloads in order or nothing, and never more than 150 bytes |
| CeaAudio.LongBlockNeverEnds | msm/sde_edid_parser.c:443-465 | an extension on which it does not end |
| CeaAudio.AudioBlocksAre | msm/sde_edid_parser.c:443-465 | the audio blocks are those of the second scanner's chain with tag 1, in order |
| CeaAudio.TakenMeans | msm/sde_edid_parser.c:443-456 | the first refused block is the sixth or longer than 30 bytes |
| CeaAudio.ExtractAudio | msm/sde_edid_parser.c:418-466 | where the loop ends, the buffer holds the bytes behind the first byte of each audio block, as many as its lower five bits say, one block behind the other, then zeros; nothing if a block is refused |

## Left out

- ExtractAudio: requires that the loop ends, because the original does not return otherwise; `LoopEndsIff` says exactly when that is.
- FindBlock: the extension is given with the byte behind its collection, as reads further out are reads of foreign memory; finding the extension block is not modelled.
- DriverStaysInStep: covers a receive timeout only where `TimeoutFits` holds, and takes each work and each command of the transmitter as one step, so a stop in the middle of a work acts after it.
- StepKeeps: holds for clients that keep to `Allowed`; `HdcpDiscipline` shows for each clause what happens otherwise.
- KeysFollowTheHandshake: rests on an application that sends the session keys only in answer to L'.
- EveryRunIsSerial: the hardware write of one object is one step; register accesses inside it are not modelled.
- BlockingCommit: covers a commit whose objects are free on a device whose work lists are empty; waiting and concurrency are in `CommitSafety`, to which `StartIsAStep` and `CompletionIsARun` tie the object.
- RunsRefine: assumes fewer than 2^31 - 1 commits between preparation and completion; `WindowIsTight` shows why.
- OverlappingTriggersConserve: for overlapping triggers only conservation holds; `OverlapCanReorder` says when the order is lost.
- CreateFd: the failed state swap of the hypervisor commit and the disable work of its CRTCs are not modelled.
- Notify: re-registration of device nodes, the shared master and its references, and the ioctl redirection are not modelled.
- AtomicSet: requires exact accounts before the call, since otherwise the original may release a blob that is gone.
- ResetState: the default values stay fixed; changing the default of an immutable property is not modelled.
- Register: the search for duplicates, the count and the switch are one atomic step; two registrations that overlap in time can both switch the event on.
- DumpAll: assumes fewer than 2^32 logged events, beyond which `EventLogWrap` takes over, and no debugfs open, which rewrites the markers; the text of an entry is not modelled.
- EveryDumpIsExactIff: speaks of the slots of the ring and of dumps with nothing logged meanwhile.
- SetQuota: the calls that restore a vote are taken to succeed.
- ResourceEnable: the calls that take something back are taken to succeed; the second unlock on the error path and the event callbacks are not modelled.
- EnableVregs: the sleeps before and after switching have no effect on the counts and are left out.
- The hypervisor commit of `msm-hyp/msm_drv_hyp.c`: its start, end and dispatch follow the same protocol with a CRTC mask alone and are not modelled a second time; its fences are.
- Paired bridge enable loops and the seamless-mode tests of `msm/msm_atomic.c`: they would add only easy members.
- The stream list of the transmitter: opening and closing streams enters only as whether something changed.
- GEM, framebuffer and memory-mapping code, register sequences, sysfs, debugfs, probe and bind code, `msm/sde_hdcp_1x.c`.
