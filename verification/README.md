# Verified model of the DRM mode-setting core

A Dafny model of the kernel side of display mode setting: how atomic updates are assembled, checked, installed and
driven into hardware; how nonblocking commits queue behind each other; who owns the state objects meanwhile; and
five neighbouring cores with loops and state of their own.

* **One update** (`ModesetModel`, `Assembly`, `AtomicState`, `EncoderRouting`, `ModesetCheck`, `Outputs`, `Commit`,
  `Ioctl`). `AtomicState` and `Device` are classes whose methods fill slots, edit masks and swap pointers; `View()`
  and `Current()` give their values. `Ioctl` says what a call installs, which CRTCs get a modeset and, when nothing
  refuses, exactly when it succeeds, with modesets allowed or not. `Properties` says what property requests ask for,
  in terms of the configurations before and after alone.
* **Set_config, suspend and resume** on top of it (`SetConfig`, `Suspend`), and runs that mix all of them
  (`MixedRun`). The main result, `RunMixture`, holds for every sequence of operations: plane, connector and encoder
  masks agree with the pointers, no encoder serves two connectors, the off and on hooks alternate and leave exactly
  the active CRTCs and their encoders lit, and each operation has done what its result says and nothing else.
* **Nonblocking commits** (`CommitProtocol`, `CommitInvariant`, `CommitTheorems`, `CommitOutcomes`, `CommitLifetime`):
  a transition system of committers, workers and hardware that signals flips. Hardware phases follow the swap order,
  waits never form a cycle and always end, a commit is refused exactly where it would get ahead of a pending flip, and
  reference counts of commit objects are exact.
* **Ownership of state objects** (`Ownership`), with addresses reused after they are freed; and both machines side
  by side (`CommitOwnership`), where the state a worker reads through a CRTC is its own and alive until its hw_done,
  and the two never bring each other to a halt (`CommitProgress`).
* **Legacy set_config** (`LegacySetConfig`), all or nothing, and what becomes of the connectors it does not name.
* **DMA buffers** (`DmaBuffers`, `DmaDevice`, `DmaFreeze`), with the int overflows of the code and their exact
  conditions.
* **The connector list iterator** under hotplug (`ConnectorList`).
* **The ELD** built from CEA data blocks (`Eld`, `EldBuilder`).

What the claims rest on:

* Objects of a device are numbered from 0; a mask word is the set of the numbers whose bits are set, which needs
  numbers below 32.
* Which encoder a driver picks is a function of connector and CRTC; which CRTCs an encoder fits is fixed.
* Driver hooks, locks and allocations may refuse at any call. A device that is `reliable` refuses nothing; only
  "succeeds exactly when" statements ask for one. Hooks edit no core state; enable and disable hooks leave a trace.
* Completions are waited for without the ten second timeout. A commit acquires the locks of all its CRTCs at once
  and holds them until its swap is over; a blocking commit may keep them until it is done.
* Where the code does less than its comments or callers suggest, the code is followed: the abort path leaves the
  event's reference on a commit object (`CommitLifetime.AbortLeak`), and two int counters of the buffer allocator
  overflow (`DmaBuffers.ContiguousSound`, `DmaBuffers.SegmentedSound`). The all-zero mode does not enable a CRTC that
  is off (`SetConfig.AssembleSetConfig`); userspace cannot ask for it, since a mode without a clock is not valid, so
  it takes another kernel caller of the exported helper.

## Model

| member | source | states |
|---|---|---|
| Modeset.InstalledLinked | drm_atomic_helper.c:2072-2109 | swapping in an update whose masks agree and that contains the old and new CRTC of each member makes plane and connector masks agree with the pointers on the whole device |
| Modeset.OffConsistent | drm_atomic_helper.c:3125-3137 | the configuration after reset is consistent in all respects |
| Assembly.AddCrtcKeeps | drm_atomic.c:257-287 | bringing in a CRTC keeps masks equal to effective pointers and the CRTC closure |
| Assembly.AddPlaneKeeps | drm_atomic.c:672-711 | bringing in a plane brings in the CRTC it is on and keeps the same invariant |
| Assembly.AddConnectorKeeps | drm_atomic.c:996-1054 | the same for a connector |
| Assembly.MovePlaneKeeps | drm_atomic.c:1263-1296 | moving a plane to another CRTC or none keeps the invariant, and the CRTC it leaves is always in the update |
| Assembly.MoveConnectorKeeps | drm_atomic.c:1368-1406 | the same for a connector |
| Assembly.MovePlaneAt | drm_atomic.c:1263-1296 | per CRTC: a move takes the plane out of the mask of the CRTC left, puts it into that of the CRTC joined, and changes nothing else |
| Assembly.MoveConnectorAt | drm_atomic.c:1368-1406 | per CRTC, a move changes only the connector masks of the CRTC left and the CRTC joined |
| Assembly.WithMode | drm_atomic.c:318-350 | the mode asked for is stored with a matching blob, an equal one changes nothing, none clears all; enable follows, except that the all-zero mode leaves a CRTC that is off as it is |
| Assembly.WithBlob | drm_atomic.c:367-396 | refused exactly for a new malformed blob; otherwise blob, mode and enable agree and the same blob changes nothing |
| AtomicCore.AtomicState.GetCrtcState | drm_atomic.c:257-287 | fills an empty slot with the current state field by field, with clear flags, and leaves a filled one alone; or changes nothing |
| AtomicCore.AtomicState.GetPlaneState | drm_atomic.c:672-711 | on success the slot is filled and the plane's CRTC is in the update |
| AtomicCore.AtomicState.GetConnectorState | drm_atomic.c:996-1054 | the same for a connector |
| AtomicCore.AtomicState.SetModeForCrtc | drm_atomic.c:318-350 | sets mode, blob and enable of one CRTC state and nothing else; a failed call has only dropped the old blob |
| AtomicCore.AtomicState.SetModePropForCrtc | drm_atomic.c:367-396 | refuses exactly new malformed blobs, and then the old blob is gone, the mode overwritten and enable as it was |
| AtomicCore.AtomicState.SetCrtcForPlane | drm_atomic.c:1263-1296 | the CRTC state dereferenced is there; on success pointer and both masks have moved |
| AtomicCore.AtomicState.SetCrtcForConnector | drm_atomic.c:1368-1406 | the CRTC state dereferenced is there; on success pointer and both masks have moved; detaching cannot fail |
| AtomicCore.AtomicState.AddAffectedConnectors | drm_atomic.c:1427-1468 | the connectors that end up on the CRTC join the update and no others, no other CRTC joins, and nothing in the update changes |
| AtomicCore.AtomicState.AddAffectedPlanes | drm_atomic.c:1490-1505 | exactly the planes currently on the CRTC join the update, no CRTC joins |
| AtomicCore.AtomicState.SwapState | drm_atomic_helper.c:2072-2109 | the device's states become the new ones, and the update still tells old from new |
| EncoderRouting.SetBestEncoderReroutes | drm_atomic_helper.c:205-243 | assigning an encoder changes encoder pointers and masks only |
| EncoderRouting.SetBestEncoderAt | drm_atomic_helper.c:205-243 | per CRTC, the old encoder leaves the mask of the current CRTC and the new one enters the mask of the target |
| EncoderRouting.StealRouting | drm_atomic_helper.c:246-273 | stealing keeps the routing invariant: masks of all CRTCs match the holders processed so far and no two hold one encoder |
| EncoderRouting.SetMarkRouting | drm_atomic_helper.c:276-367 | routing one connector to a free encoder re-establishes the invariant one index further |
| EncoderRouting.UnsetRouting | drm_atomic_helper.c:246-273 | the victim's side of a theft: a connector yet to be routed can lose its encoder without breaking the invariant, once its CRTC is marked |
| EncoderRouting.SetRouting | drm_atomic_helper.c:303-342 | a connector that is off gives up its encoder, one that keeps its encoder carries it to its new CRTC, and the invariant moves one index on |
| EncoderRouting.VictimDisturbs | drm_atomic_helper.c:246-273 | an encoder is only stolen from a connector that would not have kept it |
| ModesetCheck.ClaimEncoders | drm_atomic_helper.c:95-142 | succeeds exactly when no two connectors of the update want one encoder, and returns the encoders wanted |
| ModesetCheck.HandleConflictingEncoders | drm_atomic_helper.c:95-202 | in strict mode succeeds exactly when no encoder wanted is wanted twice or held by a connector outside the update |
| ModesetCheck.DisableConflictingEncoders | drm_atomic_helper.c:95-202 | in disabling mode leaves an update without conflicts in which every CRTC is enabled iff it has connectors. Evicted are exactly the connectors outside that hold a wanted encoder; no plane or other connector changes, a CRTC none of them was on is untouched, and one that keeps a connector keeps its mode. Refuses only doubly wanted encoders |
| ModesetCheck.EvictKeeps | drm_atomic_helper.c:163-199 | taking a connector outside the update off its CRTC keeps the assembly invariant and what every other connector wants |
| ModesetCheck.StealEncoder | drm_atomic_helper.c:246-273 | afterwards no connector holds the encoder and the routing invariant still holds |
| ModesetCheck.UpdateConnectorRouting | drm_atomic_helper.c:276-367 | succeeds exactly when the connector is off or the encoder picked exists and fits, and never on account of the others |
| ModesetCheck.RouteConnectors | drm_atomic_helper.c:564-596 | whatever the order of stealing, in the end the routing invariant covers all connectors; succeeds exactly when each can be routed |
| ModesetCheck.FlagCrtcs | drm_atomic_helper.c:511-550 | refuses exactly CRTCs whose enable differs from having connectors, and flags exactly the changes of mode, enable and active |
| ModesetCheck.Flag | drm_atomic_helper.c:516-541 | each of the three flags ends up set iff it was set or its part of the state differs from the current one |
| ModesetCheck.AddForModeset | drm_atomic_helper.c:598-624 | every plane and connector attached before or after is in the update, and no CRTC joins |
| ModesetCheck.ModesetsExactly | drm_atomic_helper.c:511-596 | a CRTC gets a modeset exactly if it is in the update and was flagged, or its mode, enable or active differs from the current one, or a connector joins or leaves it, gets another encoder there or retrains its link |
| ModesetCheck.CheckModeset | drm_atomic_helper.c:500-628 | on success: no CRTC joined, no encoder serves two connectors device-wide, encoder masks are exact, a connector has an encoder iff it has a CRTC, every CRTC is enabled iff it has connectors, and CRTCs needing a modeset have everything attached inside; succeeds exactly when populated, free of conflicts and routable |
| Modeset.EmptyAssembled | drm_atomic.c:72-105 | assembly starts from an update that meets the invariant |
| OutputHooks.RelitShows | drm_atomic_helper.c:1001-1065 | what is left lit and what is lit again is exactly what the installed configuration routes |
| OutputHooks.DimmedDistinct | drm_atomic_helper.c:736-817 | an encoder that stays lit is not lit again |
| OutputHooks.Undisturbed | drm_atomic_helper.c:500-628 | a connector on a CRTC without a modeset keeps CRTC and encoder, and none joins it |
| Commit.DisableOutputs | drm_atomic_helper.c:736-817 | switches off exactly the lit encoders and CRTCs that get a modeset, none that is dark |
| Commit.EnableOutputs | drm_atomic_helper.c:1001-1065 | switches on exactly the missing ones, none that is lit; the hardware then shows the device's states |
| Commit.CheckOnly | drm_atomic.c:1551-1593 | on success the update is approved, and a CRTC gets a modeset iff its flags, mode, enable, active or connectors call for one; succeeds exactly when core checks and modeset check do and, where modesets are not allowed, no CRTC calls for one |
| Commit.CheckedInstalls | drm_atomic_helper.c:2038-2110 | installing an approved update on a consistent device leaves it consistent |
| Commit.AtomicCommit | drm_atomic.c:1612-1625 | installs the approved update and keeps hardware in step, or leaves device and hardware alone |
| AtomicIoctl.WithLink | drm_atomic.c:1114-1129 | a good link cannot be downgraded, any other takes the value asked for |
| AtomicIoctl.AllRequested | drm_atomic.c:2139-2217 | requests in order keep the assembly invariant, or one of them is refused |
| AtomicIoctl.SetProperty | drm_atomic.c:1783-1843 | on success the property named has the value requested (a link that was good stays good) and every other property of every object is as it was; refused exactly for unknown objects, unknown target CRTCs and malformed new modes |
| AtomicIoctl.RequestedObeys | drm_atomic.c:463-482 | for every update and request: valid requests are exactly those carried out, and they change the property named and no other |
| AtomicIoctl.AllPerformed | drm_atomic.c:2139-2217 | for every list of requests: what was asked for last of a property holds, and properties nobody asked for are as before |
| AtomicIoctl.RefusedAt | drm_atomic.c:2139-2217 | a list that is refused has a request that is not valid after those before it |
| AtomicIoctl.StopRefuses | drm_atomic.c:2139-2217 | and a list with such a request is refused |
| Properties.UnaskedKept | drm_atomic_helper.c:3146-3166 | a CRTC whose mode no request names keeps blob, mode and enable, and keeps active unless that is asked for |
| AtomicIoctl.Ioctl | drm_atomic.c:2084-2246 | on success the last value written to each property is in the installed configuration and no other property has changed; a failed or test-only call changes nothing; when nothing refuses it succeeds exactly when requests, core checks and routing allow and no modeset is caused that is not allowed |
| AtomicIoctl.RunFromReset | drm_atomic_helper.c:736-817 | after every sequence of calls the device is consistent, hooks alternate per object, and exactly the active CRTCs and routed encoders are lit |
| SetConfig.AssembleSetConfig | drm_atomic_helper.c:2245-2428 | the target CRTC gets mode, activity and exactly the named connectors, its primary plane the framebuffer; no plane but that and no connectors but those and the ones that were on the CRTC join; enable equals "has connectors" everywhere iff a mode is given iff connectors are named, the all-zero mode counting only on an enabled CRTC |
| SetConfig.PrepareSetConfig | drm_atomic_helper.c:2327-2350 | installing what is prepared puts exactly the named connectors on the CRTC, in the mode and activity asked for, with the framebuffer on its primary plane; connectors not named stay where they are unless they were on the CRTC or hold an encoder that is needed; CRTCs left with a connector keep mode and activity, and no other plane changes. When nothing refuses it succeeds iff no two named connectors want one encoder |
| SetConfig.RoomCrtcSet | drm_atomic_helper.c:163-199 | making room for a request disturbs nothing the request asked for and only connectors whose encoder it needs |
| SetConfig.SettledCrtcSet | drm_atomic_helper.c:500-628 | the modeset check does not change what a request shows |
| SetConfig.ClearConnectors | drm_atomic_helper.c:2245-2285 | the connectors that were on the target CRTC are in the update, off it and with good links, and no others are |
| SetConfig.PlaceConnectors | drm_atomic_helper.c:2287-2296 | exactly the named connectors are on it; the rest of the update's connectors are those that were |
| SetConfig.RetireBare | drm_atomic_helper.c:2298-2306 | every other CRTC without connectors is off; the target, planes and connectors are untouched |
| SuspendResume.DisableAll | drm_atomic_helper.c:2453-2511 | if nothing refuses it succeeds; then all links and masks are empty, every CRTC is off and without a mode, and link status is as it was; on failure nothing has changed |
| SuspendResume.DuplicateState | drm_atomic_helper.c:3435-3494 | the copy holds every object of the device in its current state, CRTC states field by field with clear flags |
| SuspendResume.Suspend | drm_atomic_helper.c:2576-2611 | the device is dark and the saved update would restore what was there |
| SuspendResume.RestoringFeasible | drm_atomic_helper.c:2629-2650 | nothing but a hook can refuse a restore |
| SuspendResume.RestoredSame | drm_atomic_helper.c:2629-2650 | whatever the check does to it, an approved restore installs the saved planes and connectors and, of every CRTC, enable, active, mode, blob and the three masks |
| SuspendResume.Resume | drm_atomic_helper.c:2671-2697 | success restores the saved setup; failure leaves everything off |
| SuspendResume.SuspendThenResume | drm_atomic_helper.c:2576-2697 | for every consistent configuration, given hooks accept, suspend and resume bring back all planes and connectors and, of every CRTC, enable, active, mode, blob and masks; otherwise nothing has changed or everything is off |
| MixedRun.SetCrtcIoctl | drm_crtc.c:552-710 | set_config as userspace calls it either changes nothing or carries the request out as PrepareSetConfig states, with the device consistent and the hardware in step; when nothing refuses it succeeds exactly when the request is well-formed, each named connector has an encoder of its own that fits, and the primary plane is not on another CRTC |
| MixedRun.ExactlyNamed | drm_crtc.c:552-710 | afterwards the connectors on the CRTC are exactly those named |
| MixedRun.PreparedAcceptable | drm_atomic_helper.c:500-628 | for a prepared request the whole check comes down to encoders that exist and fit and a primary plane that is free |
| MixedRun.RunMixture | drm_atomic_helper.c:1001-1065 | after every sequence of atomic calls, set_config calls, switch-offs and suspend cycles from reset, whatever refuses, the device is consistent, hooks alternate per object, exactly the active CRTCs and routed encoders are lit, and each configuration on the way follows from the one before by what the operation's result says |
| MixedRun.Perform | drm_atomic.c:2084-2246 | by its own result: a failed operation has changed nothing (a failed resume leaves all off); a successful one has carried out its properties, its set_config, the switch-off or the restore |
| CommitInvariant.SetupInv | drm_atomic_helper.c:1373-1522 | stall checks and set-up keep the protocol invariant, which includes that all but the head of a list have signalled cleanup_done where set-up has passed |
| CommitOutcomes.RefusedExactly | drm_atomic_helper.c:1373-1416 | in every run: set-up at a CRTC refuses a commit iff it is nonblocking and the head of the list has not flipped there; otherwise it waits for the second entry if there is one, and else arms the event, or completes the flip where none will be sent |
| CommitOutcomes.AbortedWhy | drm_atomic_helper.c:1373-1416 | an aborted commit was interrupted, or was nonblocking and came to a CRTC whose head had not flipped |
| CommitOutcomes.BlockingNotRefused | drm_atomic_helper.c:1384-1391 | a blocking commit is aborted only by an interruption |
| CommitOutcomes.BeginsExactly | drm_atomic_helper.c:1470-1481 | a commit starts iff its CRTCs are distinct and unlocked, and then has them locked |
| CommitOutcomes.Continues | drm_atomic_helper.c:1217-1329 | a commit goes through its stages one by one, unless aborted during set-up, and keeps its CRTCs and its kind |
| CommitOutcomes.WakesExactly | drm_atomic_helper.c:1556-1590 | a blocked commit goes on iff what it waits for has happened on its CRTC: cleanup_done during set-up, hw_done before the swap, hw_done and flip_done before the hardware, its own flip before it leaves the list |
| CommitOutcomes.BlocksExactly | drm_atomic_helper.c:2051-2070 | before its swap a commit waits for the head of each list, after it for entry 1, and for nothing where there is none |
| CommitOutcomes.FlipsFromHardware | drm_atomic_helper.c:1496-1519 | in every run a flip is complete before the hardware phase only where no event will be sent, and elsewhere its event is armed |
| CommitOutcomes.FlipsExactly | drm_atomic_helper.c:1418-1425 | hardware can signal exactly the armed events of a commit that has reached its hardware phase, once each |
| CommitOutcomes.UnlocksExactly | drm_atomic_helper.c:1264-1329 | locks go when a blocking commit is done, or once a nonblocking one has been handed to its worker, and never others' locks |
| CommitOutcomes.AbortedUnlocked | drm_atomic_helper.c:1264-1275 | in every run locks are held only by commits of the CRTC that have not been aborted |
| CommitInvariant.StallInv | drm_atomic_helper.c:2051-2070 | after stalling on the head, every commit on the CRTC has signalled hw_done |
| CommitInvariant.SwapInv | drm_atomic_helper.c:2082-2099 | entering a list at its head keeps it in swap order with only the head lacking hw_done |
| CommitInvariant.DepsInv | drm_atomic_helper.c:1529-1590 | waiting for list entry 1 is enough: everything earlier has then finished |
| CommitInvariant.HwDoneInv | drm_atomic_helper.c:1608-1626 | signalling hw_done keeps the invariant |
| CommitInvariant.CleanupInv | drm_atomic_helper.c:1640-1679 | a commit leaves its list only after its flip, and the order of the rest stays |
| CommitInvariant.FlipInv | drm_atomic_helper.c:1418-1425 | a flip may arrive at any time from the hardware phase on |
| CommitInvariant.HeadHw | drm_atomic_helper.c:1529-1542 | in every state only the head of a list can lack hw_done |
| CommitInvariant.StepInv | drm_atomic_helper.c:1264-1329 | every step of any commit, worker or hardware keeps the whole invariant |
| CommitTheorems.HardwareInOrder | drm_atomic_helper.c:1556-1590 | in every interleaving, a commit in its hardware phase has every commit that swapped earlier on each of its CRTCs behind it, with hw_done and flip_done signalled |
| CommitTheorems.OneProgrammer | drm_atomic_helper.c:1217-1236 | two commits never program one CRTC at a time |
| CommitTheorems.PrivateView | drm_atomic_helper.c:2051-2099 | from swap to own hw_done the CRTC points at the commit's own state and the commit heads the list, so its predecessor is entry 1 |
| CommitTheorems.CleanupBacklog | drm_atomic_helper.c:1373-1416 | a commit without cleanup_done is among the first two of its list |
| CommitTheorems.NoCyclicWait | drm_atomic_helper.c:1556-1590 | along any chain of waits swap order falls strictly, so no wait is cyclic |
| CommitTheorems.NoDeadlock | drm_atomic_helper.c:1217-1236 | some commit or flip can move unless all commits have ended |
| CommitTheorems.BoundedWork | drm_atomic_helper.c:1217-1236 | without new commits only boundedly many steps can follow, in any interleaving |
| CommitTheorems.Drains | drm_atomic_helper.c:1640-1679 | from every reachable state commits and flips alone bring every commit to its end |
| CommitLifetime.AdvanceLife | drm_atomic_helper.c:1470-1522 | creating, waiting, arming and clearing keep each count equal to slot, pending event and waiters |
| CommitLifetime.Lifetime | drm_atomic.h:199-214 | a commit object on a list, waited for or with a pending event has a positive count; it is freed at most once, and exactly when its update is cleared, its event sent and its waiters gone |
| CommitLifetime.AbortLeak | drm_atomic.c:156-174 | after an abort the object is freed iff no event was armed for it |
| CommitLifetime.AbortLeaks | drm_atomic_helper.c:1517-1521 | a run that shows it: one commit armed, aborted and cleared leaves an object with a reference |
| CommitLifetime.Borrowed | drm_atomic_helper.c:1657-1677 | while a commit is on a list its slot still holds the object, and the list adds nothing to the count |
| CommitLifetime.DropsExactly | drm_atomic.h:199-214 | the submitter puts its reference once, after the end of its commit or once a nonblocking one is queued |
| Ownership.PrepareCore | drm_atomic_helper.c:1695-1730 | preparing plane by plane keeps the ownership invariant, hook failure included |
| Ownership.UnwindCore | drm_atomic_helper.c:1718-1729 | after a failed hook exactly the planes prepared are cleaned up |
| Ownership.CleanCore | drm_atomic_helper.c:1980-2005 | each cleanup step keeps the ownership invariant |
| Ownership.CleanTakes | drm_atomic_helper.c:1988-2003 | cleanup takes the new state of an aborted update and the old one of a swapped update, and touches no other |
| Ownership.SwapCore | drm_atomic_helper.c:2072-2109 | each step of the swap keeps the ownership invariant |
| Ownership.SwapTransfers | drm_atomic_helper.c:2072-2109 | the installed state becomes the update's to destroy and the update's state the installed one |
| Ownership.ClearCore | drm_atomic.c:135-187 | clearing destroys each slot's state once, and none that is installed or owned elsewhere |
| Ownership.OneOwner | drm_atomic_helper.c:1264-1329 | in every run each live state object has exactly one owner |
| Ownership.NoFault | drm_atomic_helper.c:1980-2005 | preparing, swapping, cleaning up and clearing never use a freed state or clean up an installed one, and a destroyed state was cleaned up once iff it was prepared (states from reset aside) |
| Ownership.PointerTest | drm_atomic_helper.c:1988-1996 | comparing the old state with the installed one tells aborted from swapped, after any number of later swaps and with addresses reused |
| Ownership.NothingLeaks | drm_atomic.c:135-187 | once all updates are cleared only installed states are left and connector counts are back to one plus a linked installed state |
| Ownership.StepCounted | drm_atomic_helper.c:3377-3384 | connector reference counts always equal one plus slots plus live states with a CRTC |
| CommitOwnership.OwnStateAlive | drm_atomic_helper.c:755-756 | with both machines interleaved, from a swap on a CRTC until its own hw_done the state read through the CRTC is the one the commit installed, alive, not cleaned up and nobody's to destroy |
| CommitOwnership.OldStateAlive | drm_atomic_helper.c:1217-1236 | the state it replaced is alive, and its alone to destroy, until the commit is done |
| CommitOwnership.SwapReached | drm_atomic_helper.c:1264-1311 | such a run exists: a commit on one CRTC is assembled, prepared, set up and swapped in |
| CommitOwnership.ExchangeCoupled | drm_atomic_helper.c:2051-2099 | a later commit replaces a CRTC's state only after the hw_done of the commit that installed it |
| CommitProgress.NeverStuck | drm_atomic_helper.c:1217-1329 | in every run of both machines together, as long as some update handed over, or whose commit was aborted, is not cleared, a step other than a new request is enabled, without giving up anything that has not failed |
| CommitProgress.RunAgreed | drm_atomic_helper.c:1264-1329 | in every run the stage of a commit and the phase of its update go together, and during the swap the CRTCs swapped are the same on both sides |
| LegacySetConfig.Device.SetMode | drm_crtc_helper.c:268-434 | a refused mode leaves the CRTC exactly as it was; a CRTC not in use is only disabled |
| LegacySetConfig.Device.DisableUnused | drm_crtc_helper.c:164-193 | encoders without connectors lose their CRTC, CRTCs without encoders in use are disabled and lose their framebuffer |
| LegacySetConfig.Device.Disable | drm_crtc_helper.c:438-473 | every connector driven by the CRTC is unbound, powered off and loses one reference; other CRTCs drive what they did |
| LegacySetConfig.Device.PickEncoders | drm_crtc_helper.c:633-670 | named connectors get the encoder picked, others keep theirs, and exactly encoders a named connector gives up lose their CRTC; fails iff none can be picked for some named connector; unchanged means all named are powered |
| LegacySetConfig.Device.PlaceEncoders | drm_crtc_helper.c:677-713 | gives the CRTC of every encoder: claimed ones are on the target CRTC iff the last connector bound to them is named, others have left it and are else where they were; succeeds iff each connector in turn asks for a CRTC its encoder fits |
| LegacySetConfig.Device.Backup | drm_crtc_helper.c:580-590 | the arrays hold every link |
| LegacySetConfig.Device.RollBack | drm_crtc_helper.c:758-784 | links are those of the arrays, references taken are dropped, and the CRTC has its old mode, position and framebuffer |
| LegacySetConfig.Device.SetConfig | drm_crtc_helper.c:513-788 | all or nothing: on failure every link, reference, power state and CRTC field is as at entry (enabled may only be brought in line with the links). On success the CRTC drives exactly the named connectors iff their encoders serve no other, and then shows the request with them powered; connectors not named keep the CRTC that drives them unless it is the target or their encoder serves a named one; encoders fit the CRTCs they feed from. Without a framebuffer everything the CRTC drives is let go |
| LegacySetConfig.ExactSplit | drm_crtc_helper.c:677-713 | driving exactly the named connectors is possible iff no encoder is shared with another connector |
| LegacySetConfig.SharedExample | drm_crtc_helper.c:636-648 | a request that cannot be met exactly: the encoder picked for its connector is on another one |
| LegacySetConfig.ServedStep | drm_crtc_helper.c:677-713 | one round of the CRTC pass extends what is served by one connector |
| LegacySetConfig.PlacedNext | drm_crtc_helper.c:677-713 | one round of the CRTC pass keeps the description of where every encoder is |
| LegacySetConfig.PlacedOthers | drm_crtc_helper.c:633-713 | after both passes a connector is driven by another CRTC iff it was, is not named, and shares no encoder with a named one |
| LegacySetConfig.PlacedFitting | drm_crtc_helper.c:692-699 | after a successful pass every bound encoder fits the CRTC it feeds from |
| LegacySetConfig.SweepDrives | drm_crtc_helper.c:164-193 | the sweep over unused encoders changes nothing any CRTC drives |
| DmaBuffers.OrderBase2 | drm_bufs.c:704-705 | the order is the exponent of the smallest power of two not less than the size |
| DmaBuffers.ChunkSizes | drm_bufs.c:707-710 | a buffer with its alignment fits the memory set aside for it, and small buffers fill a page exactly |
| DmaBuffers.StrideAligned | drm_bufs.c:707-709 | buffers follow each other at their size, or with page alignment at the next multiple of a page |
| DmaBuffers.SizesAccepted | drm.h:73-74 | the orders in range are those of sizes above 16 bytes and up to 4 MB; negative sizes have none |
| DmaBuffers.ContiguousSound | drm_bufs.c:770-826 | after adding from AGP or scatter-gather memory the buffers are in order within byte_count and page_count matches iff count times chunk is below 2^31 |
| DmaBuffers.SegmentedSound | drm_bufs.c:944-1034 | the same for PCI memory iff the last buffer's distance is below 2^31 |
| DmaDevice.Dma.AddContiguous | drm_bufs.c:680-840 | a failed call changes no totals and no list; a successful one appends buffers numbered and placed in sequence and keeps the range sound iff nothing overflows |
| DmaDevice.Dma.FillContiguous | drm_bufs.c:770-803 | the loop fills the order's entry and nothing else, one stride after the other; an allocation may fail at any buffer |
| DmaDevice.Dma.FillSegment | drm_bufs.c:950-1004 | one segment takes as many of the missing buffers as fit, at the places straight counting gives |
| DmaDevice.Dma.AddSegmented | drm_bufs.c:844-1045 | the same promises for the segmented loops |
| DmaDevice.Dma.CleanUp | drm_bufs.c:642-666 | whatever a failed addition has put into the order's entry is gone, and the entry is as before |
| DmaDevice.Dma.AddBufs | drm_bufs.c:1219-1243 | an addition succeeds only for a valid order without buffers, a sensible count and while no information call has succeeded, and never for framebuffer memory; then the buffers requested follow the old ones in number and place and belong to their order, and no other order changes |
| DmaDevice.Dma.Enter | drm_bufs.c:722-758 | the checks pass iff the order is in range and has no buffers, no information call has succeeded and the count is in range |
| DmaDevice.Dma.AddAll | drm_bufs.c:1219-1243 | after any additions that do not overflow, buffer k has number k, byte ranges are disjoint and inside byte_count, totals equal the sums over the orders, and earlier buffers are untouched |
| DmaDevice.OrderedDisjoint | drm_bufs.c:772-802 | buffers in order have disjoint byte ranges |
| DmaDevice.OverflowExample | drm_bufs.c:799-801 | 512 buffers of 4 MB are the first to overflow from AGP, 513 from PCI |
| DmaFreeze.Frozen | drm_bufs.c:1280-1286 | once infobufs or mapbufs has succeeded the layout never changes, in every interleaving with additions in progress |
| DmaFreeze.StepInv | drm_bufs.c:738-744 | the count of additions equals those in progress, and is zero once the layout has been shown |
| DmaFreeze.DecidesExactly | drm_bufs.c:738-744 | in every run an addition goes ahead iff no information call has succeeded, and such a call succeeds iff no addition is in progress |
| ConnectorList.Walk | drm_connector.c:538-570 | an iterator returns each connector at most once and in list order, never follows a dead link, holds exactly one reference on its current connector, which is alive, and a finished walk has returned every connector alive |
| ConnectorList.LookOutcome | drm_connector.c:550-562 | one round comes to the end iff nothing on the list is beyond, and then everything alive has been returned; or returns the next connector alive with one reference more; or passes a dead one |
| ConnectorList.WalkComplete | drm_connector.c:538-570 | a walk whose call came to the end has returned every connector that was there by then and is alive at any later time |
| ConnectorList.LockedList | drm_connector.c:546-565 | the list stands still while an iterator looks at it |
| ConnectorList.Membership | drm_connector.c:220-223 | connectors join alive and at the end, and leave dead, only while nobody looks |
| ConnectorList.References | drm_connector.c:558-558 | a reference is to be had iff the connector is alive; it dies with the last one |
| ConnectorList.LoneWalk | drm_connector.c:538-570 | a walk over one connector, to its end |
| ConnectorList.DeadForGood | drm_connector.c:558-558 | a dead connector never comes back, so alive at the end of a walk means alive throughout |
| ConnectorList.LinkIsAfter | drm_connector.c:550-556 | the link of an entry leads to the connector added next among those left |
| ConnectorList.NextInv | drm_connector.c:538-548 | the connector a call starts from is still on the list |
| ConnectorList.UnlinkInv | drm_connector.c:344-347 | unlinking dead connectors keeps the invariant of every iterator |
| ConnectorList.AddInv | drm_connector.c:220-223 | appending keeps it too |
| Eld.BlocksEnd | drm_edid.c:3234-3244 | zero stands for 127, ends below 4 or above 127 are refused, all others taken as they are |
| Eld.WalkStaysInside | drm_edid.c:3276-3277 | every data block visited lies wholly below the end, hence below byte 127 |
| Eld.BlocksSerialised | drm_edid.c:3215-3225 | written out again, tag and length in the header and then the payload, the blocks are the bytes of the extension up to where the walk stops, and it stops only at the end or at a block that reaches it |
| Eld.DescriptorsPlaced | drm_edid.c:3498-3508 | the descriptors of each audio block come right after those of the blocks before it |
| Eld.DescriptorsCounted | drm_edid.c:3498-3508 | each audio block contributes its whole descriptors, other blocks none |
| Eld.LastByteIs | drm_edid.c:3509-3513 | a field that later blocks overwrite is that of the last block long enough |
| Eld.NameLen | drm_edid.c:3401-3418 | the name is the longest prefix without a line feed, at most 13 bytes |
| Eld.ReadBack | drm_edid.h:361-420 | reading an ELD back gives the name, the count and exactly the first min(15, total) short audio descriptors of all audio blocks in order, and its size covers them within 128 bytes |
| Eld.ZeroTail | drm_edid.c:3450-3459 | every byte behind the descriptors is zero |
| Eld.ReadVersions | drm_edid.h:219-236 | version and CEA revision are where the header file puts them |
| Eld.ReadSpeakers | drm_edid.h:245-251 | so are the speaker allocation and the AI flag |
| Eld.ReadIdentity | drm_edid.h:264-268 | and manufacturer and product |
| EldBuilder.Connector.BuildEld | drm_edid.c:3450-3527 | every byte of the buffer is the specified one: header, name, descriptors, speaker allocation, AI flag, zero elsewhere; all zero without EDID or CEA block |
| EldBuilder.Connector.Walk | drm_edid.c:3489-3524 | the loop over blocks ends with the digest of all blocks |
| EldBuilder.Connector.ParseHdmiAudio | drm_edid.c:3364-3381 | latencies are those of the last HDMI block long enough, the AI flag stays set once seen |
| EldBuilder.Connector.GetMonitorName | drm_edid.c:3401-3418 | copies exactly the name and returns its length |
| EldBuilder.BuiltAfter | drm_edid.c:3503-3512 | one more block changes exactly the bytes its kind contributes to |

## Left out

- User copies, file descriptors, fences as files, sysfs, printing, I2C, PCI and AGP mapping: I/O and foreign calls.
- w/w mutex internals and the EDEADLK clear-and-retry loop of the ioctl: a refused lock fails the call; the stale old and new pointers a clear leaves behind are not modelled.
- Driver hooks: they accept or refuse and leave trace events; what they do to hardware is not modelled.
- Mask words as 32-bit integers: sets stand for them, so numbers of 32 and above, where the shift is undefined, are not captured.
- Property requests other than CRTC, framebuffer, link status, mode and active, and plane positions and sizes: they take no part in the invariants. Vblank events requested through the ioctl, and the check that refuses them on a CRTC that is off, are left out with them.
- Plane checks that depend on formats and coordinates: they can refuse an update like a hook.
- AtomicCore.AtomicState.SetCrtcForPlane: says nothing about masks after a failed call, because the pointer is written before the step that can fail (drm_atomic.c:1278-1284).
- AtomicCore.AtomicState.SetModeForCrtc: the error pointer a failed blob allocation leaves in the state is shown as no blob.
- SetConfig.PrepareSetConfig: the error-exit reference accounting of drm_atomic_helper_set_config is not modelled.
- Commits of several CRTCs acquire their locks in one step, and planes and connectors moving between CRTCs of different commits are not synchronised by the protocol: order is claimed per CRTC.
- CommitLifetime.AbortLeak: an event allocation that fails after the commit object was created is not told apart from one that fails before.
- Legacy cursor updates, which complete flip_done at once, are covered only as CRTCs without an event.
- LegacySetConfig.Device.SetConfig: claims nothing about hwmode after a rollback, which the restoring mode set computes anew, and nothing about hooks called on the way.
- Mapping pages of buffers (pagelist contents), bus addresses and the checks on AGP zones: addresses come from memory the model does not have; a zone check may refuse.
- Iterators that call next again after the end of a walk, and connectors cleaned up while still referenced: the loop macro and the reference counts rule them out.
- The descriptors of an EDID other than the last monitor name, and finding the CEA block: inputs of the ELD builder. Bits or-ed into bytes where they do not overlap are added.
- MixedRun.SetCrtcIoctl: position, viewport and pixel format checks are left out, and so is the reuse of the current framebuffer; the framebuffer is part of the request.
- Bridge chains, master and context handling, color management, dumb buffers and EDID mode tables: they hold no state that the mode-setting invariants depend on.
- Transitional plane helpers (drm_crtc_helper.c:1004-1099): they do not maintain plane_mask.
