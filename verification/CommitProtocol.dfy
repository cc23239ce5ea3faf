/**
 The nonblocking commit protocol as a transition system. Committers, the workers they queue and the hardware
 that signals flips interleave freely; a run is any sequence of enabled actions.
 */
module CommitProtocol {
  import opened Outcomes

  // Stages of a commit, in order.
  const ABORTED: nat := 0
  const SETUP: nat := 1     // stall checks and completion set-up, CRTC by CRTC
  const STALL: nat := 2     // waiting for the head of each CRTC's list before swapping
  const SWAP: nat := 3      // entering each CRTC's list and installing its new state
  const DEPS: nat := 4      // waiting for the preceding commit of each CRTC
  const HARDWARE: nat := 5  // programming the hardware
  const HW_DONE: nat := 6   // signalling hw_done, CRTC by CRTC
  const CLEANUP: nat := 7   // signalling cleanup_done and leaving each CRTC's list
  const DONE: nat := 8

  /**
   One atomic update. It works through `crtcs` in each stage; `j` is the position it has reached and `wait`
   the commit it is blocked on there. The sets hold the CRTCs whose completion has been signalled (`flip`,
   `hw`, `cleaned`), whose flip event is armed (`events`), and whose list it has entered and left (`swapped`,
   `gone`).
   */
  datatype Commit = Commit(
    crtcs: seq<nat>,
    quiet: set<nat>,
    nonblock: bool,
    stage: nat,
    j: nat,
    wait: Option<nat>,
    swapped: set<nat>,
    hw: set<nat>,
    cleaned: set<nat>,
    flip: set<nat>,
    gone: set<nat>,
    events: set<nat>,
    ticket: nat)

  /** Commit lists (newest first), current state and lock owner of each CRTC. */
  datatype Sys = Sys(
    commits: seq<Commit>,
    lists: seq<seq<nat>>,
    current: seq<Option<nat>>,
    owner: seq<Option<nat>>,
    tickets: nat)

  datatype Action =
    | Begin(crtcs: seq<nat>, quiet: set<nat>, nonblock: bool)
    | Advance(t: nat)
    | Abort(t: nat)
    | Flip(t: nat, c: nat)
    | Unlock(t: nat)

  function Init(numCrtcs: nat): Sys {
    Sys([], seq(numCrtcs, _ => []), seq(numCrtcs, _ => None), seq(numCrtcs, _ => None), 0)
  }

  // ----- steps -----

  predicate Distinct(l: seq<nat>) {
    forall a: nat, b: nat :: a < b < |l| ==> l[a] != l[b]
  }

  /** Lists, current states and owners range over the same CRTCs, and commits name CRTCs of the device. */
  predicate Sized(s: Sys) {
    && |s.current| == |s.lists| && |s.owner| == |s.lists|
    && (forall t: nat :: t < |s.commits| ==> Fits(s.commits[t], |s.lists|))
    && (forall c: nat, b: nat :: c < |s.lists| && b < |s.lists[c]| ==> s.lists[c][b] < |s.commits|)
  }

  predicate Fits(cm: Commit, numCrtcs: nat) {
    cm.j <= |cm.crtcs| && (forall i: nat :: i < |cm.crtcs| ==> cm.crtcs[i] < numCrtcs)
  }

  function Set(s: Sys, t: nat, cm: Commit): Sys
    requires t < |s.commits|
  {
    s.(commits := s.commits[t := cm])
  }

  function Released(s: Sys, t: nat): Sys {
    s.(owner := seq(|s.owner|, c requires 0 <= c < |s.owner| => if s.owner[c] == Some(t) then None else s.owner[c]))
  }

  /** Arm the flip event of the CRTC at position j, or complete it at once if no event will be sent. */
  function Armed(cm: Commit): Commit
    requires cm.j < |cm.crtcs|
  {
    var c := cm.crtcs[cm.j];
    var d := cm.(wait := None, j := cm.j + 1);
    if c in cm.quiet then d.(flip := cm.flip + {c}) else d.(events := cm.events + {c})
  }

  function StepSetup(s: Sys, t: nat): Option<Sys>
    requires Sized(s) && t < |s.commits|
  {
    var cm := s.commits[t];
    if cm.j == |cm.crtcs| then Some(Set(s, t, cm.(stage := STALL, j := 0)))
    else
      var c := cm.crtcs[cm.j];
      if cm.wait.Some? then
        if cm.wait.value < |s.commits| && c in s.commits[cm.wait.value].cleaned then Some(Set(s, t, Armed(cm))) else None
      else if cm.nonblock && s.lists[c] != [] && c !in s.commits[s.lists[c][0]].flip then
        Some(Released(Set(s, t, cm.(stage := ABORTED, j := 0)), t))
      else if |s.lists[c]| >= 2 then Some(Set(s, t, cm.(wait := Some(s.lists[c][1]))))
      else Some(Set(s, t, Armed(cm)))
  }

  function StepStall(s: Sys, t: nat): Option<Sys>
    requires Sized(s) && t < |s.commits|
  {
    var cm := s.commits[t];
    if cm.j == |cm.crtcs| then Some(Set(s, t, cm.(stage := SWAP, j := 0, ticket := s.tickets)).(tickets := s.tickets + 1))
    else
      var c := cm.crtcs[cm.j];
      if cm.wait.Some? then
        if cm.wait.value < |s.commits| && c in s.commits[cm.wait.value].hw then Some(Set(s, t, cm.(wait := None, j := cm.j + 1)))
        else None
      else if s.lists[c] != [] then Some(Set(s, t, cm.(wait := Some(s.lists[c][0]))))
      else Some(Set(s, t, cm.(j := cm.j + 1)))
  }

  function StepSwap(s: Sys, t: nat): Option<Sys>
    requires Sized(s) && t < |s.commits|
  {
    var cm := s.commits[t];
    if cm.j == |cm.crtcs| then Some(Set(s, t, cm.(stage := DEPS, j := 0)))
    else
      var c := cm.crtcs[cm.j];
      Some(Set(s, t, cm.(swapped := cm.swapped + {c}, j := cm.j + 1))
           .(lists := s.lists[c := [t] + s.lists[c]], current := s.current[c := Some(t)]))
  }

  function StepDeps(s: Sys, t: nat): Option<Sys>
    requires Sized(s) && t < |s.commits|
  {
    var cm := s.commits[t];
    if cm.j == |cm.crtcs| then Some(Set(s, t, cm.(stage := HARDWARE, j := 0)))
    else
      var c := cm.crtcs[cm.j];
      if cm.wait.Some? then
        if cm.wait.value < |s.commits| && c in s.commits[cm.wait.value].hw && c in s.commits[cm.wait.value].flip then
          Some(Set(s, t, cm.(wait := None, j := cm.j + 1)))
        else None
      else if |s.lists[c]| >= 2 then Some(Set(s, t, cm.(wait := Some(s.lists[c][1]))))
      else Some(Set(s, t, cm.(j := cm.j + 1)))
  }

  function StepHwDone(s: Sys, t: nat): Option<Sys>
    requires Sized(s) && t < |s.commits|
  {
    var cm := s.commits[t];
    if cm.j == |cm.crtcs| then Some(Set(s, t, cm.(stage := CLEANUP, j := 0)))
    else Some(Set(s, t, cm.(hw := cm.hw + {cm.crtcs[cm.j]}, j := cm.j + 1)))
  }

  function Without(l: seq<nat>, t: nat): seq<nat> {
    if l == [] then [] else if l[0] == t then l[1..] else [l[0]] + Without(l[1..], t)
  }

  function StepCleanup(s: Sys, t: nat): Option<Sys>
    requires Sized(s) && t < |s.commits|
  {
    var cm := s.commits[t];
    if cm.j == |cm.crtcs| then Some(Set(s, t, cm.(stage := DONE, j := 0)))
    else
      var c := cm.crtcs[cm.j];
      if cm.wait == None then Some(Set(s, t, cm.(cleaned := cm.cleaned + {c}, wait := Some(t))))
      else if c in cm.flip then
        Some(Set(s, t, cm.(gone := cm.gone + {c}, wait := None, j := cm.j + 1)).(lists := s.lists[c := Without(s.lists[c], t)]))
      else None
  }

  /** The next step of commit t, or none if it is blocked or has ended. */
  function StepCommit(s: Sys, t: nat): Option<Sys>
    requires Sized(s) && t < |s.commits|
  {
    var stage := s.commits[t].stage;
    if stage == SETUP then StepSetup(s, t)
    else if stage == STALL then StepStall(s, t)
    else if stage == SWAP then StepSwap(s, t)
    else if stage == DEPS then StepDeps(s, t)
    else if stage == HARDWARE then Some(Set(s, t, s.commits[t].(stage := HW_DONE, j := 0)))
    else if stage == HW_DONE then StepHwDone(s, t)
    else if stage == CLEANUP then StepCleanup(s, t)
    else None
  }

  predicate CanBegin(s: Sys, crtcs: seq<nat>) {
    Distinct(crtcs) && forall i: nat :: i < |crtcs| ==> crtcs[i] < |s.owner| && s.owner[crtcs[i]] == None
  }

  function Started(s: Sys, crtcs: seq<nat>, quiet: set<nat>, nonblock: bool): Sys {
    var t := |s.commits|;
    s.(commits := s.commits + [Commit(crtcs, quiet, nonblock, SETUP, 0, None, {}, {}, {}, {}, {}, {}, 0)],
       owner := seq(|s.owner|, c requires 0 <= c < |s.owner| => if c in crtcs then Some(t) else s.owner[c]))
  }

  function Step(s: Sys, a: Action): Option<Sys>
    requires Sized(s)
  {
    match a
    case Begin(crtcs, quiet, nonblock) => if CanBegin(s, crtcs) then Some(Started(s, crtcs, quiet, nonblock)) else None
    case Advance(t) => if t < |s.commits| then StepCommit(s, t) else None
    case Abort(t) =>
      // an interrupted stall, a failed allocation, prepare or fence wait
      if t < |s.commits| && s.commits[t].stage == SETUP then
        Some(Released(Set(s, t, s.commits[t].(stage := ABORTED, j := 0, wait := None)), t))
      else None
    case Flip(t, c) =>
      if t < |s.commits| && s.commits[t].stage >= HARDWARE && c in s.commits[t].events then
        Some(Set(s, t, s.commits[t].(flip := s.commits[t].flip + {c}, events := s.commits[t].events - {c})))
      else None
    case Unlock(t) =>
      if t < |s.commits| && (s.commits[t].stage == DONE || (s.commits[t].nonblock && s.commits[t].stage >= DEPS)) then
        Some(Released(s, t))
      else None
  }

  // ----- the invariant -----

  predicate Past(cm: Commit, stage: nat, i: nat) {
    cm.stage > stage || (cm.stage == stage && cm.j > i)
  }

  /** What a commit has signalled agrees with how far it has got. */
  ghost predicate Tracked(cm: Commit, t: nat) {
    && cm.j <= |cm.crtcs| && cm.stage <= DONE && Distinct(cm.crtcs)
    && (cm.wait.Some? ==> cm.j < |cm.crtcs| && cm.stage in {SETUP, STALL, DEPS, CLEANUP})
    && (cm.stage == CLEANUP && cm.wait.Some? ==> cm.wait == Some(t))
    && (cm.stage in {ABORTED, HARDWARE, DONE} ==> cm.j == 0)
    && (forall i: nat :: i < |cm.crtcs| ==> TrackedAt(cm, i))
    && (forall c :: c in cm.swapped ==> c in cm.crtcs)
    && cm.gone <= cm.flip
    && cm.flip !! cm.events
  }

  ghost predicate TrackedAt(cm: Commit, i: nat)
    requires i < |cm.crtcs|
  {
    var c := cm.crtcs[i];
    && (c in cm.swapped <==> Past(cm, SWAP, i))
    && (c in cm.hw <==> Past(cm, HW_DONE, i))
    && (c in cm.gone <==> Past(cm, CLEANUP, i))
    && (c in cm.cleaned <==> Past(cm, CLEANUP, i) || (cm.stage == CLEANUP && cm.j == i && cm.wait.Some?))
    && (Past(cm, SETUP, i) ==> c in cm.flip || c in cm.events)
    && (cm.stage == SETUP && cm.j <= i ==> c !in cm.flip && c !in cm.events)
  }

  ghost predicate Swapped(s: Sys, t: nat, c: nat) {
    t < |s.commits| && c in s.commits[t].swapped
  }

  /** Commit t has been programmed on CRTC c and its flip has happened. */
  ghost predicate Finished(s: Sys, t: nat, c: nat)
    requires t < |s.commits|
  {
    c in s.commits[t].hw && c in s.commits[t].flip
  }

  /** The state of one CRTC's list. */
  ghost predicate ListOk(s: Sys, c: nat)
    requires Sized(s) && c < |s.lists|
  {
    var l := s.lists[c];
    && (forall t: nat :: t in l <==> Swapped(s, t, c) && c !in s.commits[t].gone)
    && (forall a: nat, b: nat :: a < b < |l| ==> s.commits[l[b]].ticket < s.commits[l[a]].ticket)
    && (forall b: nat :: 1 <= b < |l| ==> c in s.commits[l[b]].hw)
    && (forall b: nat :: 2 <= b < |l| ==> c in s.commits[l[b]].cleaned)
    && (forall t: nat :: Swapped(s, t, c) && c !in s.commits[t].hw ==> s.current[c] == Some(t))
    && (forall t: nat :: Swapped(s, t, c) ==> s.commits[t].ticket < s.tickets)
  }

  /** All but the newest entry of the list of c have signalled cleanup_done, `except` aside. */
  ghost predicate TailCleaned(s: Sys, c: nat, except: Option<nat>)
    requires Sized(s) && c < |s.lists|
  {
    forall b: nat :: 1 <= b < |s.lists[c]| ==> Some(s.lists[c][b]) == except || c in s.commits[s.lists[c][b]].cleaned
  }

  /** Every commit swapped on c has signalled hw_done, `except` aside. */
  ghost predicate AllHw(s: Sys, c: nat, except: Option<nat>) {
    forall t: nat :: Swapped(s, t, c) ==> Some(t) == except || c in s.commits[t].hw
  }

  /** Every commit swapped on c before t has finished there. */
  ghost predicate EarlierFinished(s: Sys, t: nat, c: nat)
    requires t < |s.commits|
  {
    forall v: nat :: Swapped(s, v, c) && s.commits[v].ticket < s.commits[t].ticket ==> Finished(s, v, c)
  }

  /** The same, except for w itself and what came before it. */
  ghost predicate EarlierFinishedUpTo(s: Sys, t: nat, c: nat, w: nat)
    requires t < |s.commits| && w < |s.commits|
  {
    forall v: nat :: Swapped(s, v, c) && s.commits[v].ticket < s.commits[t].ticket ==>
      v == w || s.commits[v].ticket < s.commits[w].ticket || Finished(s, v, c)
  }

  /** What commit t has established at position i by the stage it is in. */
  ghost predicate Established(s: Sys, t: nat, i: nat)
    requires Sized(s) && t < |s.commits| && i < |s.commits[t].crtcs|
  {
    var cm := s.commits[t];
    var c := cm.crtcs[i];
    && (Past(cm, SETUP, i) && !Past(cm, SWAP, i) ==> TailCleaned(s, c, None))
    && (Past(cm, STALL, i) && !Past(cm, SWAP, i) ==> AllHw(s, c, None))
    && (cm.stage == SWAP && !Past(cm, SWAP, i) ==> forall v: nat :: Swapped(s, v, c) ==> s.commits[v].ticket < cm.ticket)
    && (Past(cm, DEPS, i) ==> EarlierFinished(s, t, c))
    && (SETUP <= cm.stage <= SWAP ==> s.owner[c] == Some(t))
    && (cm.stage == SWAP ==> cm.ticket < s.tickets)
  }

  /** What a blocked commit knows about the commit it waits for. */
  ghost predicate Waiting(s: Sys, t: nat)
    requires Sized(s) && t < |s.commits|
  {
    var cm := s.commits[t];
    cm.wait.Some? && cm.j < |cm.crtcs| ==>
      var c, w := cm.crtcs[cm.j], cm.wait.value;
      && Swapped(s, w, c)
      && (cm.stage == SETUP ==> TailCleaned(s, c, cm.wait))
      && (cm.stage == STALL ==> AllHw(s, c, cm.wait))
      && (cm.stage == DEPS ==> s.commits[w].ticket < cm.ticket && EarlierFinishedUpTo(s, t, c, w))
  }

  ghost predicate Inv(s: Sys) {
    && Sized(s)
    && (forall t: nat :: t < |s.commits| ==> Tracked(s.commits[t], t))
    && (forall c: nat :: c < |s.lists| ==> ListOk(s, c))
    && (forall t: nat, i: nat :: t < |s.commits| && i < |s.commits[t].crtcs| ==> Established(s, t, i))
    && (forall t: nat :: t < |s.commits| ==> Waiting(s, t))
  }
}
