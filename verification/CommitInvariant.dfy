/**
 Every step of the commit protocol keeps its invariant, so it holds after every run.
 */
module CommitInvariant {
  import opened Outcomes
  import opened CommitProtocol

  // ----- steps that leave the lists alone -----

  /** Only commit t has moved; lists and current states are the same and nothing signalled is taken back. */
  ghost predicate Moved(s: Sys, z: Sys, t: nat) {
    && Sized(s) && t < |s.commits| && |z.commits| == |s.commits|
    && z.lists == s.lists && z.current == s.current && |z.owner| == |s.owner| && z.tickets >= s.tickets
    && z.commits == s.commits[t := z.commits[t]]
    && (forall c: nat, v: nat :: c < |s.owner| && v != t && s.owner[c] == Some(v) ==> z.owner[c] == Some(v))
    && Grew(s.commits[t], z.commits[t])
  }

  ghost predicate Grew(cm: Commit, dm: Commit) {
    && dm.crtcs == cm.crtcs && dm.swapped == cm.swapped && dm.gone == cm.gone
    && cm.hw <= dm.hw && cm.cleaned <= dm.cleaned && cm.flip <= dm.flip && dm.j <= |dm.crtcs|
    && (dm.swapped != {} ==> dm.ticket == cm.ticket)
  }

  lemma MovedSized(s: Sys, z: Sys, t: nat)
    requires Moved(s, z, t)
    ensures Sized(z)
  {
    forall v: nat | v < |z.commits| ensures Fits(z.commits[v], |z.lists|) { assert Fits(s.commits[v], |s.lists|); }
  }

  /** Facts about the lists survive. */
  lemma MovedBoard(s: Sys, z: Sys, t: nat, c: nat)
    requires Moved(s, z, t) && Sized(z) && c < |s.lists|
    ensures ListOk(s, c) ==> ListOk(z, c)
    ensures forall e: Option<nat> :: TailCleaned(s, c, e) ==> TailCleaned(z, c, e)
    ensures forall e: Option<nat> :: AllHw(s, c, e) ==> AllHw(z, c, e)
  {
    forall v: nat ensures Swapped(z, v, c) <==> Swapped(s, v, c) {}
    if ListOk(s, c) {
      forall a: nat | a < |s.lists[c]| ensures Swapped(s, s.lists[c][a], c) {}
      assert forall a: nat :: a < |s.lists[c]| ==> z.commits[s.lists[c][a]].ticket == s.commits[s.lists[c][a]].ticket;
    }
  }

  lemma MovedFinished(s: Sys, z: Sys, t: nat, v: nat, c: nat)
    requires Moved(s, z, t) && Sized(z) && v < |s.commits| && z.commits[v].ticket == s.commits[v].ticket
    ensures EarlierFinished(s, v, c) ==> EarlierFinished(z, v, c)
    ensures forall w: nat :: Swapped(s, w, c) && EarlierFinishedUpTo(s, v, c, w) ==> EarlierFinishedUpTo(z, v, c, w)
  {
    forall u: nat ensures Swapped(z, u, c) <==> Swapped(s, u, c) {}
  }

  /** Every other commit keeps what it knows. */
  lemma MovedOthers(s: Sys, z: Sys, t: nat, v: nat)
    requires Inv(s) && Moved(s, z, t) && Sized(z) && v < |s.commits| && v != t
    ensures forall i: nat :: i < |z.commits[v].crtcs| ==> Established(z, v, i)
    ensures Waiting(z, v)
  {
    var cm := s.commits[v];
    forall i: nat | i < |cm.crtcs| ensures Established(z, v, i) {
      assert Fits(cm, |s.lists|);
      assert Established(s, v, i);
      MovedBoard(s, z, t, cm.crtcs[i]);
      MovedFinished(s, z, t, v, cm.crtcs[i]);
      forall u: nat ensures Swapped(z, u, cm.crtcs[i]) <==> Swapped(s, u, cm.crtcs[i]) {}
    }
    assert Waiting(s, v);
    if cm.wait.Some? && cm.j < |cm.crtcs| {
      MovedBoard(s, z, t, cm.crtcs[cm.j]);
      MovedFinished(s, z, t, v, cm.crtcs[cm.j]);
      forall u: nat ensures Swapped(z, u, cm.crtcs[cm.j]) <==> Swapped(s, u, cm.crtcs[cm.j]) {}
    }
  }

  /** A step of commit t that leaves the lists alone keeps the invariant if what t knows is right. */
  lemma MovedInv(s: Sys, z: Sys, t: nat)
    requires Inv(s) && Moved(s, z, t) && Sized(z)
    requires Tracked(z.commits[t], t) && Waiting(z, t)
    requires forall i: nat :: i < |z.commits[t].crtcs| ==> Established(z, t, i)
    ensures Inv(z)
  {
    forall c: nat | c < |z.lists| ensures ListOk(z, c) { MovedBoard(s, z, t, c); }
    forall v: nat | v < |z.commits| && v != t
      ensures (forall i: nat :: i < |z.commits[v].crtcs| ==> Established(z, v, i)) && Waiting(z, v) && Tracked(z.commits[v], v)
    {
      MovedOthers(s, z, t, v);
    }
  }

  /** Moving on at other positions does not disturb what commit t has established at position i. */
  lemma Kept(s: Sys, z: Sys, t: nat, i: nat)
    requires Inv(s) && Moved(s, z, t) && Sized(z) && i < |s.commits[t].crtcs|
    requires z.commits[t].ticket == s.commits[t].ticket
    requires var cm, dm := s.commits[t], z.commits[t];
      && (Past(dm, SETUP, i) && !Past(dm, SWAP, i) ==> Past(cm, SETUP, i) && !Past(cm, SWAP, i))
      && (Past(dm, STALL, i) && !Past(dm, SWAP, i) ==> Past(cm, STALL, i) && !Past(cm, SWAP, i))
      && (Past(dm, DEPS, i) ==> Past(cm, DEPS, i))
      && dm.stage != SWAP
      && (SETUP <= dm.stage <= SWAP ==> SETUP <= cm.stage <= SWAP && z.owner == s.owner)
    ensures Established(z, t, i)
  {
    var c := s.commits[t].crtcs[i];
    assert Established(s, t, i);
    MovedBoard(s, z, t, c);
    MovedFinished(s, z, t, t, c);
  }

  /** A commit that has left the list of c has finished there. */
  lemma GoneFinished(s: Sys, v: nat, c: nat)
    requires Inv(s) && c < |s.lists| && Swapped(s, v, c) && v !in s.lists[c]
    ensures Finished(s, v, c) && c in s.commits[v].cleaned
  {
    var cm := s.commits[v];
    assert ListOk(s, c) && Tracked(cm, v);
    var i: nat :| i < |cm.crtcs| && cm.crtcs[i] == c;
    assert TrackedAt(cm, i);
  }

  // ----- kinds of steps of one commit -----

  /** Positions other than `at` establish nothing new in the step from cm to dm. */
  ghost predicate NothingNew(cm: Commit, dm: Commit, at: int) {
    && dm.stage != SWAP && dm.ticket == cm.ticket
    && (SETUP <= dm.stage <= SWAP ==> SETUP <= cm.stage <= SWAP)
    && forall i: nat :: i < |cm.crtcs| && i != at ==>
      && (Past(dm, SETUP, i) && !Past(dm, SWAP, i) ==> Past(cm, SETUP, i) && !Past(cm, SWAP, i))
      && (Past(dm, STALL, i) && !Past(dm, SWAP, i) ==> Past(cm, STALL, i) && !Past(cm, SWAP, i))
      && (Past(dm, DEPS, i) ==> Past(cm, DEPS, i))
  }

  /** A step that establishes nothing. */
  lemma OwnInv(s: Sys, z: Sys, t: nat)
    requires Inv(s) && Moved(s, z, t) && Sized(z) && Tracked(z.commits[t], t) && Waiting(z, t)
    requires NothingNew(s.commits[t], z.commits[t], -1)
    requires SETUP <= z.commits[t].stage <= SWAP ==> z.owner == s.owner
    ensures Inv(z)
  {
    forall i: nat | i < |z.commits[t].crtcs| ensures Established(z, t, i) { Kept(s, z, t, i); }
    MovedInv(s, z, t);
  }

  /** A step that establishes nothing and does not block. */
  lemma PlainInv(s: Sys, z: Sys, t: nat)
    requires Inv(s) && Moved(s, z, t) && Tracked(z.commits[t], t) && z.commits[t].wait == None
    requires NothingNew(s.commits[t], z.commits[t], -1)
    requires SETUP <= z.commits[t].stage <= SWAP ==> z.owner == s.owner
    ensures Inv(z)
  {
    MovedSized(s, z, t);
    OwnInv(s, z, t);
  }

  /** A step that completes position `at`. */
  lemma AdvanceInv(s: Sys, z: Sys, t: nat, at: nat)
    requires Inv(s) && Moved(s, z, t) && Sized(z) && Tracked(z.commits[t], t) && z.commits[t].wait == None
    requires NothingNew(s.commits[t], z.commits[t], at) && z.owner == s.owner
    requires at < |s.commits[t].crtcs| && Established(z, t, at)
    ensures Inv(z)
  {
    forall i: nat | i < |z.commits[t].crtcs| ensures Established(z, t, i) {
      if i != at { Kept(s, z, t, i); }
    }
    MovedInv(s, z, t);
  }

  /** A step that starts waiting for commit w. */
  lemma BlockInv(s: Sys, t: nat, w: nat)
    requires Inv(s) && t < |s.commits| && s.commits[t].stage in {SETUP, STALL, DEPS} && s.commits[t].j < |s.commits[t].crtcs|
    requires s.commits[t].wait == None
    requires var z := Set(s, t, s.commits[t].(wait := Some(w))); Sized(z) && Waiting(z, t)
    ensures Inv(Set(s, t, s.commits[t].(wait := Some(w))))
  {
    var cm := s.commits[t];
    var z := Set(s, t, cm.(wait := Some(w)));
    assert Tracked(cm, t);
    forall i: nat | i < |cm.crtcs| ensures Established(z, t, i) && TrackedAt(z.commits[t], i) {
      assert TrackedAt(cm, i) && Established(s, t, i);
      MovedBoard(s, z, t, cm.crtcs[i]);
      MovedFinished(s, z, t, t, cm.crtcs[i]);
      forall u: nat ensures Swapped(z, u, cm.crtcs[i]) <==> Swapped(s, u, cm.crtcs[i]) {}
    }
    MovedInv(s, z, t);
  }

  // ----- what a commit has signalled stays in step -----

  lemma TrackArmed(cm: Commit, t: nat)
    requires Tracked(cm, t) && cm.stage == SETUP && cm.j < |cm.crtcs|
    ensures Tracked(Armed(cm), t)
  {
    var dm := Armed(cm);
    assert TrackedAt(cm, cm.j);
    forall i: nat | i < |dm.crtcs| ensures TrackedAt(dm, i) { assert TrackedAt(cm, i); }
  }

  /** Moving from the end of one stage to the start of the next. */
  lemma TrackStage(cm: Commit, t: nat, dm: Commit)
    requires Tracked(cm, t) && cm.wait == None && SETUP <= cm.stage < DONE
    requires cm.j == |cm.crtcs| || cm.stage == HARDWARE
    requires dm == cm.(stage := cm.stage + 1, j := 0, ticket := dm.ticket)
    ensures Tracked(dm, t)
  {
    forall i: nat | i < |dm.crtcs| ensures TrackedAt(dm, i) { assert TrackedAt(cm, i); }
  }

  lemma TrackAbort(cm: Commit, t: nat)
    requires Tracked(cm, t) && cm.stage == SETUP
    ensures Tracked(cm.(stage := ABORTED, j := 0, wait := None), t)
  {
    var dm := cm.(stage := ABORTED, j := 0, wait := None);
    forall i: nat | i < |dm.crtcs| ensures TrackedAt(dm, i) { assert TrackedAt(cm, i); }
  }

  /** The next position in a stage that signals nothing. */
  lemma TrackNext(cm: Commit, t: nat)
    requires Tracked(cm, t) && cm.stage in {STALL, DEPS} && cm.j < |cm.crtcs|
    ensures Tracked(cm.(wait := None, j := cm.j + 1), t)
  {
    var dm := cm.(wait := None, j := cm.j + 1);
    forall i: nat | i < |dm.crtcs| ensures TrackedAt(dm, i) { assert TrackedAt(cm, i); }
  }

  // ----- set-up -----

  lemma SetupInv(s: Sys, t: nat)
    requires Inv(s) && t < |s.commits| && s.commits[t].stage == SETUP && StepSetup(s, t).Some?
    ensures Inv(StepSetup(s, t).value)
  {
    var cm, z := s.commits[t], StepSetup(s, t).value;
    assert Tracked(cm, t) && Waiting(s, t);
    if cm.j == |cm.crtcs| {
      TrackStage(cm, t, z.commits[t]);
      PlainInv(s, z, t);
    } else {
      var c := cm.crtcs[cm.j];
      if z.commits[t].stage == ABORTED {
        AbortInv(s, t);
        assert z.commits[t] == cm.(stage := ABORTED, j := 0, wait := None);
      } else if z.commits[t].wait.Some? {
        var w := s.lists[c][1];
        assert ListOk(s, c) && w in s.lists[c];
        SetupBlocks(s, z, t, c, w);
        BlockInv(s, t, w);
      } else {
        SetupArms(s, t);
      }
    }
  }

  lemma AbortInv(s: Sys, t: nat)
    requires Inv(s) && t < |s.commits| && s.commits[t].stage == SETUP
    ensures Inv(Released(Set(s, t, s.commits[t].(stage := ABORTED, j := 0, wait := None)), t))
  {
    TrackAbort(s.commits[t], t);
    PlainInv(s, Released(Set(s, t, s.commits[t].(stage := ABORTED, j := 0, wait := None)), t), t);
  }

  lemma SetupBlocks(s: Sys, z: Sys, t: nat, c: nat, w: nat)
    requires Sized(s) && t < |s.commits| && c < |s.lists| && ListOk(s, c) && |s.lists[c]| >= 2 && w == s.lists[c][1]
    requires s.commits[t].stage == SETUP && s.commits[t].j < |s.commits[t].crtcs| && c == s.commits[t].crtcs[s.commits[t].j]
    requires z == Set(s, t, s.commits[t].(wait := Some(w)))
    ensures Sized(z) && Waiting(z, t)
  {
    MovedSized(s, z, t);
    assert w in s.lists[c];
  }

  lemma SetupArms(s: Sys, t: nat)
    requires Inv(s) && t < |s.commits| && s.commits[t].stage == SETUP && s.commits[t].j < |s.commits[t].crtcs|
    requires var cm := s.commits[t]; var c := cm.crtcs[cm.j];
      if cm.wait.Some? then cm.wait.value < |s.commits| && c in s.commits[cm.wait.value].cleaned else |s.lists[c]| < 2
    ensures Inv(Set(s, t, Armed(s.commits[t])))
  {
    var cm := s.commits[t];
    var z, c := Set(s, t, Armed(cm)), cm.crtcs[cm.j];
    assert Waiting(s, t) && Tracked(cm, t) && Established(s, t, cm.j);
    TrackArmed(cm, t);
    MovedSized(s, z, t);
    MovedBoard(s, z, t, c);
    assert TailCleaned(s, c, None);
    AdvanceInv(s, z, t, cm.j);
  }

  /** Only the newest entry of a list can lack hw_done. */
  lemma HeadHw(s: Sys, c: nat)
    requires Inv(s) && c < |s.lists|
    ensures AllHw(s, c, if s.lists[c] == [] then None else Some(s.lists[c][0]))
    ensures s.lists[c] != [] ==> Swapped(s, s.lists[c][0], c)
  {
    assert ListOk(s, c);
    assert s.lists[c] != [] ==> s.lists[c][0] in s.lists[c];
    forall t: nat | Swapped(s, t, c) && (s.lists[c] == [] || t != s.lists[c][0]) ensures c in s.commits[t].hw {
      if t in s.lists[c] {
        var b: nat :| b < |s.lists[c]| && s.lists[c][b] == t;
      } else {
        GoneFinished(s, t, c);
      }
    }
  }

  // ----- stalling before the swap -----

  lemma StallInv(s: Sys, t: nat)
    requires Inv(s) && t < |s.commits| && s.commits[t].stage == STALL && StepStall(s, t).Some?
    ensures Inv(StepStall(s, t).value)
  {
    var cm := s.commits[t];
    assert Tracked(cm, t);
    if cm.j == |cm.crtcs| {
      TicketInv(s, t);
    } else if cm.wait == None && s.lists[cm.crtcs[cm.j]] != [] {
      StallBlocks(s, t);
    } else {
      StallPasses(s, t);
    }
  }

  lemma StallBlocks(s: Sys, t: nat)
    requires Inv(s) && t < |s.commits| && s.commits[t].stage == STALL && s.commits[t].j < |s.commits[t].crtcs|
    requires s.commits[t].wait == None && s.lists[s.commits[t].crtcs[s.commits[t].j]] != []
    ensures Inv(Set(s, t, s.commits[t].(wait := Some(s.lists[s.commits[t].crtcs[s.commits[t].j]][0]))))
  {
    var cm := s.commits[t];
    var c := cm.crtcs[cm.j];
    var w := s.lists[c][0];
    var z := Set(s, t, cm.(wait := Some(w)));
    HeadHw(s, c);
    MovedSized(s, z, t);
    MovedBoard(s, z, t, c);
    assert Swapped(z, w, c);
    BlockInv(s, t, w);
  }

  lemma StallPasses(s: Sys, t: nat)
    requires Inv(s) && t < |s.commits| && s.commits[t].stage == STALL && s.commits[t].j < |s.commits[t].crtcs|
    requires var cm := s.commits[t]; var c := cm.crtcs[cm.j];
      if cm.wait.Some? then cm.wait.value < |s.commits| && c in s.commits[cm.wait.value].hw else s.lists[c] == []
    ensures Inv(Set(s, t, s.commits[t].(wait := None, j := s.commits[t].j + 1)))
  {
    var cm := s.commits[t];
    var z, c := Set(s, t, cm.(wait := None, j := cm.j + 1)), cm.crtcs[cm.j];
    assert Waiting(s, t) && Established(s, t, cm.j) && Tracked(cm, t);
    TrackNext(cm, t);
    HeadHw(s, c);
    assert AllHw(s, c, None);
    MovedSized(s, z, t);
    MovedBoard(s, z, t, c);
    AdvanceInv(s, z, t, cm.j);
  }

  /** Starting the swap: every commit swapped so far came earlier. */
  lemma TicketInv(s: Sys, t: nat)
    requires Inv(s) && t < |s.commits| && s.commits[t].stage == STALL && s.commits[t].j == |s.commits[t].crtcs|
    ensures Inv(StepStall(s, t).value)
  {
    var cm, z := s.commits[t], StepStall(s, t).value;
    assert Tracked(cm, t);
    forall i: nat | i < |cm.crtcs| ensures cm.crtcs[i] !in cm.swapped { assert TrackedAt(cm, i); }
    assert cm.swapped == {};
    TrackStage(cm, t, z.commits[t]);
    MovedSized(s, z, t);
    forall i: nat | i < |cm.crtcs| ensures Established(z, t, i) {
      var c := cm.crtcs[i];
      assert Established(s, t, i) && ListOk(s, c);
      MovedBoard(s, z, t, c);
      forall v: nat ensures Swapped(z, v, c) <==> Swapped(s, v, c) {}
    }
    MovedInv(s, z, t);
  }

  // ----- waiting for the preceding commits -----

  /** Until it signals hw_done, a commit is the newest entry of the list of each of its CRTCs. */
  lemma Newest(s: Sys, t: nat, c: nat)
    requires Inv(s) && c < |s.lists| && Swapped(s, t, c) && c !in s.commits[t].hw
    ensures s.lists[c] != [] && s.lists[c][0] == t
  {
    assert ListOk(s, c);
    if t !in s.lists[c] { GoneFinished(s, t, c); }
    var b: nat :| b < |s.lists[c]| && s.lists[c][b] == t;
  }

  lemma AtDeps(s: Sys, t: nat)
    requires Inv(s) && t < |s.commits| && s.commits[t].stage == DEPS && s.commits[t].j < |s.commits[t].crtcs|
    ensures var c := s.commits[t].crtcs[s.commits[t].j];
      c < |s.lists| && Swapped(s, t, c) && c !in s.commits[t].hw && s.lists[c] != [] && s.lists[c][0] == t
  {
    var cm := s.commits[t];
    assert Tracked(cm, t) && Fits(cm, |s.lists|);
    assert TrackedAt(cm, cm.j);
    Newest(s, t, cm.crtcs[cm.j]);
  }

  lemma DepsInv(s: Sys, t: nat)
    requires Inv(s) && t < |s.commits| && s.commits[t].stage == DEPS && StepDeps(s, t).Some?
    ensures Inv(StepDeps(s, t).value)
  {
    var cm, z := s.commits[t], StepDeps(s, t).value;
    assert Tracked(cm, t);
    if cm.j == |cm.crtcs| {
      TrackStage(cm, t, z.commits[t]);
      PlainInv(s, z, t);
    } else if cm.wait == None && |s.lists[cm.crtcs[cm.j]]| >= 2 {
      DepsBlocks(s, t);
    } else {
      DepsPasses(s, t);
    }
  }

  lemma DepsBlocks(s: Sys, t: nat)
    requires Inv(s) && t < |s.commits| && s.commits[t].stage == DEPS && s.commits[t].j < |s.commits[t].crtcs|
    requires s.commits[t].wait == None && |s.lists[s.commits[t].crtcs[s.commits[t].j]]| >= 2
    ensures Inv(Set(s, t, s.commits[t].(wait := Some(s.lists[s.commits[t].crtcs[s.commits[t].j]][1]))))
  {
    var cm := s.commits[t];
    var c := cm.crtcs[cm.j];
    var w := s.lists[c][1];
    var z := Set(s, t, cm.(wait := Some(w)));
    AtDeps(s, t);
    assert ListOk(s, c) && w in s.lists[c];
    PrecedingIsNext(s, t, c);
    MovedSized(s, z, t);
    MovedFinished(s, z, t, t, c);
    BlockInv(s, t, w);
  }

  /** The second entry of the list is the commit just before t among those not finished. */
  lemma PrecedingIsNext(s: Sys, t: nat, c: nat)
    requires Inv(s) && t < |s.commits| && c < |s.lists| && |s.lists[c]| >= 2 && s.lists[c][0] == t
    ensures EarlierFinishedUpTo(s, t, c, s.lists[c][1]) && s.commits[s.lists[c][1]].ticket < s.commits[t].ticket
  {
    var l := s.lists[c];
    assert ListOk(s, c);
    forall v: nat | Swapped(s, v, c) && s.commits[v].ticket < s.commits[t].ticket
      ensures v == l[1] || s.commits[v].ticket < s.commits[l[1]].ticket || Finished(s, v, c)
    {
      if v in l {
        var b: nat :| b < |l| && l[b] == v;
      } else {
        GoneFinished(s, v, c);
      }
    }
  }

  /** A commit that has signalled hw_done on c had seen everything before it finish there. */
  lemma HwImpliesEarlier(s: Sys, w: nat, c: nat)
    requires Inv(s) && Swapped(s, w, c) && c in s.commits[w].hw
    ensures EarlierFinished(s, w, c)
  {
    var cm := s.commits[w];
    assert Tracked(cm, w);
    var i: nat :| i < |cm.crtcs| && cm.crtcs[i] == c;
    assert TrackedAt(cm, i) && Established(s, w, i);
  }

  lemma DepsPasses(s: Sys, t: nat)
    requires Inv(s) && t < |s.commits| && s.commits[t].stage == DEPS && s.commits[t].j < |s.commits[t].crtcs|
    requires var cm := s.commits[t]; var c := cm.crtcs[cm.j];
      if cm.wait.Some? then cm.wait.value < |s.commits| && Finished(s, cm.wait.value, c) else |s.lists[c]| < 2
    ensures Inv(Set(s, t, s.commits[t].(wait := None, j := s.commits[t].j + 1)))
  {
    var cm := s.commits[t];
    var z, c := Set(s, t, cm.(wait := None, j := cm.j + 1)), cm.crtcs[cm.j];
    assert Waiting(s, t) && Tracked(cm, t) && Established(s, t, cm.j);
    DependenciesMet(s, t);
    TrackNext(cm, t);
    MovedSized(s, z, t);
    MovedFinished(s, z, t, t, c);
    AdvanceInv(s, z, t, cm.j);
  }

  lemma DependenciesMet(s: Sys, t: nat)
    requires Inv(s) && t < |s.commits| && s.commits[t].stage == DEPS && s.commits[t].j < |s.commits[t].crtcs|
    requires var cm := s.commits[t]; var c := cm.crtcs[cm.j];
      if cm.wait.Some? then cm.wait.value < |s.commits| && Finished(s, cm.wait.value, c) else |s.lists[c]| < 2
    ensures EarlierFinished(s, t, s.commits[t].crtcs[s.commits[t].j])
  {
    var cm := s.commits[t];
    var c := cm.crtcs[cm.j];
    AtDeps(s, t);
    assert Waiting(s, t);
    if cm.wait.Some? { HwImpliesEarlier(s, cm.wait.value, c); }
    forall v: nat | Swapped(s, v, c) && s.commits[v].ticket < cm.ticket ensures Finished(s, v, c) {
      if cm.wait == None {
        if v in s.lists[c] {
          var b: nat :| b < |s.lists[c]| && s.lists[c][b] == v;
        } else {
          GoneFinished(s, v, c);
        }
      }
    }
  }

  // ----- hardware, hw_done, flips -----

  lemma HwDoneInv(s: Sys, t: nat)
    requires Inv(s) && t < |s.commits| && s.commits[t].stage == HW_DONE && StepHwDone(s, t).Some?
    ensures Inv(StepHwDone(s, t).value)
  {
    var cm, z := s.commits[t], StepHwDone(s, t).value;
    assert Tracked(cm, t);
    if cm.j == |cm.crtcs| {
      TrackStage(cm, t, z.commits[t]);
    } else {
      var dm := z.commits[t];
      forall i: nat | i < |dm.crtcs| ensures TrackedAt(dm, i) { assert TrackedAt(cm, i); }
    }
    PlainInv(s, z, t);
  }

  lemma HardwareInv(s: Sys, t: nat)
    requires Inv(s) && t < |s.commits| && s.commits[t].stage == HARDWARE
    ensures Inv(Set(s, t, s.commits[t].(stage := HW_DONE, j := 0)))
  {
    assert Tracked(s.commits[t], t);
    TrackStage(s.commits[t], t, s.commits[t].(stage := HW_DONE, j := 0));
    PlainInv(s, Set(s, t, s.commits[t].(stage := HW_DONE, j := 0)), t);
  }

  lemma FlipInv(s: Sys, t: nat, c: nat)
    requires Inv(s) && t < |s.commits| && s.commits[t].stage >= HARDWARE && c in s.commits[t].events
    ensures Inv(Set(s, t, s.commits[t].(flip := s.commits[t].flip + {c}, events := s.commits[t].events - {c})))
  {
    var cm := s.commits[t];
    var dm := cm.(flip := cm.flip + {c}, events := cm.events - {c});
    var z := Set(s, t, dm);
    assert Tracked(cm, t) && Waiting(s, t);
    forall i: nat | i < |dm.crtcs| ensures TrackedAt(dm, i) { assert TrackedAt(cm, i); }
    MovedSized(s, z, t);
    OwnInv(s, z, t);
  }

  lemma UnlockInv(s: Sys, t: nat)
    requires Inv(s) && t < |s.commits| && s.commits[t].stage >= DEPS
    ensures Inv(Released(s, t))
  {
    var z := Released(s, t);
    assert Tracked(s.commits[t], t) && Waiting(s, t);
    assert z.commits == s.commits[t := z.commits[t]];
    MovedSized(s, z, t);
    if s.commits[t].wait.Some? {
      MovedFinished(s, z, t, t, s.commits[t].crtcs[s.commits[t].j]);
    }
    OwnInv(s, z, t);
  }

  // ----- cleanup -----

  lemma SignalCleanupInv(s: Sys, t: nat)
    requires Inv(s) && t < |s.commits| && s.commits[t].stage == CLEANUP && s.commits[t].j < |s.commits[t].crtcs|
    requires s.commits[t].wait == None
    ensures Inv(StepCleanup(s, t).value)
  {
    var cm, z := s.commits[t], StepCleanup(s, t).value;
    var dm := z.commits[t];
    assert Tracked(cm, t);
    forall i: nat | i < |dm.crtcs| ensures TrackedAt(dm, i) { assert TrackedAt(cm, i); }
    MovedSized(s, z, t);
    assert TrackedAt(cm, cm.j);
    assert Swapped(z, t, cm.crtcs[cm.j]);
    OwnInv(s, z, t);
  }

  /** Where an entry of the shortened list comes from. */
  lemma {:induction false} Origin(l: seq<nat>, t: nat, b: nat) returns (a: nat)
    requires b < |Without(l, t)|
    ensures b <= a < |l| && Without(l, t)[b] == l[a]
  {
    if l[0] == t {
      a := b + 1;
    } else if b == 0 {
      a := 0;
    } else {
      a := Origin(l[1..], t, b - 1);
      a := a + 1;
    }
  }

  lemma {:induction false} WithoutMembers(l: seq<nat>, t: nat)
    requires Distinct(l)
    ensures forall v: nat :: v in Without(l, t) <==> v in l && v != t
    ensures Distinct(Without(l, t))
  {
    if l != [] {
      var m := l[1..];
      assert l == [l[0]] + m;
      assert Distinct(m) by {
        forall a: nat, b: nat | a < b < |m| ensures m[a] != m[b] { assert l[a + 1] != l[b + 1]; }
      }
      assert l[0] !in m;
      if l[0] != t { WithoutMembers(m, t); }
    }
  }

  /** Leaving a list keeps the order of the others. */
  lemma {:induction false} WithoutOrder(s: Sys, l: seq<nat>, t: nat)
    requires forall a: nat :: a < |l| ==> l[a] < |s.commits|
    requires forall a: nat, b: nat :: a < b < |l| ==> s.commits[l[b]].ticket < s.commits[l[a]].ticket
    ensures |Without(l, t)| <= |l| && (forall a: nat :: a < |Without(l, t)| ==> Without(l, t)[a] < |s.commits|)
    ensures forall a: nat, b: nat :: a < b < |Without(l, t)| ==> s.commits[Without(l, t)[b]].ticket < s.commits[Without(l, t)[a]].ticket
  {
    if l != [] && l[0] != t {
      var m := l[1..];
      forall a: nat, b: nat | a < b < |m| ensures s.commits[m[b]].ticket < s.commits[m[a]].ticket {
        assert m[a] == l[a + 1] && m[b] == l[b + 1];
      }
      WithoutOrder(s, m, t);
      var w := Without(m, t);
      assert Without(l, t) == [l[0]] + w;
      forall b: nat | b < |w| ensures s.commits[w[b]].ticket < s.commits[l[0]].ticket {
        var a := Origin(m, t, b);
        assert m[a] == l[a + 1];
      }
    } else if l != [] {
      forall a: nat, b: nat | a < b < |l[1..]| ensures s.commits[l[1..][b]].ticket < s.commits[l[1..][a]].ticket {
        assert l[1..][a] == l[a + 1] && l[1..][b] == l[b + 1];
      }
    }
  }

  /** Nothing about CRTC d has changed. */
  ghost predicate SameAt(s: Sys, z: Sys, d: nat) {
    && Sized(s) && Sized(z) && d < |s.lists| && |z.lists| == |s.lists| && |z.commits| == |s.commits|
    && z.lists[d] == s.lists[d] && z.current[d] == s.current[d] && z.tickets == s.tickets
    && (forall v: nat :: v < |s.commits| ==> SameMarks(s.commits[v], z.commits[v], d))
  }

  ghost predicate SameMarks(cm: Commit, dm: Commit, d: nat) {
    && (d in dm.swapped <==> d in cm.swapped) && (d in dm.hw <==> d in cm.hw) && (d in dm.cleaned <==> d in cm.cleaned)
    && (d in dm.flip <==> d in cm.flip) && (d in dm.gone <==> d in cm.gone) && dm.ticket == cm.ticket
  }

  lemma SameAtBoard(s: Sys, z: Sys, d: nat)
    requires SameAt(s, z, d)
    ensures ListOk(s, d) ==> ListOk(z, d)
    ensures forall e: Option<nat> :: TailCleaned(s, d, e) ==> TailCleaned(z, d, e)
    ensures forall e: Option<nat> :: AllHw(s, d, e) ==> AllHw(z, d, e)
    ensures forall v: nat :: v < |s.commits| && EarlierFinished(s, v, d) ==> EarlierFinished(z, v, d)
    ensures forall v: nat, w: nat :: v < |s.commits| && w < |s.commits| && EarlierFinishedUpTo(s, v, d, w) ==> EarlierFinishedUpTo(z, v, d, w)
    ensures forall v: nat :: Swapped(z, v, d) <==> Swapped(s, v, d)
  {
    forall v: nat ensures Swapped(z, v, d) <==> Swapped(s, v, d) {
      if v < |s.commits| { assert SameMarks(s.commits[v], z.commits[v], d); }
    }
    forall v: nat | v < |s.commits| ensures Finished(z, v, d) <==> Finished(s, v, d) {
      assert SameMarks(s.commits[v], z.commits[v], d);
    }
    forall v: nat | v < |s.commits| ensures SameMarks(s.commits[v], z.commits[v], d) {}
  }

  // ----- entering the list of a CRTC -----

  lemma SwapInv(s: Sys, t: nat)
    requires Inv(s) && t < |s.commits| && s.commits[t].stage == SWAP
    ensures Inv(StepSwap(s, t).value)
  {
    var cm, z := s.commits[t], StepSwap(s, t).value;
    assert Tracked(cm, t);
    if cm.j == |cm.crtcs| {
      TrackStage(cm, t, z.commits[t]);
      PlainInv(s, z, t);
    } else {
      var c := cm.crtcs[cm.j];
      PushSized(s, t);
      forall d: nat | d < |s.lists| && d != c ensures SameAt(s, z, d) { PushSameAt(s, t, d); }
      forall d: nat | d < |z.lists| ensures ListOk(z, d) {
        if d == c { PushList(s, t); } else { SameAtBoard(s, z, d); }
      }
      forall v: nat | v < |z.commits| ensures Tracked(z.commits[v], v) && Waiting(z, v) {
        if v == t { PushTracked(cm, t); } else { PushWaiting(s, t, v); }
      }
      forall v: nat, i: nat | v < |z.commits| && i < |z.commits[v].crtcs| ensures Established(z, v, i) {
        PushEstablished(s, t, v, i);
      }
    }
  }

  lemma PushSized(s: Sys, t: nat)
    requires Sized(s) && t < |s.commits| && s.commits[t].j < |s.commits[t].crtcs|
    ensures Sized(StepSwap(s, t).value)
  {
    var z := StepSwap(s, t).value;
    forall v: nat | v < |z.commits| ensures Fits(z.commits[v], |z.lists|) { assert Fits(s.commits[v], |s.lists|); }
  }

  lemma PushSameAt(s: Sys, t: nat, d: nat)
    requires Sized(s) && t < |s.commits| && s.commits[t].j < |s.commits[t].crtcs| && d < |s.lists|
    requires d != s.commits[t].crtcs[s.commits[t].j]
    ensures SameAt(s, StepSwap(s, t).value, d)
  {
    PushSized(s, t);
  }

  lemma PushTracked(cm: Commit, t: nat)
    requires Tracked(cm, t) && cm.stage == SWAP && cm.j < |cm.crtcs|
    ensures Tracked(cm.(swapped := cm.swapped + {cm.crtcs[cm.j]}, j := cm.j + 1), t)
  {
    var dm := cm.(swapped := cm.swapped + {cm.crtcs[cm.j]}, j := cm.j + 1);
    forall i: nat | i < |dm.crtcs| ensures TrackedAt(dm, i) { assert TrackedAt(cm, i); }
  }

  lemma PushList(s: Sys, t: nat)
    requires Inv(s) && t < |s.commits| && s.commits[t].stage == SWAP && s.commits[t].j < |s.commits[t].crtcs|
    requires Sized(StepSwap(s, t).value)
    ensures ListOk(StepSwap(s, t).value, s.commits[t].crtcs[s.commits[t].j])
  {
    var cm, z := s.commits[t], StepSwap(s, t).value;
    var c := cm.crtcs[cm.j];
    assert ListOk(s, c) && Established(s, t, cm.j) && Tracked(cm, t);
    assert TrackedAt(cm, cm.j);
    PushedList(s, z, t, c);
  }

  /** A list that is all programmed, and cleaned but for its head, takes a new head. */
  lemma PushedList(s: Sys, z: Sys, t: nat, c: nat)
    requires Sized(s) && Sized(z) && t < |s.commits| && c < |s.lists| && |z.lists| == |s.lists| && |z.commits| == |s.commits|
    requires ListOk(s, c) && TailCleaned(s, c, None) && AllHw(s, c, None)
    requires forall v: nat :: Swapped(s, v, c) ==> s.commits[v].ticket < s.commits[t].ticket
    requires c !in s.commits[t].swapped && c !in s.commits[t].gone && s.commits[t].ticket < s.tickets
    requires z.commits == s.commits[t := s.commits[t].(swapped := s.commits[t].swapped + {c}, j := z.commits[t].j)]
    requires z.lists[c] == [t] + s.lists[c] && z.current[c] == Some(t) && z.tickets == s.tickets
    ensures ListOk(z, c)
  {
    var l, m := s.lists[c], z.lists[c];
    forall v: nat ensures Swapped(z, v, c) <==> Swapped(s, v, c) || v == t {}
    forall b: nat | 1 <= b < |m| ensures m[b] == l[b - 1] && Swapped(s, m[b], c) && z.commits[m[b]] == s.commits[m[b]] {
      assert l[b - 1] in l;
    }
    forall v: nat ensures v in m <==> Swapped(z, v, c) && c !in z.commits[v].gone {
      if v != t { assert v in m <==> v in l; }
    }
  }

  /** Commits that are before their swap on a CRTC own it, so no other commit enters its list. */
  lemma Exclusion(s: Sys, t: nat, v: nat, i: nat)
    requires Inv(s) && t < |s.commits| && s.commits[t].stage == SWAP && s.commits[t].j < |s.commits[t].crtcs|
    requires v < |s.commits| && v != t && i < |s.commits[v].crtcs|
    requires s.commits[v].crtcs[i] == s.commits[t].crtcs[s.commits[t].j]
    ensures !(SETUP <= s.commits[v].stage <= SWAP)
  {
    assert Established(s, t, s.commits[t].j) && Established(s, v, i);
  }

  lemma PushEarlier(s: Sys, t: nat, v: nat)
    requires Inv(s) && t < |s.commits| && s.commits[t].stage == SWAP && s.commits[t].j < |s.commits[t].crtcs|
    requires v < |s.commits| && v != t && Swapped(s, v, s.commits[t].crtcs[s.commits[t].j]) && Sized(StepSwap(s, t).value)
    ensures var c := s.commits[t].crtcs[s.commits[t].j];
      && (EarlierFinished(s, v, c) ==> EarlierFinished(StepSwap(s, t).value, v, c))
      && (forall w: nat :: w < |s.commits| && w != t && EarlierFinishedUpTo(s, v, c, w) ==> EarlierFinishedUpTo(StepSwap(s, t).value, v, c, w))
  {
    var z, c := StepSwap(s, t).value, s.commits[t].crtcs[s.commits[t].j];
    assert Established(s, t, s.commits[t].j);
    forall u: nat ensures Swapped(z, u, c) <==> Swapped(s, u, c) || u == t {}
  }

  lemma PushEstablished(s: Sys, t: nat, v: nat, i: nat)
    requires Inv(s) && t < |s.commits| && s.commits[t].stage == SWAP && s.commits[t].j < |s.commits[t].crtcs|
    requires Sized(StepSwap(s, t).value) && v < |s.commits| && i < |s.commits[v].crtcs|
    ensures Established(StepSwap(s, t).value, v, i)
  {
    var cm, z := s.commits[t], StepSwap(s, t).value;
    var c, d := cm.crtcs[cm.j], s.commits[v].crtcs[i];
    assert Established(s, v, i) && Tracked(cm, t) && Tracked(s.commits[v], v);
    assert Fits(s.commits[v], |s.lists|);
    if d != c {
      PushSameAt(s, t, d);
      SameAtBoard(s, z, d);
    } else if v != t {
      Exclusion(s, t, v, i);
      assert TrackedAt(s.commits[v], i);
      if Past(s.commits[v], DEPS, i) { PushEarlier(s, t, v); }
    } else {
      assert i == cm.j;
    }
  }

  lemma PushWaiting(s: Sys, t: nat, v: nat)
    requires Inv(s) && t < |s.commits| && s.commits[t].stage == SWAP && s.commits[t].j < |s.commits[t].crtcs|
    requires Sized(StepSwap(s, t).value) && v < |s.commits| && v != t
    ensures Waiting(StepSwap(s, t).value, v)
  {
    var cm, dm, z := s.commits[t], s.commits[v], StepSwap(s, t).value;
    assert Waiting(s, v) && Tracked(dm, v) && Fits(dm, |s.lists|);
    if dm.wait.Some? && dm.j < |dm.crtcs| {
      var c, d := cm.crtcs[cm.j], dm.crtcs[dm.j];
      if d != c {
        PushSameAt(s, t, d);
        SameAtBoard(s, z, d);
      } else {
        Exclusion(s, t, v, dm.j);
        assert TrackedAt(dm, dm.j);
        assert TrackedAt(cm, cm.j);
        PushEarlier(s, t, v);
      }
    }
  }

  // ----- leaving the list of a CRTC -----

  lemma CleanupInv(s: Sys, t: nat)
    requires Inv(s) && t < |s.commits| && s.commits[t].stage == CLEANUP && StepCleanup(s, t).Some?
    ensures Inv(StepCleanup(s, t).value)
  {
    var cm, z := s.commits[t], StepCleanup(s, t).value;
    assert Tracked(cm, t);
    if cm.j == |cm.crtcs| {
      TrackStage(cm, t, z.commits[t]);
      PlainInv(s, z, t);
    } else if cm.wait == None {
      SignalCleanupInv(s, t);
    } else {
      LeaveInv(s, t);
    }
  }

  ghost predicate Leaving(s: Sys, t: nat) {
    && Sized(s) && t < |s.commits|
    && var cm := s.commits[t];
       cm.stage == CLEANUP && cm.j < |cm.crtcs| && cm.wait.Some? && cm.crtcs[cm.j] in cm.flip
  }

  lemma LeaveSized(s: Sys, t: nat)
    requires Leaving(s, t)
    ensures Sized(StepCleanup(s, t).value)
  {
    var cm, z := s.commits[t], StepCleanup(s, t).value;
    var c := cm.crtcs[cm.j];
    forall v: nat | v < |z.commits| ensures Fits(z.commits[v], |z.lists|) { assert Fits(s.commits[v], |s.lists|); }
    forall b: nat | b < |z.lists[c]| ensures z.lists[c][b] < |s.commits| { var a := Origin(s.lists[c], t, b); }
  }

  lemma LeaveInv(s: Sys, t: nat)
    requires Inv(s) && Leaving(s, t)
    ensures Inv(StepCleanup(s, t).value)
  {
    var cm, z := s.commits[t], StepCleanup(s, t).value;
    var c := cm.crtcs[cm.j];
    LeaveSized(s, t);
    LeaveBoard(s, t);
    forall d: nat | d < |z.lists| ensures ListOk(z, d) {
      if d == c { LeaveList(s, t); } else { LeaveSameAt(s, t, d); SameAtBoard(s, z, d); }
    }
    forall v: nat | v < |z.commits| ensures Tracked(z.commits[v], v) && Waiting(z, v) {
      if v == t { LeaveTracked(cm, t); } else { LeaveWaiting(s, t, v); }
    }
    forall v: nat, i: nat | v < |z.commits| && i < |z.commits[v].crtcs| ensures Established(z, v, i) {
      LeaveEstablished(s, t, v, i);
    }
  }

  lemma LeaveSameAt(s: Sys, t: nat, d: nat)
    requires Leaving(s, t) && d < |s.lists| && d != s.commits[t].crtcs[s.commits[t].j]
    ensures SameAt(s, StepCleanup(s, t).value, d)
  {
    LeaveSized(s, t);
  }

  lemma LeaveTracked(cm: Commit, t: nat)
    requires Tracked(cm, t) && cm.stage == CLEANUP && cm.j < |cm.crtcs| && cm.wait.Some? && cm.crtcs[cm.j] in cm.flip
    ensures Tracked(cm.(gone := cm.gone + {cm.crtcs[cm.j]}, wait := None, j := cm.j + 1), t)
  {
    var dm := cm.(gone := cm.gone + {cm.crtcs[cm.j]}, wait := None, j := cm.j + 1);
    forall i: nat | i < |dm.crtcs| ensures TrackedAt(dm, i) { assert TrackedAt(cm, i); }
  }

  /** Facts about the CRTC whose list t leaves survive. */
  lemma LeaveBoard(s: Sys, t: nat)
    requires Leaving(s, t)
    ensures Sized(StepCleanup(s, t).value)
    ensures var z, c := StepCleanup(s, t).value, s.commits[t].crtcs[s.commits[t].j];
      && (forall e: Option<nat> :: TailCleaned(s, c, e) ==> TailCleaned(z, c, e))
      && (forall e: Option<nat> :: AllHw(s, c, e) ==> AllHw(z, c, e))
      && (forall v: nat :: v < |s.commits| && EarlierFinished(s, v, c) ==> EarlierFinished(z, v, c))
      && (forall v: nat, w: nat :: v < |s.commits| && w < |s.commits| && EarlierFinishedUpTo(s, v, c, w) ==> EarlierFinishedUpTo(z, v, c, w))
      && (forall v: nat :: Swapped(z, v, c) <==> Swapped(s, v, c))
  {
    LeaveSized(s, t);
    var z, c := StepCleanup(s, t).value, s.commits[t].crtcs[s.commits[t].j];
    forall v: nat ensures Swapped(z, v, c) <==> Swapped(s, v, c) {}
    forall v: nat | v < |s.commits| ensures Finished(z, v, c) <==> Finished(s, v, c) {}
    forall e: Option<nat>, b: nat | TailCleaned(s, c, e) && 1 <= b < |z.lists[c]|
      ensures Some(z.lists[c][b]) == e || c in z.commits[z.lists[c][b]].cleaned
    {
      var a := Origin(s.lists[c], t, b);
    }
  }

  lemma LeaveList(s: Sys, t: nat)
    requires Inv(s) && Leaving(s, t) && Sized(StepCleanup(s, t).value)
    ensures ListOk(StepCleanup(s, t).value, s.commits[t].crtcs[s.commits[t].j])
  {
    var cm, z := s.commits[t], StepCleanup(s, t).value;
    var c := cm.crtcs[cm.j];
    assert ListOk(s, c) && Tracked(cm, t) && TrackedAt(cm, cm.j);
    LeftList(s, z, t, c);
  }

  lemma LeftList(s: Sys, z: Sys, t: nat, c: nat)
    requires Sized(s) && Sized(z) && t < |s.commits| && c < |s.lists| && |z.lists| == |s.lists| && |z.commits| == |s.commits|
    requires ListOk(s, c) && c in s.commits[t].swapped && c !in s.commits[t].gone
    requires z.commits == s.commits[t := s.commits[t].(gone := s.commits[t].gone + {c}, wait := None, j := z.commits[t].j)]
    requires z.lists[c] == Without(s.lists[c], t) && z.current[c] == s.current[c] && z.tickets == s.tickets
    ensures ListOk(z, c)
  {
    LeftMembers(s, z, t, c);
    LeftSignals(s, z, t, c);
    forall v: nat ensures Swapped(z, v, c) <==> Swapped(s, v, c) {}
  }

  lemma LeftMembers(s: Sys, z: Sys, t: nat, c: nat)
    requires Sized(s) && Sized(z) && t < |s.commits| && c < |s.lists| && |z.lists| == |s.lists| && |z.commits| == |s.commits|
    requires ListOk(s, c) && c in s.commits[t].swapped && c !in s.commits[t].gone
    requires z.commits == s.commits[t := s.commits[t].(gone := s.commits[t].gone + {c}, wait := None, j := z.commits[t].j)]
    requires z.lists[c] == Without(s.lists[c], t) && z.current[c] == s.current[c] && z.tickets == s.tickets
    ensures forall v: nat :: v in z.lists[c] <==> Swapped(z, v, c) && c !in z.commits[v].gone
  {
    TicketsDistinct(s, c);
    WithoutMembers(s.lists[c], t);
    forall v: nat ensures Swapped(z, v, c) <==> Swapped(s, v, c) {}
  }

  lemma LeftSignals(s: Sys, z: Sys, t: nat, c: nat)
    requires Sized(s) && Sized(z) && t < |s.commits| && c < |s.lists| && |z.lists| == |s.lists| && |z.commits| == |s.commits|
    requires ListOk(s, c) && c in s.commits[t].swapped && c !in s.commits[t].gone
    requires z.commits == s.commits[t := s.commits[t].(gone := s.commits[t].gone + {c}, wait := None, j := z.commits[t].j)]
    requires z.lists[c] == Without(s.lists[c], t) && z.current[c] == s.current[c] && z.tickets == s.tickets
    ensures forall a: nat, b: nat :: a < b < |z.lists[c]| ==> z.commits[z.lists[c][b]].ticket < z.commits[z.lists[c][a]].ticket
    ensures forall b: nat :: 1 <= b < |z.lists[c]| ==> c in z.commits[z.lists[c][b]].hw
    ensures forall b: nat :: 2 <= b < |z.lists[c]| ==> c in z.commits[z.lists[c][b]].cleaned
  {
    var l, m := s.lists[c], z.lists[c];
    WithoutOrder(s, l, t);
    forall b: nat | b < |m|
      ensures 1 <= b ==> c in z.commits[m[b]].hw
      ensures 2 <= b ==> c in z.commits[m[b]].cleaned
    {
      var a := Origin(l, t, b);
    }
  }

  lemma TicketsDistinct(s: Sys, c: nat)
    requires Sized(s) && c < |s.lists| && ListOk(s, c)
    ensures Distinct(s.lists[c])
  {
    var l := s.lists[c];
    forall a: nat, b: nat | a < b < |l| ensures l[a] != l[b] { assert s.commits[l[b]].ticket < s.commits[l[a]].ticket; }
  }

  lemma LeaveEstablished(s: Sys, t: nat, v: nat, i: nat)
    requires Inv(s) && Leaving(s, t) && v < |s.commits| && i < |s.commits[v].crtcs|
    ensures Sized(StepCleanup(s, t).value) && Established(StepCleanup(s, t).value, v, i)
  {
    var cm, z := s.commits[t], StepCleanup(s, t).value;
    var d := s.commits[v].crtcs[i];
    LeaveBoard(s, t);
    assert Established(s, v, i) && Fits(s.commits[v], |s.lists|);
    if d != cm.crtcs[cm.j] {
      LeaveSameAt(s, t, d);
      SameAtBoard(s, z, d);
    }
  }

  lemma LeaveWaiting(s: Sys, t: nat, v: nat)
    requires Inv(s) && Leaving(s, t) && v < |s.commits| && v != t
    ensures Sized(StepCleanup(s, t).value) && Waiting(StepCleanup(s, t).value, v)
  {
    var cm, dm, z := s.commits[t], s.commits[v], StepCleanup(s, t).value;
    LeaveBoard(s, t);
    assert Waiting(s, v) && Fits(dm, |s.lists|);
    if dm.wait.Some? && dm.j < |dm.crtcs| && dm.crtcs[dm.j] != cm.crtcs[cm.j] {
      LeaveSameAt(s, t, dm.crtcs[dm.j]);
      SameAtBoard(s, z, dm.crtcs[dm.j]);
    }
  }

  // ----- new commits -----

  lemma BeginInv(s: Sys, crtcs: seq<nat>, quiet: set<nat>, nonblock: bool)
    requires Inv(s) && CanBegin(s, crtcs)
    ensures Inv(Started(s, crtcs, quiet, nonblock))
  {
    var z, n := Started(s, crtcs, quiet, nonblock), |s.commits|;
    StartedSized(s, crtcs, quiet, nonblock);
    forall v: nat, c: nat ensures Swapped(z, v, c) <==> Swapped(s, v, c) {}
    forall c: nat | c < |z.lists| ensures ListOk(z, c) { StartedBoard(s, crtcs, quiet, nonblock, c); }
    forall v: nat | v < |z.commits| ensures Tracked(z.commits[v], v) && Waiting(z, v) {
      if v < n {
        assert Tracked(s.commits[v], v);
        StartedOthers(s, crtcs, quiet, nonblock, v);
      } else {
        forall i: nat | i < |crtcs| ensures TrackedAt(z.commits[n], i) {}
      }
    }
    forall v: nat, i: nat | v < |z.commits| && i < |z.commits[v].crtcs| ensures Established(z, v, i) {
      if v < n { StartedOthers(s, crtcs, quiet, nonblock, v); } else { assert crtcs[i] in crtcs; }
    }
  }

  lemma StartedSized(s: Sys, crtcs: seq<nat>, quiet: set<nat>, nonblock: bool)
    requires Sized(s) && CanBegin(s, crtcs)
    ensures Sized(Started(s, crtcs, quiet, nonblock))
  {
    var z := Started(s, crtcs, quiet, nonblock);
    forall v: nat | v < |z.commits| ensures Fits(z.commits[v], |z.lists|) {
      if v < |s.commits| { assert Fits(s.commits[v], |s.lists|); }
    }
  }

  lemma StartedBoard(s: Sys, crtcs: seq<nat>, quiet: set<nat>, nonblock: bool, c: nat)
    requires Sized(s) && CanBegin(s, crtcs) && c < |s.lists| && Sized(Started(s, crtcs, quiet, nonblock))
    ensures var z := Started(s, crtcs, quiet, nonblock);
      && (ListOk(s, c) ==> ListOk(z, c))
      && (forall e: Option<nat> :: TailCleaned(s, c, e) ==> TailCleaned(z, c, e))
      && (forall e: Option<nat> :: AllHw(s, c, e) ==> AllHw(z, c, e))
      && (forall v: nat :: v < |s.commits| && EarlierFinished(s, v, c) ==> EarlierFinished(z, v, c))
      && (forall v: nat, w: nat :: v < |s.commits| && w < |s.commits| && EarlierFinishedUpTo(s, v, c, w) ==> EarlierFinishedUpTo(z, v, c, w))
      && (forall v: nat :: Swapped(z, v, c) <==> Swapped(s, v, c))
  {
    var z := Started(s, crtcs, quiet, nonblock);
    forall v: nat ensures Swapped(z, v, c) <==> Swapped(s, v, c) {}
    forall v: nat | v < |s.commits| ensures z.commits[v] == s.commits[v] {}
    forall v: nat | v < |s.commits| ensures Finished(z, v, c) <==> Finished(s, v, c) {}
  }

  lemma StartedOthers(s: Sys, crtcs: seq<nat>, quiet: set<nat>, nonblock: bool, v: nat)
    requires Inv(s) && CanBegin(s, crtcs) && Sized(Started(s, crtcs, quiet, nonblock)) && v < |s.commits|
    ensures var z := Started(s, crtcs, quiet, nonblock);
      Waiting(z, v) && forall i: nat :: i < |s.commits[v].crtcs| ==> Established(z, v, i)
  {
    var z, cm := Started(s, crtcs, quiet, nonblock), s.commits[v];
    assert Fits(cm, |s.lists|);
    forall i: nat | i < |cm.crtcs| ensures Established(z, v, i) {
      assert Established(s, v, i);
      StartedBoard(s, crtcs, quiet, nonblock, cm.crtcs[i]);
    }
    assert Waiting(s, v);
    if cm.wait.Some? && cm.j < |cm.crtcs| { StartedBoard(s, crtcs, quiet, nonblock, cm.crtcs[cm.j]); }
  }

  // ----- all steps -----

  lemma StepInv(s: Sys, a: Action)
    requires Inv(s) && Step(s, a).Some?
    ensures Inv(Step(s, a).value)
  {
    match a
    case Begin(crtcs, quiet, nonblock) => BeginInv(s, crtcs, quiet, nonblock);
    case Abort(t) => AbortInv(s, t);
    case Flip(t, c) => FlipInv(s, t, c);
    case Unlock(t) => UnlockInv(s, t);
    case Advance(t) =>
      var stage := s.commits[t].stage;
      if stage == SETUP { SetupInv(s, t); }
      else if stage == STALL { StallInv(s, t); }
      else if stage == SWAP { SwapInv(s, t); }
      else if stage == DEPS { DepsInv(s, t); }
      else if stage == HARDWARE { HardwareInv(s, t); }
      else if stage == HW_DONE { HwDoneInv(s, t); }
      else { CleanupInv(s, t); }
  }

  lemma InitInv(numCrtcs: nat)
    ensures Inv(Init(numCrtcs))
  {
  }

  /** The state a run reaches, if every action in it is enabled in turn. */
  function Run(numCrtcs: nat, actions: seq<Action>): (r: Option<Sys>)
    ensures r.Some? ==> Inv(r.value)
  {
    if actions == [] then InitInv(numCrtcs); Some(Init(numCrtcs))
    else
      var r := Run(numCrtcs, actions[..|actions| - 1]);
      if r == None then None
      else
        var a := actions[|actions| - 1];
        if Step(r.value, a).Some? then StepInv(r.value, a); Step(r.value, a) else None
  }
}
