/**
 What the single steps of the commit protocol decide: which commits are refused, what they wait for, whose flips
 are signalled by the hardware, and who holds a CRTC's lock.
 */
module CommitOutcomes {
  import opened Outcomes
  import opened CommitProtocol
  import opened CommitInvariant
  import opened CommitTheorems

  // ----- starting -----

  /** A commit starts exactly when its CRTCs are distinct, known and unlocked, and then locks them. */
  lemma BeginsExactly(s: Sys, crtcs: seq<nat>, quiet: set<nat>, nonblock: bool)
    requires Sized(s)
    ensures Step(s, Begin(crtcs, quiet, nonblock)).Some? <==>
      (forall i: nat :: i < |crtcs| ==> crtcs[i] < |s.owner| && s.owner[crtcs[i]] == None)
      && (forall i: nat, j: nat :: i < j < |crtcs| ==> crtcs[i] != crtcs[j])
    ensures Step(s, Begin(crtcs, quiet, nonblock)).Some? ==>
      var z, t := Step(s, Begin(crtcs, quiet, nonblock)).value, |s.commits|;
      && |z.commits| == t + 1 && z.commits[..t] == s.commits && z.lists == s.lists && z.current == s.current && |z.owner| == |s.owner|
      && z.commits[t].crtcs == crtcs && z.commits[t].quiet == quiet && z.commits[t].nonblock == nonblock && z.commits[t].stage == SETUP
      && forall c: nat :: c < |s.owner| ==> z.owner[c] == if c in crtcs then Some(t) else s.owner[c]
  {
  }

  /** What a commit was started with never changes, and it goes through its stages one by one, unless aborted during set-up. */
  lemma Continues(s: Sys, a: Action, t: nat)
    requires Inv(s) && Step(s, a).Some? && t < |s.commits|
    ensures var cm := s.commits[t];
      && t < |Step(s, a).value.commits|
      && var dm := Step(s, a).value.commits[t];
         && dm.crtcs == cm.crtcs && dm.quiet == cm.quiet && dm.nonblock == cm.nonblock
         && (dm.stage == cm.stage || dm.stage == cm.stage + 1 || (cm.stage == SETUP && dm.stage == ABORTED))
         && (cm.stage == ABORTED ==> dm.stage == ABORTED)
  {
    match a
    case Advance(u) =>
      assert Tracked(s.commits[u], u);
      AdvancesOnward(s, u);
    case _ =>
  }

  // ----- set-up -----

  /** Commit t is about to check whether CRTC c is free for it. */
  ghost predicate Checking(s: Sys, t: nat, c: nat) {
    && t < |s.commits| && s.commits[t].stage == SETUP && s.commits[t].wait == None
    && s.commits[t].j < |s.commits[t].crtcs| && s.commits[t].crtcs[s.commits[t].j] == c && c < |s.lists|
  }

  /** The newest commit on c has not flipped there yet. */
  ghost predicate FlipPending(s: Sys, c: nat)
    requires Sized(s) && c < |s.lists|
  {
    s.lists[c] != [] && c !in s.commits[s.lists[c][0]].flip
  }

  /**
   A commit is refused exactly if it is nonblocking and the newest commit on the CRTC has not flipped; it waits
   exactly for the second newest, if there is one; else its event is armed, or its flip complete if it is quiet.
   */
  lemma RefusedExactly(n: nat, actions: seq<Action>, t: nat, c: nat)
    requires Run(n, actions).Some? && Checking(Run(n, actions).value, t, c)
    ensures var s := Run(n, actions).value;
      && Step(s, Advance(t)).Some?
      && var dm := Step(s, Advance(t)).value.commits[t];
         && (dm.stage == ABORTED <==> s.commits[t].nonblock && FlipPending(s, c))
         && (dm.stage != ABORTED && |s.lists[c]| >= 2 ==> dm == s.commits[t].(wait := Some(s.lists[c][1])))
         && (dm.stage != ABORTED && |s.lists[c]| < 2 ==> dm.j == s.commits[t].j + 1 && Readied(s.commits[t], dm, c))
  {
    var s := Run(n, actions).value;
    assert Tracked(s.commits[t], t);
  }

  /** What hardware will signal for c is armed; what it will not is complete. */
  ghost predicate Readied(cm: Commit, dm: Commit, c: nat) {
    && dm.flip == (if c in cm.quiet then cm.flip + {c} else cm.flip)
    && dm.events == (if c in cm.quiet then cm.events else cm.events + {c})
  }

  /** An aborted commit was aborted from outside, or was nonblocking and came before the newest commit had flipped. */
  ghost predicate Refusal(n: nat, actions: seq<Action>, k: nat, t: nat) {
    && k < |actions|
    && (actions[k] == Abort(t)
        || (actions[k] == Advance(t) && Run(n, actions[..k]).Some?
            && exists c: nat :: Checking(Run(n, actions[..k]).value, t, c) && FlipPending(Run(n, actions[..k]).value, c)
                                && Run(n, actions[..k]).value.commits[t].nonblock))
  }

  lemma {:induction false} AbortedWhy(n: nat, actions: seq<Action>, t: nat)
    requires Run(n, actions).Some? && t < |Run(n, actions).value.commits| && Run(n, actions).value.commits[t].stage == ABORTED
    ensures exists k: nat :: Refusal(n, actions, k, t)
  {
    if actions != [] {
      var last := |actions| - 1;
      var s, a := Run(n, actions[..last]).value, actions[last];
      if t < |s.commits| && s.commits[t].stage == ABORTED {
        AbortedWhy(n, actions[..last], t);
        var k: nat :| Refusal(n, actions[..last], k, t);
        assert actions[..last][..k] == actions[..k];
        assert Refusal(n, actions, k, t);
      } else {
        AbortsNow(s, a, t);
        assert Refusal(n, actions, last, t);
      }
    }
  }

  lemma AbortsNow(s: Sys, a: Action, t: nat)
    requires Inv(s) && Step(s, a).Some? && t < |Step(s, a).value.commits| && Step(s, a).value.commits[t].stage == ABORTED
    requires t < |s.commits| ==> s.commits[t].stage != ABORTED
    ensures a == Abort(t) || (a == Advance(t) && exists c: nat :: Checking(s, t, c) && FlipPending(s, c) && s.commits[t].nonblock)
  {
    assert t < |s.commits| ==> Tracked(s.commits[t], t) && Fits(s.commits[t], |s.lists|);
    if a == Advance(t) { assert Checking(s, t, s.commits[t].crtcs[s.commits[t].j]); }
  }

  /** In particular a blocking commit is only ever aborted from outside. */
  lemma BlockingNotRefused(n: nat, actions: seq<Action>, t: nat)
    requires Run(n, actions).Some? && t < |Run(n, actions).value.commits| && Run(n, actions).value.commits[t].stage == ABORTED
    requires !Run(n, actions).value.commits[t].nonblock
    ensures Abort(t) in actions
  {
    AbortedWhy(n, actions, t);
    var k: nat :| Refusal(n, actions, k, t);
    if actions[k] != Abort(t) { KeptOn(n, actions, k, t); }
  }

  lemma {:induction false} KeptOn(n: nat, actions: seq<Action>, k: nat, t: nat)
    requires Run(n, actions).Some? && k <= |actions|
    ensures Run(n, actions[..k]).Some?
    ensures var s, z := Run(n, actions[..k]).value, Run(n, actions).value;
      t < |s.commits| ==> t < |z.commits| && z.commits[t].nonblock == s.commits[t].nonblock && z.commits[t].quiet == s.commits[t].quiet
                          && (s.commits[t].stage >= STALL ==> z.commits[t].stage >= s.commits[t].stage)
  {
    if k == |actions| {
      assert actions[..k] == actions;
    } else {
      var last := |actions| - 1;
      KeptOn(n, actions[..last], k, t);
      assert actions[..last][..k] == actions[..k];
      if t < |Run(n, actions[..k]).value.commits| { Continues(Run(n, actions[..last]).value, actions[last], t); }
    }
  }

  // ----- waits -----

  /** A blocked commit goes on exactly when what it waits for has happened on its CRTC. */
  lemma WakesExactly(n: nat, actions: seq<Action>, t: nat, w: nat)
    requires Run(n, actions).Some? && t < |Run(n, actions).value.commits|
    requires Run(n, actions).value.commits[t].wait == Some(w)
    ensures var s := Run(n, actions).value; var cm := s.commits[t];
      && cm.j < |cm.crtcs| && w < |s.commits|
      && var c, wm := cm.crtcs[cm.j], s.commits[w];
         && (cm.stage == SETUP ==> (Step(s, Advance(t)).Some? <==> c in wm.cleaned))
         && (cm.stage == STALL ==> (Step(s, Advance(t)).Some? <==> c in wm.hw))
         && (cm.stage == DEPS ==> (Step(s, Advance(t)).Some? <==> c in wm.hw && c in wm.flip))
         && (cm.stage == CLEANUP ==> w == t && (Step(s, Advance(t)).Some? <==> c in cm.flip))
  {
    var s := Run(n, actions).value;
    assert Tracked(s.commits[t], t) && Waiting(s, t);
  }

  /** Before its swap a commit waits for the head of each list, and after it for what precedes it, if there is any. */
  lemma BlocksExactly(n: nat, actions: seq<Action>, t: nat)
    requires Run(n, actions).Some? && t < |Run(n, actions).value.commits| && Run(n, actions).value.commits[t].wait == None
    requires Run(n, actions).value.commits[t].j < |Run(n, actions).value.commits[t].crtcs|
    requires Run(n, actions).value.commits[t].stage == STALL || Run(n, actions).value.commits[t].stage == DEPS
    ensures var s := Run(n, actions).value; var cm := s.commits[t];
      && cm.crtcs[cm.j] < |s.lists| && Step(s, Advance(t)).Some?
      && var l, dm := s.lists[cm.crtcs[cm.j]], Step(s, Advance(t)).value.commits[t];
         && (cm.stage == STALL ==> dm == if l == [] then cm.(j := cm.j + 1) else cm.(wait := Some(l[0])))
         && (cm.stage == DEPS ==> dm == if |l| < 2 then cm.(j := cm.j + 1) else cm.(wait := Some(l[1])))
  {
    var s := Run(n, actions).value;
    assert Tracked(s.commits[t], t) && Fits(s.commits[t], |s.lists|);
  }

  // ----- flips -----

  /** Up to the hardware phase a flip is complete exactly where none will be sent; from then on events turn into flips. */
  ghost predicate Signalled(cm: Commit) {
    && cm.events !! cm.quiet
    && forall i: nat :: i < |cm.crtcs| && Past(cm, SETUP, i) ==>
         && (cm.crtcs[i] in cm.quiet ==> cm.crtcs[i] in cm.flip)
         && (cm.crtcs[i] !in cm.quiet && cm.stage < HARDWARE ==> cm.crtcs[i] !in cm.flip && cm.crtcs[i] in cm.events)
  }

  lemma StepSignalled(s: Sys, a: Action, t: nat)
    requires Inv(s) && Step(s, a).Some? && t < |Step(s, a).value.commits|
    requires t < |s.commits| ==> Signalled(s.commits[t])
    ensures Signalled(Step(s, a).value.commits[t])
  {
    match a
    case Advance(u) =>
      assert Tracked(s.commits[u], u);
      AdvancesOnward(s, u);
      if u == t { AdvanceSignalled(s, t); }
    case _ =>
  }

  lemma AdvanceSignalled(s: Sys, t: nat)
    requires Inv(s) && t < |s.commits| && Signalled(s.commits[t]) && StepCommit(s, t).Some? && t < |StepCommit(s, t).value.commits|
    ensures Signalled(StepCommit(s, t).value.commits[t])
  {
    var cm, dm := s.commits[t], StepCommit(s, t).value.commits[t];
    assert Tracked(cm, t);
    if cm.stage == SETUP && dm.j == cm.j + 1 {
      assert TrackedAt(cm, cm.j);
      ArmedSignalled(cm, t);
    }
  }

  lemma ArmedSignalled(cm: Commit, t: nat)
    requires Tracked(cm, t) && cm.stage == SETUP && cm.j < |cm.crtcs| && Signalled(cm)
    ensures Signalled(Armed(cm))
  {
    var dm := Armed(cm);
    assert TrackedAt(cm, cm.j);
    forall i: nat | i < |dm.crtcs| && Past(dm, SETUP, i) && i != cm.j
      ensures dm.crtcs[i] in dm.quiet ==> dm.crtcs[i] in dm.flip
      ensures dm.crtcs[i] !in dm.quiet ==> dm.crtcs[i] !in dm.flip && dm.crtcs[i] in dm.events
    {
      assert Past(cm, SETUP, i) && cm.crtcs[i] != cm.crtcs[cm.j];
    }
  }

  /** In every run: no flip before the hardware phase but where none is to be sent. */
  lemma {:induction false} FlipsFromHardware(n: nat, actions: seq<Action>, t: nat)
    requires Run(n, actions).Some? && t < |Run(n, actions).value.commits|
    ensures Signalled(Run(n, actions).value.commits[t])
  {
    var shorter := actions[..|actions| - 1];
    if t < |Run(n, shorter).value.commits| { FlipsFromHardware(n, shorter, t); }
    StepSignalled(Run(n, shorter).value, actions[|actions| - 1], t);
  }

  /** The hardware can signal exactly the events that are armed, once the commit is programming it. */
  lemma FlipsExactly(s: Sys, t: nat, c: nat)
    requires Sized(s) && t < |s.commits|
    ensures Step(s, Flip(t, c)).Some? <==> s.commits[t].stage >= HARDWARE && c in s.commits[t].events
    ensures Step(s, Flip(t, c)).Some? ==>
      Step(s, Flip(t, c)).value.commits[t] == s.commits[t].(flip := s.commits[t].flip + {c}, events := s.commits[t].events - {c})
  {
  }

  // ----- locks -----

  ghost predicate Unlocks(cm: Commit) {
    cm.stage == DONE || (cm.nonblock && cm.stage >= DEPS)
  }

  /** Locks are dropped by a blocking commit when it is done, by a nonblocking one when its worker has it. */
  lemma UnlocksExactly(s: Sys, t: nat)
    requires Sized(s) && t < |s.commits|
    ensures Step(s, Unlock(t)).Some? <==> Unlocks(s.commits[t])
    ensures Step(s, Unlock(t)).Some? ==>
      var z := Step(s, Unlock(t)).value;
      z == s.(owner := z.owner) && |z.owner| == |s.owner|
      && forall c: nat :: c < |s.owner| ==> z.owner[c] == if s.owner[c] == Some(t) then None else s.owner[c]
  {
  }

  /** A commit holds no lock it may not hold: none before it starts, and none once it is aborted. */
  ghost predicate LocksOk(s: Sys) {
    forall c: nat :: c < |s.owner| && s.owner[c].Some? ==>
      s.owner[c].value < |s.commits| && c in s.commits[s.owner[c].value].crtcs && s.commits[s.owner[c].value].stage != ABORTED
  }

  lemma {:induction false} AbortedUnlocked(n: nat, actions: seq<Action>)
    requires Run(n, actions).Some?
    ensures LocksOk(Run(n, actions).value)
  {
    if actions != [] {
      AbortedUnlocked(n, actions[..|actions| - 1]);
      StepLocks(Run(n, actions[..|actions| - 1]).value, actions[|actions| - 1]);
    }
  }

  lemma StepLocks(s: Sys, a: Action)
    requires Inv(s) && LocksOk(s) && Step(s, a).Some?
    ensures LocksOk(Step(s, a).value)
  {
    var z := Step(s, a).value;
    forall c: nat | c < |z.owner| && z.owner[c].Some?
      ensures z.owner[c].value < |z.commits| && c in z.commits[z.owner[c].value].crtcs && z.commits[z.owner[c].value].stage != ABORTED
    {
      if z.owner[c] == s.owner[c] { Continues(s, a, s.owner[c].value); }
    }
  }
}
