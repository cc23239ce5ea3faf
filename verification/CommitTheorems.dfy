/**
 What the commit protocol guarantees in every run: hardware phases in swap order, a private view of the current
 state, bounded cleanup backlog, and waits that always end.
 */
module CommitTheorems {
  import opened Outcomes
  import opened CommitProtocol
  import opened CommitInvariant

  // ----- order -----

  /** Commit v entered the list of c before t did. */
  ghost predicate Precedes(s: Sys, v: nat, t: nat, c: nat) {
    Swapped(s, v, c) && v != t && (Swapped(s, t, c) ==> s.commits[v].ticket < s.commits[t].ticket)
  }

  lemma StepPrecedes(s: Sys, a: Action, v: nat, t: nat, c: nat)
    requires Inv(s) && Step(s, a).Some? && Precedes(s, v, t, c)
    ensures Precedes(Step(s, a).value, v, t, c)
  {
    var z := Step(s, a).value;
    SwapHistory(s, a, v, c);
    if Swapped(z, t, c) && !Swapped(s, t, c) {
      EntersLast(s, a, t, c);
    } else if Swapped(z, t, c) {
      SwapHistory(s, a, t, c);
    }
  }

  /** A commit on a list stays in the order it entered. */
  lemma SwapHistory(s: Sys, a: Action, v: nat, c: nat)
    requires Inv(s) && Step(s, a).Some? && Swapped(s, v, c)
    ensures Swapped(Step(s, a).value, v, c) && Step(s, a).value.commits[v].ticket == s.commits[v].ticket
  {
    var cm := s.commits[v];
    if a == Advance(v) {
      assert Tracked(cm, v);
      var i: nat :| i < |cm.crtcs| && cm.crtcs[i] == c;
      assert TrackedAt(cm, i);
      AdvanceHistory(s, v, c);
    }
  }

  /** A commit past the start of its swap keeps its place in the order. */
  lemma AdvanceHistory(s: Sys, t: nat, c: nat)
    requires Sized(s) && t < |s.commits| && s.commits[t].stage >= SWAP && c in s.commits[t].swapped && StepCommit(s, t).Some?
    ensures Swapped(StepCommit(s, t).value, t, c) && StepCommit(s, t).value.commits[t].ticket == s.commits[t].ticket
  {
  }

  lemma EntersLast(s: Sys, a: Action, t: nat, c: nat)
    requires Inv(s) && Step(s, a).Some? && Swapped(Step(s, a).value, t, c) && !Swapped(s, t, c)
    ensures forall v: nat :: Swapped(s, v, c) ==> s.commits[v].ticket < Step(s, a).value.commits[t].ticket
  {
    assert a == Advance(t) && s.commits[t].stage == SWAP;
    assert Established(s, t, s.commits[t].j);
  }

  /** The order in which commits enter a CRTC's list is fixed for the rest of the run. */
  lemma {:induction false} RunPrecedes(n: nat, before: seq<Action>, after: seq<Action>, v: nat, t: nat, c: nat)
    requires Run(n, before + after).Some?
    ensures Run(n, before).Some?
    ensures Precedes(Run(n, before).value, v, t, c) ==> Precedes(Run(n, before + after).value, v, t, c)
  {
    if after == [] {
      assert before + after == before;
    } else {
      var shorter := after[..|after| - 1];
      assert (before + after)[..|before + after| - 1] == before + shorter;
      RunPrecedes(n, before, shorter, v, t, c);
      if Precedes(Run(n, before).value, v, t, c) {
        StepPrecedes(Run(n, before + shorter).value, after[|after| - 1], v, t, c);
      }
    }
  }

  /**
   In every interleaving, once a commit is programming the hardware, every commit that entered the list of one
   of its CRTCs while it had not is programmed there and its flip has happened.
   */
  lemma HardwareInOrder(n: nat, before: seq<Action>, after: seq<Action>, v: nat, t: nat, c: nat)
    requires Run(n, before + after).Some? && Run(n, before).Some?
    requires Swapped(Run(n, before).value, v, c) && !Swapped(Run(n, before).value, t, c) && v != t
    requires var s := Run(n, before + after).value;
      t < |s.commits| && s.commits[t].stage >= HARDWARE && c in s.commits[t].crtcs
    ensures Swapped(Run(n, before + after).value, v, c) && Finished(Run(n, before + after).value, v, c)
  {
    RunPrecedes(n, before, after, v, t, c);
    var s := Run(n, before + after).value;
    assert Tracked(s.commits[t], t);
    var i: nat :| i < |s.commits[t].crtcs| && s.commits[t].crtcs[i] == c;
    assert TrackedAt(s.commits[t], i) && Established(s, t, i);
  }

  /** Commit t is past its waits and has not signalled hw_done on c. */
  ghost predicate Programming(s: Sys, t: nat, c: nat) {
    t < |s.commits| && c in s.commits[t].crtcs && s.commits[t].stage >= HARDWARE && c !in s.commits[t].hw
  }

  /** Two commits are never both programming the same CRTC. */
  lemma OneProgrammer(n: nat, actions: seq<Action>, t: nat, v: nat, c: nat)
    requires Run(n, actions).Some?
    requires Programming(Run(n, actions).value, t, c) && Programming(Run(n, actions).value, v, c)
    ensures t == v
  {
    var s := Run(n, actions).value;
    InHardware(s, t, c);
    InHardware(s, v, c);
    Newest(s, t, c);
    Newest(s, v, c);
  }

  lemma InHardware(s: Sys, t: nat, c: nat)
    requires Inv(s) && t < |s.commits| && c in s.commits[t].crtcs && s.commits[t].stage > SWAP
    ensures Swapped(s, t, c) && c < |s.lists|
  {
    assert Tracked(s.commits[t], t) && Fits(s.commits[t], |s.lists|);
    var i: nat :| i < |s.commits[t].crtcs| && s.commits[t].crtcs[i] == c;
    assert TrackedAt(s.commits[t], i);
  }

  // ----- lock-free reads -----

  /**
   From its swap until its own hw_done each CRTC of a commit points at that commit's state and the commit heads
   the CRTC's list, so what precedes it is entry 1 and nothing else on the list can lack hw_done.
   */
  lemma PrivateView(n: nat, actions: seq<Action>, t: nat, c: nat)
    requires Run(n, actions).Some?
    requires Swapped(Run(n, actions).value, t, c) && c !in Run(n, actions).value.commits[t].hw
    requires c < |Run(n, actions).value.lists|
    ensures var s := Run(n, actions).value;
      && s.current[c] == Some(t)
      && s.lists[c] != [] && s.lists[c][0] == t
      && forall v: nat :: Swapped(s, v, c) && v != t ==> c in s.commits[v].hw
  {
    var s := Run(n, actions).value;
    assert ListOk(s, c);
    Newest(s, t, c);
    HeadHw(s, c);
  }

  // ----- backlog -----

  /** Only the two newest entries of a CRTC's list, of all commits that ever entered it, can lack cleanup_done. */
  lemma CleanupBacklog(n: nat, actions: seq<Action>, t: nat, c: nat)
    requires Run(n, actions).Some? && c < |Run(n, actions).value.lists|
    requires Swapped(Run(n, actions).value, t, c) && c !in Run(n, actions).value.commits[t].cleaned
    ensures var l := Run(n, actions).value.lists[c]; exists b: nat :: b < |l| && b < 2 && l[b] == t
  {
    var s := Run(n, actions).value;
    assert ListOk(s, c);
    if t !in s.lists[c] { GoneFinished(s, t, c); }
    var b: nat :| b < |s.lists[c]| && s.lists[c][b] == t;
  }

  // ----- waits -----

  /** Commit t is blocked on commit w. */
  ghost predicate WaitsFor(s: Sys, t: nat, w: nat) {
    && t < |s.commits| && s.commits[t].stage in {SETUP, STALL, DEPS}
    && s.commits[t].wait == Some(w)
  }

  /** Place in the swap order; commits that have not started their swap come after all others. */
  ghost function Order(s: Sys, t: nat): nat
    requires t < |s.commits|
  {
    if s.commits[t].stage >= SWAP then s.commits[t].ticket else s.tickets
  }

  lemma WaitsGoBack(s: Sys, t: nat, w: nat)
    requires Inv(s) && WaitsFor(s, t, w)
    ensures w < |s.commits| && Order(s, w) < Order(s, t) && s.commits[w].stage >= SWAP
  {
    var cm := s.commits[t];
    assert Tracked(cm, t) && Waiting(s, t) && Fits(cm, |s.lists|);
    var c := cm.crtcs[cm.j];
    assert ListOk(s, c);
    assert Tracked(s.commits[w], w);
    var i: nat :| i < |s.commits[w].crtcs| && s.commits[w].crtcs[i] == c;
    assert TrackedAt(s.commits[w], i);
  }

  ghost predicate WaitChain(s: Sys, chain: seq<nat>) {
    forall k: nat, l: nat :: l == k + 1 && l < |chain| ==> WaitsFor(s, chain[k], chain[l])
  }

  /** Along a chain of waits the swap order strictly falls, so no run reaches a cyclic wait. */
  lemma {:induction false} NoCyclicWait(n: nat, actions: seq<Action>, chain: seq<nat>)
    requires Run(n, actions).Some? && |chain| >= 2 && WaitChain(Run(n, actions).value, chain)
    ensures var s := Run(n, actions).value;
      && chain[0] < |s.commits| && chain[|chain| - 1] < |s.commits|
      && Order(s, chain[|chain| - 1]) < Order(s, chain[0])
    ensures chain[0] != chain[|chain| - 1]
  {
    var s := Run(n, actions).value;
    assert WaitsFor(s, chain[0], chain[1]);
    WaitsGoBack(s, chain[0], chain[1]);
    if |chain| > 2 {
      var rest := chain[1..];
      forall k: nat, l: nat | l == k + 1 && l < |rest| ensures WaitsFor(s, rest[k], rest[l]) {
        assert WaitsFor(s, chain[l], chain[l + 1]);
      }
      NoCyclicWait(n, actions, rest);
    }
  }

  // ----- progress -----

  predicate Ended(cm: Commit) {
    cm.stage == ABORTED || cm.stage == DONE
  }

  /** A step of a commit or a flip, as opposed to a request from outside. */
  predicate Internal(a: Action) {
    a.Advance? || a.Flip?
  }

  /** Following the waits of an unfinished commit leads to a step that is enabled. */
  lemma {:induction false} EnabledStep(s: Sys, t: nat) returns (a: Action)
    requires Inv(s) && t < |s.commits| && !Ended(s.commits[t])
    ensures Internal(a) && Step(s, a).Some?
    decreases Order(s, t)
  {
    var cm := s.commits[t];
    assert Tracked(cm, t);
    if StepCommit(s, t).Some? {
      a := Advance(t);
    } else if cm.stage == CLEANUP {
      assert TrackedAt(cm, cm.j);
      a := Flip(t, cm.crtcs[cm.j]);
    } else {
      var w := cm.wait.value;
      WaitsGoBack(s, t, w);
      BlockerUnfinished(s, t, w);
      a := EnabledStep(s, w);
    }
  }

  lemma BlockerUnfinished(s: Sys, t: nat, w: nat)
    requires Inv(s) && WaitsFor(s, t, w) && w < |s.commits| && StepCommit(s, t) == None
    ensures !Ended(s.commits[w])
  {
    var cm, wm := s.commits[t], s.commits[w];
    assert Tracked(cm, t) && Waiting(s, t) && Tracked(wm, w);
    var c := cm.crtcs[cm.j];
    var i: nat :| i < |wm.crtcs| && wm.crtcs[i] == c;
    assert TrackedAt(wm, i);
  }

  /** Steps a commit can still take, at most: its stages, positions and waits, and the flips it is owed. */
  ghost function Left(cm: Commit): int {
    |cm.events| + if cm.stage == ABORTED then 0
      else (DONE - cm.stage) * (4 * |cm.crtcs| + 4) - 4 * cm.j - (if cm.wait.Some? then 1 else 0)
  }

  ghost function Total(cs: seq<Commit>): int {
    if cs == [] then 0 else Left(cs[0]) + Total(cs[1..])
  }

  lemma LeftNatural(cm: Commit, t: nat)
    requires Tracked(cm, t)
    ensures Left(cm) >= 0
  {
    if ABORTED < cm.stage < DONE { Scales(DONE - cm.stage, 4 * |cm.crtcs| + 4); }
  }

  lemma Scales(k: nat, w: nat)
    requires k > 0
    ensures k * w == (k - 1) * w + w && (k - 1) * w >= 0
  {
  }

  lemma {:induction false} TotalNatural(cs: seq<Commit>)
    requires forall t: nat :: t < |cs| ==> Left(cs[t]) >= 0
    ensures Total(cs) >= 0
  {
    if cs != [] { TotalNatural(cs[1..]); }
  }

  lemma {:induction false} TotalUpdate(cs: seq<Commit>, t: nat, cm: Commit)
    requires t < |cs|
    ensures Total(cs[t := cm]) == Total(cs) - Left(cs[t]) + Left(cm)
  {
    if t == 0 {
      assert cs[t := cm][1..] == cs[1..];
    } else {
      assert cs[t := cm][1..] == cs[1..][t - 1 := cm];
      TotalUpdate(cs[1..], t - 1, cm);
    }
  }

  /** A commit moves on within its stage, or when it is through to the next one; only set-up can be aborted. */
  ghost predicate Onward(cm: Commit, dm: Commit) {
    && dm.crtcs == cm.crtcs && dm.quiet == cm.quiet && dm.nonblock == cm.nonblock
    && ((dm.stage == ABORTED && dm.events == cm.events && cm.stage == SETUP && dm.j == 0)
        || (dm.stage == cm.stage && dm.j == cm.j && dm.wait.Some? && cm.wait == None && dm.events == cm.events)
        || (dm.stage == cm.stage && dm.j == cm.j + 1 <= |cm.crtcs| && dm.wait == None
            && (dm.events == cm.events || dm.events == cm.events + {cm.crtcs[cm.j]}))
        || (dm.stage == cm.stage + 1 && dm.j == 0 && dm.events == cm.events && dm.wait == cm.wait
            && (cm.j == |cm.crtcs| || cm.stage == HARDWARE)))
  }

  lemma OnwardShrinks(cm: Commit, dm: Commit)
    requires ABORTED < cm.stage < DONE && cm.j <= |cm.crtcs| && Onward(cm, dm)
    ensures Left(dm) < Left(cm)
  {
    Scales(DONE - cm.stage, 4 * |cm.crtcs| + 4);
    assert |dm.events| <= |cm.events| + 1;
  }

  lemma AdvancesOnward(s: Sys, t: nat)
    requires Sized(s) && t < |s.commits| && Tracked(s.commits[t], t) && StepCommit(s, t).Some?
    ensures var z := StepCommit(s, t).value;
      |z.commits| == |s.commits| && z.commits == s.commits[t := z.commits[t]] && Onward(s.commits[t], z.commits[t])
  {
  }

  /** Each internal step uses up something of the commit that takes it. */
  lemma StepShrinks(s: Sys, a: Action)
    requires Inv(s) && Internal(a) && Step(s, a).Some?
    ensures Total(Step(s, a).value.commits) < Total(s.commits)
  {
    var z, t, cm := Step(s, a).value, a.t, s.commits[a.t];
    assert Tracked(cm, t);
    if a.Flip? {
      TotalUpdate(s.commits, t, z.commits[t]);
      assert z.commits[t].events == cm.events - {a.c};
    } else {
      AdvancesOnward(s, t);
      TotalUpdate(s.commits, t, z.commits[t]);
      OnwardShrinks(cm, z.commits[t]);
    }
  }

  ghost predicate Settled(s: Sys) {
    forall t: nat :: t < |s.commits| ==> Ended(s.commits[t])
  }

  lemma SystemNatural(s: Sys)
    requires Inv(s)
    ensures Total(s.commits) >= 0
  {
    forall t: nat | t < |s.commits| ensures Left(s.commits[t]) >= 0 { LeftNatural(s.commits[t], t); }
    TotalNatural(s.commits);
  }

  /** No deadlock: a run stops having internal steps only when every commit has been aborted or is done. */
  lemma NoDeadlock(n: nat, actions: seq<Action>)
    requires Run(n, actions).Some?
    ensures (exists a :: Internal(a) && Step(Run(n, actions).value, a).Some?) || Settled(Run(n, actions).value)
  {
    var s := Run(n, actions).value;
    if t: nat :| t < |s.commits| && !Ended(s.commits[t]) { var a := EnabledStep(s, t); }
  }

  /** The state a further run reaches from s. */
  function Onwards(s: Sys, actions: seq<Action>): (r: Option<Sys>)
    requires Inv(s)
    ensures r.Some? ==> Inv(r.value)
    decreases actions
  {
    if actions == [] then Some(s)
    else if Step(s, actions[0]).Some? then StepInv(s, actions[0]); Onwards(Step(s, actions[0]).value, actions[1..])
    else None
  }

  lemma {:induction false} OnwardsAppend(s: Sys, actions: seq<Action>, a: Action)
    requires Inv(s) && Onwards(s, actions).Some?
    ensures Onwards(s, actions + [a]) == Step(Onwards(s, actions).value, a)
    decreases actions
  {
    if actions == [] {
    } else {
      assert (actions + [a])[1..] == actions[1..] + [a];
      StepInv(s, actions[0]);
      OnwardsAppend(Step(s, actions[0]).value, actions[1..], a);
    }
  }

  lemma {:induction false} OnwardsPrefix(s: Sys, actions: seq<Action>, k: nat)
    requires Inv(s) && Onwards(s, actions).Some? && k <= |actions|
    ensures Onwards(s, actions[..k]).Some?
    decreases k
  {
    if k > 0 {
      assert actions[..k][1..] == actions[1..][..k - 1];
      StepInv(s, actions[0]);
      OnwardsPrefix(Step(s, actions[0]).value, actions[1..], k - 1);
    }
  }

  lemma {:induction false} BoundedFrom(s: Sys, more: seq<Action>)
    requires Inv(s) && Onwards(s, more).Some? && forall k: nat :: k < |more| ==> Internal(more[k])
    ensures |more| <= Total(s.commits)
    decreases more
  {
    SystemNatural(s);
    if more != [] {
      StepInv(s, more[0]);
      StepShrinks(s, more[0]);
      BoundedFrom(Step(s, more[0]).value, more[1..]);
    }
  }

  /** However commits, workers and flips interleave without new commits, they take boundedly many steps. */
  lemma BoundedWork(n: nat, actions: seq<Action>, more: seq<Action>)
    requires Run(n, actions).Some? && Onwards(Run(n, actions).value, more).Some?
    requires forall k: nat :: k < |more| ==> Internal(more[k])
    ensures |more| <= Total(Run(n, actions).value.commits)
  {
    BoundedFrom(Run(n, actions).value, more);
  }

  /** A run goes on from the state it has reached. */
  lemma {:induction false} RunOnwards(n: nat, actions: seq<Action>, more: seq<Action>)
    requires Run(n, actions).Some? && Onwards(Run(n, actions).value, more).Some?
    ensures Run(n, actions + more) == Onwards(Run(n, actions).value, more)
  {
    if more == [] {
      assert actions + more == actions;
    } else {
      var shorter, a := more[..|more| - 1], more[|more| - 1];
      OnwardsPrefix(Run(n, actions).value, more, |more| - 1);
      RunOnwards(n, actions, shorter);
      assert more == shorter + [a];
      OnwardsAppend(Run(n, actions).value, shorter, a);
      assert actions + more == (actions + shorter) + [a];
      RunAppend(n, actions + shorter, a);
    }
  }

  lemma RunAppend(n: nat, actions: seq<Action>, a: Action)
    requires Run(n, actions).Some?
    ensures Run(n, actions + [a]) == Step(Run(n, actions).value, a)
  {
    assert (actions + [a])[..|actions|] == actions;
  }

  lemma {:induction false} DrainsFrom(s: Sys) returns (more: seq<Action>)
    requires Inv(s)
    ensures Onwards(s, more).Some? && Settled(Onwards(s, more).value)
    ensures forall k: nat :: k < |more| ==> Internal(more[k])
    decreases Total(s.commits)
  {
    more := [];
    if t: nat :| t < |s.commits| && !Ended(s.commits[t]) {
      var a := EnabledStep(s, t);
      StepInv(s, a);
      StepShrinks(s, a);
      SystemNatural(Step(s, a).value);
      var tail := DrainsFrom(Step(s, a).value);
      more := [a] + tail;
    }
  }

  /** From every reachable state, internal steps alone bring all commits to their end. */
  lemma Drains(n: nat, actions: seq<Action>) returns (more: seq<Action>)
    requires Run(n, actions).Some?
    ensures Run(n, actions + more).Some? && Settled(Run(n, actions + more).value)
    ensures forall k: nat :: k < |more| ==> Internal(more[k])
  {
    more := DrainsFrom(Run(n, actions).value);
    RunOnwards(n, actions, more);
  }
}
