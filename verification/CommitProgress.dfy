/**
 Commits and their updates never bring each other to a halt: an update that is past assembly, or whose commit has
 been aborted, can always go on, or something it waits for can.
 */
module CommitProgress {
  import opened Outcomes
  import P = CommitProtocol
  import I = CommitInvariant
  import T = CommitTheorems
  import O = Ownership
  import opened CommitOwnership

  // ----- how far a commit and its update are from each other -----

  /** Which CRTCs have been swapped: those of the commit before its position, those of the update below its index. */
  ghost predicate Lined(cm: P.Commit, up: O.Update, base: nat) {
    forall i: nat :: i < |cm.crtcs| ==> if i < cm.j then base + cm.crtcs[i] < up.i else base + cm.crtcs[i] >= up.i
  }

  ghost predicate Agree(cm: P.Commit, up: O.Update, kinds: seq<O.Kind>, base: nat) {
    && Ascending(cm.crtcs) && cm.stage <= P.DONE && cm.j <= |cm.crtcs|
    && (cm.stage <= P.SETUP ==> !up.swapped && up.phase != O.Swapping)
    && (cm.stage == P.SETUP ==> up.phase != O.Cleared)
    && (cm.stage == P.STALL ==> !up.swapped && up.phase == O.Ready)
    && (cm.stage == P.SWAP ==>
          if up.swapped then up.phase == O.Cleaning && cm.j == |cm.crtcs|
          else (up.phase == O.Ready && cm.j == 0) || (up.phase == O.Swapping && Lined(cm, up, base)))
    && (P.DEPS <= cm.stage <= P.HW_DONE ==> up.swapped && up.phase == O.Cleaning)
    && (cm.stage == P.CLEANUP ==> up.swapped && (up.phase == O.Cleaning || up.phase == O.Clearing))
    && (cm.stage == P.DONE ==> up.swapped && O.Over(up))
    && (up.phase == O.Preparing || up.phase == O.Ready || up.phase == O.Swapping ==> Exact(cm, up, kinds, base))
  }

  ghost predicate Agreed(j: Joint)
    requires Fits(j)
  {
    forall t: nat :: t < |j.sys.commits| ==> Agree(j.sys.commits[t], j.world.updates[t], j.world.kinds, j.base)
  }

  // ----- every step keeps them together -----

  lemma AdvanceAgree(j: Joint, t: nat)
    requires Inv(j) && MaySync(j, P.Advance(t)) && P.StepCommit(j.sys, t).Some?
    requires Agree(j.sys.commits[t], j.world.updates[t], j.world.kinds, j.base)
    ensures |P.StepCommit(j.sys, t).value.commits| == |j.sys.commits|
    ensures Agree(P.StepCommit(j.sys, t).value.commits[t], j.world.updates[t], j.world.kinds, j.base)
  {
    assert P.Tracked(j.sys.commits[t], t);
    T.AdvancesOnward(j.sys, t);
    OnwardAgree(j.sys.commits[t], P.StepCommit(j.sys, t).value.commits[t], j.world.updates[t], j.world.kinds, j.base);
  }

  lemma OnwardAgree(cm: P.Commit, dm: P.Commit, up: O.Update, kinds: seq<O.Kind>, base: nat)
    requires Agree(cm, up, kinds, base) && T.Onward(cm, dm) && P.ABORTED < cm.stage < P.DONE
    requires cm.stage == P.SETUP && cm.j == |cm.crtcs| ==> up.phase == O.Ready
    requires cm.stage == P.SWAP ==> cm.j == |cm.crtcs| && up.swapped
    requires cm.stage == P.CLEANUP ==> up.phase == O.Clearing
    ensures Agree(dm, up, kinds, base)
  {
    assert Exact(cm, up, kinds, base) ==> Exact(dm, up, kinds, base);
  }

  /** What the protocol does by itself concerns one commit; an abort or a flip leaves it in step with its update. */
  lemma SyncAgree(j: Joint, a: P.Action, t: nat)
    requires Inv(j) && Step(j, Sync(a)).Some? && t < |j.sys.commits|
    requires Agree(j.sys.commits[t], j.world.updates[t], j.world.kinds, j.base)
    ensures |P.Step(j.sys, a).value.commits| == |j.sys.commits|
    ensures Agree(P.Step(j.sys, a).value.commits[t], j.world.updates[t], j.world.kinds, j.base)
  {
    var cm, up := j.sys.commits[t], j.world.updates[t];
    match a
    case Advance(u) =>
      assert P.Tracked(j.sys.commits[u], u);
      T.AdvancesOnward(j.sys, u);
      if u == t { AdvanceAgree(j, t); }
    case Abort(u) =>
      if u == t { SameAgree(cm, cm.(stage := P.ABORTED, j := 0, wait := None), up, j.world.kinds, j.base); }
    case Flip(u, c) =>
      if u == t { SameAgree(cm, P.Step(j.sys, a).value.commits[t], up, j.world.kinds, j.base); }
    case _ =>
  }

  lemma SameAgree(cm: P.Commit, dm: P.Commit, up: O.Update, kinds: seq<O.Kind>, base: nat)
    requires Agree(cm, up, kinds, base) && dm.crtcs == cm.crtcs
    requires (dm.stage == cm.stage && dm.j == cm.j) || (cm.stage == P.SETUP && dm.stage == P.ABORTED && dm.j == 0)
    ensures Agree(dm, up, kinds, base)
  {
    assert Exact(cm, up, kinds, base) ==> Exact(dm, up, kinds, base);
  }

  lemma SyncAgrees(j: Joint, a: P.Action)
    requires Inv(j) && Agreed(j) && Step(j, Sync(a)).Some? && Fits(Step(j, Sync(a)).value)
    ensures Agreed(Step(j, Sync(a)).value)
  {
    var z := Step(j, Sync(a)).value;
    SameSize(j.sys, a);
    forall t: nat | t < |z.sys.commits| ensures Agree(z.sys.commits[t], z.world.updates[t], z.world.kinds, z.base) {
      SyncAgree(j, a, t);
    }
  }

  lemma BeginAgrees(j: Joint, a: Action)
    requires Inv(j) && Agreed(j) && a.Begin? && Step(j, a).Some? && Fits(Step(j, a).value)
    ensures Agreed(Step(j, a).value)
  {
    var z := Step(j, a).value;
    forall t: nat | t < |z.sys.commits| ensures Agree(z.sys.commits[t], z.world.updates[t], z.world.kinds, z.base) {
      if t < |j.sys.commits| { assert Agree(j.sys.commits[t], j.world.updates[t], j.world.kinds, j.base); }
    }
  }

  /** Passing an object that is no CRTC leaves the CRTCs to come ahead. */
  lemma PassAgree(cm: P.Commit, up: O.Update, vp: O.Update, kinds: seq<O.Kind>, base: nat)
    requires Agree(cm, up, kinds, base) && cm.stage == P.SWAP && up.phase == O.Swapping && !up.swapped && up.i < |kinds|
    requires forall i: nat :: i < |cm.crtcs| ==> base + cm.crtcs[i] < |kinds| && kinds[base + cm.crtcs[i]] == O.Crtc
    requires !(kinds[up.i] == O.Crtc && up.i in up.slots)
    requires vp == up.(i := up.i + 1, slots := vp.slots) && vp.slots.Keys == up.slots.Keys
    ensures Agree(cm, vp, kinds, base)
  {
    assert forall o: nat :: o in vp.slots <==> o in up.slots;
    forall i: nat | i < |cm.crtcs| ensures if i < cm.j then base + cm.crtcs[i] < vp.i else base + cm.crtcs[i] >= vp.i {
      assert base + cm.crtcs[i] in up.slots;
    }
  }

  lemma EndAgree(cm: P.Commit, up: O.Update, kinds: seq<O.Kind>, base: nat)
    requires Agree(cm, up, kinds, base) && cm.stage == P.SWAP && up.phase == O.Swapping && cm.j == |cm.crtcs|
    ensures Agree(cm, up.(phase := O.Cleaning, i := 0, swapped := true), kinds, base)
  {
  }

  /** A step of the swap loop that is not an exchange. */
  lemma SwapAgree(j: Joint, u: nat)
    requires Inv(j) && u < |j.sys.commits| && j.world.updates[u].phase == O.Swapping && MayNext(j, u)
    requires Agree(j.sys.commits[u], j.world.updates[u], j.world.kinds, j.base)
    requires |O.StepSwap(j.world, u).updates| == |j.world.updates|
    ensures Agree(j.sys.commits[u], O.StepSwap(j.world, u).updates[u], j.world.kinds, j.base)
  {
    var cm, up, z := j.sys.commits[u], j.world.updates[u], O.StepSwap(j.world, u).updates[u];
    assert O.PhaseOk(up) && P.Fits(cm, |j.sys.lists|);
    if up.i >= |j.world.kinds| {
      EndAgree(cm, up, j.world.kinds, j.base);
    } else {
      if up.i in up.slots { ExchangeWorld(j.world, u); }
      PassAgree(cm, up, z, j.world.kinds, j.base);
    }
  }

  /** The other loops over an update's slots. */
  lemma LoopAgree(j: Joint, u: nat, ok: bool)
    requires Inv(j) && u < |j.sys.commits| && MayNext(j, u) && O.Step(j.world, O.Next(u, ok)).Some? && j.world.updates[u].phase != O.Swapping
    requires Agree(j.sys.commits[u], j.world.updates[u], j.world.kinds, j.base)
    requires |O.Step(j.world, O.Next(u, ok)).value.updates| == |j.world.updates|
    ensures Agree(j.sys.commits[u], O.Step(j.world, O.Next(u, ok)).value.updates[u], j.world.kinds, j.base)
  {
    var w, cm, up := j.world, j.sys.commits[u], j.world.updates[u];
    match up.phase
    case Preparing => PrepareLocal(w, u, ok); PhaseAgree(cm, up, O.StepPrepare(w, u, ok).updates[u], w.kinds, j.base);
    case Unwinding => UnwindLocal(w, u); PhaseAgree(cm, up, O.StepUnwind(w, u).updates[u], w.kinds, j.base);
    case Ready => StartAgree(cm, up, w.kinds, j.base);
    case Cleaning => CleanLocal(w, u); PhaseAgree(cm, up, O.StepClean(w, u).updates[u], w.kinds, j.base);
    case Clearing => ClearAgree(cm, up, O.StepClear(w, u).updates[u], w.kinds, j.base);
    case _ =>
  }

  lemma StartAgree(cm: P.Commit, up: O.Update, kinds: seq<O.Kind>, base: nat)
    requires Agree(cm, up, kinds, base) && up.phase == O.Ready && cm.stage == P.SWAP && cm.j == 0
    ensures Agree(cm, up.(phase := O.Swapping, i := 0), kinds, base)
  {
  }

  lemma PhaseAgree(cm: P.Commit, up: O.Update, vp: O.Update, kinds: seq<O.Kind>, base: nat)
    requires Agree(cm, up, kinds, base) && vp.slots == up.slots && vp.swapped == up.swapped
    requires up.phase == O.Preparing ==> vp.phase == O.Preparing || vp.phase == O.Ready || vp.phase == O.Unwinding
    requires up.phase == O.Unwinding ==> vp.phase == O.Unwinding || vp.phase == O.Clearing
    requires up.phase == O.Cleaning ==> (vp.phase == O.Cleaning || vp.phase == O.Clearing) && (cm.stage == P.CLEANUP || cm.stage <= P.SETUP)
    requires up.phase == O.Preparing || up.phase == O.Unwinding || up.phase == O.Cleaning
    ensures Agree(cm, vp, kinds, base)
  {
    assert Exact(cm, up, kinds, base) ==> Exact(cm, vp, kinds, base);
  }

  lemma ClearAgree(cm: P.Commit, up: O.Update, vp: O.Update, kinds: seq<O.Kind>, base: nat)
    requires Agree(cm, up, kinds, base) && vp.swapped == up.swapped
    requires up.phase == O.Clearing && O.Over(vp) && (cm.stage == P.DONE || cm.stage == P.ABORTED)
    ensures Agree(cm, vp, kinds, base)
  {
  }

  lemma NextAgree(j: Joint, u: nat, ok: bool)
    requires Inv(j) && u < |j.sys.commits| && MayNext(j, u) && O.Step(j.world, O.Next(u, ok)).Some?
    requires Agree(j.sys.commits[u], j.world.updates[u], j.world.kinds, j.base)
    requires |O.Step(j.world, O.Next(u, ok)).value.updates| == |j.world.updates|
    ensures Agree(j.sys.commits[u], O.Step(j.world, O.Next(u, ok)).value.updates[u], j.world.kinds, j.base)
  {
    if j.world.updates[u].phase == O.Swapping { SwapAgree(j, u); } else { LoopAgree(j, u, ok); }
  }

  /** Assembling, handing over and giving up. */
  lemma TurnAgree(j: Joint, a: O.Action)
    requires Inv(j) && Step(j, Own(a)).Some? && !a.Next? && !a.Begin? && a.u < |j.sys.commits|
    requires Agree(j.sys.commits[a.u], j.world.updates[a.u], j.world.kinds, j.base)
    requires |O.Step(j.world, a).value.updates| == |j.world.updates|
    ensures Agree(j.sys.commits[a.u], O.Step(j.world, a).value.updates[a.u], j.world.kinds, j.base)
  {
    var up, vp := j.world.updates[a.u], O.Step(j.world, a).value.updates[a.u];
    assert O.PhaseOk(up);
    match a
    case Get(_, _, _) => assert vp.phase == up.phase == O.Assembling && vp.swapped == up.swapped;
    case Link(_, _, _) => assert vp == up;
    case Unlock(_) => assert vp == up;
    case Commit(_) => assert vp == up.(phase := O.Preparing, i := 0);
    case Abort(_) => assert vp == up.(phase := O.Clearing, i := 0);
    case FenceFails(_) => assert vp == up.(phase := O.Cleaning, i := 0);
    case _ =>
  }

  lemma OwnAgrees(j: Joint, a: O.Action)
    requires Inv(j) && Agreed(j) && Step(j, Own(a)).Some? && Fits(Step(j, Own(a)).value)
    ensures Agreed(Step(j, Own(a)).value)
  {
    var z := Step(j, Own(a)).value;
    OwnLocal(j.world, a);
    assert Agree(j.sys.commits[a.u], j.world.updates[a.u], j.world.kinds, j.base);
    if a.Next? { NextAgree(j, a.u, a.ok); } else { TurnAgree(j, a); }
    forall t: nat | t < |z.sys.commits| && t != a.u ensures Agree(z.sys.commits[t], z.world.updates[t], z.world.kinds, z.base) {
      assert Agree(j.sys.commits[t], j.world.updates[t], j.world.kinds, j.base);
    }
  }

  lemma ExchangeAgree(cm: P.Commit, up: O.Update, dm: P.Commit, vp: O.Update, kinds: seq<O.Kind>, base: nat)
    requires Agree(cm, up, kinds, base) && cm.stage == P.SWAP && up.phase == O.Swapping && !up.swapped
    requires cm.j < |cm.crtcs| && up.i == base + cm.crtcs[cm.j]
    requires dm == cm.(swapped := dm.swapped, j := cm.j + 1) && vp == up.(i := up.i + 1, slots := vp.slots) && vp.slots.Keys == up.slots.Keys
    ensures Agree(dm, vp, kinds, base)
  {
    forall i: nat | i < |cm.crtcs| ensures if i < dm.j then base + cm.crtcs[i] < vp.i else base + cm.crtcs[i] >= vp.i {
      if i > cm.j { assert cm.crtcs[cm.j] < cm.crtcs[i]; }
    }
    assert forall o: nat :: o in vp.slots <==> o in up.slots;
  }

  lemma ExchangedAgree(j: Joint, z: Joint, u: nat, d: nat)
    requires Exchanges(j, z, u, d) && Agreed(j) && z.world.kinds == j.world.kinds && !j.world.updates[u].swapped
    requires var cm := j.sys.commits[u]; cm.stage == P.SWAP && cm.j < |cm.crtcs| && cm.crtcs[cm.j] == d
    ensures Agreed(z)
  {
    forall t: nat | t < |z.sys.commits| ensures Agree(z.sys.commits[t], z.world.updates[t], z.world.kinds, z.base) {
      assert Agree(j.sys.commits[t], j.world.updates[t], j.world.kinds, j.base);
      if t == u { ExchangeAgree(j.sys.commits[t], j.world.updates[t], z.sys.commits[t], z.world.updates[t], j.world.kinds, j.base); }
    }
  }

  lemma ExchangeAgrees(j: Joint, u: nat)
    requires Inv(j) && Agreed(j) && Step(j, Exchange(u)).Some? && Fits(Step(j, Exchange(u)).value)
    ensures Agreed(Step(j, Exchange(u)).value)
  {
    var z, cm, up := Step(j, Exchange(u)).value, j.sys.commits[u], j.world.updates[u];
    ExchangeShape(j, u);
    assert O.PhaseOk(up);
    ExchangedAgree(j, z, u, cm.crtcs[cm.j]);
  }

  lemma {:induction false} RunAgreed(kinds: seq<O.Kind>, base: nat, n: nat, actions: seq<Action>)
    requires Layout(kinds, base, n) && Run(kinds, base, n, actions).Some?
    ensures Agreed(Run(kinds, base, n, actions).value)
  {
    if actions != [] {
      var a := actions[|actions| - 1];
      RunAgreed(kinds, base, n, actions[..|actions| - 1]);
      var j := Run(kinds, base, n, actions[..|actions| - 1]).value;
      match a
      case Begin(_, _, _) => BeginAgrees(j, a);
      case Exchange(t) => ExchangeAgrees(j, t);
      case Own(b) => OwnAgrees(j, b);
      case Sync(b) => SyncAgrees(j, b);
    }
  }

  // ----- progress -----

  /** The commit has ended and everything of its update has been destroyed. */
  predicate Finished(j: Joint, t: nat)
    requires Fits(j) && t < |j.sys.commits|
  {
    T.Ended(j.sys.commits[t]) && j.world.updates[t].phase == O.Cleared
  }

  /** Userspace has not handed the update over yet. */
  predicate Assembling(j: Joint, t: nat)
    requires Fits(j) && t < |j.sys.commits|
  {
    j.sys.commits[t].stage == P.SETUP && j.world.updates[t].phase == O.Assembling
  }

  /** A step of commits, updates or hardware; a commit is given up only if its update has failed, and the other way round. */
  predicate Onward(j: Joint, a: Action)
    requires Fits(j)
  {
    match a
    case Begin(_, _, _) => false
    case Exchange(_) => true
    case Own(Next(_, _)) => true
    case Own(Abort(u)) => u < |j.sys.commits| && j.sys.commits[u].stage == P.ABORTED
    case Own(FenceFails(u)) => u < |j.sys.commits| && j.sys.commits[u].stage == P.ABORTED
    case Own(_) => false
    case Sync(Abort(t)) => t < |j.sys.commits| && j.world.updates[t].phase == O.Clearing
    case Sync(b) => T.Internal(b)
  }

  ghost predicate Enabled(j: Joint, a: Action)
    requires Fits(j)
  {
    Onward(j, a) && Step(j, a).Some?
  }

  /** The loops over an update's slots can take their next step unless something holds them up. */
  lemma LoopEnabled(j: Joint, t: nat)
    requires Fits(j) && t < |j.sys.commits| && MayNext(j, t)
    requires j.world.updates[t].phase != O.Assembling && j.world.updates[t].phase != O.Cleared
    ensures Enabled(j, Own(O.Next(t, true)))
  {
  }

  /** An update whose commit has ended can be wound up. */
  lemma EndedGoesOn(j: Joint, t: nat) returns (a: Action)
    requires Inv(j) && Agreed(j) && t < |j.sys.commits| && T.Ended(j.sys.commits[t]) && !Finished(j, t)
    ensures Enabled(j, a)
  {
    var cm, up := j.sys.commits[t], j.world.updates[t];
    assert Agree(cm, up, j.world.kinds, j.base) && O.PhaseOk(up);
    if up.phase == O.Assembling { a := Own(O.Abort(t)); }
    else if up.phase == O.Ready { a := Own(O.FenceFails(t)); }
    else {
      LoopEnabled(j, t);
      a := Own(O.Next(t, true));
    }
  }

  /** Where the protocol could go on, the update lets it, or can itself go on. */
  lemma AdvanceGoesOn(j: Joint, t: nat) returns (a: Action)
    requires Inv(j) && Agreed(j) && t < |j.sys.commits| && P.StepCommit(j.sys, t).Some? && !Assembling(j, t)
    ensures Enabled(j, a)
  {
    var cm, up := j.sys.commits[t], j.world.updates[t];
    assert Agree(cm, up, j.world.kinds, j.base) && O.PhaseOk(up) && P.Tracked(cm, t);
    if MaySync(j, P.Advance(t)) { a := Sync(P.Advance(t)); }
    else if cm.stage == P.SWAP { a := SwapGoesOn(j, t); }
    else if cm.stage == P.SETUP && up.phase == O.Clearing { a := Sync(P.Abort(t)); }
    else {
      LoopEnabled(j, t);
      a := Own(O.Next(t, true));
    }
  }

  lemma SwapGoesOn(j: Joint, t: nat) returns (a: Action)
    requires Inv(j) && t < |j.sys.commits| && j.sys.commits[t].stage == P.SWAP && !MaySync(j, P.Advance(t))
    requires Agree(j.sys.commits[t], j.world.updates[t], j.world.kinds, j.base) && O.PhaseOk(j.world.updates[t])
    ensures Enabled(j, a)
  {
    if j.world.updates[t].phase == O.Swapping && AtCrtc(j, t) {
      SwapMeets(j, t);
      a := Exchange(t);
    } else {
      if j.world.updates[t].phase == O.Swapping && j.world.updates[t].i >= |j.world.kinds| { SwapOver(j, t); }
      LoopEnabled(j, t);
      a := Own(O.Next(t, true));
    }
  }

  /** The CRTC an update stands at is the one its commit has come to. */
  lemma SwapMeets(j: Joint, t: nat)
    requires Inv(j) && t < |j.sys.commits| && j.sys.commits[t].stage == P.SWAP && j.world.updates[t].phase == O.Swapping && AtCrtc(j, t)
    requires Agree(j.sys.commits[t], j.world.updates[t], j.world.kinds, j.base)
    ensures MayExchange(j, t)
  {
    assert O.PhaseOk(j.world.updates[t]);
    MeetsAt(j.sys.commits[t], j.world.updates[t], j.world.kinds, j.base);
  }

  lemma LinedAhead(cm: P.Commit, up: O.Update, base: nat)
    requires Lined(cm, up, base) && cm.j <= |cm.crtcs|
    ensures cm.j < |cm.crtcs| ==> base + cm.crtcs[cm.j] >= up.i
  {
  }

  lemma LinedBehind(cm: P.Commit, up: O.Update, base: nat, i: nat)
    requires Lined(cm, up, base) && i < |cm.crtcs| && base + cm.crtcs[i] >= up.i
    ensures i >= cm.j
  {
  }

  lemma Ascends(l: seq<nat>, a: nat, b: nat)
    requires Ascending(l) && a <= b < |l| && l[a] >= l[b]
    ensures a == b
  {
  }

  lemma MeetsAt(cm: P.Commit, up: O.Update, kinds: seq<O.Kind>, base: nat)
    requires Ascending(cm.crtcs) && Lined(cm, up, base) && Exact(cm, up, kinds, base) && cm.j <= |cm.crtcs|
    requires up.i in up.slots && up.i < |kinds| && kinds[up.i] == O.Crtc
    ensures cm.j < |cm.crtcs| && up.i == base + cm.crtcs[cm.j]
  {
    var i: nat :| i < |cm.crtcs| && cm.crtcs[i] == up.i - base;
    LinedBehind(cm, up, base, i);
    LinedAhead(cm, up, base);
    Ascends(cm.crtcs, cm.j, i);
  }

  lemma SwapOver(j: Joint, t: nat)
    requires Inv(j) && t < |j.sys.commits| && j.sys.commits[t].stage == P.SWAP && j.world.updates[t].phase == O.Swapping
    requires Agree(j.sys.commits[t], j.world.updates[t], j.world.kinds, j.base) && j.world.updates[t].i >= |j.world.kinds|
    ensures j.sys.commits[t].j == |j.sys.commits[t].crtcs|
  {
    var cm := j.sys.commits[t];
    assert O.PhaseOk(j.world.updates[t]) && P.Fits(cm, |j.sys.lists|) && P.Tracked(cm, t);
    LinedAhead(cm, j.world.updates[t], j.base);
  }

  /** Following the waits of a commit leads to something that can go on. */
  lemma {:induction false} GoesOn(j: Joint, t: nat) returns (a: Action)
    requires Inv(j) && Agreed(j) && t < |j.sys.commits| && !Finished(j, t) && !Assembling(j, t)
    ensures Enabled(j, a)
    decreases T.Order(j.sys, t)
  {
    var s, cm := j.sys, j.sys.commits[t];
    assert P.Tracked(cm, t);
    if T.Ended(cm) {
      a := EndedGoesOn(j, t);
    } else if P.StepCommit(s, t).Some? {
      a := AdvanceGoesOn(j, t);
    } else if cm.stage == P.CLEANUP {
      assert P.TrackedAt(cm, cm.j);
      a := Sync(P.Flip(t, cm.crtcs[cm.j]));
    } else {
      var w := cm.wait.value;
      T.WaitsGoBack(s, t, w);
      T.BlockerUnfinished(s, t, w);
      assert P.Waiting(s, t);
      SwappedStage(s, w, cm.crtcs[cm.j]);
      a := GoesOn(j, w);
    }
  }

  /** In every run, whatever has been handed over and is not finished, something can go on. */
  lemma NeverStuck(kinds: seq<O.Kind>, base: nat, n: nat, actions: seq<Action>, t: nat)
    requires Layout(kinds, base, n) && Run(kinds, base, n, actions).Some? && t < |Run(kinds, base, n, actions).value.sys.commits|
    requires !Finished(Run(kinds, base, n, actions).value, t) && !Assembling(Run(kinds, base, n, actions).value, t)
    ensures exists a: Action :: Enabled(Run(kinds, base, n, actions).value, a)
  {
    RunAgreed(kinds, base, n, actions);
    var a := GoesOn(Run(kinds, base, n, actions).value, t);
  }
}
