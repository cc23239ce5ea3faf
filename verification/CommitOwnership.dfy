/**
 The commit protocol and the ownership of state objects run side by side: update t is commit t, it installs its
 CRTC states as it enters the CRTCs' lists, cleans up after hw_done and is cleared when it is done. What a worker
 reads through a CRTC while it programs the hardware is then neither replaced nor freed under it.
 */
module CommitOwnership {
  import opened Outcomes
  import P = CommitProtocol
  import I = CommitInvariant
  import O = Ownership

  /** CRTC c is object base + c of the device. */
  datatype Joint = Joint(sys: P.Sys, world: O.World, base: nat)

  datatype Action =
    | Begin(crtcs: seq<nat>, quiet: set<nat>, nonblock: bool)
    | Exchange(t: nat)          // one CRTC's state is swapped and its commit enters the list
    | Own(a: O.Action)          // assembly, preparation, cleanup, clearing; swapping other objects
    | Sync(b: P.Action)         // everything else of the protocol

  predicate Fits(j: Joint) {
    P.Sized(j.sys) && O.Shaped(j.world) && |j.world.updates| == |j.sys.commits|
  }

  predicate Ascending(l: seq<nat>) {
    forall a: nat, b: nat :: a < b < |l| ==> l[a] < l[b]
  }

  /** Update t stands at the state of a CRTC. */
  predicate AtCrtc(j: Joint, t: nat)
    requires Fits(j) && t < |j.sys.commits|
  {
    var up := j.world.updates[t];
    up.i < |j.world.kinds| && j.world.kinds[up.i] == O.Crtc && up.i in up.slots
  }

  /** The update has slots for exactly the CRTCs of its commit. */
  predicate Exact(cm: P.Commit, up: O.Update, kinds: seq<O.Kind>, base: nat) {
    && (forall i: nat :: i < |cm.crtcs| ==> base + cm.crtcs[i] in up.slots)
    && (forall o: nat :: o in up.slots && o < |kinds| && kinds[o] == O.Crtc ==> o >= base && o - base in cm.crtcs)
  }

  /** When a loop over the slots of update u may take its next step, given how far its commit has got. */
  predicate MayNext(j: Joint, u: nat)
    requires Fits(j) && u < |j.sys.commits|
  {
    var cm, up := j.sys.commits[u], j.world.updates[u];
    match up.phase
    case Ready => cm.stage == P.SWAP && cm.j == 0
    case Swapping => cm.stage == P.SWAP && !AtCrtc(j, u) && (up.i >= |j.world.kinds| ==> cm.j == |cm.crtcs|)
    case Cleaning => if up.swapped then cm.stage == P.CLEANUP else cm.stage <= P.SETUP
    case Clearing => if up.swapped then cm.stage == P.DONE else cm.stage == P.ABORTED
    case _ => true
  }

  predicate MayOwn(j: Joint, a: O.Action)
    requires Fits(j)
  {
    match a
    case Begin => false
    case Get(u, o, _) => u < |j.sys.commits| && j.sys.commits[u].stage == P.SETUP
    case Commit(u) => u < |j.sys.commits| && j.sys.commits[u].stage == P.SETUP && Exact(j.sys.commits[u], j.world.updates[u], j.world.kinds, j.base)
    case Abort(u) => u < |j.sys.commits| && j.sys.commits[u].stage <= P.SETUP
    case FenceFails(u) => u < |j.sys.commits| && j.sys.commits[u].stage <= P.SETUP
    case Next(u, _) => u < |j.sys.commits| && MayNext(j, u)
    case _ => true
  }

  predicate MaySync(j: Joint, a: P.Action)
    requires Fits(j)
  {
    match a
    case Begin(_, _, _) => false
    case Advance(t) =>
      t < |j.sys.commits| &&
      var cm, up := j.sys.commits[t], j.world.updates[t];
      && (cm.stage == P.SETUP && cm.j == |cm.crtcs| ==> up.phase == O.Ready)
      && (cm.stage == P.SWAP ==> cm.j == |cm.crtcs| && up.swapped)
      && (cm.stage == P.CLEANUP ==> up.phase == O.Clearing)
    case _ => true
  }

  predicate MayExchange(j: Joint, t: nat)
    requires Fits(j)
  {
    && t < |j.sys.commits|
    && var cm, up := j.sys.commits[t], j.world.updates[t];
       && cm.stage == P.SWAP && cm.j < |cm.crtcs| && up.phase == O.Swapping
       && AtCrtc(j, t) && up.i == j.base + cm.crtcs[cm.j]
  }

  function Step(j: Joint, a: Action): Option<Joint>
    requires Fits(j)
  {
    match a
    case Begin(crtcs, quiet, nonblock) =>
      var s, w := P.Step(j.sys, P.Begin(crtcs, quiet, nonblock)), O.Step(j.world, O.Begin);
      if Ascending(crtcs) && s.Some? && w.Some? then Some(Joint(s.value, w.value, j.base)) else None
    case Exchange(t) =>
      if MayExchange(j, t) then Some(Joint(P.StepSwap(j.sys, t).value, O.StepSwap(j.world, t), j.base)) else None
    case Own(b) =>
      var w := O.Step(j.world, b);
      if MayOwn(j, b) && w.Some? then Some(j.(world := w.value)) else None
    case Sync(b) =>
      if MaySync(j, b) && P.Step(j.sys, b).Some? then Some(j.(sys := P.Step(j.sys, b).value)) else None
  }

  // ----- the invariant -----

  /** Once commit t has entered the list of c, its slot keeps both states until it is done, and its own is installed until hw_done. */
  ghost predicate Coupled(j: Joint, t: nat, c: nat)
    requires Fits(j)
  {
    P.Swapped(j.sys, t, c) ==>
      var up, o := j.world.updates[t], j.base + c;
      && (j.sys.commits[t].stage < P.DONE ==> o in up.slots && O.SwappedAt(up, o))
      && (c !in j.sys.commits[t].hw ==> o < |j.world.current| && o in up.slots && j.world.current[o] == up.slots[o].after)
  }

  /** A device with n CRTCs among its objects, from `base` on. */
  predicate Layout(kinds: seq<O.Kind>, base: nat, n: nat) {
    base + n <= |kinds| && forall o: nat :: base <= o < base + n ==> kinds[o] == O.Crtc
  }

  /** The CRTCs of the protocol are the CRTC objects from `base` on. */
  ghost predicate Numbered(j: Joint) {
    Layout(j.world.kinds, j.base, |j.sys.lists|)
  }

  ghost predicate Inv(j: Joint) {
    P.Inv(j.sys) && O.Core(j.world) && Fits(j) && Numbered(j) && forall t: nat, c: nat :: Coupled(j, t, c)
  }

  /** What a commit that has swapped somewhere is past, and what it cannot have signalled yet. */
  lemma SwappedStage(s: P.Sys, t: nat, c: nat)
    requires P.Inv(s) && P.Swapped(s, t, c)
    ensures s.commits[t].stage >= P.SWAP && c < |s.lists| && c in s.commits[t].crtcs
    ensures s.commits[t].stage == P.SWAP ==> s.commits[t].j > 0
    ensures c !in s.commits[t].hw ==> s.commits[t].stage < P.DONE && s.current[c] == Some(t)
  {
    var cm := s.commits[t];
    assert P.Tracked(cm, t) && P.Fits(cm, |s.lists|);
    var i: nat :| i < |cm.crtcs| && cm.crtcs[i] == c;
    assert P.TrackedAt(cm, i) && P.ListOk(s, c);
  }

  // ----- steps of the protocol alone -----

  /** Only a swap enters a list, and signals and stages only go forward. */
  lemma SyncBack(s: P.Sys, a: P.Action, t: nat, c: nat)
    requires P.Inv(s) && P.Step(s, a).Some? && P.Swapped(P.Step(s, a).value, t, c) && !a.Begin?
    requires a.Advance? ==> a.t < |s.commits| && (s.commits[a.t].stage == P.SWAP ==> s.commits[a.t].j == |s.commits[a.t].crtcs|)
    ensures P.Swapped(s, t, c)
    ensures P.Step(s, a).value.commits[t].stage < P.DONE ==> s.commits[t].stage < P.DONE
    ensures s.commits[t].hw <= P.Step(s, a).value.commits[t].hw
  {
    assert P.Tracked(s.commits[t], t);
  }

  lemma SyncInv(j: Joint, a: P.Action)
    requires Inv(j) && Step(j, Sync(a)).Some?
    ensures Inv(Step(j, Sync(a)).value)
  {
    var z := Step(j, Sync(a)).value;
    I.StepInv(j.sys, a);
    SameSize(j.sys, a);
    forall t: nat, c: nat ensures Coupled(z, t, c) {
      if P.Swapped(z.sys, t, c) { SyncBack(j.sys, a, t, c); }
      SyncCoupled(j, z, t, c);
    }
  }

  lemma SyncCoupled(j: Joint, z: Joint, t: nat, c: nat)
    requires Fits(j) && Fits(z) && z.world == j.world && z.base == j.base && Coupled(j, t, c)
    requires P.Swapped(z.sys, t, c) ==> P.Swapped(j.sys, t, c) && j.sys.commits[t].hw <= z.sys.commits[t].hw
    requires P.Swapped(z.sys, t, c) && z.sys.commits[t].stage < P.DONE ==> j.sys.commits[t].stage < P.DONE
    ensures Coupled(z, t, c)
  {
  }

  lemma SameSize(s: P.Sys, a: P.Action)
    requires P.Sized(s) && P.Step(s, a).Some? && !a.Begin?
    ensures |P.Step(s, a).value.commits| == |s.commits| && |P.Step(s, a).value.lists| == |s.lists|
  {
  }

  lemma BeginInv(j: Joint, a: Action)
    requires Inv(j) && a.Begin? && Step(j, a).Some?
    ensures Inv(Step(j, a).value)
  {
    var z := Step(j, a).value;
    I.StepInv(j.sys, P.Begin(a.crtcs, a.quiet, a.nonblock));
    O.StepCore(j.world, O.Begin);
    forall t: nat, c: nat ensures Coupled(z, t, c) {
      assert Coupled(j, t, c);
      if P.Swapped(z.sys, t, c) { assert P.Swapped(j.sys, t, c); }
    }
  }

  // ----- steps of an update alone -----

  /** A step that concerns update u alone, but for installing its state of the object it stands at. */
  ghost predicate Local(w: O.World, z: O.World, u: nat) {
    && O.Shaped(w) && O.Shaped(z) && z.kinds == w.kinds && u < |w.updates| && |z.updates| == |w.updates|
    && z.updates == w.updates[u := z.updates[u]]
    && var up := w.updates[u];
       (z.current == w.current
        || (up.phase == O.Swapping && up.i < |w.current| && up.i in up.slots && z.current == w.current[up.i := up.slots[up.i].after]))
  }

  lemma PrepareLocal(w: O.World, u: nat, ok: bool)
    requires O.Shaped(w) && u < |w.updates|
    ensures Local(w, O.StepPrepare(w, u, ok), u) && O.StepPrepare(w, u, ok).updates[u].slots == w.updates[u].slots
  {
  }

  lemma UnwindLocal(w: O.World, u: nat)
    requires O.Shaped(w) && u < |w.updates|
    ensures Local(w, O.StepUnwind(w, u), u) && O.StepUnwind(w, u).updates[u].slots == w.updates[u].slots
  {
  }

  lemma CleanLocal(w: O.World, u: nat)
    requires O.Shaped(w) && u < |w.updates|
    ensures Local(w, O.StepClean(w, u), u) && O.StepClean(w, u).updates[u].slots == w.updates[u].slots
  {
  }

  lemma SwapLocal(w: O.World, u: nat)
    requires O.Shaped(w) && u < |w.updates| && w.updates[u].phase == O.Swapping
    ensures Local(w, O.StepSwap(w, u), u)
  {
  }

  lemma ClearLocal(w: O.World, u: nat)
    requires O.Shaped(w) && u < |w.updates|
    ensures Local(w, O.StepClear(w, u), u)
  {
  }

  lemma NextLocal(w: O.World, u: nat, ok: bool)
    requires O.Shaped(w) && O.Step(w, O.Next(u, ok)).Some?
    ensures Local(w, O.Step(w, O.Next(u, ok)).value, u)
  {
    match w.updates[u].phase
    case Preparing => PrepareLocal(w, u, ok);
    case Unwinding => UnwindLocal(w, u);
    case Swapping => SwapLocal(w, u);
    case Cleaning => CleanLocal(w, u);
    case Clearing => ClearLocal(w, u);
    case _ =>
  }

  lemma GetLocal(w: O.World, u: nat, o: nat, addr: nat)
    requires O.Shaped(w) && O.StepGet(w, u, o, addr).Some?
    ensures Local(w, O.StepGet(w, u, o, addr).value, u)
  {
  }

  lemma LinkLocal(w: O.World, u: nat, o: nat, on: bool)
    requires O.Shaped(w) && O.StepLink(w, u, o, on).Some?
    ensures Local(w, O.StepLink(w, u, o, on).value, u)
  {
  }

  lemma OwnLocal(w: O.World, a: O.Action)
    requires O.Shaped(w) && O.Step(w, a).Some? && !a.Begin?
    ensures Local(w, O.Step(w, a).value, a.u)
  {
    match a
    case Get(u, o, addr) => GetLocal(w, u, o, addr);
    case Link(u, o, on) => LinkLocal(w, u, o, on);
    case Next(u, ok) => NextLocal(w, u, ok);
    case _ =>
  }

  /** It installs nothing on a CRTC. */
  lemma OwnKeepsCurrent(j: Joint, a: O.Action, o: nat)
    requires Fits(j) && MayOwn(j, a) && O.Step(j.world, a).Some? && o < |j.world.kinds| && j.world.kinds[o] == O.Crtc
    ensures O.Shaped(O.Step(j.world, a).value) && O.Step(j.world, a).value.current[o] == j.world.current[o]
  {
    OwnLocal(j.world, a);
    if a.Next? { NextKeepsCurrent(j, a.u, a.ok, o); }
  }

  lemma NextKeepsCurrent(j: Joint, u: nat, ok: bool, o: nat)
    requires Fits(j) && u < |j.sys.commits| && MayNext(j, u) && o < |j.world.kinds| && j.world.kinds[o] == O.Crtc
    requires O.Step(j.world, O.Next(u, ok)).Some? && Local(j.world, O.Step(j.world, O.Next(u, ok)).value, u)
    ensures O.Step(j.world, O.Next(u, ok)).value.current[o] == j.world.current[o]
  {
  }

  /** And it keeps the slots of the CRTCs it has swapped until its commit is done. */
  lemma OwnKeepsSlot(j: Joint, a: O.Action, u: nat, o: nat)
    requires Fits(j) && O.Core(j.world) && MayOwn(j, a) && O.Step(j.world, a).Some? && !a.Begin? && a.u == u && u < |j.sys.commits|
    requires o in j.world.updates[u].slots && O.SwappedAt(j.world.updates[u], o)
    requires P.SWAP <= j.sys.commits[u].stage < P.DONE && (j.sys.commits[u].stage == P.SWAP ==> j.sys.commits[u].j > 0)
    ensures var z := O.Step(j.world, a).value;
      u < |z.updates| && o in z.updates[u].slots && O.SwappedAt(z.updates[u], o)
      && z.updates[u].slots[o].after == j.world.updates[u].slots[o].after
  {
    assert O.PhaseOk(j.world.updates[u]);
  }

  lemma OwnInv(j: Joint, a: O.Action)
    requires Inv(j) && Step(j, Own(a)).Some?
    ensures Inv(Step(j, Own(a)).value)
  {
    var z := Step(j, Own(a)).value;
    O.StepCore(j.world, a);
    OwnLocal(j.world, a);
    forall t: nat, c: nat ensures Coupled(z, t, c) { OwnCoupled(j, a, t, c); }
  }

  lemma OwnCoupled(j: Joint, a: O.Action, t: nat, c: nat)
    requires Inv(j) && Step(j, Own(a)).Some? && Fits(Step(j, Own(a)).value)
    ensures Coupled(Step(j, Own(a)).value, t, c)
  {
    assert Coupled(j, t, c);
    if P.Swapped(j.sys, t, c) {
      SwappedStage(j.sys, t, c);
      OwnKeepsCurrent(j, a, j.base + c);
      OwnLocal(j.world, a);
      if a.u == t && j.sys.commits[t].stage < P.DONE {
        OwnKeepsSlot(j, a, t, j.base + c);
      }
    }
  }

  // ----- swapping a CRTC -----

  /** The device object whose state is exchanged. */
  ghost predicate Exchanges(j: Joint, z: Joint, u: nat, d: nat) {
    && Fits(j) && Fits(z) && u < |j.sys.commits| && |z.sys.commits| == |j.sys.commits| && z.base == j.base
    && var o, sl := j.base + d, j.world.updates[u].slots;
       && o in sl && o < |j.world.current|
       && z.sys.commits == j.sys.commits[u := j.sys.commits[u].(swapped := j.sys.commits[u].swapped + {d}, j := j.sys.commits[u].j + 1)]
       && z.world.updates == j.world.updates[u := j.world.updates[u].(i := o + 1, slots := sl[o := sl[o].(state := sl[o].before)])]
       && z.world.current == j.world.current[o := sl[o].after] && j.world.updates[u].phase == O.Swapping && j.world.updates[u].i == o
  }

  lemma ExchangeShape(j: Joint, u: nat)
    requires Inv(j) && MayExchange(j, u)
    requires P.Sized(P.StepSwap(j.sys, u).value) && O.Shaped(O.StepSwap(j.world, u))
    ensures Exchanges(j, Step(j, Exchange(u)).value, u, j.sys.commits[u].crtcs[j.sys.commits[u].j])
  {
    ExchangeWorld(j.world, u);
  }

  lemma ExchangeWorld(w: O.World, u: nat)
    requires O.Core(w) && u < |w.updates| && w.updates[u].phase == O.Swapping && w.updates[u].i < |w.kinds| && w.updates[u].i in w.updates[u].slots
    ensures var z, up := O.StepSwap(w, u), w.updates[u];
      && z.updates == w.updates[u := up.(i := up.i + 1, slots := up.slots[up.i := up.slots[up.i].(state := up.slots[up.i].before)])]
      && z.current == w.current[up.i := up.slots[up.i].after]
  {
    assert O.SlotOk(w, u, w.updates[u].i) && O.PhaseOk(w.updates[u]);
  }

  /** The commit whose state is replaced has signalled hw_done. */
  lemma ExchangeCoupled(j: Joint, z: Joint, u: nat, d: nat, t: nat, c: nat)
    requires Exchanges(j, z, u, d) && Coupled(j, t, c) && P.Inv(z.sys) && d < |z.sys.current| && z.sys.current[d] == Some(u)
    ensures Coupled(z, t, c)
  {
    if P.Swapped(z.sys, t, c) {
      SwappedStage(z.sys, t, c);
      if t != u || c != d { assert P.Swapped(j.sys, t, c); }
    }
  }

  lemma ExchangeInv(j: Joint, u: nat)
    requires Inv(j) && Step(j, Exchange(u)).Some?
    ensures Inv(Step(j, Exchange(u)).value)
  {
    var z := Step(j, Exchange(u)).value;
    I.StepInv(j.sys, P.Advance(u));
    O.StepCore(j.world, O.Next(u, true));
    ExchangeShape(j, u);
    forall t: nat, c: nat ensures Coupled(z, t, c) { ExchangeCoupled(j, z, u, j.sys.commits[u].crtcs[j.sys.commits[u].j], t, c); }
  }

  // ----- every run -----

  lemma StepInv(j: Joint, a: Action)
    requires Inv(j) && Step(j, a).Some?
    ensures Inv(Step(j, a).value)
  {
    match a
    case Begin(_, _, _) => BeginInv(j, a);
    case Exchange(t) => ExchangeInv(j, t);
    case Own(b) => OwnInv(j, b);
    case Sync(b) => SyncInv(j, b);
  }

  function Run(kinds: seq<O.Kind>, base: nat, n: nat, actions: seq<Action>): (r: Option<Joint>)
    requires Layout(kinds, base, n)
    ensures r.Some? ==> Inv(r.value)
  {
    if actions == [] then
      I.InitInv(n);
      O.ResetCore(kinds);
      Some(Joint(P.Init(n), O.Reset(kinds), base))
    else
      var r := Run(kinds, base, n, actions[..|actions| - 1]);
      if r == None then None
      else
        var a := actions[|actions| - 1];
        if Step(r.value, a).Some? then StepInv(r.value, a); Step(r.value, a) else None
  }

  /**
   In every interleaving of commits, workers, cleanup and clearing: from its swap on a CRTC until its own hw_done
   there, the state a commit reads through the CRTC is the one it installed, and that state is alive, installed and
   nobody's to destroy.
   */
  lemma OwnStateAlive(kinds: seq<O.Kind>, base: nat, n: nat, actions: seq<Action>, t: nat, c: nat)
    requires Layout(kinds, base, n) && Run(kinds, base, n, actions).Some?
    requires var j := Run(kinds, base, n, actions).value; P.Swapped(j.sys, t, c) && c !in j.sys.commits[t].hw
    ensures AliveOn(Run(kinds, base, n, actions).value, t, c)
  {
    AliveAt(Run(kinds, base, n, actions).value, t, c);
  }

  ghost predicate AliveOn(j: Joint, t: nat, c: nat) {
    && var w, o := j.world, j.base + c;
       && t < |w.updates| && o in w.updates[t].slots && o < |w.current|
       && w.current[o] == w.updates[t].slots[o].after && O.IsInstalled(w, w.current[o])
       && !w.fault && w.heap[w.current[o]].cleaned == 0
       && forall u: nat :: !O.Owns(w, u, w.current[o])
  }

  lemma AliveAt(j: Joint, t: nat, c: nat)
    requires Inv(j) && P.Swapped(j.sys, t, c) && c !in j.sys.commits[t].hw
    ensures AliveOn(j, t, c)
  {
    var w, o := j.world, j.base + c;
    assert Coupled(j, t, c);
    SwappedStage(j.sys, t, c);
    assert O.Installed(w, o);
    forall u: nat ensures !O.Owns(w, u, w.current[o]) {
      assert u < |w.updates| && o in w.updates[u].slots ==> O.SlotOk(w, u, o);
    }
  }

  /** The state it replaced stays alive, for it alone to destroy, until the commit is done. */
  lemma OldStateAlive(kinds: seq<O.Kind>, base: nat, n: nat, actions: seq<Action>, t: nat, c: nat)
    requires Layout(kinds, base, n) && Run(kinds, base, n, actions).Some?
    requires var j := Run(kinds, base, n, actions).value; P.Swapped(j.sys, t, c) && j.sys.commits[t].stage < P.DONE
    ensures OldAlive(Run(kinds, base, n, actions).value, t, c)
  {
    OldAliveAt(Run(kinds, base, n, actions).value, t, c);
  }

  ghost predicate OldAlive(j: Joint, t: nat, c: nat) {
    && t < |j.world.updates| && j.base + c in j.world.updates[t].slots
    && O.Owns(j.world, t, j.world.updates[t].slots[j.base + c].before)
  }

  lemma OldAliveAt(j: Joint, t: nat, c: nat)
    requires Inv(j) && P.Swapped(j.sys, t, c) && j.sys.commits[t].stage < P.DONE
    ensures OldAlive(j, t, c)
  {
    assert Coupled(j, t, c);
    assert O.SlotOk(j.world, t, j.base + c);
  }

  // ----- a run that gets there -----

  lemma RunAppend(kinds: seq<O.Kind>, base: nat, n: nat, actions: seq<Action>, a: Action)
    requires Layout(kinds, base, n) && Run(kinds, base, n, actions).Some?
    ensures Run(kinds, base, n, actions + [a]) == Step(Run(kinds, base, n, actions).value, a)
  {
    assert (actions + [a])[..|actions|] == actions;
  }

  /** The only CRTC's commit at `stage` and position j, armed or not, before its swap. */
  function Alone(stage: nat, j: nat, armed: bool): P.Sys {
    P.Sys([P.Commit([0], {}, false, stage, j, None, {}, {}, {}, {}, {}, if armed then {0} else {}, 0)],
          [[]], [None], [Some(0)], if stage == P.SWAP then 1 else 0)
  }

  /** Its update in `phase` at position i, with a copy of the CRTC's state at address 1. */
  function Copied(phase: O.Phase, i: nat): O.World {
    O.World([O.Crtc], [0], map[0 := O.State(0, false, 0, 0, true), 1 := O.State(0, false, 0, 0, false)], [Some(0)], [1],
            [O.Update(phase, i, 0, false, map[0 := O.Slot(0, 1, 1)])], [], false)
  }

  lemma Starts()
    ensures Step(Joint(P.Init(1), O.Reset([O.Crtc]), 0), Begin([0], {}, false)) == Some(Joint(Alone(P.SETUP, 0, false), Empty(), 0))
  {
    var z := Step(Joint(P.Init(1), O.Reset([O.Crtc]), 0), Begin([0], {}, false)).value;
    var s, w := Alone(P.SETUP, 0, false), Empty();
    assert z.sys.commits == s.commits && z.sys.lists == s.lists && z.sys.current == s.current && z.sys.owner == s.owner;
    assert z.world.current == w.current && z.world.heap == w.heap && z.world.lock == w.lock && z.world.refs == w.refs && z.world.updates == w.updates;
  }

  function Empty(): O.World {
    O.World([O.Crtc], [0], map[0 := O.State(0, false, 0, 0, true)], [None], [1], [O.Update(O.Assembling, 0, 0, false, map[])], [], false)
  }

  lemma Copies()
    ensures Step(Joint(Alone(P.SETUP, 0, false), Empty(), 0), Own(O.Get(0, 0, 1))) == Some(Joint(Alone(P.SETUP, 0, false), Copied(O.Assembling, 0), 0))
  {
    var z, w := Step(Joint(Alone(P.SETUP, 0, false), Empty(), 0), Own(O.Get(0, 0, 1))).value.world, Copied(O.Assembling, 0);
    assert z.heap == w.heap && z.lock == w.lock && z.updates[0].slots == w.updates[0].slots && z.updates == w.updates;
  }

  /** Steps of the update that only turn its phase. */
  lemma Turns(stage: nat, j: nat, armed: bool, a: O.Action, from: O.Phase, i: nat, to: O.Phase, k: nat)
    requires (a, from, i, to, k) == (O.Commit(0), O.Assembling, 0, O.Preparing, 0)
      || (a, from, i, to, k) == (O.Next(0, true), O.Preparing, 0, O.Preparing, 1)
      || (a, from, i, to, k) == (O.Next(0, true), O.Preparing, 1, O.Ready, 0)
      || (a, from, i, to, k) == (O.Next(0, true), O.Ready, 0, O.Swapping, 0)
    requires j == 0 && stage == if from == O.Ready then P.SWAP else P.SETUP
    ensures Fits(Joint(Alone(stage, j, armed), Copied(from, i), 0))
    ensures Step(Joint(Alone(stage, j, armed), Copied(from, i), 0), Own(a)) == Some(Joint(Alone(stage, j, armed), Copied(to, k), 0))
  {
    var w := O.Step(Copied(from, i), a).value;
    assert w.updates == Copied(to, k).updates;
  }

  /** Steps of the commit from arming its event to the start of its swap, with the update ready. */
  lemma Advances(stage: nat, j: nat, armed: bool, next: nat, k: nat)
    requires (stage, j, armed, next, k) == (P.SETUP, 0, false, P.SETUP, 1) || (stage, j, armed, next, k) == (P.SETUP, 1, true, P.STALL, 0)
      || (stage, j, armed, next, k) == (P.STALL, 0, true, P.STALL, 1) || (stage, j, armed, next, k) == (P.STALL, 1, true, P.SWAP, 0)
    ensures Step(Joint(Alone(stage, j, armed), Copied(O.Ready, 0), 0), Sync(P.Advance(0))) == Some(Joint(Alone(next, k, true), Copied(O.Ready, 0), 0))
  {
    var s := P.StepCommit(Alone(stage, j, armed), 0).value;
    assert s.commits[0] == Alone(next, k, true).commits[0] && s.commits == Alone(next, k, true).commits;
  }

  /** A commit does get to its swap, with its new state installed and its hw_done still to come. */
  lemma SwapReached() returns (r: seq<Action>)
    ensures Run([O.Crtc], 0, 1, r).Some?
    ensures var j := Run([O.Crtc], 0, 1, r).value; P.Swapped(j.sys, 0, 0) && 0 !in j.sys.commits[0].hw
  {
    r := SetupReached();
    Turns(P.SWAP, 0, true, O.Next(0, true), O.Ready, 0, O.Swapping, 0);
    RunAppend([O.Crtc], 0, 1, r, Own(O.Next(0, true)));
    r := r + [Own(O.Next(0, true))];
    RunAppend([O.Crtc], 0, 1, r, Exchange(0));
    r := r + [Exchange(0)];
  }

  lemma SetupReached() returns (r: seq<Action>)
    ensures Run([O.Crtc], 0, 1, r) == Some(Joint(Alone(P.SWAP, 0, true), Copied(O.Ready, 0), 0))
  {
    r := ReadyReached();
    Advances(P.SETUP, 0, false, P.SETUP, 1);
    RunAppend([O.Crtc], 0, 1, r, Sync(P.Advance(0)));
    r := r + [Sync(P.Advance(0))];
    Advances(P.SETUP, 1, true, P.STALL, 0);
    RunAppend([O.Crtc], 0, 1, r, Sync(P.Advance(0)));
    r := r + [Sync(P.Advance(0))];
    Advances(P.STALL, 0, true, P.STALL, 1);
    RunAppend([O.Crtc], 0, 1, r, Sync(P.Advance(0)));
    r := r + [Sync(P.Advance(0))];
    Advances(P.STALL, 1, true, P.SWAP, 0);
    RunAppend([O.Crtc], 0, 1, r, Sync(P.Advance(0)));
    r := r + [Sync(P.Advance(0))];
  }

  /** Assembled and prepared, with its commit not yet set up. */
  lemma ReadyReached() returns (r: seq<Action>)
    ensures Run([O.Crtc], 0, 1, r) == Some(Joint(Alone(P.SETUP, 0, false), Copied(O.Ready, 0), 0))
  {
    Starts();
    RunAppend([O.Crtc], 0, 1, [], Begin([0], {}, false));
    r := [] + [Begin([0], {}, false)];
    Copies();
    RunAppend([O.Crtc], 0, 1, r, Own(O.Get(0, 0, 1)));
    r := r + [Own(O.Get(0, 0, 1))];
    Turns(P.SETUP, 0, false, O.Commit(0), O.Assembling, 0, O.Preparing, 0);
    RunAppend([O.Crtc], 0, 1, r, Own(O.Commit(0)));
    r := r + [Own(O.Commit(0))];
    Turns(P.SETUP, 0, false, O.Next(0, true), O.Preparing, 0, O.Preparing, 1);
    RunAppend([O.Crtc], 0, 1, r, Own(O.Next(0, true)));
    r := r + [Own(O.Next(0, true))];
    Turns(P.SETUP, 0, false, O.Next(0, true), O.Preparing, 1, O.Ready, 0);
    RunAppend([O.Crtc], 0, 1, r, Own(O.Next(0, true)));
    r := r + [Own(O.Next(0, true))];
  }
}
