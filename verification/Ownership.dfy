/**
 Who owns the state objects of planes, CRTCs and connectors while updates are assembled, aborted, swapped in and
 cleaned up concurrently. State objects live at addresses that are reused once freed, so comparing pointers is
 only sound where the object compared against cannot have been freed.
 */
module Ownership {
  import opened Outcomes

  datatype Kind = Connector | Crtc | Plane

  /**
   A state object of device object `obj`: whether it points at a CRTC, how often its buffers were prepared and
   cleaned up, and whether it comes from reset rather than from an update.
   */
  datatype State = State(obj: nat, linked: bool, prepared: nat, cleaned: nat, reset: bool)

  /** An update's slot: the state it replaces, its own, and the one it has to destroy. */
  datatype Slot = Slot(before: nat, after: nat, state: nat)

  datatype Phase = Assembling | Preparing | Unwinding | Ready | Swapping | Cleaning | Clearing | Cleared

  /** `i` is the loop position; `fail` the plane whose prepare hook failed; `swapped` records a finished swap. */
  datatype Update = Update(phase: Phase, i: nat, fail: nat, swapped: bool, slots: map<nat, Slot>)

  /**
   `current` holds the installed states, `lock` who has locked an object, `refs` the references on it, `graves`
   the state objects destroyed so far. `fault` records a use of a freed object or the cleanup of an installed one.
   */
  datatype World = World(
    kinds: seq<Kind>,
    current: seq<nat>,
    heap: map<nat, State>,
    lock: seq<Option<nat>>,
    refs: seq<int>,
    updates: seq<Update>,
    graves: seq<State>,
    fault: bool)

  datatype Action =
    | Begin
    | Get(u: nat, o: nat, addr: nat)
    | Link(u: nat, o: nat, on: bool)
    | Commit(u: nat)
    | Abort(u: nat)
    | FenceFails(u: nat)
    | Next(u: nat, ok: bool)
    | Unlock(u: nat)

  /** Every object with a reset state; address o holds the state of object o. */
  function Reset(kinds: seq<Kind>): World {
    var n := |kinds|;
    World(kinds, seq(n, o => o), map o: nat | o < n :: State(o, false, 0, 0, true), seq(n, _ => None), seq(n, _ => 1), [], [], false)
  }

  predicate Shaped(w: World) {
    var n := |w.kinds|;
    |w.current| == n && |w.lock| == n && |w.refs| == n
  }

  // ----- steps -----

  function Put(w: World, u: nat, up: Update): World
    requires u < |w.updates|
  {
    w.(updates := w.updates[u := up])
  }

  /** Count references on connectors only. */
  function Referenced(w: World, o: nat, n: int): World
    requires Shaped(w) && o < |w.kinds|
  {
    if w.kinds[o] == Connector then w.(refs := w.refs[o := w.refs[o] + n]) else w
  }

  function Weight(linked: bool): int { if linked then 1 else 0 }

  /** Lock the object, duplicate its current state at a free address and fill the slot. */
  function StepGet(w: World, u: nat, o: nat, addr: nat): Option<World>
    requires Shaped(w)
  {
    if u < |w.updates| && o < |w.kinds| && w.updates[u].phase == Assembling && o !in w.updates[u].slots
       && w.lock[o] == None && addr !in w.heap then
      if w.current[o] in w.heap then
        var up, cur := w.updates[u], w.heap[w.current[o]];
        Some(Referenced(
          Put(w, u, up.(slots := up.slots[o := Slot(w.current[o], addr, addr)]))
            .(heap := w.heap[addr := State(o, cur.linked, 0, 0, false)], lock := w.lock[o := Some(u)]),
          o, 1 + Weight(cur.linked)))
      else Some(w.(fault := true))
    else None
  }

  /** Point the update's connector state at a CRTC or at none. */
  function StepLink(w: World, u: nat, o: nat, on: bool): Option<World>
    requires Shaped(w)
  {
    if u < |w.updates| && o < |w.kinds| && w.updates[u].phase == Assembling && o in w.updates[u].slots then
      var x := w.updates[u].slots[o].state;
      if x in w.heap then
        Some(Referenced(w.(heap := w.heap[x := w.heap[x].(linked := on)]), o, Weight(on) - Weight(w.heap[x].linked)))
      else Some(w.(fault := true))
    else None
  }

  /** Clean up the buffers of the state at x. */
  function Clean(w: World, o: nat, x: nat): World
    requires Shaped(w) && o < |w.kinds|
  {
    if x in w.heap && x != w.current[o] then w.(heap := w.heap[x := w.heap[x].(cleaned := w.heap[x].cleaned + 1)])
    else w.(fault := true)
  }

  predicate HasPlane(w: World, u: nat, o: nat)
    requires u < |w.updates|
  {
    o < |w.kinds| && w.kinds[o] == Plane && o in w.updates[u].slots
  }

  function StepPrepare(w: World, u: nat, ok: bool): World
    requires Shaped(w) && u < |w.updates|
  {
    var up := w.updates[u];
    var o := up.i;
    if o >= |w.kinds| then Put(w, u, up.(phase := Ready, i := 0))
    else if !HasPlane(w, u, o) then Put(w, u, up.(i := o + 1))
    else if !ok then Put(w, u, up.(phase := Unwinding, i := 0, fail := o))
    else
      var x := up.slots[o].after;
      if x in w.heap then
        Put(w, u, up.(i := o + 1)).(heap := w.heap[x := w.heap[x].(prepared := w.heap[x].prepared + 1)])
      else w.(fault := true)
  }

  function StepUnwind(w: World, u: nat): World
    requires Shaped(w) && u < |w.updates|
  {
    var up := w.updates[u];
    var o := up.i;
    if o >= up.fail || o >= |w.kinds| then Put(w, u, up.(phase := Clearing, i := 0))
    else if !HasPlane(w, u, o) then Put(w, u, up.(i := o + 1))
    else Clean(Put(w, u, up.(i := o + 1)), o, up.slots[o].after)
  }

  function StepSwap(w: World, u: nat): World
    requires Shaped(w) && u < |w.updates|
  {
    var up := w.updates[u];
    var o := up.i;
    if o >= |w.kinds| then Put(w, u, up.(phase := Cleaning, i := 0, swapped := true))
    else if o !in up.slots then Put(w, u, up.(i := o + 1))
    else
      var sl := up.slots[o];
      if w.current[o] == sl.before && sl.after in w.heap then
        Put(w, u, up.(i := o + 1, slots := up.slots[o := sl.(state := sl.before)])).(current := w.current[o := sl.after])
      else w.(fault := true)
  }

  /** Clean up what is no longer needed: the new state if the old one is still installed, else the old one. */
  function StepClean(w: World, u: nat): World
    requires Shaped(w) && u < |w.updates|
  {
    var up := w.updates[u];
    var o := up.i;
    if o >= |w.kinds| then Put(w, u, up.(phase := Clearing, i := 0))
    else if !HasPlane(w, u, o) then Put(w, u, up.(i := o + 1))
    else
      var sl := up.slots[o];
      Clean(Put(w, u, up.(i := o + 1)), o, if sl.before == w.current[o] then sl.after else sl.before)
  }

  /** Destroy the state in the slot and drop the slot's references. */
  function StepClear(w: World, u: nat): World
    requires Shaped(w) && u < |w.updates|
  {
    var up := w.updates[u];
    var o := up.i;
    if o >= |w.kinds| then Put(w, u, up.(phase := Cleared, i := 0))
    else if o !in up.slots then Put(w, u, up.(i := o + 1))
    else
      var x := up.slots[o].state;
      if x in w.heap && x != w.current[o] then
        Referenced(Put(w, u, up.(i := o + 1, slots := up.slots - {o})), o, -1 - Weight(w.heap[x].linked))
          .(heap := w.heap - {x}, graves := w.graves + [w.heap[x]])
      else w.(fault := true)
  }

  function Step(w: World, a: Action): Option<World>
    requires Shaped(w)
  {
    match a
    case Begin => Some(w.(updates := w.updates + [Update(Assembling, 0, 0, false, map[])]))
    case Get(u, o, addr) => StepGet(w, u, o, addr)
    case Link(u, o, on) => StepLink(w, u, o, on)
    case Commit(u) =>
      if u < |w.updates| && w.updates[u].phase == Assembling then Some(Put(w, u, w.updates[u].(phase := Preparing, i := 0))) else None
    case Abort(u) =>
      if u < |w.updates| && w.updates[u].phase == Assembling then Some(Put(w, u, w.updates[u].(phase := Clearing, i := 0))) else None
    case FenceFails(u) =>
      if u < |w.updates| && w.updates[u].phase == Ready then Some(Put(w, u, w.updates[u].(phase := Cleaning, i := 0))) else None
    case Next(u, ok) =>
      if u >= |w.updates| then None
      else
        match w.updates[u].phase {
          case Preparing => Some(StepPrepare(w, u, ok))
          case Unwinding => Some(StepUnwind(w, u))
          case Ready => Some(Put(w, u, w.updates[u].(phase := Swapping, i := 0)))
          case Swapping => Some(StepSwap(w, u))
          case Cleaning => Some(StepClean(w, u))
          case Clearing => Some(StepClear(w, u))
          case _ => None
        }
    case Unlock(u) =>
      if u < |w.updates| && (w.updates[u].swapped || w.updates[u].phase in {Clearing, Cleared}) then
        Some(w.(lock := seq(|w.lock|, o requires 0 <= o < |w.lock| => if w.lock[o] == Some(u) then None else w.lock[o])))
      else None
  }

  // ----- the invariant -----

  predicate SwappedAt(up: Update, o: nat) {
    up.swapped || (up.phase == Swapping && o < up.i)
  }

  predicate Over(up: Update) {
    up.phase == Clearing || up.phase == Cleared
  }

  /** What has happened to the state an update has to destroy, given how far the update has got. */
  predicate Expected(kind: Kind, up: Update, o: nat, st: State) {
    if SwappedAt(up, o) then
      && (if st.reset || kind != Plane then st.prepared == 0 else st.prepared == 1)
      && st.cleaned == (if kind == Plane && (Over(up) || (up.phase == Cleaning && o < up.i)) then 1 else 0)
    else
      && !st.reset
      && (Over(up) ==> st.prepared == st.cleaned <= 1)
      && (!Over(up) ==>
            && st.prepared == (if kind == Plane && ((up.phase == Preparing && o < up.i) || (up.phase == Unwinding && o < up.fail)
                                                     || up.phase in {Ready, Swapping, Cleaning}) then 1 else 0)
            && st.cleaned == (if kind == Plane && up.phase in {Unwinding, Cleaning} && o < up.i then 1 else 0))
  }

  /** The installed state of o is live, prepared unless it comes from reset, and not cleaned up. */
  ghost predicate Installed(w: World, o: nat)
    requires Shaped(w) && o < |w.kinds|
  {
    && w.current[o] in w.heap
    && var st := w.heap[w.current[o]];
       && st.obj == o && st.cleaned == 0
       && (if st.reset || w.kinds[o] != Plane then st.prepared == 0 else st.prepared == 1)
  }

  ghost predicate SlotOk(w: World, u: nat, o: nat)
    requires Shaped(w) && u < |w.updates| && o in w.updates[u].slots
  {
    var up := w.updates[u];
    var sl := up.slots[o];
    && o < |w.kinds| && sl.state in w.heap && w.heap[sl.state].obj == o && sl.state != w.current[o]
    && (if SwappedAt(up, o) then sl.state == sl.before
        else sl.state == sl.after && (!Over(up) ==> w.lock[o] == Some(u) && sl.before == w.current[o]))
    && Expected(w.kinds[o], up, o, w.heap[sl.state])
  }

  ghost predicate PhaseOk(up: Update) {
    && (up.swapped ==> up.phase == Cleaning || Over(up))
    && (up.phase == Clearing ==> forall o :: o in up.slots ==> up.i <= o)
    && (up.phase == Unwinding ==> up.i <= up.fail)
    && (up.phase == Cleared ==> up.slots == map[])
  }

  /** Update u has to destroy the state at x. */
  ghost predicate Owns(w: World, u: nat, x: nat) {
    u < |w.updates| && x in w.heap && w.heap[x].obj in w.updates[u].slots && w.updates[u].slots[w.heap[x].obj].state == x
  }

  ghost predicate IsInstalled(w: World, x: nat) {
    x in w.heap && w.heap[x].obj < |w.current| && w.current[w.heap[x].obj] == x
  }

  /** No two updates have the same state to destroy. */
  ghost predicate Apart(w: World) {
    forall u: nat, v: nat, o: nat :: u < |w.updates| && v < |w.updates| && u != v && o in w.updates[u].slots && o in w.updates[v].slots
      ==> w.updates[u].slots[o].state != w.updates[v].slots[o].state
  }

  ghost predicate Laid(st: State) {
    st.cleaned <= 1 && (st.reset || st.prepared == st.cleaned)
  }

  ghost predicate AllInstalled(w: World)
    requires Shaped(w)
  {
    forall o: nat :: o < |w.kinds| ==> Installed(w, o)
  }

  ghost predicate AllSlots(w: World)
    requires Shaped(w)
  {
    forall u: nat, o: nat :: u < |w.updates| && o in w.updates[u].slots ==> SlotOk(w, u, o)
  }

  ghost predicate AllPhases(w: World) {
    forall u: nat :: u < |w.updates| ==> PhaseOk(w.updates[u])
  }

  /** The owner of the state at x: the device, or an update that has to destroy it. */
  ghost predicate Owned(w: World, x: nat) {
    IsInstalled(w, x) || exists u: nat :: Owns(w, u, x)
  }

  ghost predicate AllOwned(w: World) {
    forall x: nat :: x in w.heap ==> Owned(w, x)
  }

  ghost predicate AllLaid(w: World) {
    forall k: nat :: k < |w.graves| ==> Laid(w.graves[k])
  }

  ghost predicate Core(w: World) {
    && Shaped(w) && !w.fault
    && AllInstalled(w) && AllSlots(w) && AllPhases(w) && Apart(w) && AllOwned(w) && AllLaid(w)
  }

  // ----- steps within an update -----

  /** Only update u's progress and the contents of states it owns differ. */
  ghost predicate Edited(w: World, z: World, u: nat) {
    && z.kinds == w.kinds && z.current == w.current && z.lock == w.lock && z.graves == w.graves && !z.fault
    && |z.refs| == |w.refs| && u < |w.updates| && |z.updates| == |w.updates|
    && z.updates == w.updates[u := z.updates[u]] && z.updates[u].slots == w.updates[u].slots
    && z.heap.Keys == w.heap.Keys
    && (forall x :: x in w.heap ==> z.heap[x].obj == w.heap[x].obj)
    && (forall x :: x in w.heap && !Owns(w, u, x) ==> z.heap[x] == w.heap[x])
  }

  lemma EditedOthers(w: World, z: World, u: nat, v: nat, o: nat)
    requires Core(w) && Edited(w, z, u) && v < |w.updates| && v != u && o in w.updates[v].slots
    ensures SlotOk(z, v, o)
  {
    assert SlotOk(w, v, o);
    var x := w.updates[v].slots[o].state;
    assert o in w.updates[u].slots ==> w.updates[u].slots[o].state != x;
  }

  lemma EditedInstalled(w: World, z: World, u: nat, o: nat)
    requires Core(w) && Edited(w, z, u) && o < |w.kinds|
    ensures Installed(z, o)
  {
    assert Installed(w, o);
    assert o in w.updates[u].slots ==> SlotOk(w, u, o);
  }

  lemma EditedOwned(w: World, z: World, u: nat)
    requires Edited(w, z, u) && AllOwned(w)
    ensures AllOwned(z)
  {
    forall x: nat | x in z.heap ensures Owned(z, x) {
      assert Owned(w, x);
      if !IsInstalled(w, x) {
        var v: nat :| Owns(w, v, x);
        assert Owns(z, v, x);
      }
    }
  }

  lemma EditedCore(w: World, z: World, u: nat)
    requires Core(w) && Edited(w, z, u) && PhaseOk(z.updates[u])
    requires forall o: nat :: o in z.updates[u].slots ==> SlotOk(z, u, o)
    ensures Core(z)
  {
    forall o: nat | o < |z.kinds| ensures Installed(z, o) { EditedInstalled(w, z, u, o); }
    forall v: nat, o: nat | v < |z.updates| && o in z.updates[v].slots ensures SlotOk(z, v, o) {
      if v != u { EditedOthers(w, z, u, v, o); }
    }
    EditedOwned(w, z, u);
  }

  /** What is expected of the states of objects other than `except` does not change from up to vp. */
  ghost predicate Onward(kinds: seq<Kind>, up: Update, vp: Update, except: int) {
    && vp.slots == up.slots && PhaseOk(vp) && (Over(up) ==> Over(vp))
    && (forall o: nat :: o in up.slots ==> (SwappedAt(vp, o) <==> SwappedAt(up, o)))
    && forall o: nat, st :: o in up.slots && o < |kinds| && o != except && Expected(kinds[o], up, o, st) ==> Expected(kinds[o], vp, o, st)
  }

  /** Moving on without touching a state. */
  lemma TurnCore(w: World, u: nat, up: Update)
    requires Core(w) && u < |w.updates| && Onward(w.kinds, w.updates[u], up, -1)
    ensures Core(Put(w, u, up))
  {
    var z := Put(w, u, up);
    forall o: nat | o in up.slots ensures SlotOk(z, u, o) { assert SlotOk(w, u, o); }
    EditedCore(w, z, u);
  }

  /** Changing the state that update u owns for object o. */
  lemma TouchCore(w: World, z: World, u: nat, o: nat, st: State)
    requires Core(w) && u < |w.updates| && o in w.updates[u].slots && |z.updates| == |w.updates|
    requires z.updates == w.updates[u := z.updates[u]] && Onward(w.kinds, w.updates[u], z.updates[u], o)
    requires z.kinds == w.kinds && z.current == w.current && z.lock == w.lock && z.graves == w.graves && !z.fault && |z.refs| == |w.refs|
    requires st.obj == o && z.heap == w.heap[w.updates[u].slots[o].state := st]
    requires o < |w.kinds| ==> Expected(w.kinds[o], z.updates[u], o, st)
    ensures Core(z)
  {
    assert SlotOk(w, u, o);
    forall p: nat | p in z.updates[u].slots ensures SlotOk(z, u, p) { assert SlotOk(w, u, p); }
    EditedCore(w, z, u);
  }

  lemma PrepareOnward(kinds: seq<Kind>, up: Update)
    requires up.phase == Preparing && PhaseOk(up)
    ensures Onward(kinds, up, up.(i := up.i + 1), up.i)
    ensures up.i < |kinds| && !(kinds[up.i] == Plane && up.i in up.slots) ==> Onward(kinds, up, up.(i := up.i + 1), -1)
    ensures up.i >= |kinds| ==> Onward(kinds, up, up.(phase := Ready, i := 0), -1)
    ensures Onward(kinds, up, up.(phase := Unwinding, i := 0, fail := up.i), -1)
  {
  }

  lemma PrepareCore(w: World, u: nat, ok: bool)
    requires Core(w) && u < |w.updates| && w.updates[u].phase == Preparing
    ensures Core(StepPrepare(w, u, ok))
  {
    var up, z := w.updates[u], StepPrepare(w, u, ok);
    var o := up.i;
    assert PhaseOk(up);
    PrepareOnward(w.kinds, up);
    if o < |w.kinds| && HasPlane(w, u, o) && ok {
      assert SlotOk(w, u, o);
      var x := up.slots[o].after;
      TouchCore(w, z, u, o, w.heap[x].(prepared := w.heap[x].prepared + 1));
    } else {
      TurnCore(w, u, z.updates[u]);
    }
  }

  lemma UnwindOnward(kinds: seq<Kind>, up: Update)
    requires up.phase == Unwinding && PhaseOk(up)
    ensures up.i < up.fail ==> Onward(kinds, up, up.(i := up.i + 1), up.i)
    ensures up.i < up.fail && up.i < |kinds| && !(kinds[up.i] == Plane && up.i in up.slots) ==> Onward(kinds, up, up.(i := up.i + 1), -1)
    ensures up.i >= up.fail || up.i >= |kinds| ==> Onward(kinds, up, up.(phase := Clearing, i := 0), -1)
  {
  }

  lemma UnwindCore(w: World, u: nat)
    requires Core(w) && u < |w.updates| && w.updates[u].phase == Unwinding
    ensures Core(StepUnwind(w, u))
  {
    var up, z := w.updates[u], StepUnwind(w, u);
    var o := up.i;
    assert PhaseOk(up);
    UnwindOnward(w.kinds, up);
    if o < up.fail && o < |w.kinds| && HasPlane(w, u, o) {
      assert SlotOk(w, u, o);
      var x := up.slots[o].after;
      TouchCore(w, z, u, o, w.heap[x].(cleaned := w.heap[x].cleaned + 1));
    } else {
      TurnCore(w, u, z.updates[u]);
    }
  }

  lemma CleanOnward(kinds: seq<Kind>, up: Update)
    requires up.phase == Cleaning && PhaseOk(up)
    ensures Onward(kinds, up, up.(i := up.i + 1), up.i)
    ensures up.i < |kinds| && !(kinds[up.i] == Plane && up.i in up.slots) ==> Onward(kinds, up, up.(i := up.i + 1), -1)
    ensures up.i >= |kinds| ==> Onward(kinds, up, up.(phase := Clearing, i := 0), -1)
  {
  }

  /**
   The pointer test picks the state to clean up: before the swap the lock keeps the old state installed; after
   it the old state is not freed before this update clears it, so nothing installed can be at its address.
   */
  lemma CleanPicks(w: World, u: nat, o: nat)
    requires Core(w) && u < |w.updates| && w.updates[u].phase == Cleaning && o in w.updates[u].slots
    ensures SlotOk(w, u, o)
    ensures w.updates[u].slots[o].before == w.current[o] <==> !w.updates[u].swapped
    ensures w.updates[u].slots[o].state == if w.updates[u].swapped then w.updates[u].slots[o].before else w.updates[u].slots[o].after
  {
    assert SlotOk(w, u, o);
  }

  /** Only the state that update u leaves behind for object o has been cleaned up: the old one if u was swapped in. */
  ghost predicate Cleans(w: World, z: World, u: nat, o: nat)
    requires u < |w.updates| && o in w.updates[u].slots
  {
    var x := if w.updates[u].swapped then w.updates[u].slots[o].before else w.updates[u].slots[o].after;
    x in w.heap && z.heap == w.heap[x := w.heap[x].(cleaned := w.heap[x].cleaned + 1)]
  }

  lemma CleanTakes(w: World, u: nat)
    requires Core(w) && u < |w.updates| && w.updates[u].phase == Cleaning && HasPlane(w, u, w.updates[u].i)
    ensures Cleans(w, StepClean(w, u), u, w.updates[u].i)
  {
    CleanPicks(w, u, w.updates[u].i);
  }

  lemma CleanCore(w: World, u: nat)
    requires Core(w) && u < |w.updates| && w.updates[u].phase == Cleaning
    ensures Core(StepClean(w, u))
  {
    var up, z := w.updates[u], StepClean(w, u);
    var o := up.i;
    assert PhaseOk(up);
    CleanOnward(w.kinds, up);
    if o < |w.kinds| && HasPlane(w, u, o) {
      CleanPicks(w, u, o);
      var x := up.slots[o].state;
      TouchCore(w, z, u, o, w.heap[x].(cleaned := w.heap[x].cleaned + 1));
    } else {
      TurnCore(w, u, z.updates[u]);
    }
  }

  // ----- adding an object -----

  /** Update u has locked object o and taken a copy of its state at addr. */
  ghost predicate Got(w: World, z: World, u: nat, o: nat, addr: nat) {
    && Shaped(w) && Shaped(z) && z.kinds == w.kinds && z.current == w.current && z.graves == w.graves && z.fault == w.fault
    && u < |w.updates| && o < |w.kinds| && w.updates[u].phase == Assembling && !w.updates[u].swapped && o !in w.updates[u].slots
    && w.lock[o] == None && addr !in w.heap && w.current[o] in w.heap
    && z.updates == w.updates[u := w.updates[u].(slots := w.updates[u].slots[o := Slot(w.current[o], addr, addr)])]
    && z.heap == w.heap[addr := State(o, w.heap[w.current[o]].linked, 0, 0, false)]
    && z.lock == w.lock[o := Some(u)]
  }

  lemma GotSlots(w: World, z: World, u: nat, o: nat, addr: nat, v: nat, p: nat)
    requires Got(w, z, u, o, addr) && v < |z.updates| && p in z.updates[v].slots
    requires p in w.updates[v].slots ==> SlotOk(w, v, p)
    ensures SlotOk(z, v, p)
  {
  }

  lemma GotApart(w: World, z: World, u: nat, o: nat, addr: nat)
    requires Got(w, z, u, o, addr) && AllSlots(w) && Apart(w)
    ensures Apart(z)
  {
    forall v: nat, p: nat | v < |w.updates| && p in w.updates[v].slots ensures w.updates[v].slots[p].state != addr {
      assert SlotOk(w, v, p);
    }
    forall v: nat, p: nat | v < |z.updates| && p in z.updates[v].slots
      ensures (v == u && p == o && z.updates[v].slots[p].state == addr) || (p in w.updates[v].slots && z.updates[v].slots[p] == w.updates[v].slots[p]) {}
  }

  lemma GotOwned(w: World, z: World, u: nat, o: nat, addr: nat)
    requires Got(w, z, u, o, addr) && AllOwned(w)
    ensures AllOwned(z)
  {
    forall x: nat | x in z.heap ensures Owned(z, x) {
      if x == addr {
        assert Owns(z, u, x);
      } else {
        assert Owned(w, x);
        if !IsInstalled(w, x) {
          var v: nat :| Owns(w, v, x);
          assert Owns(z, v, x);
        }
      }
    }
  }

  lemma GetCore(w: World, u: nat, o: nat, addr: nat)
    requires Core(w) && StepGet(w, u, o, addr).Some?
    ensures Core(StepGet(w, u, o, addr).value)
  {
    var z := StepGet(w, u, o, addr).value;
    assert Installed(w, o) && PhaseOk(w.updates[u]);
    assert Got(w, z, u, o, addr);
    forall p: nat | p < |z.kinds| ensures Installed(z, p) { assert Installed(w, p); }
    forall v: nat, p: nat | v < |z.updates| && p in z.updates[v].slots ensures SlotOk(z, v, p) { GotSlots(w, z, u, o, addr, v, p); }
    GotApart(w, z, u, o, addr);
    GotOwned(w, z, u, o, addr);
  }

  lemma LinkCore(w: World, u: nat, o: nat, on: bool)
    requires Core(w) && StepLink(w, u, o, on).Some?
    ensures Core(StepLink(w, u, o, on).value)
  {
    var z := StepLink(w, u, o, on).value;
    var up := w.updates[u];
    assert SlotOk(w, u, o) && PhaseOk(up);
    TouchCore(w, z, u, o, w.heap[up.slots[o].state].(linked := on));
  }

  // ----- swapping -----

  /** Update u has exchanged its state of object o with the installed one. */
  ghost predicate Exchanged(w: World, z: World, u: nat, o: nat) {
    && Shaped(w) && Shaped(z) && z.kinds == w.kinds && z.lock == w.lock && z.graves == w.graves && z.fault == w.fault && z.heap == w.heap
    && u < |w.updates| && o < |w.kinds| && w.updates[u].phase == Swapping && !w.updates[u].swapped && o == w.updates[u].i
    && o in w.updates[u].slots && SlotOk(w, u, o) && Installed(w, o)
    && z.updates == w.updates[u := w.updates[u].(i := o + 1, slots :=
                                w.updates[u].slots[o := w.updates[u].slots[o].(state := w.updates[u].slots[o].before)])]
    && z.current == w.current[o := w.updates[u].slots[o].after]
  }

  lemma ExchangedSlots(w: World, z: World, u: nat, o: nat, v: nat, p: nat)
    requires Exchanged(w, z, u, o) && v < |z.updates| && p in w.updates[v].slots && SlotOk(w, v, p)
    requires v != u && p == o ==> w.updates[u].slots[o].state != w.updates[v].slots[p].state
    ensures p in z.updates[v].slots && SlotOk(z, v, p)
  {
  }

  lemma ExchangedApart(w: World, z: World, u: nat, o: nat)
    requires Exchanged(w, z, u, o) && AllSlots(w) && Apart(w)
    ensures Apart(z)
  {
    forall a: nat, b: nat, p: nat | a < |z.updates| && b < |z.updates| && a != b && p in z.updates[a].slots && p in z.updates[b].slots
      ensures z.updates[a].slots[p].state != z.updates[b].slots[p].state
    {
      assert SlotOk(w, a, p) && SlotOk(w, b, p);
    }
  }

  lemma ExchangedOwned(w: World, z: World, u: nat, o: nat)
    requires Exchanged(w, z, u, o) && AllOwned(w)
    ensures AllOwned(z)
  {
    forall x: nat | x in z.heap ensures Owned(z, x) {
      assert Owned(w, x);
      if IsInstalled(w, x) {
        if w.heap[x].obj == o { assert Owns(z, u, x); }
      } else {
        var v: nat :| Owns(w, v, x);
        if v != u || w.heap[x].obj != o { assert Owns(z, v, x); }
      }
    }
  }

  /** The state replaced becomes the update's to destroy, and its new state the device's. */
  lemma SwapCore(w: World, u: nat)
    requires Core(w) && u < |w.updates| && w.updates[u].phase == Swapping
    requires w.updates[u].i < |w.kinds| && w.updates[u].i in w.updates[u].slots
    ensures Core(StepSwap(w, u))
  {
    var z, o := StepSwap(w, u), w.updates[u].i;
    assert SlotOk(w, u, o) && PhaseOk(w.updates[u]) && Installed(w, o);
    assert Exchanged(w, z, u, o);
    forall p: nat | p < |z.kinds| ensures Installed(z, p) { assert Installed(w, p); }
    forall v: nat, p: nat | v < |z.updates| && p in z.updates[v].slots ensures SlotOk(z, v, p) {
      assert p in w.updates[v].slots;
      ExchangedSlots(w, z, u, o, v, p);
    }
    ExchangedApart(w, z, u, o);
    ExchangedOwned(w, z, u, o);
  }

  /** The device's state becomes the update's to destroy, and the update's the device's. */
  lemma SwapTransfers(w: World, u: nat)
    requires Core(w) && u < |w.updates| && w.updates[u].phase == Swapping
    requires w.updates[u].i < |w.kinds| && w.updates[u].i in w.updates[u].slots
    ensures var z, o := StepSwap(w, u), w.updates[u].i;
      && IsInstalled(w, w.current[o]) && Owns(w, u, w.updates[u].slots[o].after)
      && Owns(z, u, w.current[o]) && IsInstalled(z, w.updates[u].slots[o].after)
  {
    assert SlotOk(w, u, w.updates[u].i) && PhaseOk(w.updates[u]) && Installed(w, w.updates[u].i);
  }

  lemma SwapOnward(kinds: seq<Kind>, up: Update)
    requires up.phase == Swapping && PhaseOk(up)
    ensures up.i !in up.slots ==> Onward(kinds, up, up.(i := up.i + 1), -1)
  {
  }

  lemma SwapEndCore(w: World, u: nat)
    requires Core(w) && u < |w.updates| && w.updates[u].phase == Swapping && w.updates[u].i >= |w.kinds|
    ensures Core(StepSwap(w, u))
  {
    var z := StepSwap(w, u);
    assert PhaseOk(w.updates[u]);
    forall o: nat | o in z.updates[u].slots ensures SlotOk(z, u, o) { assert SlotOk(w, u, o); }
    EditedCore(w, z, u);
  }

  // ----- destroying -----

  /** Update u has destroyed its state of object o. */
  ghost predicate Destroyed(w: World, z: World, u: nat, o: nat) {
    && Shaped(w) && Shaped(z) && z.kinds == w.kinds && z.current == w.current && z.lock == w.lock && z.fault == w.fault
    && u < |w.updates| && w.updates[u].phase == Clearing && o == w.updates[u].i && o in w.updates[u].slots && SlotOk(w, u, o)
    && z.updates == w.updates[u := w.updates[u].(i := o + 1, slots := w.updates[u].slots - {o})]
    && z.heap == w.heap - {w.updates[u].slots[o].state}
    && z.graves == w.graves + [w.heap[w.updates[u].slots[o].state]]
  }

  lemma DestroyedSlots(w: World, z: World, u: nat, o: nat, v: nat, p: nat)
    requires Destroyed(w, z, u, o) && v < |z.updates| && p in z.updates[v].slots && p in w.updates[v].slots && SlotOk(w, v, p)
    requires v != u && p == o ==> w.updates[u].slots[o].state != w.updates[v].slots[p].state
    ensures SlotOk(z, v, p)
  {
  }

  lemma DestroyedOwned(w: World, z: World, u: nat, o: nat)
    requires Destroyed(w, z, u, o) && AllOwned(w)
    ensures AllOwned(z)
  {
    forall x: nat | x in z.heap ensures Owned(z, x) {
      assert Owned(w, x);
      if !IsInstalled(w, x) {
        var v: nat :| Owns(w, v, x);
        assert Owns(z, v, x);
      }
    }
  }

  lemma DestroyedInstalled(w: World, z: World, u: nat, o: nat)
    requires Destroyed(w, z, u, o) && AllInstalled(w)
    ensures AllInstalled(z)
  {
    forall p: nat | p < |z.kinds| ensures Installed(z, p) { assert Installed(w, p); }
  }

  lemma DestroyedApart(w: World, z: World, u: nat, o: nat)
    requires Destroyed(w, z, u, o) && Apart(w) && AllPhases(w)
    ensures Apart(z) && AllPhases(z)
  {
    forall v: nat | v < |z.updates| ensures PhaseOk(z.updates[v]) { assert PhaseOk(w.updates[v]); }
  }

  lemma DestroyedLaid(w: World, z: World, u: nat, o: nat)
    requires Destroyed(w, z, u, o) && AllLaid(w)
    ensures AllLaid(z)
  {
    assert Laid(w.heap[w.updates[u].slots[o].state]);
  }

  /** Only the state in the slot goes, and nothing else refers to it. */
  lemma ClearCore(w: World, u: nat)
    requires Core(w) && u < |w.updates| && w.updates[u].phase == Clearing
    requires w.updates[u].i < |w.kinds| && w.updates[u].i in w.updates[u].slots
    ensures Core(StepClear(w, u))
  {
    var z, o := StepClear(w, u), w.updates[u].i;
    assert SlotOk(w, u, o) && PhaseOk(w.updates[u]);
    assert Destroyed(w, z, u, o);
    DestroyedInstalled(w, z, u, o);
    forall v: nat, p: nat | v < |z.updates| && p in z.updates[v].slots ensures SlotOk(z, v, p) {
      assert p in w.updates[v].slots;
      DestroyedSlots(w, z, u, o, v, p);
    }
    DestroyedOwned(w, z, u, o);
    DestroyedApart(w, z, u, o);
    DestroyedLaid(w, z, u, o);
  }

  lemma SlotsInRange(w: World, u: nat)
    requires Shaped(w) && AllSlots(w) && u < |w.updates|
    ensures forall o: nat :: o in w.updates[u].slots ==> o < |w.kinds|
  {
    forall o: nat | o in w.updates[u].slots ensures o < |w.kinds| { assert SlotOk(w, u, o); }
  }

  lemma ClearTurns(w: World, u: nat)
    requires Core(w) && u < |w.updates| && w.updates[u].phase == Clearing
    requires w.updates[u].i >= |w.kinds| || w.updates[u].i !in w.updates[u].slots
    ensures Core(StepClear(w, u))
  {
    var up := w.updates[u];
    assert PhaseOk(up);
    SlotsInRange(w, u);
    TurnCore(w, u, if up.i >= |w.kinds| then up.(phase := Cleared, i := 0) else up.(i := up.i + 1));
  }

  // ----- all steps -----

  lemma NextCore(w: World, u: nat, ok: bool)
    requires Core(w) && Step(w, Next(u, ok)).Some?
    ensures Core(Step(w, Next(u, ok)).value)
  {
    var up := w.updates[u];
    assert PhaseOk(up);
    match up.phase
    case Preparing => PrepareCore(w, u, ok);
    case Unwinding => UnwindCore(w, u);
    case Ready => TurnCore(w, u, up.(phase := Swapping, i := 0));
    case Swapping =>
      if up.i >= |w.kinds| { SwapEndCore(w, u); }
      else if up.i in up.slots { SwapCore(w, u); }
      else { SwapOnward(w.kinds, up); TurnCore(w, u, up.(i := up.i + 1)); }
    case Cleaning => CleanCore(w, u);
    case Clearing => if up.i < |w.kinds| && up.i in up.slots { ClearCore(w, u); } else { ClearTurns(w, u); }
    case _ =>
  }

  /** Locks are dropped, or a new update begins. */
  lemma QuietCore(w: World, a: Action)
    requires Core(w) && (a.Unlock? || a.Begin?) && Step(w, a).Some?
    ensures Core(Step(w, a).value)
  {
    var z := Step(w, a).value;
    forall p: nat | p < |z.kinds| ensures Installed(z, p) { assert Installed(w, p); }
    forall v: nat, p: nat | v < |z.updates| && p in z.updates[v].slots ensures SlotOk(z, v, p) { assert SlotOk(w, v, p); }
    forall x: nat | x in z.heap ensures Owned(z, x) {
      assert Owned(w, x);
      if !IsInstalled(w, x) {
        var v: nat :| Owns(w, v, x);
        assert Owns(z, v, x);
      }
    }
  }

  lemma BranchOnward(kinds: seq<Kind>, up: Update)
    requires PhaseOk(up) && !up.swapped
    ensures up.phase == Assembling ==> Onward(kinds, up, up.(phase := Preparing, i := 0), -1)
    ensures up.phase == Assembling ==> Onward(kinds, up, up.(phase := Clearing, i := 0), -1)
    ensures up.phase == Ready ==> Onward(kinds, up, up.(phase := Cleaning, i := 0), -1)
  {
  }

  lemma BranchCore(w: World, a: Action)
    requires Core(w) && (a.Commit? || a.Abort? || a.FenceFails?) && Step(w, a).Some?
    ensures Core(Step(w, a).value)
  {
    assert PhaseOk(w.updates[a.u]);
    BranchOnward(w.kinds, w.updates[a.u]);
    TurnCore(w, a.u, Step(w, a).value.updates[a.u]);
  }

  lemma StepCore(w: World, a: Action)
    requires Core(w) && Step(w, a).Some?
    ensures Core(Step(w, a).value)
  {
    match a
    case Begin => QuietCore(w, a);
    case Unlock(u) => QuietCore(w, a);
    case Get(u, o, addr) => GetCore(w, u, o, addr);
    case Link(u, o, on) => LinkCore(w, u, o, on);
    case Next(u, ok) => NextCore(w, u, ok);
    case _ => BranchCore(w, a);
  }

  // ----- references on connectors -----

  ghost function Holders(w: World, o: nat): set<nat> {
    set u: nat | u < |w.updates| && o in w.updates[u].slots
  }

  ghost function LinkedStates(w: World, o: nat): set<nat> {
    set x: nat | x in w.heap && w.heap[x].obj == o && w.heap[x].linked
  }

  /** A connector is referenced by its owner, by each slot that names it, and by each live state that has a CRTC. */
  ghost predicate Counted(w: World, o: nat)
    requires Shaped(w) && o < |w.kinds|
  {
    w.kinds[o] == Connector ==> w.refs[o] == 1 + |Holders(w, o)| + |LinkedStates(w, o)|
  }

  ghost predicate AllCounted(w: World)
    requires Shaped(w)
  {
    forall o: nat :: o < |w.kinds| ==> Counted(w, o)
  }

  /** Slots, states and links are the same as far as object o is concerned. */
  lemma SameCount(w: World, z: World, o: nat)
    requires Shaped(w) && Shaped(z) && z.kinds == w.kinds && o < |w.kinds| && Counted(w, o) && z.refs[o] == w.refs[o]
    requires forall u: nat :: (u < |z.updates| && o in z.updates[u].slots) <==> (u < |w.updates| && o in w.updates[u].slots)
    requires forall x: nat :: (x in z.heap && z.heap[x].obj == o && z.heap[x].linked) <==> (x in w.heap && w.heap[x].obj == o && w.heap[x].linked)
    ensures Counted(z, o)
  {
    assert Holders(z, o) == Holders(w, o);
    assert LinkedStates(z, o) == LinkedStates(w, o);
  }

  lemma GotCounted(w: World, z: World, u: nat, o: nat, addr: nat, p: nat)
    requires Got(w, z, u, o, addr) && p < |w.kinds| && Counted(w, p)
    requires z.refs == if w.kinds[o] == Connector then w.refs[o := w.refs[o] + 1 + Weight(w.heap[w.current[o]].linked)] else w.refs
    ensures Counted(z, p)
  {
    if p != o {
      SameCount(w, z, p);
    } else {
      assert Holders(z, o) == Holders(w, o) + {u};
      assert LinkedStates(z, o) == if w.heap[w.current[o]].linked then LinkedStates(w, o) + {addr} else LinkedStates(w, o);
    }
  }

  lemma GetCounted(w: World, u: nat, o: nat, addr: nat)
    requires Core(w) && AllCounted(w) && StepGet(w, u, o, addr).Some?
    ensures Shaped(StepGet(w, u, o, addr).value) && AllCounted(StepGet(w, u, o, addr).value)
  {
    var z := StepGet(w, u, o, addr).value;
    assert Installed(w, o) && PhaseOk(w.updates[u]);
    forall p: nat | p < |w.kinds| ensures Counted(z, p) { GotCounted(w, z, u, o, addr, p); }
  }

  lemma LinkedCounted(w: World, z: World, o: nat, x: nat, on: bool, p: nat)
    requires Shaped(w) && Shaped(z) && o < |w.kinds| && p < |w.kinds| && Counted(w, p) && x in w.heap && w.heap[x].obj == o
    requires z.kinds == w.kinds && z.updates == w.updates && z.heap == w.heap[x := w.heap[x].(linked := on)]
    requires z.refs == if w.kinds[o] == Connector then w.refs[o := w.refs[o] + Weight(on) - Weight(w.heap[x].linked)] else w.refs
    ensures Counted(z, p)
  {
    if p != o {
      SameCount(w, z, p);
    } else {
      assert Holders(z, o) == Holders(w, o);
      assert LinkedStates(z, o) == if on then LinkedStates(w, o) + {x} else LinkedStates(w, o) - {x};
    }
  }

  lemma LinkCounted(w: World, u: nat, o: nat, on: bool)
    requires Core(w) && AllCounted(w) && StepLink(w, u, o, on).Some?
    ensures Shaped(StepLink(w, u, o, on).value) && AllCounted(StepLink(w, u, o, on).value)
  {
    var z, x := StepLink(w, u, o, on).value, w.updates[u].slots[o].state;
    assert SlotOk(w, u, o);
    forall p: nat | p < |w.kinds| ensures Counted(z, p) { LinkedCounted(w, z, o, x, on, p); }
  }

  lemma ClearCounted(w: World, u: nat)
    requires Core(w) && AllCounted(w) && u < |w.updates| && w.updates[u].phase == Clearing
    requires w.updates[u].i < |w.kinds| && w.updates[u].i in w.updates[u].slots
    ensures Shaped(StepClear(w, u)) && AllCounted(StepClear(w, u))
  {
    var z, o := StepClear(w, u), w.updates[u].i;
    assert SlotOk(w, u, o);
    assert Destroyed(w, z, u, o);
    forall p: nat | p < |w.kinds| ensures Counted(z, p) { DestroyedCounted(w, z, u, o, p); }
  }

  lemma DestroyedCounted(w: World, z: World, u: nat, o: nat, p: nat)
    requires Destroyed(w, z, u, o) && p < |w.kinds| && Counted(w, p)
    requires z.refs == if w.kinds[o] == Connector then w.refs[o := w.refs[o] - 1 - Weight(w.heap[w.updates[u].slots[o].state].linked)] else w.refs
    ensures Counted(z, p)
  {
    if p != o {
      SameCount(w, z, p);
    } else {
      assert Holders(z, o) == Holders(w, o) - {u};
      assert LinkedStates(z, o) == LinkedStates(w, o) - {w.updates[u].slots[o].state};
    }
  }

  /** Nothing but the progress of update u, prepare and cleanup counts, installed states and locks changes. */
  ghost predicate SameRefs(w: World, z: World) {
    && Shaped(w) && Shaped(z) && z.kinds == w.kinds && z.refs == w.refs && |z.updates| >= |w.updates|
    && (forall u: nat :: u < |w.updates| ==> z.updates[u].slots.Keys == w.updates[u].slots.Keys)
    && (forall u: nat :: |w.updates| <= u < |z.updates| ==> z.updates[u].slots == map[])
    && z.heap.Keys == w.heap.Keys
    && (forall x :: x in w.heap ==> z.heap[x].obj == w.heap[x].obj && z.heap[x].linked == w.heap[x].linked)
  }

  lemma SameRefsCounted(w: World, z: World)
    requires SameRefs(w, z) && AllCounted(w)
    ensures AllCounted(z)
  {
    forall o: nat | o < |w.kinds| ensures Counted(z, o) {
      assert Counted(w, o);
      forall u: nat ensures (u < |z.updates| && o in z.updates[u].slots) <==> (u < |w.updates| && o in w.updates[u].slots) {
        if u < |w.updates| { assert o in z.updates[u].slots.Keys <==> o in w.updates[u].slots.Keys; }
      }
      SameCount(w, z, o);
    }
  }

  lemma StepCounted(w: World, a: Action)
    requires Core(w) && AllCounted(w) && Step(w, a).Some?
    ensures Core(Step(w, a).value) && AllCounted(Step(w, a).value)
  {
    StepCore(w, a);
    match a
    case Get(u, o, addr) => GetCounted(w, u, o, addr);
    case Link(u, o, on) => LinkCounted(w, u, o, on);
    case Next(u, ok) => NextCounted(w, u, ok);
    case _ => SameRefsCounted(w, Step(w, a).value);
  }

  lemma NextCounted(w: World, u: nat, ok: bool)
    requires Core(w) && AllCounted(w) && Step(w, Next(u, ok)).Some?
    ensures Shaped(Step(w, Next(u, ok)).value) && AllCounted(Step(w, Next(u, ok)).value)
  {
    var up := w.updates[u];
    if up.phase == Clearing && up.i < |w.kinds| && up.i in up.slots {
      ClearCounted(w, u);
    } else {
      NextSame(w, u, ok);
      SameRefsCounted(w, Step(w, Next(u, ok)).value);
    }
  }

  lemma PrepareSame(w: World, u: nat, ok: bool)
    requires Shaped(w) && u < |w.updates|
    ensures SameRefs(w, StepPrepare(w, u, ok))
  {
  }

  lemma UnwindSame(w: World, u: nat)
    requires Shaped(w) && u < |w.updates|
    ensures SameRefs(w, StepUnwind(w, u))
  {
  }

  lemma CleanSame(w: World, u: nat)
    requires Shaped(w) && u < |w.updates|
    ensures SameRefs(w, StepClean(w, u))
  {
  }

  lemma SwapSame(w: World, u: nat)
    requires Shaped(w) && u < |w.updates|
    ensures SameRefs(w, StepSwap(w, u))
  {
    var up := w.updates[u];
    assert up.i in up.slots ==> up.slots[up.i := up.slots[up.i].(state := up.slots[up.i].before)].Keys == up.slots.Keys;
  }

  lemma NextSame(w: World, u: nat, ok: bool)
    requires Shaped(w) && Step(w, Next(u, ok)).Some?
    requires var up := w.updates[u]; !(up.phase == Clearing && up.i < |w.kinds| && up.i in up.slots)
    ensures SameRefs(w, Step(w, Next(u, ok)).value)
  {
    match w.updates[u].phase
    case Preparing => PrepareSame(w, u, ok);
    case Unwinding => UnwindSame(w, u);
    case Swapping => SwapSame(w, u);
    case Cleaning => CleanSame(w, u);
    case _ =>
  }

  // ----- every run -----

  lemma ResetCore(kinds: seq<Kind>)
    ensures Core(Reset(kinds)) && AllCounted(Reset(kinds))
  {
    var w := Reset(kinds);
    forall o: nat | o < |kinds| ensures Installed(w, o) && Counted(w, o) {
      assert Holders(w, o) == {} && LinkedStates(w, o) == {};
    }
    forall x: nat | x in w.heap ensures Owned(w, x) { assert IsInstalled(w, x); }
  }

  function Run(kinds: seq<Kind>, actions: seq<Action>): (r: Option<World>)
    ensures r.Some? ==> Core(r.value) && AllCounted(r.value)
  {
    if actions == [] then ResetCore(kinds); Some(Reset(kinds))
    else
      var r := Run(kinds, actions[..|actions| - 1]);
      if r == None then None
      else
        var a := actions[|actions| - 1];
        if Step(r.value, a).Some? then StepCounted(r.value, a); Step(r.value, a) else None
  }

  /** Every live state object has exactly one owner: the device object it is installed in, or one update. */
  lemma OneOwner(kinds: seq<Kind>, actions: seq<Action>, x: nat)
    requires Run(kinds, actions).Some? && x in Run(kinds, actions).value.heap
    ensures var w := Run(kinds, actions).value;
      && (IsInstalled(w, x) <==> !exists u: nat :: Owns(w, u, x))
      && forall u: nat, v: nat :: Owns(w, u, x) && Owns(w, v, x) ==> u == v
  {
    var w := Run(kinds, actions).value;
    assert Owned(w, x);
    forall u: nat | Owns(w, u, x) ensures !IsInstalled(w, x) { assert SlotOk(w, u, w.heap[x].obj); }
  }

  /**
   In no run is a freed state used, an installed one cleaned up, or a state replaced other than the one the update
   was built on; and every state ever destroyed was cleaned up once if it was prepared and not at all if it was
   not, states from reset excepted.
   */
  lemma NoFault(kinds: seq<Kind>, actions: seq<Action>)
    requires Run(kinds, actions).Some?
    ensures var w := Run(kinds, actions).value;
      && !w.fault
      && (forall o: nat :: o < |w.kinds| ==> w.current[o] in w.heap && w.heap[w.current[o]].cleaned == 0)
      && (forall k: nat :: k < |w.graves| ==> w.graves[k].cleaned <= 1 && (w.graves[k].reset || w.graves[k].prepared == w.graves[k].cleaned))
  {
    var w := Run(kinds, actions).value;
    forall o: nat | o < |w.kinds| ensures w.current[o] in w.heap && w.heap[w.current[o]].cleaned == 0 { assert Installed(w, o); }
    forall k: nat | k < |w.graves| ensures Laid(w.graves[k]) {}
  }

  /** Telling an aborted update from a swapped one by comparing pointers is right however many swaps came later. */
  lemma PointerTest(kinds: seq<Kind>, actions: seq<Action>, u: nat, o: nat)
    requires Run(kinds, actions).Some?
    requires var w := Run(kinds, actions).value;
      u < |w.updates| && w.updates[u].phase == Cleaning && o in w.updates[u].slots && o < |w.current|
    ensures var w := Run(kinds, actions).value;
      w.updates[u].slots[o].before == w.current[o] <==> !w.updates[u].swapped
  {
    CleanPicks(Run(kinds, actions).value, u, o);
  }

  /** When every update has been cleared, only installed states are left and connector references are back to rest. */
  lemma NothingLeaks(kinds: seq<Kind>, actions: seq<Action>)
    requires Run(kinds, actions).Some?
    requires forall u: nat :: u < |Run(kinds, actions).value.updates| ==> Run(kinds, actions).value.updates[u].phase == Cleared
    ensures var w := Run(kinds, actions).value;
      && (forall x: nat :: x in w.heap <==> exists o: nat :: o < |w.kinds| && o < |w.current| && w.current[o] == x)
      && (forall o: nat :: o < |w.kinds| && w.kinds[o] == Connector ==>
            o < |w.refs| && o < |w.current| && w.current[o] in w.heap && w.refs[o] == 1 + Weight(w.heap[w.current[o]].linked))
  {
    var w := Run(kinds, actions).value;
    forall u: nat | u < |w.updates| ensures w.updates[u].slots == map[] { assert PhaseOk(w.updates[u]); }
    forall x: nat ensures x in w.heap <==> exists o: nat :: o < |w.kinds| && o < |w.current| && w.current[o] == x {
      if x in w.heap {
        assert Owned(w, x);
        assert Installed(w, w.heap[x].obj);
      }
      if o: nat :| o < |w.kinds| && o < |w.current| && w.current[o] == x { assert Installed(w, o); }
    }
    forall o: nat | o < |w.kinds| && w.kinds[o] == Connector
      ensures w.current[o] in w.heap && w.refs[o] == 1 + Weight(w.heap[w.current[o]].linked)
    {
      RestCount(w, o);
    }
  }

  lemma RestCount(w: World, o: nat)
    requires Core(w) && AllCounted(w) && o < |w.kinds| && w.kinds[o] == Connector
    requires forall u: nat :: u < |w.updates| ==> w.updates[u].slots == map[]
    ensures w.current[o] in w.heap && w.refs[o] == 1 + Weight(w.heap[w.current[o]].linked)
  {
    var x := w.current[o];
    assert Installed(w, o) && Counted(w, o);
    assert Holders(w, o) == {};
    forall y: nat | y in w.heap && w.heap[y].obj == o ensures y == x { assert Owned(w, y); }
    assert LinkedStates(w, o) == if w.heap[x].linked then {x} else {};
  }
}
