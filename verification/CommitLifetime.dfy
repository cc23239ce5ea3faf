/**
 Reference counts of commit objects. Each update creates one object per CRTC and holds it through its slot; a
 pending flip event and every waiter hold one more; the CRTC's list only borrows the slot's reference.
 */
module CommitLifetime {
  import opened Outcomes
  import opened CommitProtocol
  import opened CommitInvariant
  import opened CommitTheorems

  /** The commit object of update t for CRTC c. */
  datatype Key = Key(t: nat, c: nat)

  /** A reference count and how often it has dropped to zero. */
  datatype Ref = Ref(count: int, frees: nat)

  /** `dropped` holds the updates whose submitter has put its reference. */
  datatype Life = Life(sys: Sys, refs: map<Key, Ref>, dropped: set<nat>)

  datatype Event = Protocol(a: Action) | UserPut(t: nat)

  function Get(refs: map<Key, Ref>, k: Key): map<Key, Ref> {
    if k in refs then refs[k := refs[k].(count := refs[k].count + 1)] else refs
  }

  function Put(refs: map<Key, Ref>, k: Key): map<Key, Ref> {
    if k in refs then refs[k := Ref(refs[k].count - 1, refs[k].frees + if refs[k].count == 1 then 1 else 0)] else refs
  }

  /** Clearing an update puts the commit objects in its slots. */
  function PutSlots(refs: map<Key, Ref>, t: nat, crtcs: seq<nat>): map<Key, Ref> {
    if crtcs == [] then refs else PutSlots(Put(refs, Key(t, crtcs[0])), t, crtcs[1..])
  }

  /** The references commit t takes and drops as it advances to dm. */
  function Advanced(l: Life, t: nat, dm: Commit): map<Key, Ref>
    requires Sized(l.sys) && t < |l.sys.commits|
  {
    var cm := l.sys.commits[t];
    if cm.j == |cm.crtcs| then
      // the worker puts the update after its last cleanup_done
      if cm.stage == CLEANUP && t in l.dropped then PutSlots(l.refs, t, cm.crtcs) else l.refs
    else
      var c := cm.crtcs[cm.j];
      if cm.stage == SETUP then
        var r := if cm.wait.Some? then Put(l.refs, Key(cm.wait.value, c)) else l.refs[Key(t, c) := Ref(1, 0)];
        if dm.stage == ABORTED then r
        else if dm.wait.Some? then Get(r, Key(dm.wait.value, c))
        else if c in cm.quiet then r
        else Get(r, Key(t, c))
      else if cm.stage == STALL || cm.stage == DEPS then
        if cm.wait.Some? then Put(l.refs, Key(cm.wait.value, c))
        else if dm.wait.Some? then Get(l.refs, Key(dm.wait.value, c))
        else l.refs
      else l.refs
  }

  function Effects(l: Life, a: Action): map<Key, Ref>
    requires Sized(l.sys) && Step(l.sys, a).Some?
  {
    match a
    case Advance(t) =>
      var z := Step(l.sys, a).value;
      if t < |z.commits| then Advanced(l, t, z.commits[t]) else l.refs
    case Abort(t) =>
      var cm := l.sys.commits[t];
      if cm.wait.Some? && cm.j < |cm.crtcs| then Put(l.refs, Key(cm.wait.value, cm.crtcs[cm.j])) else l.refs
    case Flip(t, c) => Put(l.refs, Key(t, c))
    case _ => l.refs
  }

  function LifeStep(l: Life, e: Event): Option<Life>
    requires Sized(l.sys)
  {
    match e
    case Protocol(a) =>
      if Step(l.sys, a).Some? then Some(Life(Step(l.sys, a).value, Effects(l, a), l.dropped)) else None
    case UserPut(t) =>
      if t < |l.sys.commits| && t !in l.dropped && MayDrop(l.sys.commits[t]) then
        Some(Life(l.sys, if Ended(l.sys.commits[t]) then PutSlots(l.refs, t, l.sys.commits[t].crtcs) else l.refs, l.dropped + {t}))
      else None
  }

  /** The submitter gets control back when the update is aborted or done, or queued to a worker. */
  predicate MayDrop(cm: Commit) {
    Ended(cm) || (cm.nonblock && cm.stage >= DEPS)
  }

  /** A submitter puts its reference once: after the end of a blocking commit, or once a nonblocking one is queued. */
  lemma DropsExactly(l: Life, t: nat)
    requires Sized(l.sys) && t < |l.sys.commits|
    ensures var cm := l.sys.commits[t];
      LifeStep(l, UserPut(t)).Some? <==> t !in l.dropped && (cm.stage == DONE || cm.stage == ABORTED || (cm.nonblock && cm.stage >= DEPS))
    ensures LifeStep(l, UserPut(t)).Some? ==> LifeStep(l, UserPut(t)).value.dropped == l.dropped + {t} && LifeStep(l, UserPut(t)).value.sys == l.sys
  {
  }

  // ----- who holds a commit object -----

  ghost predicate WaitsOn(cm: Commit, k: Key) {
    && cm.stage in {SETUP, STALL, DEPS} && cm.wait == Some(k.t)
    && cm.j < |cm.crtcs| && cm.crtcs[cm.j] == k.c
  }

  ghost function Waiters(cs: seq<Commit>, k: Key): nat {
    if cs == [] then 0 else (if WaitsOn(cs[0], k) then 1 else 0) + Waiters(cs[1..], k)
  }

  /** The slot until the update is cleared, and the event until it is sent. */
  ghost function Own(cm: Commit, dropped: bool, c: nat): nat {
    (if dropped && Ended(cm) then 0 else 1) + (if c in cm.events then 1 else 0)
  }

  ghost function Held(l: Life, k: Key): nat
    requires k.t < |l.sys.commits|
  {
    Own(l.sys.commits[k.t], k.t in l.dropped, k.c) + Waiters(l.sys.commits, k)
  }

  ghost function Account(l: Life, k: Key): Ref
    requires k.t < |l.sys.commits|
  {
    Ref(Held(l, k), if Held(l, k) == 0 then 1 else 0)
  }

  ghost predicate Accounted(l: Life, k: Key) {
    k in l.refs ==> k.t < |l.sys.commits| && k.c in l.sys.commits[k.t].crtcs && l.refs[k] == Account(l, k)
  }

  /** Commit t has created its object for position i. */
  ghost predicate Created(cm: Commit, i: nat) {
    Past(cm, SETUP, i) || (cm.stage == SETUP && cm.j == i && cm.wait.Some?)
  }

  ghost predicate Slots(l: Life, t: nat)
    requires t < |l.sys.commits|
  {
    var cm := l.sys.commits[t];
    && (forall i: nat :: i < |cm.crtcs| && Created(cm, i) ==> Key(t, cm.crtcs[i]) in l.refs)
    && (forall i: nat :: i < |cm.crtcs| && cm.stage == SETUP && !Created(cm, i) ==> Key(t, cm.crtcs[i]) !in l.refs)
    && (t in l.dropped ==> MayDrop(cm))
    && (forall c :: c in cm.events ==> c in cm.crtcs)
  }

  ghost predicate LifeInv(l: Life) {
    && Inv(l.sys)
    && (forall k :: Accounted(l, k))
    && (forall t: nat :: t < |l.sys.commits| ==> Slots(l, t))
    && (forall t :: t in l.dropped ==> t < |l.sys.commits|)
  }

  // ----- counting waiters -----

  lemma {:induction false} WaitersUpdate(cs: seq<Commit>, t: nat, cm: Commit, k: Key)
    requires t < |cs|
    ensures Waiters(cs[t := cm], k) + (if WaitsOn(cs[t], k) then 1 else 0) == Waiters(cs, k) + (if WaitsOn(cm, k) then 1 else 0)
  {
    if t == 0 {
      assert cs[t := cm][1..] == cs[1..];
    } else {
      assert cs[t := cm][1..] == cs[1..][t - 1 := cm];
      WaitersUpdate(cs[1..], t - 1, cm, k);
    }
  }

  lemma {:induction false} WaitersAppend(cs: seq<Commit>, cm: Commit, k: Key)
    ensures Waiters(cs + [cm], k) == Waiters(cs, k) + (if WaitsOn(cm, k) then 1 else 0)
  {
    if cs != [] {
      assert (cs + [cm])[1..] == cs[1..] + [cm];
      WaitersAppend(cs[1..], cm, k);
    }
  }

  /** There is a waiter exactly when some commit waits. */
  lemma {:induction false} WaitersSome(cs: seq<Commit>, k: Key)
    ensures Waiters(cs, k) > 0 <==> exists u: nat :: u < |cs| && WaitsOn(cs[u], k)
  {
    if cs != [] {
      WaitersSome(cs[1..], k);
      if u: nat :| u < |cs| && WaitsOn(cs[u], k) { assert u > 0 ==> WaitsOn(cs[1..][u - 1], k); }
      if u: nat :| u < |cs[1..]| && WaitsOn(cs[1..][u], k) { assert WaitsOn(cs[u + 1], k); }
    }
  }

  lemma Awaited(s: Sys, u: nat, k: Key)
    requires Inv(s) && u < |s.commits| && WaitsOn(s.commits[u], k)
    ensures Swapped(s, k.t, k.c)
  {
    assert Waiting(s, u);
  }

  /** Nobody waits for a commit that is not on any list yet. */
  lemma NoWaiters(s: Sys, k: Key)
    requires Inv(s) && !Swapped(s, k.t, k.c)
    ensures Waiters(s.commits, k) == 0
  {
    WaitersSome(s.commits, k);
    if u: nat :| u < |s.commits| && WaitsOn(s.commits[u], k) { Awaited(s, u, k); }
  }

  lemma {:induction false} PutSlotsAt(refs: map<Key, Ref>, t: nat, crtcs: seq<nat>, k: Key)
    requires Distinct(crtcs)
    ensures k in PutSlots(refs, t, crtcs) <==> k in refs
    ensures k in refs ==> PutSlots(refs, t, crtcs)[k] == if k.t == t && k.c in crtcs then Put(refs, k)[k] else refs[k]
  {
    if crtcs != [] {
      var rest := crtcs[1..];
      assert Distinct(rest) by {
        forall a: nat, b: nat | a < b < |rest| ensures rest[a] != rest[b] { assert crtcs[a + 1] != crtcs[b + 1]; }
      }
      assert crtcs == [crtcs[0]] + rest;
      PutSlotsAt(Put(refs, Key(t, crtcs[0])), t, rest, k);
    }
  }

  // ----- every step keeps the accounts -----

  /** A commit on a list has not been cleared: its slot still holds the object, and the list needs no more. */
  lemma Borrowed(l: Life, t: nat, c: nat)
    requires LifeInv(l) && c < |l.sys.lists| && t in l.sys.lists[c]
    ensures Key(t, c) in l.refs && Swapped(l.sys, t, c) && !(t in l.dropped && Ended(l.sys.commits[t]))
    ensures Held(l, Key(t, c)) == 1 + (if c in l.sys.commits[t].events then 1 else 0) + Waiters(l.sys.commits, Key(t, c))
  {
    var s := l.sys;
    assert ListOk(s, c) && Swapped(s, t, c) && Tracked(s.commits[t], t) && Slots(l, t);
    var i: nat :| i < |s.commits[t].crtcs| && s.commits[t].crtcs[i] == c;
    assert TrackedAt(s.commits[t], i);
  }

  /** Only commit t differs between l and z. */
  ghost predicate Edited(l: Life, z: Life, t: nat) {
    && t < |l.sys.commits| && |z.sys.commits| == |l.sys.commits| && z.dropped == l.dropped
    && z.sys.commits == l.sys.commits[t := z.sys.commits[t]]
    && z.sys.commits[t].crtcs == l.sys.commits[t].crtcs
  }

  lemma HeldEdited(l: Life, z: Life, t: nat, k: Key)
    requires Edited(l, z, t) && k.t < |l.sys.commits|
    ensures Held(z, k) == Held(l, k)
      + (if k.t == t then Own(z.sys.commits[t], t in l.dropped, k.c) - Own(l.sys.commits[t], t in l.dropped, k.c) else 0)
      + (if WaitsOn(z.sys.commits[t], k) then 1 else 0) - (if WaitsOn(l.sys.commits[t], k) then 1 else 0)
  {
    WaitersUpdate(l.sys.commits, t, z.sys.commits[t], k);
  }

  /** The commit goes on without a wait on either side. */
  lemma Steady(l: Life, z: Life, t: nat, k: Key)
    requires Accounted(l, k) && Edited(l, z, t) && z.refs == l.refs
    requires var cm, dm := l.sys.commits[t], z.sys.commits[t];
      && dm.events == cm.events && (Ended(dm) ==> Ended(cm) || t !in l.dropped) && !Ended(cm)
      && (cm.wait == None || cm.stage == CLEANUP) && (dm.wait == None || dm.stage == CLEANUP)
    ensures Accounted(z, k)
  {
    if k in l.refs { HeldEdited(l, z, t, k); }
  }

  /** The commit takes a reference and starts waiting. */
  lemma Blocked(l: Life, z: Life, t: nat, g: Key, k: Key)
    requires Accounted(l, k) && Accounted(l, g) && g in l.refs && Held(l, g) >= 1
    requires Edited(l, z, t) && z.refs == Get(l.refs, g)
    requires l.sys.commits[t].wait == None && z.sys.commits[t] == l.sys.commits[t].(wait := Some(g.t)) && WaitsOn(z.sys.commits[t], g)
    ensures Accounted(z, k)
  {
    if k in l.refs { HeldEdited(l, z, t, k); }
  }

  /** The commit stops waiting and drops its reference. */
  lemma Woken(l: Life, z: Life, t: nat, g: Key, k: Key)
    requires Accounted(l, k) && Edited(l, z, t) && z.refs == Put(l.refs, g) && g in l.refs
    requires var cm, dm := l.sys.commits[t], z.sys.commits[t];
      WaitsOn(cm, g) && dm.wait == None && dm.events == cm.events && !Ended(cm) && (Ended(dm) ==> t !in l.dropped)
    ensures Accounted(z, k)
  {
    if k in l.refs { HeldEdited(l, z, t, k); }
  }

  /** The commit object of t for c is created. */
  lemma Fresh(l: Life, z: Life, t: nat, c: nat, k: Key)
    requires Accounted(l, k) && t < |l.sys.commits| && t !in l.dropped && z == l.(refs := l.refs[Key(t, c) := Ref(1, 0)])
    requires c in l.sys.commits[t].crtcs && c !in l.sys.commits[t].events && Waiters(l.sys.commits, Key(t, c)) == 0
    ensures Accounted(z, k)
  {
  }

  /** The flip event is armed and holds the commit object. */
  lemma Arming(l: Life, z: Life, t: nat, k: Key)
    requires Accounted(l, k) && Edited(l, z, t) && t !in l.dropped
    requires var cm, dm := l.sys.commits[t], z.sys.commits[t];
      && cm.stage == SETUP && cm.wait == None && cm.j < |cm.crtcs| && dm == Armed(cm) && cm.crtcs[cm.j] !in cm.events
      && z.refs == if cm.crtcs[cm.j] in cm.quiet then l.refs else Get(l.refs, Key(t, cm.crtcs[cm.j]))
    ensures Accounted(z, k)
  {
    if k in l.refs { HeldEdited(l, z, t, k); }
  }

  /** The event is sent and its reference dropped. */
  lemma Sent(l: Life, z: Life, t: nat, c: nat, k: Key)
    requires Accounted(l, k) && Edited(l, z, t) && z.refs == Put(l.refs, Key(t, c)) && c in l.sys.commits[t].events
    requires var cm, dm := l.sys.commits[t], z.sys.commits[t];
      dm == cm.(flip := cm.flip + {c}, events := cm.events - {c})
    ensures Accounted(z, k)
  {
    if k in l.refs { HeldEdited(l, z, t, k); }
  }

  /** The worker's put clears an update whose submitter is gone. */
  lemma Cleared(l: Life, z: Life, t: nat, k: Key)
    requires Accounted(l, k) && Edited(l, z, t) && t in l.dropped && Distinct(l.sys.commits[t].crtcs)
    requires z.refs == PutSlots(l.refs, t, l.sys.commits[t].crtcs)
    requires var cm, dm := l.sys.commits[t], z.sys.commits[t];
      !Ended(cm) && Ended(dm) && dm.events == cm.events && cm.wait == None && dm.wait == None
    ensures Accounted(z, k) && (k in z.refs <==> k in l.refs)
  {
    PutSlotsAt(l.refs, t, l.sys.commits[t].crtcs, k);
    if k in l.refs { HeldEdited(l, z, t, k); }
  }

  // ----- steps of a commit -----

  /** What every step of a commit needs to know about it. */
  ghost predicate Facts(l: Life, t: nat) {
    && Sized(l.sys) && t < |l.sys.commits| && StepCommit(l.sys, t).Some?
    && Tracked(l.sys.commits[t], t) && Fits(l.sys.commits[t], |l.sys.lists|) && Slots(l, t)
    && (l.sys.commits[t].wait.Some? && l.sys.commits[t].stage != CLEANUP ==>
          l.sys.commits[t].j < |l.sys.commits[t].crtcs| && Key(l.sys.commits[t].wait.value, l.sys.commits[t].crtcs[l.sys.commits[t].j]) in l.refs)
  }

  lemma Gather(l: Life, t: nat)
    requires LifeInv(l) && t < |l.sys.commits| && StepCommit(l.sys, t).Some?
    ensures Facts(l, t)
  {
    var cm := l.sys.commits[t];
    assert Tracked(cm, t) && Fits(cm, |l.sys.lists|) && Waiting(l.sys, t) && Slots(l, t);
    if cm.wait.Some? && cm.stage != CLEANUP { SwappedCreated(l, cm.wait.value, cm.crtcs[cm.j]); }
  }

  lemma SwappedCreated(l: Life, w: nat, c: nat)
    requires LifeInv(l) && Swapped(l.sys, w, c)
    ensures Key(w, c) in l.refs
  {
    var wm := l.sys.commits[w];
    assert Tracked(wm, w) && Slots(l, w);
    var i: nat :| i < |wm.crtcs| && wm.crtcs[i] == c;
    assert TrackedAt(wm, i) && Created(wm, i);
  }

  /** The object of commit v on the list of c is alive. */
  ghost predicate LentBy(l: Life, v: nat, c: nat) {
    && v < |l.sys.commits| && Key(v, c) in l.refs && Held(l, Key(v, c)) >= 1
    && Accounted(l, Key(v, c)) && c in l.sys.commits[v].swapped
  }

  ghost predicate Lent(l: Life, c: nat) {
    c < |l.sys.lists| && forall b: nat :: b < |l.sys.lists[c]| ==> LentBy(l, l.sys.lists[c][b], c)
  }

  lemma AllLent(l: Life, c: nat)
    requires LifeInv(l) && c < |l.sys.lists|
    ensures Lent(l, c)
  {
    forall b: nat | b < |l.sys.lists[c]| ensures LentBy(l, l.sys.lists[c][b], c) { Borrowed(l, l.sys.lists[c][b], c); }
  }

  lemma WaitBalance(l: Life, t: nat, k: Key)
    requires Facts(l, t) && l.sys.commits[t].stage in {STALL, DEPS} && Accounted(l, k)
    requires l.sys.commits[t].j < |l.sys.commits[t].crtcs| ==> Lent(l, l.sys.commits[t].crtcs[l.sys.commits[t].j])
    ensures Accounted(LifeStep(l, Protocol(Advance(t))).value, k)
  {
    var z := LifeStep(l, Protocol(Advance(t))).value;
    var cm, dm := l.sys.commits[t], z.sys.commits[t];
    if cm.wait.Some? { Woken(l, z, t, Key(cm.wait.value, cm.crtcs[cm.j]), k); }
    else if dm.wait.Some? { Blocked(l, z, t, Key(dm.wait.value, cm.crtcs[cm.j]), k); }
    else { Steady(l, z, t, k); }
  }

  lemma WorkBalance(l: Life, t: nat, k: Key)
    requires Facts(l, t) && l.sys.commits[t].stage in {SWAP, HARDWARE, HW_DONE, CLEANUP} && Accounted(l, k)
    ensures Accounted(LifeStep(l, Protocol(Advance(t))).value, k)
  {
    var z := LifeStep(l, Protocol(Advance(t))).value;
    var cm, dm := l.sys.commits[t], z.sys.commits[t];
    if dm.stage == DONE && t in l.dropped { Cleared(l, z, t, k); } else { Steady(l, z, t, k); }
  }

  /** After waking, a commit in set-up arms its event. */
  lemma SetupWakes(l: Life, t: nat, k: Key)
    requires Facts(l, t) && l.sys.commits[t].stage == SETUP && l.sys.commits[t].wait.Some? && Accounted(l, k)
    ensures Accounted(LifeStep(l, Protocol(Advance(t))).value, k)
  {
    var z := LifeStep(l, Protocol(Advance(t))).value;
    var cm := l.sys.commits[t];
    var g := Key(cm.wait.value, cm.crtcs[cm.j]);
    var m := l.(sys := Set(l.sys, t, cm.(wait := None)), refs := Put(l.refs, g));
    assert TrackedAt(cm, cm.j);
    Woken(l, m, t, g, k);
    assert Set(l.sys, t, Armed(cm)).commits == m.sys.commits[t := Armed(cm)];
    Arming(m, z, t, k);
  }

  /** Creating the object, then refusing, blocking or arming. */
  lemma SetupStarts(l: Life, t: nat, k: Key)
    requires Facts(l, t) && l.sys.commits[t].stage == SETUP && l.sys.commits[t].wait == None
    requires l.sys.commits[t].j < |l.sys.commits[t].crtcs|
    requires var c := l.sys.commits[t].crtcs[l.sys.commits[t].j];
      Lent(l, c) && Waiters(l.sys.commits, Key(t, c)) == 0
    requires Accounted(l, k)
    ensures Accounted(LifeStep(l, Protocol(Advance(t))).value, k)
  {
    var z := LifeStep(l, Protocol(Advance(t))).value;
    var cm, dm := l.sys.commits[t], z.sys.commits[t];
    var c := cm.crtcs[cm.j];
    var m := l.(refs := l.refs[Key(t, c) := Ref(1, 0)]);
    assert TrackedAt(cm, cm.j);
    Fresh(l, m, t, c, k);
    if dm.stage == ABORTED {
      Steady(m, z, t, k);
    } else if dm.wait.Some? {
      Fresh(l, m, t, c, Key(dm.wait.value, c));
      Blocked(m, z, t, Key(dm.wait.value, c), k);
    } else {
      Arming(m, z, t, k);
    }
  }

  lemma SetupBalance(l: Life, t: nat, k: Key)
    requires LifeInv(l) && t < |l.sys.commits| && l.sys.commits[t].stage == SETUP && StepCommit(l.sys, t).Some?
    ensures Accounted(LifeStep(l, Protocol(Advance(t))).value, k)
  {
    var cm := l.sys.commits[t];
    Gather(l, t);
    assert Accounted(l, k);
    if cm.j == |cm.crtcs| {
      Steady(l, LifeStep(l, Protocol(Advance(t))).value, t, k);
    } else if cm.wait.Some? {
      SetupWakes(l, t, k);
    } else {
      assert TrackedAt(cm, cm.j);
      AllLent(l, cm.crtcs[cm.j]);
      NoWaiters(l.sys, Key(t, cm.crtcs[cm.j]));
      SetupStarts(l, t, k);
    }
  }

  lemma AdvanceBalance(l: Life, t: nat, k: Key)
    requires LifeInv(l) && t < |l.sys.commits| && StepCommit(l.sys, t).Some?
    ensures Accounted(LifeStep(l, Protocol(Advance(t))).value, k)
  {
    var cm := l.sys.commits[t];
    Gather(l, t);
    assert Accounted(l, k);
    if cm.stage == SETUP {
      SetupBalance(l, t, k);
    } else if cm.stage in {STALL, DEPS} {
      if cm.j < |cm.crtcs| { AllLent(l, cm.crtcs[cm.j]); }
      WaitBalance(l, t, k);
    } else {
      WorkBalance(l, t, k);
    }
  }

  // ----- slots -----

  lemma SameKeys(refs: map<Key, Ref>, t: nat, crtcs: seq<nat>)
    requires Distinct(crtcs)
    ensures PutSlots(refs, t, crtcs).Keys == refs.Keys
  {
    forall k ensures k in PutSlots(refs, t, crtcs) <==> k in refs { PutSlotsAt(refs, t, crtcs, k); }
  }

  lemma SetupSlots(l: Life, t: nat)
    requires Facts(l, t) && l.sys.commits[t].stage == SETUP
    ensures Slots(LifeStep(l, Protocol(Advance(t))).value, t)
  {
    var z := LifeStep(l, Protocol(Advance(t))).value;
    var cm, dm := l.sys.commits[t], z.sys.commits[t];
    if cm.j < |cm.crtcs| { assert z.refs.Keys == l.refs.Keys + {Key(t, cm.crtcs[cm.j])}; }
    forall i: nat | i < |cm.crtcs|
      ensures Created(dm, i) ==> Key(t, cm.crtcs[i]) in z.refs
      ensures dm.stage == SETUP && !Created(dm, i) ==> Key(t, cm.crtcs[i]) !in z.refs
    {
      assert Created(cm, i) || cm.stage == SETUP;
    }
  }

  lemma LaterSlots(l: Life, t: nat)
    requires Facts(l, t) && l.sys.commits[t].stage > SETUP
    ensures Slots(LifeStep(l, Protocol(Advance(t))).value, t)
    ensures LifeStep(l, Protocol(Advance(t))).value.refs.Keys == l.refs.Keys
  {
    var z := LifeStep(l, Protocol(Advance(t))).value;
    var cm, dm := l.sys.commits[t], z.sys.commits[t];
    SameKeys(l.refs, t, cm.crtcs);
    forall i: nat | i < |cm.crtcs| ensures Key(t, cm.crtcs[i]) in z.refs { assert Created(cm, i); }
  }

  /** What is left to show of a step of commit t once the accounts balance. */
  lemma Rebalanced(l: Life, z: Life, t: nat)
    requires LifeInv(l) && Inv(z.sys)
    requires t < |l.sys.commits| && |z.sys.commits| == |l.sys.commits| && Slots(z, t) && z.sys.commits == l.sys.commits[t := z.sys.commits[t]]
    requires forall k :: Accounted(z, k)
    requires forall k: Key :: k.t != t ==> (k in z.refs <==> k in l.refs)
    requires z.dropped == l.dropped || z.dropped == l.dropped + {t}
    ensures LifeInv(z)
  {
    forall v: nat | v < |z.sys.commits| ensures Slots(z, v) {
      if v != t { assert Slots(l, v) && z.sys.commits[v] == l.sys.commits[v]; }
    }
  }

  lemma AdvanceLife(l: Life, t: nat)
    requires LifeInv(l) && t < |l.sys.commits| && StepCommit(l.sys, t).Some?
    ensures LifeInv(LifeStep(l, Protocol(Advance(t))).value)
  {
    var z := LifeStep(l, Protocol(Advance(t))).value;
    StepInv(l.sys, Advance(t));
    AdvancesOnward(l.sys, t);
    Gather(l, t);
    if l.sys.commits[t].stage == SETUP { SetupSlots(l, t); } else { LaterSlots(l, t); }
    forall k ensures Accounted(z, k) { AdvanceBalance(l, t, k); }
    Rebalanced(l, z, t);
  }

  lemma AbortLife(l: Life, t: nat)
    requires LifeInv(l) && LifeStep(l, Protocol(Abort(t))).Some?
    ensures LifeInv(LifeStep(l, Protocol(Abort(t))).value)
  {
    var z := LifeStep(l, Protocol(Abort(t))).value;
    var cm := l.sys.commits[t];
    StepInv(l.sys, Abort(t));
    assert Tracked(cm, t) && Slots(l, t) && Waiting(l.sys, t);
    if cm.wait.Some? { SwappedCreated(l, cm.wait.value, cm.crtcs[cm.j]); }
    forall k ensures Accounted(z, k) {
      assert Accounted(l, k);
      if cm.wait.Some? { Woken(l, z, t, Key(cm.wait.value, cm.crtcs[cm.j]), k); } else { Steady(l, z, t, k); }
    }
    Rebalanced(l, z, t);
  }

  lemma FlipLife(l: Life, t: nat, c: nat)
    requires LifeInv(l) && LifeStep(l, Protocol(Flip(t, c))).Some?
    ensures LifeInv(LifeStep(l, Protocol(Flip(t, c))).value)
  {
    var z := LifeStep(l, Protocol(Flip(t, c))).value;
    StepInv(l.sys, Flip(t, c));
    assert Slots(l, t);
    forall k ensures Accounted(z, k) { assert Accounted(l, k); Sent(l, z, t, c, k); }
    Rebalanced(l, z, t);
  }

  lemma PutLife(l: Life, t: nat)
    requires LifeInv(l) && LifeStep(l, UserPut(t)).Some?
    ensures LifeInv(LifeStep(l, UserPut(t)).value)
  {
    var z := LifeStep(l, UserPut(t)).value;
    var cm := l.sys.commits[t];
    assert Tracked(cm, t) && Slots(l, t);
    SameKeys(l.refs, t, cm.crtcs);
    forall k ensures Accounted(z, k) {
      assert Accounted(l, k);
      PutSlotsAt(l.refs, t, cm.crtcs, k);
    }
    assert l.sys.commits[t := cm] == l.sys.commits;
    Rebalanced(l, z, t);
  }

  lemma BeginLife(l: Life, a: Action)
    requires LifeInv(l) && a.Begin? && LifeStep(l, Protocol(a)).Some?
    ensures LifeInv(LifeStep(l, Protocol(a)).value)
  {
    var z, n := LifeStep(l, Protocol(a)).value, |l.sys.commits|;
    StepInv(l.sys, a);
    forall k ensures Accounted(z, k) {
      assert Accounted(l, k);
      WaitersAppend(l.sys.commits, z.sys.commits[n], k);
    }
    forall v: nat | v < |z.sys.commits| ensures Slots(z, v) {
      if v < n { assert Slots(l, v); } else { forall c ensures Key(n, c) !in l.refs { assert Accounted(l, Key(n, c)); } }
    }
  }

  lemma LifeStepInv(l: Life, e: Event)
    requires LifeInv(l) && LifeStep(l, e).Some?
    ensures LifeInv(LifeStep(l, e).value)
  {
    match e
    case UserPut(t) => PutLife(l, t);
    case Protocol(a) =>
      match a {
        case Begin(_, _, _) => BeginLife(l, a);
        case Advance(t) => AdvanceLife(l, t);
        case Abort(t) => AbortLife(l, t);
        case Flip(t, c) => FlipLife(l, t, c);
        case Unlock(t) => UnlockLife(l, t);
      }
  }

  lemma UnlockLife(l: Life, t: nat)
    requires LifeInv(l) && LifeStep(l, Protocol(Unlock(t))).Some?
    ensures LifeInv(LifeStep(l, Protocol(Unlock(t))).value)
  {
    var z := LifeStep(l, Protocol(Unlock(t))).value;
    StepInv(l.sys, Unlock(t));
    forall k ensures Accounted(z, k) { assert Accounted(l, k); }
    forall v: nat | v < |z.sys.commits| ensures Slots(z, v) { assert Slots(l, v); }
  }

  // ----- every run -----

  function LifeRun(numCrtcs: nat, events: seq<Event>): (r: Option<Life>)
    ensures r.Some? ==> LifeInv(r.value)
  {
    if events == [] then InitInv(numCrtcs); Some(Life(Init(numCrtcs), map[], {}))
    else
      var r := LifeRun(numCrtcs, events[..|events| - 1]);
      if r == None then None
      else
        var e := events[|events| - 1];
        if LifeStep(r.value, e).Some? then LifeStepInv(r.value, e); LifeStep(r.value, e) else None
  }

  /** The commit object of t for c is on a list, waited for or tied to a pending event. */
  ghost predicate Used(s: Sys, t: nat, c: nat) {
    && t < |s.commits|
    && ((c < |s.lists| && t in s.lists[c]) || c in s.commits[t].events
        || exists u: nat :: u < |s.commits| && WaitsOn(s.commits[u], Key(t, c)))
  }

  lemma UsedHeld(l: Life, t: nat, c: nat)
    requires LifeInv(l) && Used(l.sys, t, c)
    ensures Held(l, Key(t, c)) >= 1
    ensures l.sys.commits[t].stage != ABORTED ==> Key(t, c) in l.refs
  {
    var s, k := l.sys, Key(t, c);
    assert Slots(l, t) && Tracked(s.commits[t], t);
    if c < |s.lists| && t in s.lists[c] {
      Borrowed(l, t, c);
    } else if c in s.commits[t].events {
      var i: nat :| i < |s.commits[t].crtcs| && s.commits[t].crtcs[i] == c;
      assert TrackedAt(s.commits[t], i);
    } else {
      WaitersSome(s.commits, k);
      var u: nat :| u < |s.commits| && WaitsOn(s.commits[u], k);
      assert Waiting(s, u);
      SwappedCreated(l, t, c);
    }
  }

  /** The object is freed at most once, and exactly when its update is cleared and nothing uses it. */
  ghost predicate FreedInTime(l: Life, t: nat, c: nat)
    requires Key(t, c) in l.refs
  {
    var r := l.refs[Key(t, c)];
    && t < |l.sys.commits| && r.count >= 0 && r.frees <= 1 && (r.frees == 1 <==> r.count == 0)
    && (r.frees == 1 <==> t in l.dropped && Ended(l.sys.commits[t]) && !Used(l.sys, t, c))
  }

  /**
   Whatever is still used is alive, though the list itself counts for nothing; and the object is freed, once,
   exactly when its update has been cleared, its event sent and its last waiter gone.
   */
  lemma Lifetime(n: nat, events: seq<Event>, t: nat, c: nat)
    requires LifeRun(n, events).Some?
    ensures var l := LifeRun(n, events).value;
      && (Used(l.sys, t, c) && l.sys.commits[t].stage != ABORTED ==> Key(t, c) in l.refs && l.refs[Key(t, c)].count >= 1)
      && (Key(t, c) in l.refs ==> FreedInTime(l, t, c))
  {
    LifetimeAt(LifeRun(n, events).value, t, c);
  }

  lemma LifetimeAt(l: Life, t: nat, c: nat)
    requires LifeInv(l)
    ensures Used(l.sys, t, c) && l.sys.commits[t].stage != ABORTED ==> Key(t, c) in l.refs && l.refs[Key(t, c)].count >= 1
    ensures Key(t, c) in l.refs ==> FreedInTime(l, t, c)
  {
    var k := Key(t, c);
    assert Accounted(l, k);
    if Used(l.sys, t, c) { UsedHeld(l, t, c); }
    if k in l.refs { WaitersSome(l.sys.commits, k); }
  }

  /** The abort path leaves the event's reference: a cleared, aborted object is freed iff no event was armed for it. */
  lemma AbortLeak(n: nat, events: seq<Event>, t: nat, c: nat)
    requires LifeRun(n, events).Some? && Key(t, c) in LifeRun(n, events).value.refs
    requires var l := LifeRun(n, events).value; t < |l.sys.commits| && l.sys.commits[t].stage == ABORTED && t in l.dropped
    ensures var l := LifeRun(n, events).value; l.refs[Key(t, c)].frees == 1 <==> c !in l.sys.commits[t].events
  {
    var l := LifeRun(n, events).value;
    LifetimeAt(l, t, c);
    AbortedUnused(l.sys, t, c);
  }

  lemma SwappedLate(cm: Commit, t: nat, c: nat)
    requires Tracked(cm, t) && c in cm.swapped
    ensures cm.stage >= SWAP
  {
    var i: nat :| i < |cm.crtcs| && cm.crtcs[i] == c;
    assert TrackedAt(cm, i);
  }

  lemma AbortedUnused(s: Sys, t: nat, c: nat)
    requires Inv(s) && t < |s.commits| && s.commits[t].stage == ABORTED
    ensures Used(s, t, c) <==> c in s.commits[t].events
  {
    var cm := s.commits[t];
    assert Tracked(cm, t);
    if c in cm.swapped { SwappedLate(cm, t, c); }
    assert !Swapped(s, t, c);
    if c < |s.lists| { assert ListOk(s, c); }
    NoWaiters(s, Key(t, c));
    WaitersSome(s.commits, Key(t, c));
  }

  lemma LifeRunAppend(n: nat, events: seq<Event>, e: Event)
    requires LifeRun(n, events).Some?
    ensures LifeRun(n, events + [e]) == LifeStep(LifeRun(n, events).value, e)
  {
    assert (events + [e])[..|events|] == events;
  }

  /** Update t was aborted and cleared, and its object for CRTC c still has a reference. */
  ghost predicate Leaked(l: Life, t: nat, c: nat) {
    && t < |l.sys.commits| && l.sys.commits[t].stage == ABORTED && t in l.dropped
    && Key(t, c) in l.refs && l.refs[Key(t, c)].frees == 0 && l.refs[Key(t, c)].count > 0
  }

  /** A commit on the only CRTC of a device at stage `stage`, its event armed or not, with its object's count. */
  function Lone(stage: nat, j: nat, armed: bool, locked: bool, count: int, dropped: bool): Life {
    Life(Sys([Commit([0], {}, false, stage, j, None, {}, {}, {}, {}, {}, if armed then {0} else {}, 0)],
             [[]], [None], [if locked then Some(0) else None], 0),
         if armed then map[Key(0, 0) := Ref(count, 0)] else map[],
         if dropped then {0} else {})
  }

  lemma LoneBegins()
    ensures LifeStep(Life(Init(1), map[], {}), Protocol(Begin([0], {}, false))) == Some(Lone(SETUP, 0, false, true, 0, false))
  {
    var l, z := Lone(SETUP, 0, false, true, 0, false), LifeStep(Life(Init(1), map[], {}), Protocol(Begin([0], {}, false))).value;
    assert z.sys.commits == l.sys.commits && z.sys.lists == l.sys.lists && z.sys.current == l.sys.current && z.sys.owner == l.sys.owner;
  }

  lemma LoneArms()
    ensures LifeStep(Lone(SETUP, 0, false, true, 0, false), Protocol(Advance(0))) == Some(Lone(SETUP, 1, true, true, 2, false))
  {
    var l, z := Lone(SETUP, 1, true, true, 2, false), LifeStep(Lone(SETUP, 0, false, true, 0, false), Protocol(Advance(0))).value;
    assert z.sys.commits[0] == l.sys.commits[0] && z.sys.commits == l.sys.commits && z.refs == l.refs;
  }

  lemma LoneAborts()
    ensures LifeStep(Lone(SETUP, 1, true, true, 2, false), Protocol(Abort(0))) == Some(Lone(ABORTED, 0, true, false, 2, false))
  {
    var l, z := Lone(ABORTED, 0, true, false, 2, false), LifeStep(Lone(SETUP, 1, true, true, 2, false), Protocol(Abort(0))).value;
    assert z.sys.commits == l.sys.commits && z.sys.owner == l.sys.owner;
  }

  lemma LoneCleared()
    ensures LifeStep(Lone(ABORTED, 0, true, false, 2, false), UserPut(0)) == Some(Lone(ABORTED, 0, true, false, 1, true))
  {
    var k := Lone(ABORTED, 0, true, false, 2, false);
    var l, z := Lone(ABORTED, 0, true, false, 1, true), LifeStep(k, UserPut(0)).value;
    assert PutSlots(k.refs, 0, [0]) == PutSlots(Put(k.refs, Key(0, 0)), 0, [0][1..]) == Put(k.refs, Key(0, 0));
    assert z.refs == l.refs && z.dropped == l.dropped;
  }

  /** The leak is real: one commit armed, aborted and cleared leaves an object nobody will free. */
  lemma AbortLeaks()
    ensures var e := [Protocol(Begin([0], {}, false)), Protocol(Advance(0)), Protocol(Abort(0)), UserPut(0)];
      LifeRun(1, e).Some? && Leaked(LifeRun(1, e).value, 0, 0)
  {
    var a, b, c, d := Protocol(Begin([0], {}, false)), Protocol(Advance(0)), Protocol(Abort(0)), UserPut(0);
    LoneBegins();
    LoneArms();
    LoneAborts();
    LoneCleared();
    LifeRunAppend(1, [], a);
    LifeRunAppend(1, [] + [a], b);
    LifeRunAppend(1, [] + [a] + [b], c);
    LifeRunAppend(1, [] + [a] + [b] + [c], d);
    assert [a, b, c, d] == [] + [a] + [b] + [c] + [d];
  }
}
