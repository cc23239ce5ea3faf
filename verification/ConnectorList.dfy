/**
 Walking the connector list while connectors come and go. The list lock is held for one call of the iterator;
 references come and go without it, so a connector can die while an iterator is looking at the list.
 */
module ConnectorList {
  import opened Outcomes

  datatype Phase = Idle | Looking | Dropping | Ended

  /**
   One iterator. It holds a reference on `cur` and, during a call, still one on `prev`; `pos` is the entry it has
   come to, or -1 at the head. `returned` lists what its calls have returned; `done` is set when a call has
   reached the end, to the number of connectors there had been by then.
   */
  datatype Iter = Iter(phase: Phase, cur: Option<nat>, prev: Option<nat>, pos: int, returned: seq<nat>, done: Option<nat>)

  /**
   Connectors are numbered in the order they were added; `list` holds those not unlinked yet, `refs` the reference
   counts and `users` the references held by anything but iterators. `fault` records that an iterator has followed
   the link of an entry that is no longer on the list.
   */
  datatype Sys = Sys(list: seq<nat>, refs: seq<int>, users: seq<nat>, iters: seq<Iter>, lock: Option<nat>, fault: bool)

  datatype Action =
    | Add
    | Get(k: nat)
    | Put(k: nat)
    | Unlink(k: nat)
    | Begin
    | Next(i: nat)
    | Look(i: nat)
    | Drop(i: nat)
    | End(i: nat)

  const Empty: Sys := Sys([], [], [], [], None, false)

  function Ref(refs: seq<int>, k: Option<nat>, n: int): seq<int> {
    if k.Some? && k.value < |refs| then refs[k.value := refs[k.value] + n] else refs
  }

  /** The entry the link of `pos` leads to; -1 is the head of the list. */
  function Successor(list: seq<nat>, pos: int): Option<nat> {
    if list == [] then None
    else if pos == -1 then Some(list[0])
    else if list[0] == pos then Successor(list[1..], -1)
    else Successor(list[1..], pos)
  }

  /** The first entry numbered above pos. */
  ghost function After(list: seq<nat>, pos: int): (r: Option<nat>)
    ensures r.Some? ==> r.value in list && r.value > pos
  {
    if list == [] then None else if list[0] > pos then Some(list[0]) else After(list[1..], pos)
  }

  function Without(list: seq<nat>, k: nat): (r: seq<nat>)
    ensures forall x :: x in r <==> x in list && x != k
  {
    if list == [] then [] else if list[0] == k then Without(list[1..], k) else [list[0]] + Without(list[1..], k)
  }

  /** One round of the search: reach the end, take the next connector if it is alive, or pass over it. */
  function StepLook(s: Sys, i: nat): Sys
    requires i < |s.iters|
  {
    var it, next := s.iters[i], Successor(s.list, s.iters[i].pos);
    if it.pos != -1 && it.pos !in s.list then s.(fault := true)
    else if next == None then
      s.(iters := s.iters[i := it.(phase := Dropping, cur := None, done := Some(|s.refs|))], lock := None)
    else if next.value < |s.refs| && s.refs[next.value] > 0 then
      s.(iters := s.iters[i := it.(phase := Dropping, cur := next, pos := next.value, returned := it.returned + [next.value])],
         refs := Ref(s.refs, next, 1), lock := None)
    else s.(iters := s.iters[i := it.(pos := next.value)])
  }

  function Step(s: Sys, a: Action): Option<Sys> {
    match a
    case Add => if s.lock == None then Some(s.(list := s.list + [|s.refs|], refs := s.refs + [1], users := s.users + [1])) else None
    case Get(k) =>
      if k < |s.refs| && k < |s.users| && s.refs[k] > 0 then
        Some(s.(refs := s.refs[k := s.refs[k] + 1], users := s.users[k := s.users[k] + 1]))
      else None
    case Put(k) =>
      if k < |s.refs| && k < |s.users| && s.users[k] > 0 then
        Some(s.(refs := s.refs[k := s.refs[k] - 1], users := s.users[k := s.users[k] - 1]))
      else None
    case Unlink(k) =>
      if s.lock == None && k < |s.refs| && s.refs[k] == 0 && k in s.list then Some(s.(list := Without(s.list, k))) else None
    case Begin => Some(s.(iters := s.iters + [Iter(Idle, None, None, -1, [], None)]))
    case Next(i) =>
      if i < |s.iters| && s.lock == None && s.iters[i].phase == Idle && s.iters[i].done == None then
        Some(s.(iters := s.iters[i := s.iters[i].(phase := Looking, cur := None, prev := s.iters[i].cur,
                                                          pos := if s.iters[i].cur.Some? then s.iters[i].cur.value else -1)], lock := Some(i)))
      else None
    case Look(i) => if i < |s.iters| && s.iters[i].phase == Looking then Some(StepLook(s, i)) else None
    case Drop(i) =>
      if i < |s.iters| && s.iters[i].phase == Dropping then
        Some(s.(iters := s.iters[i := s.iters[i].(phase := Idle, prev := None)], refs := Ref(s.refs, s.iters[i].prev, -1)))
      else None
    case End(i) =>
      if i < |s.iters| && s.iters[i].phase == Idle then
        Some(s.(iters := s.iters[i := s.iters[i].(phase := Ended, cur := None)], refs := Ref(s.refs, s.iters[i].cur, -1)))
      else None
  }

  // ----- the invariant -----

  ghost predicate Ascending(l: seq<nat>) {
    forall a: nat, b: nat :: a < b < |l| ==> l[a] < l[b]
  }

  ghost function Holds(it: Iter, k: nat): nat {
    (if it.cur == Some(k) then 1 else 0) + (if it.prev == Some(k) then 1 else 0)
  }

  ghost function Held(iters: seq<Iter>, k: nat): nat {
    if iters == [] then 0 else Holds(iters[0], k) + Held(iters[1..], k)
  }

  ghost predicate Alive(s: Sys, k: nat) {
    k < |s.refs| && s.refs[k] > 0
  }

  /** Every reference is accounted for, and what is alive is on the list. */
  ghost predicate Counted(s: Sys, k: nat)
    requires |s.users| == |s.refs| && k < |s.refs|
  {
    s.refs[k] == s.users[k] + Held(s.iters, k) && (s.refs[k] > 0 ==> k in s.list)
  }

  /** Everything alive up to where the iterator has come has been returned, in order. */
  ghost predicate IterOk(s: Sys, it: Iter) {
    && Ascending(it.returned) && (forall a: nat :: a < |it.returned| ==> it.returned[a] <= it.pos)
    && -1 <= it.pos < |s.refs|
    && (forall k: nat :: k <= it.pos && Alive(s, k) ==> k in it.returned)
    && (it.done.Some? ==> it.done.value <= |s.refs| && it.phase != Looking && forall k: nat :: k < it.done.value && Alive(s, k) ==> k in it.returned)
    && (it.cur.Some? ==> it.cur == Some(it.pos) && it.returned != [] && it.returned[|it.returned| - 1] == it.pos && it.phase in {Idle, Dropping})
    && (it.prev.Some? ==> it.prev.value < |s.refs| && it.phase in {Looking, Dropping})
    && (it.phase in {Idle, Dropping} && it.done == None && it.cur == None ==> it.pos == -1)
  }

  ghost predicate ListOk(s: Sys) {
    && |s.users| == |s.refs| && Ascending(s.list)
    && (forall a: nat :: a < |s.list| ==> s.list[a] < |s.refs|)
  }

  /** An iterator that is looking has the list lock and stands on the list. */
  ghost predicate Standing(s: Sys, i: nat)
    requires i < |s.iters|
  {
    s.iters[i].phase == Looking ==> s.lock == Some(i) && (s.iters[i].pos == -1 || s.iters[i].pos in s.list)
  }

  ghost predicate Inv(s: Sys) {
    && ListOk(s) && !s.fault
    && (forall i: nat :: i < |s.iters| ==> Standing(s, i))
    && (forall k: nat :: k < |s.refs| ==> Counted(s, k))
    && (forall i: nat :: i < |s.iters| ==> IterOk(s, s.iters[i]))
  }

  // ----- helpers -----

  /** Numbers grow along the list, so the entry linked to is the first with a greater number. */
  lemma {:induction false} LinkIsAfter(list: seq<nat>, pos: int)
    requires Ascending(list) && (pos == -1 || pos in list)
    ensures Successor(list, pos) == After(list, pos)
  {
    if list != [] && pos != -1 {
      var rest := list[1..];
      assert list == [list[0]] + rest;
      forall a: nat, b: nat | a < b < |rest| ensures rest[a] < rest[b] { assert list[a + 1] < list[b + 1]; }
      if list[0] == pos {
        LinkIsAfter(rest, -1);
        if rest != [] { assert list[0] < list[1]; }
      } else {
        assert pos in rest;
        var b: nat :| b < |rest| && rest[b] == pos;
        assert list[0] < list[b + 1];
        LinkIsAfter(rest, pos);
      }
    }
  }

  lemma {:induction false} AfterFirst(list: seq<nat>, pos: int, k: nat)
    requires Ascending(list) && k in list && k > pos
    ensures After(list, pos).Some? && After(list, pos).value <= k
  {
    var rest := list[1..];
    assert list == [list[0]] + rest;
    if list[0] <= pos {
      assert Ascending(rest) by {
        forall a: nat, b: nat | a < b < |rest| ensures rest[a] < rest[b] { assert list[a + 1] < list[b + 1]; }
      }
      AfterFirst(rest, pos, k);
    } else if k != list[0] {
      var a: nat :| a < |rest| && rest[a] == k;
      assert list[0] < list[a + 1];
    }
  }

  lemma {:induction false} WithoutAscending(list: seq<nat>, k: nat)
    requires Ascending(list)
    ensures Ascending(Without(list, k))
  {
    if list != [] {
      var rest := list[1..];
      assert Ascending(rest) by {
        forall a: nat, b: nat | a < b < |rest| ensures rest[a] < rest[b] { assert list[a + 1] < list[b + 1]; }
      }
      WithoutAscending(rest, k);
      var w := Without(rest, k);
      forall a: nat | a < |w| ensures list[0] < w[a] {
        assert w[a] in rest;
        var b: nat :| b < |rest| && rest[b] == w[a];
        assert list[0] < list[b + 1];
      }
    }
  }

  lemma {:induction false} HeldUpdate(iters: seq<Iter>, i: nat, it: Iter, k: nat)
    requires i < |iters|
    ensures Held(iters[i := it], k) + Holds(iters[i], k) == Held(iters, k) + Holds(it, k)
  {
    if i == 0 {
      assert iters[i := it][1..] == iters[1..];
    } else {
      assert iters[i := it][1..] == iters[1..][i - 1 := it];
      HeldUpdate(iters[1..], i - 1, it, k);
    }
  }

  lemma {:induction false} HeldAppend(iters: seq<Iter>, it: Iter, k: nat)
    ensures Held(iters + [it], k) == Held(iters, k) + Holds(it, k)
  {
    if iters != [] {
      assert (iters + [it])[1..] == iters[1..] + [it];
      HeldAppend(iters[1..], it, k);
    } else {
      assert iters + [it] == [it];
    }
  }

  lemma {:induction false} HeldAtLeast(iters: seq<Iter>, i: nat, k: nat)
    requires i < |iters|
    ensures Held(iters, k) >= Holds(iters[i], k)
  {
    if i > 0 { HeldAtLeast(iters[1..], i - 1, k); }
  }

  /** An iterator that has nothing beyond the known connectors holds none that is yet to come. */
  lemma {:induction false} HeldNone(s: Sys, iters: seq<Iter>, k: nat)
    requires k >= |s.refs| && forall i: nat :: i < |iters| ==> IterOk(s, iters[i])
    ensures Held(iters, k) == 0
  {
    if iters != [] {
      assert IterOk(s, iters[0]);
      HeldNone(s, iters[1..], k);
    }
  }

  // ----- steps -----

  /** Connectors only die, none comes back, and none that an iterator has passed is new. */
  lemma KeepsIter(s: Sys, z: Sys, it: Iter)
    requires IterOk(s, it) && |z.refs| >= |s.refs|
    requires forall k: nat :: k < |s.refs| && Alive(z, k) ==> Alive(s, k)
    ensures IterOk(z, it)
  {
  }

  lemma AddInv(s: Sys)
    requires Inv(s) && Step(s, Add).Some?
    ensures Inv(Step(s, Add).value)
  {
    var z, n := Step(s, Add).value, |s.refs|;
    forall k: nat | k < |z.refs| ensures Counted(z, k) {
      if k < n { assert Counted(s, k); } else { HeldNone(s, s.iters, n); }
    }
    forall i: nat | i < |z.iters| ensures IterOk(z, z.iters[i]) && Standing(z, i) {
      assert Standing(s, i);
      KeepsIter(s, z, s.iters[i]);
    }
  }

  /** A reference is taken or dropped outside the iterators. */
  lemma UserInv(s: Sys, a: Action)
    requires Inv(s) && (a.Get? || a.Put?) && Step(s, a).Some?
    ensures Inv(Step(s, a).value)
  {
    var z := Step(s, a).value;
    assert Counted(s, a.k);
    forall k: nat | k < |z.refs| ensures Counted(z, k) { assert Counted(s, k); }
    forall i: nat | i < |z.iters| ensures IterOk(z, z.iters[i]) && Standing(z, i) {
      assert Standing(s, i);
      KeepsIter(s, z, s.iters[i]);
    }
  }

  lemma UnlinkInv(s: Sys, k: nat)
    requires Inv(s) && Step(s, Unlink(k)).Some?
    ensures Inv(Step(s, Unlink(k)).value)
  {
    var z := Step(s, Unlink(k)).value;
    WithoutAscending(s.list, k);
    forall a: nat | a < |z.list| ensures z.list[a] < |z.refs| { assert z.list[a] in s.list; }
    forall j: nat | j < |z.refs| ensures Counted(z, j) { assert Counted(s, j); }
    forall i: nat | i < |z.iters| ensures IterOk(z, z.iters[i]) && Standing(z, i) {
      assert Standing(s, i);
      KeepsIter(s, z, s.iters[i]);
    }
  }

  lemma BeginInv(s: Sys)
    requires Inv(s)
    ensures Inv(Step(s, Begin).value)
  {
    var z := Step(s, Begin).value;
    forall k: nat | k < |z.refs| ensures Counted(z, k) {
      assert Counted(s, k);
      HeldAppend(s.iters, z.iters[|s.iters|], k);
    }
    forall i: nat | i < |z.iters| ensures IterOk(z, z.iters[i]) && Standing(z, i) {
      if i < |s.iters| {
        assert Standing(s, i);
        KeepsIter(s, z, s.iters[i]);
      }
    }
  }

  /** A step of iterator i that changes references only by what it holds. */
  lemma IterInv(s: Sys, z: Sys, i: nat)
    requires Inv(s) && i < |s.iters| && |z.iters| == |s.iters| && z.iters == s.iters[i := z.iters[i]]
    requires z.list == s.list && z.users == s.users && |z.refs| == |s.refs| && IterOk(z, z.iters[i]) && Standing(z, i)
    requires !z.fault && (z.lock == s.lock || s.lock == None || s.lock == Some(i))
    requires forall k: nat :: k < |s.refs| ==> z.refs[k] - s.refs[k] == Holds(z.iters[i], k) - Holds(s.iters[i], k)
    requires forall k: nat :: k < |s.refs| && Alive(z, k) ==> Alive(s, k)
    ensures Inv(z)
  {
    forall k: nat | k < |z.refs| ensures Counted(z, k) {
      assert Counted(s, k);
      assert Alive(z, k) ==> Alive(s, k);
      HeldUpdate(s.iters, i, z.iters[i], k);
    }
    forall j: nat | j < |z.iters| ensures IterOk(z, z.iters[j]) && Standing(z, j) {
      if j != i {
        assert Standing(s, j);
        KeepsIter(s, z, s.iters[j]);
      }
    }
  }

  /** The iterator's current connector is alive, so it is still on the list when the next call starts from it. */
  lemma NextInv(s: Sys, i: nat)
    requires Inv(s) && Step(s, Next(i)).Some?
    ensures Inv(Step(s, Next(i)).value)
  {
    var it := s.iters[i];
    assert IterOk(s, it);
    if it.cur.Some? {
      assert Counted(s, it.cur.value);
      HeldAtLeast(s.iters, i, it.cur.value);
    }
    IterInv(s, Step(s, Next(i)).value, i);
  }

  lemma DropInv(s: Sys, a: Action)
    requires Inv(s) && (a.Drop? || a.End?) && Step(s, a).Some?
    ensures Inv(Step(s, a).value)
  {
    var z := Step(s, a).value;
    assert IterOk(s, s.iters[a.i]) && Standing(s, a.i);
    KeepsIter(s, z, s.iters[a.i]);
    IterInv(s, z, a.i);
  }

  /** Nothing that is alive lies between the entry the search has come to and the next one. */
  ghost predicate NextAlive(s: Sys, pos: int) {
    forall k: nat :: k > pos && Alive(s, k) ==> After(s.list, pos).Some? && After(s.list, pos).value <= k
  }

  lemma Skips(s: Sys, pos: int)
    requires Inv(s)
    ensures NextAlive(s, pos)
  {
    forall k: nat | k > pos && Alive(s, k) ensures After(s.list, pos).Some? && After(s.list, pos).value <= k {
      assert Counted(s, k);
      AfterFirst(s.list, pos, k);
    }
  }

  ghost predicate MayLook(s: Sys, i: nat) {
    && ListOk(s) && !s.fault && i < |s.iters| && s.iters[i].phase == Looking && IterOk(s, s.iters[i]) && Standing(s, i)
    && NextAlive(s, s.iters[i].pos) && Successor(s.list, s.iters[i].pos) == After(s.list, s.iters[i].pos)
  }

  lemma LookEnds(s: Sys, i: nat)
    requires MayLook(s, i) && After(s.list, s.iters[i].pos) == None
    ensures IterOk(StepLook(s, i), StepLook(s, i).iters[i])
  {
    var z, it := StepLook(s, i), s.iters[i];
    forall k: nat | Alive(z, k) ensures k in it.returned { assert Alive(s, k); }
  }

  lemma LookPasses(s: Sys, i: nat)
    requires MayLook(s, i) && After(s.list, s.iters[i].pos).Some? && !Alive(s, After(s.list, s.iters[i].pos).value)
    ensures IterOk(StepLook(s, i), StepLook(s, i).iters[i])
  {
    var z, it, next := StepLook(s, i), s.iters[i], After(s.list, s.iters[i].pos).value;
    var a: nat :| a < |s.list| && s.list[a] == next;
    forall k: nat | k <= next && Alive(z, k) ensures k in it.returned { assert Alive(s, k); }
  }

  lemma LookTakes(s: Sys, i: nat)
    requires MayLook(s, i) && After(s.list, s.iters[i].pos).Some? && Alive(s, After(s.list, s.iters[i].pos).value)
    ensures IterOk(StepLook(s, i), StepLook(s, i).iters[i])
  {
    var z, it, next := StepLook(s, i), s.iters[i], After(s.list, s.iters[i].pos).value;
    forall k: nat | k <= next && Alive(z, k) ensures k in z.iters[i].returned { assert Alive(s, k); }
  }

  lemma LookIter(s: Sys, i: nat)
    requires MayLook(s, i)
    ensures IterOk(StepLook(s, i), StepLook(s, i).iters[i]) && Standing(StepLook(s, i), i) && !StepLook(s, i).fault
  {
    var next := After(s.list, s.iters[i].pos);
    if next == None { LookEnds(s, i); } else if Alive(s, next.value) { LookTakes(s, i); } else { LookPasses(s, i); }
  }

  lemma LookInv(s: Sys, i: nat)
    requires Inv(s) && i < |s.iters| && s.iters[i].phase == Looking
    ensures Inv(StepLook(s, i))
  {
    Skips(s, s.iters[i].pos);
    assert IterOk(s, s.iters[i]) && Standing(s, i);
    LinkIsAfter(s.list, s.iters[i].pos);
    LookIter(s, i);
    IterInv(s, StepLook(s, i), i);
  }

  lemma StepInv(s: Sys, a: Action)
    requires Inv(s) && Step(s, a).Some?
    ensures Inv(Step(s, a).value)
  {
    match a
    case Add => AddInv(s);
    case Get(_) => UserInv(s, a);
    case Put(_) => UserInv(s, a);
    case Unlink(k) => UnlinkInv(s, k);
    case Begin => BeginInv(s);
    case Look(i) => LookInv(s, i);
    case Next(i) => NextInv(s, i);
    case _ => DropInv(s, a);
  }

  function Run(actions: seq<Action>): (r: Option<Sys>)
    ensures r.Some? ==> Inv(r.value)
  {
    if actions == [] then Some(Empty)
    else
      var r := Run(actions[..|actions| - 1]);
      if r == None then None
      else
        var a := actions[|actions| - 1];
        if Step(r.value, a).Some? then StepInv(r.value, a); Step(r.value, a) else None
  }

  // ----- what a walk promises -----

  /** The iterator is at a connector that is alive, on the list and held once by the iterator. */
  ghost predicate At(s: Sys, it: Iter, k: nat) {
    Alive(s, k) && k in s.list && Holds(it, k) == 1 && it.returned != [] && it.returned[|it.returned| - 1] == k
  }

  /**
   However connectors come and go, an iterator returns each at most once and in list order; the one it is at is
   alive, on the list, and held by exactly one reference of the iterator's; and a walk that has reached the end
   has returned every connector that is still alive.
   */
  lemma Walk(actions: seq<Action>, i: nat)
    requires Run(actions).Some? && i < |Run(actions).value.iters|
    ensures var s := Run(actions).value; var it := s.iters[i];
      && !s.fault && (forall a: nat, b: nat :: a < b < |it.returned| ==> it.returned[a] < it.returned[b])
      && (it.phase == Idle && it.cur.Some? ==> At(s, it, it.cur.value))
      && (it.done.Some? ==> forall k: nat :: k < it.done.value && Alive(s, k) ==> k in it.returned)
      && (it.phase == Looking ==> it.pos == -1 || it.pos in s.list)
  {
    WalkAt(Run(actions).value, i);
  }

  lemma WalkAt(s: Sys, i: nat)
    requires Inv(s) && i < |s.iters|
    ensures Ascending(s.iters[i].returned) && (s.iters[i].phase == Looking ==> s.iters[i].pos == -1 || s.iters[i].pos in s.list)
    ensures s.iters[i].phase == Idle && s.iters[i].cur.Some? ==> At(s, s.iters[i], s.iters[i].cur.value)
    ensures s.iters[i].done.Some? ==> forall k: nat :: k < s.iters[i].done.value && Alive(s, k) ==> k in s.iters[i].returned
  {
    var it := s.iters[i];
    assert IterOk(s, it) && Standing(s, i);
    if it.cur.Some? {
      assert Counted(s, it.cur.value);
      HeldAtLeast(s.iters, i, it.cur.value);
    }
  }

  lemma DeadStays(s: Sys, a: Action, k: nat)
    requires Inv(s) && Step(s, a).Some?
    ensures |s.refs| <= |Step(s, a).value.refs|
    ensures k < |s.refs| && Alive(Step(s, a).value, k) ==> Alive(s, k)
  {
    if k < |s.refs| { assert Counted(s, k); }
  }

  /** Once dead a connector stays dead, so what is alive when a walk ends has been alive throughout. */
  lemma {:induction false} DeadForGood(before: seq<Action>, after: seq<Action>, k: nat)
    requires Run(before + after).Some?
    ensures Run(before).Some? && |Run(before).value.refs| <= |Run(before + after).value.refs|
    ensures k < |Run(before).value.refs| && Alive(Run(before + after).value, k) ==> Alive(Run(before).value, k)
  {
    if after == [] {
      assert before + after == before;
    } else {
      var shorter := after[..|after| - 1];
      assert (before + after)[..|before + after| - 1] == before + shorter;
      DeadForGood(before, shorter, k);
      DeadStays(Run(before + shorter).value, after[|after| - 1], k);
    }
  }

  // ----- what one round of a call does -----

  /** The call has come to the end: nothing is beyond, and everything alive has been returned by now. */
  ghost predicate CameToEnd(s: Sys, z: Sys, i: nat)
    requires i < |s.iters| && i < |z.iters|
  {
    && z.refs == s.refs && (forall k: nat :: k in s.list ==> k <= s.iters[i].pos)
    && z.iters[i].returned == s.iters[i].returned && z.iters[i].done == Some(|s.refs|)
    && (forall k: nat :: Alive(s, k) ==> k in z.iters[i].returned)
  }

  /** The call returns connector k, the next one alive, with a reference on it. */
  ghost predicate CameTo(s: Sys, z: Sys, i: nat, k: nat)
    requires i < |s.iters| && i < |z.iters|
  {
    && Alive(s, k) && k in s.list && k > s.iters[i].pos && (forall j: nat :: s.iters[i].pos < j < k ==> !Alive(s, j))
    && z.iters[i].returned == s.iters[i].returned + [k] && z.iters[i].done == s.iters[i].done
    && z.refs == s.refs[k := s.refs[k] + 1]
  }

  /** The call goes on behind a dead connector. */
  ghost predicate CamePast(s: Sys, z: Sys, i: nat)
    requires i < |s.iters| && i < |z.iters|
  {
    && z.iters[i] == s.iters[i].(pos := z.iters[i].pos) && s.iters[i].pos < z.iters[i].pos < |s.refs|
    && z.iters[i].pos in s.list && !Alive(s, z.iters[i].pos) && z.refs == s.refs && z.lock == s.lock
  }

  /** One round either comes to the end, and only with nothing alive left out, or returns the next connector alive, or passes a dead one. */
  lemma LookOutcome(s: Sys, i: nat)
    requires Inv(s) && Step(s, Look(i)).Some?
    ensures var z := Step(s, Look(i)).value;
      && |z.iters| == |s.iters| && z.list == s.list && z.users == s.users
      && match z.iters[i].phase
         case Dropping => z.lock == None && if z.iters[i].cur == None then CameToEnd(s, z, i) else CameTo(s, z, i, z.iters[i].cur.value)
         case Looking => CamePast(s, z, i)
         case _ => false
  {
    var it, first := s.iters[i], After(s.list, s.iters[i].pos);
    assert Standing(s, i) && IterOk(s, it);
    Skips(s, it.pos);
    LinkIsAfter(s.list, it.pos);
    if first == None {
      forall k: nat | k in s.list ensures k <= it.pos { if k > it.pos { AfterFirst(s.list, it.pos, k); } }
      forall k: nat | Alive(s, k) ensures k in it.returned { assert Counted(s, k); }
    } else {
      var a: nat :| a < |s.list| && s.list[a] == first.value;
      forall j: nat | it.pos < j < first.value ensures !Alive(s, j) { assert NextAlive(s, it.pos); }
    }
  }

  /** The list stands still while an iterator looks at it, and only a round of its own changes what an iterator has returned. */
  lemma LockedList(s: Sys, a: Action, i: nat)
    requires Inv(s) && Step(s, a).Some? && i < |s.iters|
    ensures s.iters[i].phase == Looking ==> Step(s, a).value.list == s.list
    ensures i < |Step(s, a).value.iters|
    ensures a != Look(i) ==> Step(s, a).value.iters[i].returned == s.iters[i].returned && Step(s, a).value.iters[i].done == s.iters[i].done
  {
    assert Standing(s, i);
  }

  lemma {:induction false} ReturnedKept(before: seq<Action>, after: seq<Action>, i: nat, k: nat)
    requires Run(before + after).Some? && Run(before).Some? && i < |Run(before).value.iters| && k in Run(before).value.iters[i].returned
    ensures i < |Run(before + after).value.iters| && k in Run(before + after).value.iters[i].returned
  {
    if after == [] {
      assert before + after == before;
    } else {
      var shorter, a := after[..|after| - 1], after[|after| - 1];
      assert (before + after)[..|before + after| - 1] == before + shorter;
      ReturnedKept(before, shorter, i, k);
      var s := Run(before + shorter).value;
      LockedList(s, a, i);
      if a == Look(i) { LookOutcome(s, i); }
    }
  }

  /** A walk whose call comes to the end with round Look(i) has returned whatever was there by then and is alive at any later time. */
  lemma WalkComplete(before: seq<Action>, after: seq<Action>, i: nat, k: nat)
    requires Run(before + [Look(i)] + after).Some? && Run(before).Some? && Run(before + [Look(i)]).Some?
    requires var z := Run(before + [Look(i)]).value; i < |z.iters| && z.iters[i].phase == Dropping && z.iters[i].cur == None
    requires k < |Run(before).value.refs| && Alive(Run(before + [Look(i)] + after).value, k)
    ensures var z := Run(before + [Look(i)] + after).value; i < |z.iters| && k in z.iters[i].returned
  {
    assert (before + [Look(i)])[..|before|] == before;
    LookOutcome(Run(before).value, i);
    DeadForGood(before, [Look(i)], k);
    DeadForGood(before + [Look(i)], after, k);
    ReturnedKept(before + [Look(i)], after, i, k);
  }

  // ----- connectors outside the iterators -----

  /** A connector can join or leave only while nobody looks at the list; it joins alive, at the end, and leaves dead. */
  lemma Membership(s: Sys, k: nat)
    requires Inv(s)
    ensures Step(s, Add).Some? <==> s.lock == None
    ensures Step(s, Add).Some? ==>
      var z := Step(s, Add).value; Alive(z, |s.refs|) && z.list == s.list + [|s.refs|] && forall j: nat :: j < |s.refs| ==> (Alive(z, j) <==> Alive(s, j))
    ensures Step(s, Unlink(k)).Some? <==> s.lock == None && k in s.list && !Alive(s, k)
    ensures Step(s, Unlink(k)).Some? ==>
      forall j: nat :: (j in Step(s, Unlink(k)).value.list <==> j in s.list && j != k) && (Alive(Step(s, Unlink(k)).value, j) <==> Alive(s, j))
  {
    if k in s.list {
      var a: nat :| a < |s.list| && s.list[a] == k;
      if !Alive(s, k) { assert Counted(s, k); }
    }
  }

  /** A reference is to be had on a connector exactly while it is alive; it dies with the last one. */
  lemma References(s: Sys, k: nat)
    requires Inv(s)
    ensures Step(s, Get(k)).Some? <==> Alive(s, k)
    ensures Step(s, Get(k)).Some? ==> Alive(Step(s, Get(k)).value, k) && Step(s, Get(k)).value.users[k] == s.users[k] + 1
    ensures Step(s, Put(k)).Some? <==> k < |s.users| && s.users[k] > 0
    ensures Step(s, Put(k)).Some? ==>
      (Alive(Step(s, Put(k)).value, k) <==> s.users[k] > 1 || Held(s.iters, k) > 0) && Step(s, Put(k)).value.users[k] == s.users[k] - 1
  {
    if k < |s.refs| { assert Counted(s, k); }
  }

  lemma RunAppend(actions: seq<Action>, a: Action)
    requires Run(actions).Some? && Step(Run(actions).value, a).Some?
    ensures Run(actions + [a]) == Step(Run(actions).value, a)
  {
    assert (actions + [a])[..|actions|] == actions;
  }

  /** One connector, alive, and one iterator. */
  function Lone(refs: int, it: Iter, lock: Option<nat>): Sys {
    Sys([0], [refs], [1], [it], lock, false)
  }

  lemma LoneBegins()
    ensures Run([] + [Add] + [Begin]) == Some(Lone(1, Iter(Idle, None, None, -1, [], None), None))
  {
    RunAppend([], Add);
    var s := Run([] + [Add]).value;
    assert s.list == [0] && s.refs == [1] && s.users == [1] && s.iters == [];
    RunAppend([] + [Add], Begin);
    assert Run([] + [Add] + [Begin]).value.iters == [Iter(Idle, None, None, -1, [], None)];
  }

  lemma LoneStep(it: Iter, refs: int)
    requires refs > 0
    ensures var z := it.(phase := Looking, cur := None, prev := it.cur, pos := if it.cur.Some? then it.cur.value else -1);
      it.phase == Idle && it.done == None ==> Step(Lone(refs, it, None), Next(0)) == Some(Lone(refs, z, Some(0)))
    ensures var z := it.(phase := Dropping, cur := Some(0), pos := 0, returned := it.returned + [0]);
      it.phase == Looking && it.pos == -1 ==> Step(Lone(refs, it, Some(0)), Look(0)) == Some(Lone(refs + 1, z, None))
    ensures var z := it.(phase := Dropping, cur := None, done := Some(1));
      it.phase == Looking && it.pos == 0 ==> Step(Lone(refs, it, Some(0)), Look(0)) == Some(Lone(refs, z, None))
    ensures it.phase == Dropping && it.prev == None ==> Step(Lone(refs, it, None), Drop(0)) == Some(Lone(refs, it.(phase := Idle), None))
  {
    forall j: Iter ensures [it][0 := j] == [j] {}
    forall n: int ensures [refs][0 := n] == [n] {}
    assert Successor([0], 0) == Successor([], -1) == None;
    assert Lone(refs, it, None).iters[0] == it == Lone(refs, it, Some(0)).iters[0];
  }

  const Fresh: Iter := Iter(Idle, None, None, -1, [], None)
  const AtFirst: Iter := Iter(Idle, Some(0), None, 0, [0], None)

  lemma LoneReturns(a: seq<Action>)
    requires Run(a) == Some(Lone(1, Fresh, None))
    ensures Run(a + [Next(0)] + [Look(0)] + [Drop(0)]) == Some(Lone(2, AtFirst, None))
  {
    var looking := Fresh.(phase := Looking);
    var taken := AtFirst.(phase := Dropping);
    LoneStep(Fresh, 1);
    LoneStep(looking, 1);
    LoneStep(taken, 2);
    RunAppend(a, Next(0));
    assert [] + [0] == [0];
    RunAppend(a + [Next(0)], Look(0));
    RunAppend(a + [Next(0)] + [Look(0)], Drop(0));
  }

  lemma LoneEnds(a: seq<Action>)
    requires Run(a) == Some(Lone(2, AtFirst, None))
    ensures Run(a + [Next(0)] + [Look(0)]) == Some(Lone(2, Iter(Dropping, None, Some(0), 0, [0], Some(1)), None))
  {
    var looking := AtFirst.(phase := Looking, cur := None, prev := Some(0));
    LoneStep(AtFirst, 2);
    LoneStep(looking, 2);
    RunAppend(a, Next(0));
    RunAppend(a + [Next(0)], Look(0));
  }

  /** One connector, walked over to the end. */
  lemma LoneWalk()
    ensures var r := Run([Add, Begin, Next(0), Look(0), Drop(0), Next(0), Look(0)]);
      r.Some? && r.value.iters == [Iter(Dropping, None, Some(0), 0, [0], Some(1))]
  {
    var a := [] + [Add] + [Begin];
    LoneBegins();
    LoneReturns(a);
    var b := a + [Next(0)] + [Look(0)] + [Drop(0)];
    LoneEnds(b);
    assert [Add, Begin, Next(0), Look(0), Drop(0), Next(0), Look(0)] == b + [Next(0)] + [Look(0)];
  }
}
