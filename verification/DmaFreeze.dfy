/**
 Why userspace may rely on the buffer layout it was shown: additions in progress are counted, information calls
 succeed only when there are none, and from the first such call on additions are refused. Each test and the count
 it guards are taken under one lock; everything between them interleaves freely.
 */
module DmaFreeze {
  import opened Outcomes
  import opened DmaBuffers

  datatype Adder = Arrived | Working | Left

  datatype Sys = Sys(layout: seq<Buf>, bufUse: nat, bufAlloc: nat, adders: seq<Adder>)

  datatype Action =
    | Arrive
    | Check(i: nat)
    | Change(i: nat, layout: seq<Buf>)
    | Leave(i: nat)
    | Show

  function InProgress(adders: seq<Adder>): nat {
    if adders == [] then 0 else (if adders[0] == Working then 1 else 0) + InProgress(adders[1..])
  }

  function Step(s: Sys, a: Action): Option<Sys> {
    match a
    case Arrive => Some(s.(adders := s.adders + [Arrived]))
    case Check(i) =>
      if i < |s.adders| && s.adders[i] == Arrived then
        if s.bufUse > 0 then Some(s.(adders := s.adders[i := Left]))
        else Some(s.(bufAlloc := s.bufAlloc + 1, adders := s.adders[i := Working]))
      else None
    case Change(i, layout) =>
      if i < |s.adders| && s.adders[i] == Working then Some(s.(layout := layout)) else None
    case Leave(i) =>
      if i < |s.adders| && s.adders[i] == Working && s.bufAlloc > 0 then
        Some(s.(bufAlloc := s.bufAlloc - 1, adders := s.adders[i := Left]))
      else None
    case Show => if s.bufAlloc > 0 then Some(s) else Some(s.(bufUse := s.bufUse + 1))
  }

  lemma {:induction false} WorkingUpdate(adders: seq<Adder>, i: nat, a: Adder)
    requires i < |adders|
    ensures InProgress(adders[i := a]) == InProgress(adders) - (if adders[i] == Working then 1 else 0) + (if a == Working then 1 else 0)
  {
    if i == 0 {
      assert adders[i := a][1..] == adders[1..];
    } else {
      assert adders[i := a][1..] == adders[1..][i - 1 := a];
      WorkingUpdate(adders[1..], i - 1, a);
    }
  }

  lemma {:induction false} WorkingAppend(adders: seq<Adder>)
    ensures InProgress(adders + [Arrived]) == InProgress(adders)
  {
    if adders != [] {
      assert (adders + [Arrived])[1..] == adders[1..] + [Arrived];
      WorkingAppend(adders[1..]);
    }
  }

  lemma {:induction false} WorkingPositive(adders: seq<Adder>, i: nat)
    requires i < |adders| && adders[i] == Working
    ensures InProgress(adders) > 0
  {
    if i > 0 { WorkingPositive(adders[1..], i - 1); }
  }

  ghost predicate Inv(s: Sys) {
    s.bufAlloc == InProgress(s.adders) && (s.bufUse > 0 ==> s.bufAlloc == 0)
  }

  lemma StepInv(s: Sys, a: Action)
    requires Inv(s) && Step(s, a).Some?
    ensures Inv(Step(s, a).value)
    ensures s.bufUse > 0 ==> Step(s, a).value.layout == s.layout && Step(s, a).value.bufUse > 0
  {
    match a
    case Arrive => WorkingAppend(s.adders);
    case Check(i) => WorkingUpdate(s.adders, i, if s.bufUse > 0 then Left else Working);
    case Change(i, _) => WorkingPositive(s.adders, i);
    case Leave(i) => WorkingUpdate(s.adders, i, Left);
    case Show =>
  }

  /**
   In every run an addition goes ahead exactly if no information call has succeeded, such a call succeeds exactly if
   no addition is in progress, and additions can always leave.
   */
  lemma DecidesExactly(actions: seq<Action>, i: nat)
    requires Run(actions).Some?
    ensures var s := Run(actions).value; i < |s.adders| && s.adders[i] == Arrived ==>
      Step(s, Check(i)).Some? && (Step(s, Check(i)).value.adders[i] == Working <==> s.bufUse == 0)
    ensures var s := Run(actions).value; i < |s.adders| && s.adders[i] == Working ==>
      Step(s, Leave(i)).Some? && forall layout: seq<Buf> :: Step(s, Change(i, layout)) == Some(s.(layout := layout))
    ensures Step(Run(actions).value, Show).Some?
    ensures var s := Run(actions).value;
      (Step(s, Show).value.bufUse > s.bufUse <==> forall j: nat :: j < |s.adders| ==> s.adders[j] != Working)
  {
    var s := Run(actions).value;
    if j: nat :| j < |s.adders| && s.adders[j] == Working { WorkingPositive(s.adders, j); }
    else { WorkingNone(s.adders); }
    if i < |s.adders| && s.adders[i] == Working { WorkingPositive(s.adders, i); }
  }

  lemma {:induction false} WorkingNone(adders: seq<Adder>)
    requires forall j: nat :: j < |adders| ==> adders[j] != Working
    ensures InProgress(adders) == 0
  {
    if adders != [] { WorkingNone(adders[1..]); }
  }

  function Run(actions: seq<Action>): (r: Option<Sys>)
    ensures r.Some? ==> Inv(r.value)
  {
    if actions == [] then Some(Sys([], 0, 0, []))
    else
      var r := Run(actions[..|actions| - 1]);
      if r == None then None
      else
        var a := actions[|actions| - 1];
        if Step(r.value, a).Some? then StepInv(r.value, a); Step(r.value, a) else None
  }

  /** Once an information call has succeeded, the layout it showed never changes again. */
  lemma {:induction false} Frozen(before: seq<Action>, after: seq<Action>)
    requires Run(before + after).Some?
    ensures Run(before).Some?
    ensures Run(before).value.bufUse > 0 ==>
      Run(before + after).value.layout == Run(before).value.layout && Run(before + after).value.bufUse > 0
  {
    if after == [] {
      assert before + after == before;
    } else {
      var shorter := after[..|after| - 1];
      assert (before + after)[..|before + after| - 1] == before + shorter;
      Frozen(before, shorter);
      StepInv(Run(before + shorter).value, after[|after| - 1]);
    }
  }
}
