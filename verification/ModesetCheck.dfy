/**
 The modeset check: finding encoder conflicts, routing every connector of the update, and bringing in what a
 full modeset of a CRTC needs.
 */
module ModesetCheck {
  import opened Outcomes
  import opened Modeset
  import opened Assembly
  import opened EncoderRouting
  import opened AtomicCore

  // ----- conflicting encoders -----

  /** `enable` says whether the CRTC has connectors. */
  predicate Populated(s: CrtcState) {
    s.enable <==> s.connectors != {}
  }

  ghost predicate AllPopulated(u: Update)
    requires Shaped(u)
  {
    forall c: nat :: HasCrtc(u, c) ==> Populated(Crtc(u, c))
  }

  /** Only an enabled CRTC is active. */
  ghost predicate ActiveEnabled(u: Update)
    requires Shaped(u)
  {
    forall c: nat :: HasCrtc(u, c) && Crtc(u, c).active ==> Crtc(u, c).enable
  }

  ghost predicate Matched(u: Update)
    requires Shaped(u)
  {
    AllPopulated(u) && ActiveEnabled(u)
  }

  ghost predicate Wants(u: Update, wanted: set<nat>)
    requires Shaped(u)
  {
    && (forall k: nat :: Target(u, k).Some? ==> Target(u, k).value in wanted)
    && (forall e :: e in wanted ==> exists k: nat :: Target(u, k) == Some(e))
  }

  /** First pass: the encoders wanted by the connectors of the update, refused if two want the same one. */
  method ClaimEncoders(state: AtomicState) returns (r: Status, wanted: set<nat>)
    requires Shaped(state.View())
    ensures r.Ok? <==> DistinctTargets(state.View())
    ensures r.Ok? ==> Wants(state.View(), wanted)
  {
    wanted := {};
    ghost var u := state.View();
    for i := 0 to |state.connectors|
      invariant forall k: nat :: k < i && Target(u, k).Some? ==> Target(u, k).value in wanted
      invariant forall e :: e in wanted ==> exists k: nat :: k < i && Target(u, k) == Some(e)
      invariant forall k: nat, l: nat :: k < i && l < i && k != l && Target(u, k).Some? ==> Target(u, k) != Target(u, l)
    {
      if state.connectors[i].Some? && state.connectors[i].value.crtc.Some? {
        var e := state.dev.best(i, state.connectors[i].value.crtc.value);
        assert Target(u, i) == e;
        if e.Some? {
          if e.value in wanted {
            return Failed(EINVAL), wanted;
          }
          wanted := wanted + {e.value};
        }
      }
    }
    r := Ok;
  }

  /** Second pass in strict mode: an encoder in use outside the update is a conflict. */
  method HandleConflictingEncoders(state: AtomicState) returns (r: Status)
    requires Shaped(state.View())
    ensures r.Ok? <==> NoConflict(state.View())
  {
    var wanted;
    ghost var u := state.View();
    r, wanted := ClaimEncoders(state);
    if r.Failed? || wanted == {} { return; }
    for l := 0 to |state.connectors|
      invariant forall m: nat, k: nat :: m < l && !HasConnector(u, m) && Target(u, k).Some? ==>
        u.cfg.connectors[m].encoder != Target(u, k)
    {
      if state.connectors[l] == None {
        var e := state.dev.connectors[l].encoder;
        if e.Some? && e.value in wanted {
          return Failed(EINVAL);
        }
      }
    }
    r := Ok;
  }

  /** Turn a CRTC off when its last connector is gone. */
  function OffIfBare(s: CrtcState): (t: CrtcState)
    ensures ModeAgrees(s) ==> ModeAgrees(t)
    ensures t == s.(enable := t.enable, active := t.active, mode := t.mode, blob := t.blob)
    ensures ModeAgrees(s) && s.connectors == {} ==> !t.enable && !t.active
    ensures s.connectors != {} ==> t == s
  {
    if s.connectors == {} then WithBlob(s, None).value.(active := false) else s
  }

  /** Bring connector k into the update and take it off its CRTC. */
  function Evict(u: Update, k: nat): (v: Update)
    requires Shaped(u) && InRange(u.cfg) && k < |u.connectors| && !HasConnector(u, k) && u.cfg.connectors[k].crtc.Some?
    ensures Shaped(v)
  {
    var c := u.cfg.connectors[k].crtc.value;
    assert ConnectorAt(u.cfg, k, c);
    var v := DetachConnector(AddConnector(u, k), k);
    EditCrtc(v, c, OffIfBare(Crtc(v, c)))
  }

  /** Connector k is outside the update and holds an encoder that a connector of the update wants. */
  ghost predicate InTheWay(u: Update, k: nat)
    requires Shaped(u)
  {
    && k < |u.connectors| && !HasConnector(u, k) && u.cfg.connectors[k].encoder.Some?
    && exists l: nat :: Target(u, l) == u.cfg.connectors[k].encoder
  }

  /** One of the connectors in the way up to i is on CRTC c. */
  ghost predicate Vacates(u: Update, i: nat, c: nat)
    requires Shaped(u)
  {
    exists k: nat :: k < i && InTheWay(u, k) && ConnectorAt(u.cfg, k, c)
  }

  /**
   Up to i, the connectors in the way have joined and are off their CRTCs, and no others have changed. A CRTC that
   keeps a connector keeps its mode, and one that none of them was on is untouched.
   */
  ghost predicate RoomMade(u: Update, v: Update, i: nat) {
    && Shaped(u) && Shaped(v) && v.cfg == u.cfg && v.planes == u.planes && |v.connectors| == |u.connectors| && |v.crtcs| == |u.crtcs|
    && (forall k: nat :: k < |u.connectors| ==>
          v.connectors[k] == if k < i && InTheWay(u, k) then Some(u.cfg.connectors[k].(crtc := None)) else u.connectors[k])
    && (forall c: nat :: c < |u.crtcs| ==> Crtc(v, c).connectors <= Crtc(u, c).connectors)
    && (forall c: nat :: c < |u.crtcs| && Crtc(v, c).connectors != {} ==> SameMode(Crtc(v, c), Crtc(u, c)))
    && (forall c: nat :: c < |u.crtcs| && !Vacates(u, i, c) ==> v.crtcs[c] == u.crtcs[c])
  }

  /** An eviction leaves other CRTCs alone, and one that keeps a connector in its mode. */
  lemma EvictedCrtcs(u: Update, k: nat, d: nat)
    requires Shaped(u) && InRange(u.cfg) && k < |u.connectors| && !HasConnector(u, k) && u.cfg.connectors[k].crtc.Some?
    requires d < |u.crtcs|
    ensures var w := Evict(u, k);
      && Crtc(w, d).connectors <= Crtc(u, d).connectors
      && (Crtc(w, d).connectors != {} ==> SameMode(Crtc(w, d), Crtc(u, d)))
      && (u.cfg.connectors[k].crtc != Some(d) ==> w.crtcs[d] == u.crtcs[d])
  {
    assert ConnectorAt(u.cfg, k, u.cfg.connectors[k].crtc.value);
  }

  lemma EvictedSlots(u: Update, k: nat)
    requires Shaped(u) && InRange(u.cfg) && k < |u.connectors| && !HasConnector(u, k) && u.cfg.connectors[k].crtc.Some?
    ensures var w := Evict(u, k);
      w.connectors == u.connectors[k := Some(u.cfg.connectors[k].(crtc := None))] && w.planes == u.planes && w.cfg == u.cfg
  {
    assert ConnectorAt(u.cfg, k, u.cfg.connectors[k].crtc.value);
  }

  lemma RoomNext(u: Update, v: Update, i: nat, j: nat)
    requires RoomMade(u, v, i) && InRange(u.cfg) && j == i + 1 && InTheWay(u, i) && u.cfg.connectors[i].crtc.Some?
    ensures RoomMade(u, Evict(v, i), j)
  {
    var c := u.cfg.connectors[i].crtc.value;
    assert ConnectorAt(u.cfg, i, c) && Vacates(u, j, c);
    var w := Evict(v, i);
    EvictedSlots(v, i);
    forall d: nat | Vacates(u, i, d) ensures Vacates(u, j, d) {
      var k: nat :| k < i && InTheWay(u, k) && ConnectorAt(u.cfg, k, d);
      assert k < j;
    }
    forall d: nat | d < |u.crtcs|
      ensures Crtc(w, d).connectors <= Crtc(u, d).connectors
      ensures Crtc(w, d).connectors != {} ==> SameMode(Crtc(w, d), Crtc(u, d))
      ensures d != c ==> w.crtcs[d] == v.crtcs[d]
    {
      EvictedCrtcs(v, i, d);
    }
  }

  lemma RoomSkipped(u: Update, v: Update, i: nat, j: nat)
    requires RoomMade(u, v, i) && j == i + 1 && !InTheWay(u, i)
    ensures RoomMade(u, v, j)
  {
    forall d: nat | Vacates(u, i, d) ensures Vacates(u, j, d) {
      var k: nat :| k < i && InTheWay(u, k) && ConnectorAt(u.cfg, k, d);
      assert k < j;
    }
  }

  lemma AddCrtcMatched(u: Update, c: nat)
    requires Shaped(u) && Matched(u) && c < |u.crtcs| && CrtcSound(u.cfg.crtcs[c])
    ensures Matched(AddCrtc(u, c))
  {
    forall d: nat | HasCrtc(AddCrtc(u, c), d) ensures HasCrtc(u, d) || d == c {}
  }

  lemma EvictKeeps(u: Update, k: nat)
    requires Open(u) && Matched(u) && Consistent(u.cfg)
    requires k < |u.connectors| && !HasConnector(u, k) && u.cfg.connectors[k].crtc.Some?
    ensures Open(Evict(u, k)) && Matched(Evict(u, k))
    ensures forall l: nat :: HasConnector(Evict(u, k), l) <==> HasConnector(u, l) || l == k
    ensures forall l: nat :: Target(Evict(u, k), l) == Target(u, l)
  {
    var c := u.cfg.connectors[k].crtc.value;
    assert ConnectorAt(u.cfg, k, c);
    AddConnectorKeeps(u, k);
    var w := AddConnector(u, k);
    DetachConnectorKeeps(w, k);
    var v := DetachConnector(w, k);
    EditCrtcKeeps(v, c, OffIfBare(Crtc(v, c)));
    EvictMatched(u, k);
    assert Evict(u, k).connectors == u.connectors[k := Some(u.cfg.connectors[k].(crtc := None))];
  }

  lemma BareMatched(s: CrtcState, k: nat)
    requires ModeAgrees(s) && (s.enable <==> s.connectors != {}) && (s.active ==> s.enable)
    ensures var t := OffIfBare(s.(connectors := s.connectors - {k}));
      (t.enable <==> s.connectors - {k} != {}) && (t.active ==> t.enable) && t.connectors == s.connectors - {k}
  {
    assert ModeAgrees(s.(connectors := s.connectors - {k}));
  }

  lemma EvictMatched(u: Update, k: nat)
    requires Shaped(u) && Matched(u) && InRange(u.cfg)
    requires forall c: nat :: HasCrtc(u, c) ==> ModeAgrees(Crtc(u, c))
    requires forall c: nat :: c < |u.cfg.crtcs| ==> CrtcSound(u.cfg.crtcs[c])
    requires k < |u.connectors| && !HasConnector(u, k) && u.cfg.connectors[k].crtc.Some?
    ensures Matched(Evict(u, k))
  {
    var c := u.cfg.connectors[k].crtc.value;
    assert ConnectorAt(u.cfg, k, c);
    AddCrtcMatched(u, c);
    var w := AddCrtc(u, c);
    var s := Crtc(w, c).(connectors := Crtc(w, c).connectors - {k});
    assert Evict(u, k).crtcs == w.crtcs[c := Some(OffIfBare(s))];
    BareMatched(Crtc(w, c), k);
    forall d: nat | HasCrtc(Evict(u, k), d) && d != c ensures HasCrtc(w, d) && Crtc(Evict(u, k), d) == Crtc(w, d) {}
  }

  method EvictConnector(state: AtomicState, k: nat) returns (r: Status)
    requires Assembled(state.View()) && Linked(state.dev.Current())
    requires k < |state.connectors| && !HasConnector(state.View(), k) && state.dev.connectors[k].crtc.Some?
    modifies state
    ensures Shaped(state.View()) && (state.dev.reliable ==> r.Ok?)
    ensures r.Ok? ==> state.View() == Evict(old(state.View()), k)
  {
    ghost var u := state.View();
    AddConnectorKeeps(u, k);
    var c := state.dev.connectors[k].crtc.value;
    assert ConnectorAt(u.cfg, k, c);
    r := state.GetConnectorState(k);
    if r.Failed? { return; }
    r := state.SetCrtcForConnector(k, None);
    ghost var v := state.View();
    assert v == DetachConnector(AddConnector(u, k), k);
    if state.crtcs[c].value.connectors == {} {
      r := state.SetModePropForCrtc(c, None);
      state.crtcs := state.crtcs[c := Some(state.crtcs[c].value.(active := false))];
    }
    assert state.View() == EditCrtc(v, c, OffIfBare(Crtc(v, c)));
  }

  /** Making room for what u wants has come to connector i. */
  ghost predicate MakingRoom(u: Update, v: Update, i: nat) {
    RoomMade(u, v, i) && Open(v) && Matched(v) && Consistent(v.cfg)
  }

  lemma RoomNoConflict(u: Update, v: Update, n: nat)
    requires RoomMade(u, v, n) && n == |u.connectors| && DistinctTargets(u)
    ensures NoConflict(v)
  {
    forall k: nat ensures Target(v, k) == Target(u, k) {}
    forall k: nat, l: nat | Target(v, k).Some? && l < n && !HasConnector(v, l) ensures v.cfg.connectors[l].encoder != Target(v, k) {
      assert !InTheWay(u, l);
    }
  }

  lemma RoomEvict(u: Update, v: Update, i: nat, j: nat)
    requires MakingRoom(u, v, i) && j == i + 1 && InTheWay(u, i)
    ensures v.cfg.connectors[i].crtc.Some? && !HasConnector(v, i) && Assembled(v) && Linked(v.cfg)
    ensures MakingRoom(u, Evict(v, i), j)
  {
    assert RoutedConnector(v.cfg, v.cfg.connectors[i], i);
    EvictKeeps(v, i);
    RoomNext(u, v, i, j);
    EvictedSlots(v, i);
  }

  lemma RoomPassed(u: Update, v: Update, i: nat, j: nat)
    requires MakingRoom(u, v, i) && j == i + 1 && !InTheWay(u, i)
    ensures MakingRoom(u, v, j)
  {
    RoomSkipped(u, v, i, j);
  }

  /** A connector outside the update is in the way exactly if its encoder is wanted. */
  lemma WantedInTheWay(u: Update, v: Update, i: nat, wanted: set<nat>)
    requires RoomMade(u, v, i) && Wants(u, wanted) && i < |u.connectors|
    ensures var e := u.cfg.connectors[i].encoder; InTheWay(u, i) <==> v.connectors[i] == None && e.Some? && e.value in wanted
  {
  }

  lemma RoomStart(u: Update)
    requires Shaped(u)
    ensures RoomMade(u, u, 0)
  {
  }

  lemma {:induction false} NoneInTheWay(u: Update, i: nat)
    requires Shaped(u) && Wants(u, {}) && i <= |u.connectors|
    ensures RoomMade(u, u, i)
  {
    if i == 0 { RoomStart(u); }
    else { NoneInTheWay(u, i - 1); RoomSkipped(u, u, i - 1, i); }
  }

  /** One round of the second pass. */
  method MakeRoomAt(state: AtomicState, l: nat, wanted: set<nat>, ghost u: Update) returns (r: Status)
    requires MakingRoom(u, state.View(), l) && Wants(u, wanted) && l < |state.connectors|
    modifies state
    ensures Shaped(state.View()) && (state.dev.reliable ==> r.Ok?)
    ensures r.Ok? ==> MakingRoom(u, state.View(), l + 1)
  {
    ghost var v := state.View();
    var e := state.dev.connectors[l].encoder;
    WantedInTheWay(u, v, l, wanted);
    if state.connectors[l] == None && e.Some? && e.value in wanted {
      RoomEvict(u, v, l, l + 1);
      r := EvictConnector(state, l);
    } else {
      RoomPassed(u, v, l, l + 1);
      r := Ok;
    }
  }

  /**
   Second pass in the legacy-compatible mode: a connector outside the update that holds a wanted encoder is
   brought in and taken off its CRTC, which is turned off when no connector is left on it. Afterwards the
   strict mode finds no conflict. Nothing else happens to the update.
   */
  method DisableConflictingEncoders(state: AtomicState) returns (r: Status)
    requires Open(state.View()) && Matched(state.View()) && Consistent(state.dev.Current())
    modifies state
    ensures Shaped(state.View())
    ensures r.Ok? ==> Open(state.View()) && Matched(state.View()) && NoConflict(state.View())
    ensures r.Ok? ==> DistinctTargets(old(state.View())) && RoomMade(old(state.View()), state.View(), |state.connectors|)
    ensures state.dev.reliable ==> (r.Ok? <==> DistinctTargets(old(state.View())))
  {
    var wanted;
    ghost var u := state.View();
    r, wanted := ClaimEncoders(state);
    if r.Failed? { return; }
    if wanted == {} {
      NoneInTheWay(u, |u.connectors|);
      RoomNoConflict(u, u, |u.connectors|);
      return;
    }
    RoomStart(u);
    for l := 0 to |state.connectors|
      invariant MakingRoom(u, state.View(), l)
    {
      r := MakeRoomAt(state, l, wanted, u);
      if r.Failed? { return; }
    }
    RoomNoConflict(u, state.View(), |state.connectors|);
    r := Ok;
  }

  // ----- routing -----

  /** Takes `encoder` away from the connector of the update that still holds it, if there is one. */
  method StealEncoder(state: AtomicState, encoder: nat, ghost i: nat, ghost f: Update)
    requires Routing(state.View(), i) && HasConnector(state.View(), i) && Traced(f, state.View(), i, i)
    requires Target(state.View(), i) == Some(encoder) && !Holds(state.View(), i, encoder)
    modifies state
    ensures Rerouted(old(state.View()), state.View()) && Routing(state.View(), i)
    ensures Connector(state.View(), i) == Connector(old(state.View()), i) && Traced(f, state.View(), i, i)
    ensures forall l: nat :: !Holds(state.View(), l, encoder)
  {
    ghost var u := state.View();
    for k := 0 to |state.connectors|
      invariant state.View() == u
      invariant forall l: nat :: l < k && HasConnector(u, l) ==> !Holds(u, l, encoder)
    {
      if state.connectors[k].Some? && state.connectors[k].value.encoder == Some(encoder) {
        StealRouting(u, i, k, encoder);
        var c := state.dev.connectors[k].crtc.value;
        StealTraced(f, u, i, k, encoder, c);
        SetBestEncoderOf(state, k, None);
        SetBestEncoderReroutes(u, k, None);
        state.crtcs := state.crtcs[c := Some(state.crtcs[c].value.(connectorsChanged := true))];
        return;
      }
    }
    forall l: nat ensures !Holds(u, l, encoder) {
      if l < |u.connectors| && !HasConnector(u, l) { assert u.cfg.connectors[l].encoder != Target(u, i); }
    }
  }

  lemma StealTraced(f: Update, u: Update, i: nat, k: nat, e: nat, c: nat)
    requires Routing(u, i) && Traced(f, u, i, i) && HasConnector(u, i) && Target(u, i) == Some(e) && AtHand(u, k)
    requires i < k && Holds(u, k, e) && ConnectorAt(u.cfg, k, c) && HasCrtc(u, c)
    ensures HasCrtc(SetBestEncoder(u, k, None), c) && Traced(f, MarkConnectors(SetBestEncoder(u, k, None), c), i, i)
  {
    TracedTargets(f, u, i, i);
    forall l: nat, m: nat | l != m && Target(f, l).Some? ensures Target(f, l) != Target(f, m) { assert Target(u, l) != Target(u, m); }
    VictimDisturbs(f, u, i, i, k, e, c);
    SetTraced(f, u, i, i, k, None, i);
    SetBestEncoderAt(u, k, None, c);
    MarkTraced(f, SetBestEncoder(u, k, None), i, i, c);
  }

  method SetBestEncoderOf(state: AtomicState, k: nat, e: Option<nat>)
    requires AtHand(state.View(), k)
    modifies state
    ensures state.View() == SetBestEncoder(old(state.View()), k, e)
  {
    var s, o := state.connectors[k].value, state.dev.connectors[k].crtc;
    if s.encoder.Some? && o.Some? {
      var t := state.crtcs[o.value].value;
      state.crtcs := state.crtcs[o.value := Some(t.(encoders := t.encoders - {s.encoder.value}))];
    }
    if e.Some? && s.crtc.Some? {
      var t := state.crtcs[s.crtc.value].value;
      state.crtcs := state.crtcs[s.crtc.value := Some(t.(encoders := t.encoders + {e.value}))];
    }
    state.connectors := state.connectors[k := Some(s.(encoder := e))];
  }

  /** Connector i of the update is off, or the driver has an encoder for it that fits its CRTC. */
  ghost predicate Routable(u: Update, i: nat)
    requires Shaped(u) && HasConnector(u, i)
  {
    var s := Connector(u, i);
    s.crtc.Some? ==> Target(u, i).Some? && u.cfg.fits(Target(u, i).value, s.crtc.value)
  }

  /** Marks the CRTC a connector leaves or joins. */
  method MarkMoved(state: AtomicState, crtc: Option<nat>, ghost i: nat)
    requires Routing(state.View(), i) && (crtc.Some? ==> HasCrtc(state.View(), crtc.value))
    modifies state
    ensures Rerouted(old(state.View()), state.View()) && Routing(state.View(), i)
    ensures state.connectors == old(state.connectors)
    ensures crtc.Some? ==> HasCrtc(state.View(), crtc.value) && Crtc(state.View(), crtc.value).connectorsChanged
    ensures state.View() == if crtc.Some? then MarkConnectors(old(state.View()), crtc.value) else old(state.View())
  {
    if crtc.Some? {
      MarkConnectorsRouting(state.View(), i, crtc.value);
      state.crtcs := state.crtcs[crtc.value := Some(state.crtcs[crtc.value].value.(connectorsChanged := true))];
    }
  }

  /** Gives connector i, which is on a CRTC, the encoder the driver picks for it. */
  method AssignEncoder(state: AtomicState, i: nat, encoder: nat, ghost f: Update)
    requires Traced(f, state.View(), i, i)
    requires Routing(state.View(), i) && HasConnector(state.View(), i) && Connector(state.View(), i).crtc.Some?
    requires Target(state.View(), i) == Some(encoder) && Routable(state.View(), i)
    requires Connector(state.View(), i).crtc != state.dev.connectors[i].crtc ==> ChangesMarked(state.View(), i)
    modifies state
    ensures Rerouted(old(state.View()), state.View()) && Routing(state.View(), i + 1) && Traced(f, state.View(), i + 1, i)
  {
    ghost var u := state.View();
    ClosedAtHand(u, i);
    if state.connectors[i].value.encoder == Some(encoder) {
      assert Holds(u, i, encoder) && Progress(u, i, i);
      SetRouting(u, i);
      SetTraced(f, u, i, i, i, Some(encoder), i + 1);
      SetBestEncoderReroutes(u, i, Some(encoder));
      SetBestEncoderOf(state, i, Some(encoder));
      return;
    }
    StealEncoder(state, encoder, i, f);
    ghost var v := state.View();
    ReroutedKeeps(u, v);
    SetMarkRouting(v, i);
    var c := state.connectors[i].value.crtc.value;
    AssignTraced(f, v, i, c);
    SetBestEncoderOf(state, i, Some(encoder));
    SetBestEncoderAt(v, i, Some(encoder), c);
    state.crtcs := state.crtcs[c := Some(state.crtcs[c].value.(connectorsChanged := true))];
    ReroutedTransitive(u, v, state.View());
  }

  lemma AssignTraced(f: Update, v: Update, i: nat, c: nat)
    requires Traced(f, v, i, i) && AtHand(v, i) && HasConnector(f, i) && ConnectorOn(v, i, c) && HasCrtc(v, c)
    requires Target(v, i).Some? && Connector(v, i).encoder != Target(v, i)
    ensures HasCrtc(SetBestEncoder(v, i, Target(v, i)), c)
    ensures Traced(f, MarkConnectors(SetBestEncoder(v, i, Target(v, i)), c), i + 1, i)
  {
    var e := Target(v, i);
    TracedTargets(f, v, i, i);
    OwnDisturbs(f, v, i, i, c);
    SetTraced(f, v, i, i, i, e, i + 1);
    SetBestEncoderAt(v, i, e, c);
    MarkTraced(f, SetBestEncoder(v, i, e), i + 1, i, c);
  }

  /** Marks the CRTCs that connector i leaves and joins. */
  method MarkMove(state: AtomicState, i: nat, ghost f: Update)
    requires Routing(state.View(), i) && HasConnector(state.View(), i) && Traced(f, state.View(), i, i)
    requires Connector(state.View(), i).crtc != state.dev.connectors[i].crtc
    modifies state
    ensures Rerouted(old(state.View()), state.View()) && Routing(state.View(), i) && Traced(f, state.View(), i, i)
    ensures state.connectors == old(state.connectors) && HasConnector(state.View(), i) && ChangesMarked(state.View(), i)
  {
    ghost var u := state.View();
    ClosedAtHand(u, i);
    TracedTargets(f, u, i, i);
    var o, s := state.dev.connectors[i].crtc, state.connectors[i].value.crtc;
    if o.Some? {
      assert ConnectorAt(f.cfg, i, o.value);
      OwnDisturbs(f, u, i, i, o.value);
      MarkTraced(f, u, i, i, o.value);
    }
    MarkMoved(state, o, i);
    ghost var v := state.View();
    if s.Some? {
      assert ConnectorOn(f, i, s.value);
      OwnDisturbs(f, v, i, i, s.value);
      MarkTraced(f, v, i, i, s.value);
    }
    MarkMoved(state, s, i);
    ReroutedTransitive(u, v, state.View());
  }

  /** Routes connector i, which succeeds exactly when it can be routed. */
  method UpdateConnectorRouting(state: AtomicState, i: nat, ghost f: Update) returns (r: Status)
    requires Routing(state.View(), i) && HasConnector(state.View(), i) && Traced(f, state.View(), i, i)
    modifies state
    ensures Shaped(state.View()) && (r.Ok? <==> Routable(old(state.View()), i))
    ensures r.Ok? ==> Rerouted(old(state.View()), state.View()) && Routing(state.View(), i + 1) && Traced(f, state.View(), i + 1, i)
  {
    ghost var u := state.View();
    ClosedAtHand(u, i);
    var o, s := state.dev.connectors[i].crtc, state.connectors[i].value;
    if o != s.crtc { MarkMove(state, i, f); }
    ghost var v := state.View();
    ReroutedKeeps(u, v);
    ClosedAtHand(v, i);
    if s.crtc == None {
      SetRouting(v, i);
      SetBestEncoderReroutes(v, i, None);
      SetTraced(f, v, i, i, i, None, i + 1);
      SetBestEncoderOf(state, i, None);
      ReroutedTransitive(u, v, state.View());
      return Ok;
    }
    var e := state.dev.best(i, s.crtc.value);
    if e == None || !state.dev.fits(e.value, s.crtc.value) { return Failed(EINVAL); }
    AssignEncoder(state, i, e.value, f);
    ReroutedTransitive(u, v, state.View());
    r := Ok;
  }

  // ----- the whole check -----

  /** What changed about a CRTC, given its current and its new state. */
  function Flag(o: CrtcState, s: CrtcState): (t: CrtcState)
    ensures t.modeChanged <==> s.modeChanged || t.mode != o.mode || t.enable != o.enable
    ensures t.activeChanged <==> s.activeChanged || t.active != o.active
    ensures t.connectorsChanged <==> s.connectorsChanged || t.enable != o.enable
    ensures t == s.(modeChanged := t.modeChanged, activeChanged := t.activeChanged, connectorsChanged := t.connectorsChanged)
  {
    s.(modeChanged := s.modeChanged || o.mode != s.mode || o.enable != s.enable,
       connectorsChanged := s.connectorsChanged || o.enable != s.enable,
       activeChanged := s.activeChanged || o.active != s.active)
  }

  /** Clear flags mean that nothing changed. */
  predicate Honest(o: CrtcState, s: CrtcState) {
    && (!s.modeChanged ==> s.mode == o.mode && s.enable == o.enable)
    && (!s.activeChanged ==> s.active == o.active)
  }

  /** `v` is `u` with the flags of every CRTC in the update set. */
  ghost predicate Flagged(u: Update, v: Update) {
    && Shaped(u) && Shaped(v) && v.cfg == u.cfg && v.planes == u.planes && v.connectors == u.connectors
    && (forall c: nat :: HasCrtc(v, c) <==> HasCrtc(u, c))
    && (forall c: nat :: HasCrtc(u, c) ==> Crtc(v, c) == Flag(u.cfg.crtcs[c], Crtc(u, c)))
  }

  method FlagCrtcs(state: AtomicState) returns (r: Status)
    requires Shaped(state.View())
    modifies state
    ensures Shaped(state.View())
    ensures r.Ok? <==> AllPopulated(old(state.View()))
    ensures r.Ok? ==> Flagged(old(state.View()), state.View())
  {
    ghost var u := state.View();
    for c := 0 to |state.crtcs|
      invariant state.planes == u.planes && state.connectors == u.connectors && |state.crtcs| == |u.crtcs|
      invariant forall d: nat :: d < c && HasCrtc(u, d) ==> Populated(Crtc(u, d))
      invariant forall d: nat :: d < |u.crtcs| ==>
        state.crtcs[d] == if d < c && HasCrtc(u, d) then Some(Flag(u.cfg.crtcs[d], Crtc(u, d))) else u.crtcs[d]
    {
      if state.crtcs[c].Some? {
        var s := Flag(state.dev.crtcs[c], state.crtcs[c].value);
        state.crtcs := state.crtcs[c := Some(s)];
        if s.enable != (s.connectors != {}) {
          assert HasCrtc(u, c) && !Populated(Crtc(u, c));
          return Failed(EINVAL);
        }
      }
    }
    r := Ok;
  }

  lemma FlaggedKeeps(u: Update, v: Update)
    requires Flagged(u, v) && Assembled(u) && Pending(u)
    ensures Assembled(v) && Pending(v)
    ensures forall k: nat :: Target(v, k) == Target(u, k)
    ensures NoConflict(v) <==> NoConflict(u)
  {
    forall p: nat, d: nat ensures PlaneOn(v, p, d) <==> PlaneOn(u, p, d) {}
    forall k: nat, d: nat ensures ConnectorOn(v, k, d) <==> ConnectorOn(u, k, d) {}
    forall k: nat, e: nat ensures Holds(v, k, e) <==> Holds(u, k, e) {}
    forall k: nat, c: nat, e: nat ensures Carries(v, 0, k, c, e) <==> Carries(u, 0, k, c, e) {}
    forall k: nat ensures Target(v, k) == Target(u, k) {}
  }

  lemma ReroutedRoutable(u: Update, v: Update, i: nat)
    requires Rerouted(u, v)
    ensures HasConnector(v, i) <==> HasConnector(u, i)
    ensures HasConnector(u, i) ==> (Routable(v, i) <==> Routable(u, i))
  {
  }

  /** Marks the CRTC connector i is currently on if its link changes. */
  method MarkLink(state: AtomicState, i: nat, ghost f: Update)
    requires Routing(state.View(), i + 1) && HasConnector(state.View(), i) && Traced(f, state.View(), i + 1, i)
    modifies state
    ensures Rerouted(old(state.View()), state.View()) && Routing(state.View(), i + 1) && Traced(f, state.View(), i + 1, i + 1)
  {
    ghost var w := state.View();
    var o := state.dev.connectors[i];
    if o.crtc.Some? && o.link != state.connectors[i].value.link {
      ClosedAtHand(w, i);
      assert HasConnector(f, i) && ConnectorAt(f.cfg, i, o.crtc.value) && LinkChanges(f, i);
      assert Disturbs(f, i, o.crtc.value);
      MarkTraced(f, w, i + 1, i, o.crtc.value);
      MarkMoved(state, o.crtc, i + 1);
    }
    LinkTraced(f, state.View(), i + 1, i, i + 1);
  }

  /** One round of the routing loop. */
  method RouteConnector(state: AtomicState, i: nat, ghost f: Update) returns (r: Status)
    requires Routing(state.View(), i) && i < |state.connectors| && Traced(f, state.View(), i, i)
    modifies state
    ensures Shaped(state.View())
    ensures r.Ok? ==> Rerouted(old(state.View()), state.View()) && Routing(state.View(), i + 1) && Traced(f, state.View(), i + 1, i + 1)
    ensures r.Ok? ==> HasConnector(old(state.View()), i) ==> Routable(old(state.View()), i)
    ensures state.dev.reliable ==> (r.Ok? <==> HasConnector(old(state.View()), i) ==> Routable(old(state.View()), i))
  {
    ghost var u := state.View();
    if state.connectors[i] == None {
      SkipRouting(u, i, i + 1);
      LinkTraced(f, u, i + 1, i, i + 1);
      return Ok;
    }
    r := UpdateConnectorRouting(state, i, f);
    if r.Failed? { return; }
    ghost var w := state.View();
    MarkLink(state, i, f);
    ReroutedTransitive(u, w, state.View());
    var accepted := state.dev.Grant();
    if !accepted { return Failed(EINVAL); }
  }

  /** Routes every connector of the update, in index order. */
  method RouteConnectors(state: AtomicState) returns (r: Status)
    requires Routing(state.View(), 0)
    modifies state
    ensures Shaped(state.View())
    ensures r.Ok? ==> Routing(state.View(), |state.connectors|)
    ensures r.Ok? ==> Traced(old(state.View()), state.View(), |state.connectors|, |state.connectors|)
    ensures r.Ok? ==> forall i: nat :: HasConnector(old(state.View()), i) ==> Routable(old(state.View()), i)
    ensures state.dev.reliable ==>
      (r.Ok? <==> forall i: nat :: HasConnector(old(state.View()), i) ==> Routable(old(state.View()), i))
  {
    ghost var u := state.View();
    for i := 0 to |state.connectors|
      invariant |state.connectors| == |u.connectors|
      invariant Traced(u, state.View(), i, i) && Routing(state.View(), i)
      invariant forall j: nat :: j < i && HasConnector(u, j) ==> Routable(u, j)
    {
      ghost var v := state.View();
      ReroutedRoutable(u, v, i);
      r := RouteConnector(state, i, u);
      if r.Failed? { return; }
    }
    r := Ok;
  }

  lemma SkipRouting(u: Update, i: nat, j: nat)
    requires Routing(u, i) && i < |u.connectors| && !HasConnector(u, i) && j == i + 1
    ensures Routing(u, j)
  {
    forall l: nat, d: nat, e: nat ensures Carries(u, j, l, d, e) <==> Carries(u, i, l, d, e) {}
    forall k: nat | HasConnector(u, k) ensures Progress(u, j, k) { assert Progress(u, i, k); }
    assert forall c: nat :: !HasConnector(u, i) ==> (ConnectorOn(u, i, c) <==> ConnectorAt(u.cfg, i, c));
  }

  /** Every connector and plane that is on CRTC c before or after the update is in the update. */
  ghost predicate Complete(u: Update, c: nat)
    requires Shaped(u)
  {
    && (forall k: nat :: ConnectorAt(u.cfg, k, c) || ConnectorOn(u, k, c) ==> HasConnector(u, k))
    && (forall p: nat :: PlaneAt(u.cfg, p, c) || PlaneOn(u, p, c) ==> HasPlane(u, p))
  }

  /** Objects that are on CRTC c on one side of the update only are in it already. */
  lemma CompleteFrom(u: Update, c: nat)
    requires Shaped(u)
    requires forall k: nat :: ConnectorOn(u, k, c) ==> HasConnector(u, k)
    requires forall p: nat :: PlaneAt(u.cfg, p, c) ==> HasPlane(u, p)
    ensures Complete(u, c)
  {
    forall k: nat | ConnectorAt(u.cfg, k, c) && k < |u.connectors| ensures HasConnector(u, k) {
      if !HasConnector(u, k) { assert ConnectorOn(u, k, c); }
    }
    forall p: nat | PlaneOn(u, p, c) ensures HasPlane(u, p) {
      if !HasPlane(u, p) { assert PlaneAt(u.cfg, p, c); }
    }
  }

  lemma GrownComplete(u: Update, v: Update, c: nat)
    requires Grown(u, v) && Complete(u, c)
    ensures Complete(v, c)
  {
    forall k: nat ensures ConnectorOn(v, k, c) <==> ConnectorOn(u, k, c) {}
    forall p: nat ensures PlaneOn(v, p, c) <==> PlaneOn(u, p, c) {}
  }

  ghost predicate SameCrtcs(u: Update, v: Update) {
    forall c: nat :: HasCrtc(v, c) <==> HasCrtc(u, c)
  }

  /** Brings in everything on CRTC c, which is in the update; no CRTC joins. */
  method AddForModeset(state: AtomicState, c: nat) returns (r: Status)
    requires Assembled(state.View()) && Linked(state.dev.Current()) && HasCrtc(state.View(), c)
    modifies state
    ensures Shaped(state.View()) && (state.dev.reliable ==> r.Ok?)
    ensures r.Ok? ==> Assembled(state.View()) && Grown(old(state.View()), state.View())
    ensures r.Ok? ==> SameCrtcs(old(state.View()), state.View()) && Complete(state.View(), c)
  {
    ghost var u := state.View();
    r := state.AddAffectedConnectors(c);
    if r.Failed? { return; }
    ghost var v := state.View();
    r := state.AddAffectedPlanes(c);
    if r.Failed? { return; }
    GrownTransitive(u, v, state.View());
    forall k: nat | ConnectorOn(state.View(), k, c) ensures HasConnector(state.View(), k) {
      assert ConnectorOn(v, k, c);
    }
    CompleteFrom(state.View(), c);
  }

  method AddAffected(state: AtomicState) returns (r: Status)
    requires Assembled(state.View()) && Linked(state.dev.Current())
    modifies state
    ensures Shaped(state.View()) && (state.dev.reliable ==> r.Ok?)
    ensures r.Ok? ==> Assembled(state.View()) && Grown(old(state.View()), state.View())
    ensures r.Ok? ==> SameCrtcs(old(state.View()), state.View())
    ensures r.Ok? ==> forall c: nat :: HasCrtc(state.View(), c) && NeedsModeset(Crtc(state.View(), c)) ==> Complete(state.View(), c)
  {
    ghost var u := state.View();
    for c := 0 to |state.crtcs|
      invariant |state.crtcs| == |u.crtcs|
      invariant Assembled(state.View()) && Grown(u, state.View()) && SameCrtcs(u, state.View())
      invariant forall d: nat :: d < c && HasCrtc(u, d) && NeedsModeset(Crtc(u, d)) ==> Complete(state.View(), d)
    {
      if state.crtcs[c].Some? && NeedsModeset(state.crtcs[c].value) {
        ghost var v := state.View();
        r := AddForModeset(state, c);
        if r.Failed? { return; }
        GrownTransitive(u, v, state.View());
        forall d: nat | d < c && HasCrtc(u, d) && NeedsModeset(Crtc(u, d)) ensures Complete(state.View(), d) {
          GrownComplete(v, state.View(), d);
        }
      }
    }
    r := Ok;
  }

  /** What a successful modeset check guarantees of the update. */
  ghost predicate Checked(u: Update) {
    && Assembled(u)
    && Sole(u)
    && (forall k: nat :: k < |u.connectors| ==> RoutedConnector(u.cfg, Connector(u, k), k))
    && EncoderMasks(u, |u.connectors|)
    && Steady(u, |u.connectors|)
    && (forall c: nat :: HasCrtc(u, c) ==> Populated(Crtc(u, c)) && Honest(u.cfg.crtcs[c], Crtc(u, c)))
    && (forall c: nat :: HasCrtc(u, c) && NeedsModeset(Crtc(u, c)) ==> Complete(u, c))
  }

  /** The check moves no plane or connector and leaves modes alone; it adds unchanged copies but no CRTC. */
  ghost predicate Settled(u: Update, v: Update) {
    && Shaped(u) && Shaped(v) && v.cfg == u.cfg && SameCrtcs(u, v)
    && (forall c: nat :: HasCrtc(u, c) ==>
          Crtc(v, c) == Crtc(u, c).(encoders := Crtc(v, c).encoders, modeChanged := Crtc(v, c).modeChanged,
                                    activeChanged := Crtc(v, c).activeChanged, connectorsChanged := Crtc(v, c).connectorsChanged))
    && (forall p: nat :: p < |u.planes| ==> Plane(v, p) == Plane(u, p))
    && (forall k: nat :: k < |u.connectors| ==> Connector(v, k) == Connector(u, k).(encoder := Connector(v, k).encoder))
  }

  /** Exactly when the check passes if no hook refuses. */
  ghost predicate Feasible(u: Update)
    requires Shaped(u)
  {
    && AllPopulated(u) && NoConflict(u)
    && (forall k: nat :: HasConnector(u, k) ==> Routable(u, k))
  }

  lemma GrownRouting(v: Update, w: Update)
    requires Routing(v, |v.connectors|) && Grown(v, w) && SameCrtcs(v, w) && Assembled(w)
    ensures Sole(w) && EncoderMasks(w, |w.connectors|) && Steady(w, |w.connectors|)
    ensures forall k: nat :: k < |w.connectors| ==> RoutedConnector(w.cfg, Connector(w, k), k)
  {
    var n := |v.connectors|;
    forall k: nat | k < n ensures Connector(w, k) == Connector(v, k) && RoutedConnector(w.cfg, Connector(w, k), k) {
      if HasConnector(v, k) { assert Progress(v, n, k); }
    }
    forall k: nat, e: nat ensures Holds(w, k, e) <==> Holds(v, k, e) {}
    forall k: nat, c: nat, e: nat ensures Carries(w, n, k, c, e) <==> Carries(v, n, k, c, e) {}
    forall k: nat, c: nat ensures ConnectorOn(w, k, c) <==> ConnectorOn(v, k, c) {}
  }

  lemma SettledThrough(u: Update, f: Update, v: Update, w: Update)
    requires Flagged(u, f) && Rerouted(f, v) && Grown(v, w) && SameCrtcs(v, w)
    ensures Settled(u, w)
  {
    forall p: nat | p < |u.planes| ensures Plane(w, p) == Plane(u, p) {
      if HasPlane(w, p) {}
    }
    forall k: nat | k < |u.connectors| ensures Connector(w, k) == Connector(u, k).(encoder := Connector(w, k).encoder) {
      if HasConnector(f, k) { assert HasConnector(w, k); }
    }
  }

  lemma CheckedCrtcs(u: Update, f: Update, v: Update, w: Update)
    requires Flagged(u, f) && Rerouted(f, v) && Grown(v, w) && SameCrtcs(v, w)
    requires AllPopulated(u)
    ensures forall c: nat :: HasCrtc(w, c) ==> Populated(Crtc(w, c)) && Honest(w.cfg.crtcs[c], Crtc(w, c))
  {
    forall c: nat | HasCrtc(w, c) ensures Populated(Crtc(w, c)) && Honest(w.cfg.crtcs[c], Crtc(w, c)) {
      assert HasCrtc(v, c) && HasCrtc(f, c) && HasCrtc(u, c);
    }
  }

  /** The CRTC is flagged already, its state differs in mode, enable or active, or a connector disturbs it. */
  ghost predicate WillModeset(u: Update, c: nat)
    requires Shaped(u)
  {
    && HasCrtc(u, c)
    && var s, o := Crtc(u, c), u.cfg.crtcs[c];
       !Unflagged(s) || s.mode != o.mode || s.enable != o.enable || s.active != o.active || Disturbed(u, c)
  }

  /** What routing leaves unmarked no connector disturbs. */
  lemma UnmarkedUndisturbed(f: Update, v: Update, n: nat, k: nat, c: nat)
    requires n == |v.connectors| && Routing(v, n) && Traced(f, v, n, n) && Pending(f)
    requires HasCrtc(v, c) && !Crtc(v, c).connectorsChanged
    ensures !Disturbs(f, k, c)
  {
    TracedTargets(f, v, n, n);
    assert HasConnector(v, k) ==> Progress(v, n, k);
  }

  /** A CRTC of the update gets a modeset exactly if something about it changes. */
  lemma ModesetsExactly(u: Update, f: Update, v: Update, w: Update)
    requires Flagged(u, f) && Pending(f) && Traced(f, v, |v.connectors|, |v.connectors|) && Routing(v, |v.connectors|)
    requires Grown(v, w) && SameCrtcs(v, w)
    ensures forall c: nat :: WillModeset(u, c) <==> HasCrtc(w, c) && NeedsModeset(Crtc(w, c))
  {
    forall k: nat, c: nat ensures Disturbs(f, k, c) <==> Disturbs(u, k, c) { SameDisturbs(u, f, k, c); }
    forall c: nat | HasCrtc(u, c) ensures WillModeset(u, c) <==> HasCrtc(w, c) && NeedsModeset(Crtc(w, c)) {
      assert HasCrtc(f, c) && HasCrtc(v, c) && HasCrtc(w, c) && Crtc(w, c) == Crtc(v, c);
      if !Crtc(v, c).connectorsChanged {
        forall k: nat ensures !Disturbs(u, k, c) { UnmarkedUndisturbed(f, v, |v.connectors|, k, c); }
      } else if !Crtc(f, c).connectorsChanged {
        var k: nat :| Disturbs(f, k, c);
        assert Disturbs(u, k, c);
      }
    }
  }

  lemma SameDisturbs(u: Update, f: Update, k: nat, c: nat)
    requires Flagged(u, f)
    ensures Disturbs(f, k, c) <==> Disturbs(u, k, c)
  {
  }

  /** The modeset check. */
  method CheckModeset(state: AtomicState) returns (r: Status)
    requires Assembled(state.View()) && Pending(state.View()) && Consistent(state.dev.Current())
    modifies state
    ensures Shaped(state.View())
    ensures r.Ok? ==> Checked(state.View()) && Settled(old(state.View()), state.View())
    ensures r.Ok? ==> Feasible(old(state.View()))
    ensures r.Ok? ==> forall c: nat :: WillModeset(old(state.View()), c) <==> HasCrtc(state.View(), c) && NeedsModeset(Crtc(state.View(), c))
    ensures state.dev.reliable ==> (r.Ok? <==> Feasible(old(state.View())))
  {
    ghost var u := state.View();
    r := FlagCrtcs(state);
    if r.Failed? { return; }
    ghost var f := state.View();
    FlaggedKeeps(u, f);
    FlaggedRoutable(u, f);
    r := HandleConflictingEncoders(state);
    if r.Failed? { return; }
    PendingRouting(f);
    r := RouteConnectors(state);
    if r.Failed? { return; }
    ghost var v := state.View();
    r := AddAffected(state);
    if r.Failed? { return; }
    GrownRouting(v, state.View());
    SettledThrough(u, f, v, state.View());
    ModesetsExactly(u, f, v, state.View());
    CheckedCrtcs(u, f, v, state.View());
    var accepted := state.dev.Grant();
    if !accepted { return Failed(EINVAL); }
  }

  lemma FlaggedRoutable(u: Update, f: Update)
    requires Flagged(u, f)
    ensures forall k: nat :: HasConnector(f, k) <==> HasConnector(u, k)
    ensures forall k: nat :: HasConnector(u, k) ==> (Routable(f, k) <==> Routable(u, k))
  {
  }
}
