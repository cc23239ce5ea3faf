/** The legacy set_config request expressed as an atomic update. */
module SetConfig {
  import opened Outcomes
  import opened Modeset
  import opened Assembly
  import opened EncoderRouting
  import opened AtomicCore
  import opened ModesetCheck
  import opened Properties

  /** CRTCs other than c are enabled if they have connectors, and active only if enabled. */
  ghost predicate OthersOk(u: Update, c: nat)
    requires Shaped(u)
  {
    forall d: nat :: HasCrtc(u, d) && d != c ==>
      (Crtc(u, d).connectors != {} ==> Crtc(u, d).enable) && (Crtc(u, d).active ==> Crtc(u, d).enable)
  }

  /** A CRTC other than c that is left with a connector shows what it showed. */
  ghost predicate OthersKept(u: Update, c: nat)
    requires Shaped(u)
  {
    forall d: nat :: d < |u.crtcs| && d != c && Crtc(u, d).connectors != {} ==> SameMode(Crtc(u, d), u.cfg.crtcs[d])
  }

  ghost predicate SoundCrtcs(cfg: Config) {
    forall d: nat :: d < |cfg.crtcs| ==> CrtcSound(cfg.crtcs[d])
  }

  /** An open update in which CRTC c has the mode `s` gives it. */
  ghost predicate Configuring(u: Update, c: nat, s: CrtcState) {
    && Open(u) && SoundCrtcs(u.cfg) && HasCrtc(u, c) && OthersOk(u, c) && OthersKept(u, c)
    && Crtc(u, c).enable == s.enable && Crtc(u, c).active == s.active && Crtc(u, c).mode == s.mode
  }

  lemma AddConnectorConfiguring(u: Update, k: nat, c: nat, s: CrtcState)
    requires Configuring(u, c, s) && k < |u.connectors|
    ensures Configuring(AddConnector(u, k), c, s) && HasConnector(AddConnector(u, k), k)
    ensures Crtc(AddConnector(u, k), c) == Crtc(u, c)
  {
    AddConnectorKeeps(u, k);
    AddConnectorGrows(u, k);
    forall d: nat | HasCrtc(AddConnector(u, k), d) && !HasCrtc(u, d) ensures CrtcSound(u.cfg.crtcs[d]) {}
  }

  lemma MoveConnectorConfiguring(u: Update, k: nat, c: nat, s: CrtcState, to: Option<nat>)
    requires Configuring(u, c, s) && HasConnector(u, k) && (to == None || to == Some(c))
    ensures Connector(u, k).crtc.Some? ==> HasCrtc(u, Connector(u, k).crtc.value)
    ensures Configuring(MoveConnector(u, k, to), c, s)
  {
    MoveConnectorKeeps(u, k, to);
    var v := MoveConnector(u, k, to);
    forall d: nat | HasCrtc(u, d)
      ensures HasCrtc(v, d) && Crtc(v, d) == Crtc(u, d).(connectors := Crtc(v, d).connectors)
      ensures d != c ==> Crtc(v, d).connectors <= Crtc(u, d).connectors
      ensures forall e: nat :: HasCrtc(v, e) <==> HasCrtc(u, e)
    {
      assert k in Crtc(u, d).connectors <==> ConnectorOn(u, k, d);
      MoveConnectorAt(u, k, to, d);
    }
  }

  // ----- which connectors the update has -----

  /** The connectors on CRTC c have joined; those before i are off it, to train their links again. */
  ghost predicate Cleared(u: Update, c: nat, i: nat)
    requires Shaped(u)
  {
    forall k: nat :: k < |u.connectors| ==>
      u.connectors[k] == if !ConnectorAt(u.cfg, k, c) then None
                         else if k < i then Some(u.cfg.connectors[k].(crtc := None, link := LINK_GOOD)) else Some(u.cfg.connectors[k])
  }

  /** Those that were on c have joined, off it, and then the ones in `on`, on c. */
  ghost predicate Chosen(u: Update, c: nat, on: set<nat>)
    requires Shaped(u)
  {
    forall k: nat :: k < |u.connectors| ==>
      u.connectors[k] == if k in on || ConnectorAt(u.cfg, k, c) then Some(Aimed(u.cfg, c, on, k)) else None
  }

  function Aimed(cfg: Config, c: nat, on: set<nat>, k: nat): ConnectorState
    requires k < |cfg.connectors|
  {
    ConnectorState(if k in on then Some(c) else None, cfg.connectors[k].encoder, if ConnectorAt(cfg, k, c) then LINK_GOOD else cfg.connectors[k].link)
  }

  lemma JoinedCleared(u: Update, v: Update, c: nat)
    requires Grown(u, v) && (forall k: nat :: !HasConnector(u, k))
    requires forall k: nat :: ConnectorOn(v, k, c) ==> HasConnector(v, k)
    requires forall k: nat :: HasConnector(v, k) ==> HasConnector(u, k) || ConnectorOn(u, k, c)
    ensures Cleared(v, c, 0)
  {
    forall k: nat | k < |v.connectors|
      ensures v.connectors[k] == if !ConnectorAt(v.cfg, k, c) then None else Some(v.cfg.connectors[k])
    {
      assert !HasConnector(u, k) && Connector(u, k) == u.cfg.connectors[k];
      if HasConnector(v, k) {
        assert ConnectorOn(u, k, c) && Connector(v, k) == Connector(u, k);
      } else {
        assert !ConnectorOn(v, k, c);
      }
    }
  }

  lemma ClearedChosen(u: Update, c: nat)
    requires Shaped(u) && Cleared(u, c, |u.connectors|)
    ensures Chosen(u, c, {})
  {
  }

  /** The mask of c names the connectors that are to be on it. */
  lemma ChosenMask(u: Update, c: nat, on: set<nat>)
    requires Assembled(u) && HasCrtc(u, c) && Chosen(u, c, on) && forall k :: k in on ==> k < |u.connectors|
    ensures Crtc(u, c).connectors == on
  {
    forall k: nat ensures k in Crtc(u, c).connectors <==> k in on { assert k in Crtc(u, c).connectors <==> ConnectorOn(u, k, c); }
  }

  lemma PlaceChosen(u: Update, k: nat, c: nat, on: set<nat>)
    requires Assembled(u) && Linked(u.cfg) && HasCrtc(u, c) && Chosen(u, c, on) && k < |u.connectors|
    ensures Assembled(AddConnector(u, k)) && HasConnector(AddConnector(u, k), k)
    ensures var w := AddConnector(u, k); Connector(w, k).crtc.Some? ==> HasCrtc(w, Connector(w, k).crtc.value)
    ensures var v := MoveConnector(AddConnector(u, k), k, Some(c)); Shaped(v) && v.cfg == u.cfg && Chosen(v, c, on + {k})
  {
    AddConnectorKeeps(u, k);
    var w := AddConnector(u, k);
    AddConnectorGrows(u, k);
    DetachConnectorKeeps(w, k);
    var v := MoveConnector(w, k, Some(c));
    MoveConnectorKeeps(w, k, Some(c));
    assert Connector(w, k) == if HasConnector(u, k) then Aimed(u.cfg, c, on, k) else u.cfg.connectors[k];
    assert v.connectors == w.connectors[k := Some(Connector(w, k).(crtc := Some(c)))];
    assert v.connectors == u.connectors[k := Some(Aimed(u.cfg, c, on + {k}, k))];
  }

  /** Takes connector k off CRTC c and makes its link train again. */
  method ClearConnector(state: AtomicState, k: nat, c: nat, ghost s: CrtcState)
    requires Configuring(state.View(), c, s) && HasConnector(state.View(), k) && Connector(state.View(), k).crtc == Some(c)
    modifies state
    ensures Configuring(state.View(), c, s) && state.planes == old(state.planes)
    ensures state.connectors == old(state.connectors[k := Some(state.connectors[k].value.(crtc := None, link := LINK_GOOD))])
  {
    MoveConnectorConfiguring(state.View(), k, c, s, None);
    var r := state.SetCrtcForConnector(k, None);
    ghost var w := state.View();
    EditConnectorKeeps(w, k, Connector(w, k).(link := LINK_GOOD));
    state.connectors := state.connectors[k := Some(state.connectors[k].value.(link := LINK_GOOD))];
  }

  /** Takes every connector off CRTC c. */
  method ClearConnectors(state: AtomicState, c: nat, ghost s: CrtcState) returns (r: Status)
    requires Configuring(state.View(), c, s) && forall k: nat :: !HasConnector(state.View(), k)
    modifies state
    ensures Shaped(state.View()) && (state.dev.reliable ==> r.Ok?)
    ensures r.Ok? ==> Configuring(state.View(), c, s) && Chosen(state.View(), c, {}) && state.planes == old(state.planes)
  {
    ghost var u := state.View();
    r := state.AddAffectedConnectors(c);
    if r.Failed? { return; }
    JoinedConfiguring(u, state.View(), c, s);
    JoinedCleared(u, state.View(), c);
    for k := 0 to |state.connectors|
      invariant |state.connectors| == |u.connectors| && state.planes == u.planes
      invariant Configuring(state.View(), c, s) && Cleared(state.View(), c, k)
    {
      if state.connectors[k].Some? && state.connectors[k].value.crtc == Some(c) {
        ClearConnector(state, k, c, s);
      }
    }
    ClearedChosen(state.View(), c);
    r := Ok;
  }

  lemma JoinedConfiguring(u: Update, v: Update, c: nat, s: CrtcState)
    requires Configuring(u, c, s) && Grown(u, v) && Assembled(v)
    requires forall d: nat :: HasCrtc(v, d) ==> HasCrtc(u, d) || d == c
    ensures Configuring(v, c, s)
  {
    GrownOpen(u, v);
  }

  method PlaceConnector(state: AtomicState, k: nat, c: nat, ghost s: CrtcState, ghost on: set<nat>) returns (r: Status)
    requires Configuring(state.View(), c, s) && Chosen(state.View(), c, on) && k < |state.connectors|
    modifies state
    ensures Shaped(state.View()) && (state.dev.reliable ==> r.Ok?)
    ensures r.Ok? ==> Configuring(state.View(), c, s) && Chosen(state.View(), c, on + {k}) && state.planes == old(state.planes)
  {
    AddConnectorConfiguring(state.View(), k, c, s);
    AddConnectorGrows(state.View(), k);
    PlaceChosen(state.View(), k, c, on);
    r := state.GetConnectorState(k);
    if r.Failed? { return; }
    MoveConnectorConfiguring(state.View(), k, c, s, Some(c));
    r := state.SetCrtcForConnector(k, Some(c));
  }

  /** The connectors a request names. */
  function Named(ks: seq<nat>): set<nat> {
    set k | k in ks
  }

  lemma NamedNext(ks: seq<nat>, i: nat)
    requires i < |ks|
    ensures Named(ks[..i + 1]) == Named(ks[..i]) + {ks[i]}
  {
    assert ks[..i + 1] == ks[..i] + [ks[i]];
  }

  /** Puts the requested connectors on CRTC c, taking them from other CRTCs where needed. */
  method PlaceConnectors(state: AtomicState, c: nat, ks: seq<nat>, ghost s: CrtcState) returns (r: Status)
    requires Configuring(state.View(), c, s) && Chosen(state.View(), c, {})
    requires forall i: nat :: i < |ks| ==> ks[i] < |state.connectors|
    modifies state
    ensures Shaped(state.View()) && (state.dev.reliable ==> r.Ok?)
    ensures r.Ok? ==> Configuring(state.View(), c, s) && Crtc(state.View(), c).connectors == Named(ks)
    ensures r.Ok? ==> Chosen(state.View(), c, Named(ks)) && state.planes == old(state.planes)
  {
    for i := 0 to |ks|
      invariant |state.connectors| == |old(state.connectors)| && state.planes == old(state.planes)
      invariant Configuring(state.View(), c, s) && Chosen(state.View(), c, Named(ks[..i]))
    {
      r := PlaceConnector(state, ks[i], c, s, Named(ks[..i]));
      if r.Failed? { return; }
      NamedNext(ks, i);
    }
    assert ks[..|ks|] == ks;
    ChosenMask(state.View(), c, Named(ks));
    r := Ok;
  }

  /** Turns off every other CRTC that has lost its last connector. */
  method RetireBare(state: AtomicState, c: nat, ghost s: CrtcState)
    requires Configuring(state.View(), c, s)
    modifies state
    ensures Configuring(state.View(), c, s) && Crtc(state.View(), c) == Crtc(old(state.View()), c) && state.planes == old(state.planes)
    ensures state.connectors == old(state.connectors)
    ensures forall d: nat :: HasCrtc(state.View(), d) && d != c ==> Populated(Crtc(state.View(), d))
  {
    for d := 0 to |state.crtcs|
      invariant |state.crtcs| == |old(state.crtcs)| && state.planes == old(state.planes) && state.connectors == old(state.connectors)
      invariant Configuring(state.View(), c, s) && Crtc(state.View(), c) == Crtc(old(state.View()), c)
      invariant forall e: nat :: e < d && HasCrtc(state.View(), e) && e != c ==> Populated(Crtc(state.View(), e))
    {
      if state.crtcs[d].Some? && d != c && state.crtcs[d].value.connectors == {} {
        ghost var u := state.View();
        RetireConfiguring(u, c, d, s);
        var r := state.SetModePropForCrtc(d, None);
        state.crtcs := state.crtcs[d := Some(state.crtcs[d].value.(active := false))];
        assert state.View() == EditCrtc(u, d, OffIfBare(Crtc(u, d)));
      }
    }
  }

  lemma RetireConfiguring(u: Update, c: nat, d: nat, s: CrtcState)
    requires Configuring(u, c, s) && HasCrtc(u, d) && d != c && Crtc(u, d).connectors == {}
    ensures Configuring(EditCrtc(u, d, OffIfBare(Crtc(u, d))), c, s)
    ensures Populated(OffIfBare(Crtc(u, d)))
  {
    EditCrtcKeeps(u, d, OffIfBare(Crtc(u, d)));
  }

  function TargetMode(mode: Option<nat>): nat {
    if mode == None then ZERO_MODE else mode.value
  }

  /** Mode and activity of the target CRTC. */
  method SetTargetMode(state: AtomicState, c: nat, mode: Option<nat>, blobId: nat) returns (r: Status, ghost s: CrtcState)
    requires state.View() == Empty(state.dev.Current()) && Consistent(state.dev.Current()) && c < |state.crtcs|
    modifies state
    ensures Shaped(state.View()) && (state.dev.reliable ==> r.Ok?)
    ensures r.Ok? ==> Configuring(state.View(), c, s) && s.active == mode.Some? && s.mode == TargetMode(mode)
    ensures r.Ok? ==> state.planes == old(state.planes) && state.connectors == old(state.connectors)
    ensures r.Ok? ==> (s.enable <==> mode.Some? && (mode.value != ZERO_MODE || state.dev.crtcs[c].enable))
  {
    EmptyAssembled(state.dev.Current());
    AddCrtcKeeps(state.View(), c);
    s := OFF_CRTC;
    r := state.GetCrtcState(c);
    if r.Failed? { return; }
    ghost var u := state.View();
    EditCrtcKeeps(u, c, WithMode(Crtc(u, c), mode, blobId).(active := mode.Some?));
    r := state.SetModeForCrtc(c, mode, blobId);
    if r.Failed? { return; }
    state.crtcs := state.crtcs[c := Some(state.crtcs[c].value.(active := mode.Some?))];
    s := state.crtcs[c].value;
    assert state.View() == EditCrtc(u, c, s);
  }

  lemma AddPlaneConfiguring(u: Update, p: nat, c: nat, s: CrtcState)
    requires Configuring(u, c, s) && p < |u.planes|
    ensures Configuring(AddPlane(u, p), c, s) && HasPlane(AddPlane(u, p), p)
  {
    AddPlaneKeeps(u, p);
    AddPlaneGrows(u, p);
    forall d: nat | HasCrtc(AddPlane(u, p), d) && !HasCrtc(u, d) ensures CrtcSound(u.cfg.crtcs[d]) {}
  }

  lemma MovePlaneConfiguring(u: Update, p: nat, c: nat, s: CrtcState, to: Option<nat>)
    requires Configuring(u, c, s) && HasPlane(u, p) && (to == None || to == Some(c))
    ensures Plane(u, p).crtc.Some? ==> HasCrtc(u, Plane(u, p).crtc.value)
    ensures Configuring(MovePlane(u, p, to), c, s) && HasPlane(MovePlane(u, p, to), p)
  {
    MovePlaneKeeps(u, p, to);
    var v := MovePlane(u, p, to);
    MovePlaneAt(u, p, to, c);
    forall d: nat | HasCrtc(u, d) ensures Crtc(v, d) == Crtc(u, d).(planes := Crtc(v, d).planes) {
      MovePlaneAt(u, p, to, d);
    }
  }

  lemma EditPlaneConfiguring(u: Update, p: nat, c: nat, s: CrtcState, t: PlaneState)
    requires Configuring(u, c, s) && HasPlane(u, p) && t.crtc == Plane(u, p).crtc
    ensures Configuring(EditPlane(u, p, t), c, s)
  {
    EditPlaneKeeps(u, p, t);
  }

  /** The update gives plane p the state s, and has no other plane. */
  ghost predicate Shown(u: Update, p: nat, s: PlaneState) {
    p < |u.planes| && forall q: nat :: q < |u.planes| ==> u.planes[q] == if q == p then Some(s) else None
  }

  function PrimaryState(c: nat, mode: Option<nat>, fb: Option<nat>): PlaneState {
    if mode.Some? then PlaneState(Some(c), fb) else PlaneState(None, None)
  }

  /** Moving plane p into the update, which has no other, leaves everything else in it alone. */
  lemma PrimaryOnly(u: Update, p: nat, c: nat, s: CrtcState, to: Option<nat>)
    requires Configuring(u, c, s) && p < |u.planes| && (to == None || to == Some(c)) && forall q: nat :: !HasPlane(u, q)
    ensures HasPlane(AddPlane(u, p), p)
    ensures var w := AddPlane(u, p); Shaped(w) && (Plane(w, p).crtc.Some? ==> HasCrtc(w, Plane(w, p).crtc.value))
    ensures var v := MovePlane(AddPlane(u, p), p, to);
      v.connectors == u.connectors && Shown(v, p, PlaneState(to, u.cfg.planes[p].fb)) && Configuring(v, c, s)
  {
    AddPlaneConfiguring(u, p, c, s);
    AddPlaneGrows(u, p);
    var w := AddPlane(u, p);
    MovePlaneConfiguring(w, p, c, s, to);
    MovePlaneSlots(w, p, to);
    forall q: nat | q < |u.planes| ensures u.planes[q] == None { assert !HasPlane(u, q); }
  }

  /** Puts the primary plane on the target CRTC with the requested framebuffer, or takes it off. */
  method SetPrimary(state: AtomicState, c: nat, primary: nat, on: bool, fb: Option<nat>, ghost s: CrtcState) returns (r: Status)
    requires Configuring(state.View(), c, s) && primary < |state.planes| && forall p: nat :: !HasPlane(state.View(), p)
    modifies state
    ensures Shaped(state.View()) && (state.dev.reliable ==> r.Ok?)
    ensures r.Ok? ==> Configuring(state.View(), c, s) && state.connectors == old(state.connectors)
    ensures r.Ok? ==> Shown(state.View(), primary, if on then PlaneState(Some(c), fb) else PlaneState(None, None))
  {
    AddPlaneConfiguring(state.View(), primary, c, s);
    PrimaryOnly(state.View(), primary, c, s, if on then Some(c) else None);
    r := state.GetPlaneState(primary);
    if r.Failed? { return; }
    r := state.SetCrtcForPlane(primary, if on then Some(c) else None);
    if r.Failed? { return; }
    ghost var w := state.View();
    EditPlaneConfiguring(w, primary, c, s, Plane(w, primary).(fb := if on then fb else None));
    state.planes := state.planes[primary := Some(state.planes[primary].value.(fb := if on then fb else None))];
  }

  /**
   Assembly of a set_config request. The target CRTC ends up with the requested mode, activity and exactly the
   requested connectors, its primary plane with the framebuffer, and every other CRTC of the update is enabled
   exactly if it has connectors.
   */
  method AssembleSetConfig(state: AtomicState, c: nat, primary: nat, mode: Option<nat>, fb: Option<nat>, ks: seq<nat>, blobId: nat)
    returns (r: Status)
    requires state.View() == Empty(state.dev.Current()) && Consistent(state.dev.Current())
    requires c < |state.crtcs| && primary < |state.planes| && forall i: nat :: i < |ks| ==> ks[i] < |state.connectors|
    modifies state
    ensures Shaped(state.View()) && (state.dev.reliable ==> r.Ok?)
    ensures r.Ok? ==> Open(state.View()) && Assigned(state.View(), c, primary, mode, fb, ks)
    ensures r.Ok? ==> (Matched(state.View()) <==> SaneRequest(mode, ks, state.dev.crtcs[c].enable))
  {
    ghost var s;
    r, s := SetTargetMode(state, c, mode, blobId);
    if r.Failed? { return; }
    r := SetPrimary(state, c, primary, mode.Some?, fb, s);
    if r.Failed? { return; }
    r := ClearConnectors(state, c, s);
    if r.Failed? { return; }
    r := PlaceConnectors(state, c, ks, s);
    if r.Failed? { return; }
    RetireBare(state, c, s);
    SaneMatched(state.View(), c, s, mode, ks);
  }

  /**
   A mode exactly when connectors are named; and the all-zero mode, which a disabled CRTC already has, does
   not enable it. Only a caller inside the kernel could pass that one: modes from userspace have a clock.
   */
  predicate SaneRequest(mode: Option<nat>, ks: seq<nat>, enabled: bool) {
    if mode == None then ks == [] else ks != [] && (mode.value != ZERO_MODE || enabled)
  }

  lemma SaneMatched(u: Update, c: nat, s: CrtcState, mode: Option<nat>, ks: seq<nat>)
    requires Configuring(u, c, s) && s.active == mode.Some?
    requires s.enable <==> mode.Some? && (mode.value != ZERO_MODE || u.cfg.crtcs[c].enable)
    requires Crtc(u, c).connectors == Named(ks)
    requires forall d: nat :: HasCrtc(u, d) && d != c ==> Populated(Crtc(u, d))
    ensures Matched(u) <==> SaneRequest(mode, ks, u.cfg.crtcs[c].enable)
  {
    if ks != [] { assert ks[0] in Crtc(u, c).connectors; }
  }

  /** What a set_config request comes to before conflicts are looked for. */
  ghost predicate Assigned(u: Update, c: nat, primary: nat, mode: Option<nat>, fb: Option<nat>, ks: seq<nat>) {
    && Shaped(u) && HasCrtc(u, c) && Crtc(u, c).connectors == Named(ks)
    && Crtc(u, c).mode == TargetMode(mode) && Crtc(u, c).active == mode.Some?
    && Shown(u, primary, PrimaryState(c, mode, fb)) && Chosen(u, c, Named(ks)) && OthersKept(u, c)
  }

  /** Connector k holds an encoder that one of the connectors named is to have. */
  predicate Displaced(cfg: Config, c: nat, ks: seq<nat>, k: nat)
    requires k < |cfg.connectors|
  {
    cfg.connectors[k].encoder.Some? && exists i: nat :: i < |ks| && cfg.best(ks[i], c) == cfg.connectors[k].encoder
  }

  function CrtcAfter(cfg: Config, c: nat, ks: seq<nat>, k: nat): Option<nat>
    requires k < |cfg.connectors|
  {
    if k in ks then Some(c) else if ConnectorAt(cfg, k, c) || Displaced(cfg, c, ks, k) then None else cfg.connectors[k].crtc
  }

  /**
   The request has been carried out: exactly the connectors named are on CRTC c, in the mode and activity asked for,
   with the framebuffer on its primary plane. The other connectors are where they were unless they were on c or
   their encoder was needed; CRTCs that keep a connector show what they showed; no other plane has changed.
   */
  ghost predicate CrtcSet(was: Config, c: nat, primary: nat, mode: Option<nat>, fb: Option<nat>, ks: seq<nat>, now: Config) {
    && SameSizes(was, now) && c < |now.crtcs|
    && now.crtcs[c].mode == TargetMode(mode) && now.crtcs[c].active == mode.Some?
    && (forall k: nat :: k < |was.connectors| ==> now.connectors[k].crtc == CrtcAfter(was, c, ks, k))
    && (forall k: nat :: k < |was.connectors| ==>
          now.connectors[k].link == if ConnectorAt(was, k, c) then LINK_GOOD else was.connectors[k].link)
    && (forall p: nat :: p < |was.planes| ==> now.planes[p] == if p == primary then PrimaryState(c, mode, fb) else was.planes[p])
    && (forall d: nat :: d < |was.crtcs| && d != c && now.crtcs[d].connectors != {} ==> SameMode(now.crtcs[d], was.crtcs[d]))
  }

  lemma ChosenTarget(u: Update, c: nat, ks: seq<nat>, k: nat)
    requires Shaped(u) && Chosen(u, c, Named(ks)) && k < |u.connectors|
    ensures Target(u, k) == if k in ks then u.cfg.best(k, c) else None
  {
  }

  lemma InTheWayDisplaced(u: Update, c: nat, ks: seq<nat>, k: nat)
    requires Shaped(u) && Chosen(u, c, Named(ks)) && k < |u.connectors| && forall i: nat :: i < |ks| ==> ks[i] < |u.connectors|
    ensures InTheWay(u, k) <==> k !in ks && !ConnectorAt(u.cfg, k, c) && Displaced(u.cfg, c, ks, k)
  {
    if InTheWay(u, k) {
      var l: nat :| Target(u, l) == u.cfg.connectors[k].encoder;
      ChosenTarget(u, c, ks, l);
      var i: nat :| i < |ks| && ks[i] == l;
      assert u.cfg.best(ks[i], c) == u.cfg.connectors[k].encoder;
    }
    if k !in ks && !ConnectorAt(u.cfg, k, c) && Displaced(u.cfg, c, ks, k) {
      var i: nat :| i < |ks| && u.cfg.best(ks[i], c) == u.cfg.connectors[k].encoder;
      ChosenTarget(u, c, ks, ks[i]);
      assert Target(u, ks[i]) == u.cfg.connectors[k].encoder;
    }
  }

  lemma RoomCrtcSet(u: Update, v: Update, c: nat, primary: nat, mode: Option<nat>, fb: Option<nat>, ks: seq<nat>)
    requires Assigned(u, c, primary, mode, fb, ks) && RoomMade(u, v, |u.connectors|)
    requires forall i: nat :: i < |ks| ==> ks[i] < |u.connectors|
    ensures CrtcSet(u.cfg, c, primary, mode, fb, ks, Installed(v))
    ensures Shown(v, primary, PrimaryState(c, mode, fb)) && OnlyNamed(v, ks)
  {
    assert !Vacates(u, |u.connectors|, c);
    forall k: nat | k < |u.connectors| 
      ensures Connector(v, k).crtc == CrtcAfter(u.cfg, c, ks, k)
      ensures Connector(v, k).link == if ConnectorAt(u.cfg, k, c) then LINK_GOOD else u.cfg.connectors[k].link
    {
      InTheWayDisplaced(u, c, ks, k);
    }
  }

  /** What the check does to a request does not show. */
  lemma SettledCrtcSet(was: Config, c: nat, primary: nat, mode: Option<nat>, fb: Option<nat>, ks: seq<nat>, u: Update, v: Update)
    requires Settled(u, v) && CrtcSet(was, c, primary, mode, fb, ks, Installed(u))
    ensures CrtcSet(was, c, primary, mode, fb, ks, Installed(v))
  {
    forall d: nat | d < |u.crtcs| ensures SameMode(Crtc(v, d), Crtc(u, d)) && Crtc(v, d).connectors == Crtc(u, d).connectors {
      assert HasCrtc(v, d) <==> HasCrtc(u, d);
    }
  }

  /** No two connectors named are to have the same encoder. */
  predicate Separate(cfg: Config, c: nat, ks: seq<nat>) {
    forall i: nat, j: nat :: i < |ks| && j < |ks| && ks[i] != ks[j] && cfg.best(ks[i], c).Some? ==> cfg.best(ks[i], c) != cfg.best(ks[j], c)
  }

  lemma SeparateTargets(u: Update, c: nat, ks: seq<nat>)
    requires Shaped(u) && Chosen(u, c, Named(ks)) && forall i: nat :: i < |ks| ==> ks[i] < |u.connectors|
    ensures DistinctTargets(u) <==> Separate(u.cfg, c, ks)
  {
    forall k: nat | k < |u.connectors| ensures Target(u, k) == if k in ks then u.cfg.best(k, c) else None { ChosenTarget(u, c, ks, k); }
    if DistinctTargets(u) {
      forall i: nat, j: nat | i < |ks| && j < |ks| && ks[i] != ks[j] && u.cfg.best(ks[i], c).Some?
        ensures u.cfg.best(ks[i], c) != u.cfg.best(ks[j], c)
      {
        assert Target(u, ks[i]) != Target(u, ks[j]);
      }
    }
  }

  /** The connectors that the update puts on a CRTC are those named. */
  ghost predicate OnlyNamed(u: Update, ks: seq<nat>)
    requires Shaped(u)
  {
    forall k: nat :: k < |u.connectors| ==> (k in ks <==> HasConnector(u, k) && Connector(u, k).crtc.Some?)
  }

  /**
   Assembly followed by conflict resolution in the disabling mode: for a sane request the later strict
   conflict check passes and `enable` matches the connectors of every CRTC in the update, and installing it
   carries out the request.
   */
  method PrepareSetConfig(state: AtomicState, c: nat, primary: nat, mode: Option<nat>, fb: Option<nat>, ks: seq<nat>, blobId: nat)
    returns (r: Status)
    requires state.View() == Empty(state.dev.Current()) && Consistent(state.dev.Current())
    requires c < |state.crtcs| && primary < |state.planes| && forall i: nat :: i < |ks| ==> ks[i] < |state.connectors|
    requires SaneRequest(mode, ks, state.dev.crtcs[c].enable)
    modifies state
    ensures Shaped(state.View())
    ensures r.Ok? ==> Open(state.View()) && NoConflict(state.View()) && Matched(state.View())
    ensures r.Ok? ==> CrtcSet(state.dev.Current(), c, primary, mode, fb, ks, Installed(state.View()))
    ensures r.Ok? ==> Shown(state.View(), primary, PrimaryState(c, mode, fb)) && OnlyNamed(state.View(), ks)
    ensures state.dev.reliable ==> (r.Ok? <==> Separate(state.dev.Current(), c, ks))
  {
    r := AssembleSetConfig(state, c, primary, mode, fb, ks, blobId);
    if r.Failed? { return; }
    ghost var u := state.View();
    SeparateTargets(u, c, ks);
    r := DisableConflictingEncoders(state);
    if r.Failed? { return; }
    RoomCrtcSet(u, state.View(), c, primary, mode, fb, ks);
  }
}
