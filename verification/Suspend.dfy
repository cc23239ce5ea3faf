/** Saving the whole configuration, switching everything off, and restoring it after a reset. */
module SuspendResume {
  import opened Outcomes
  import opened Modeset
  import opened Assembly
  import opened EncoderRouting
  import opened AtomicCore
  import opened ModesetCheck
  import opened OutputHooks
  import opened Commit

  /** An update against `now` that holds a copy of every state of `saved`. */
  function Restoring(now: Config, saved: Config): Update {
    Update(now,
           seq(|saved.crtcs|, c requires 0 <= c < |saved.crtcs| => Some(Duplicate(saved.crtcs[c]))),
           seq(|saved.planes|, p requires 0 <= p < |saved.planes| => Some(saved.planes[p])),
           seq(|saved.connectors|, k requires 0 <= k < |saved.connectors| => Some(saved.connectors[k])))
  }

  /** Equal up to the flags that say what a commit changed. */
  ghost predicate SameSetup(a: Config, b: Config) {
    && a.planes == b.planes && a.connectors == b.connectors
    && |a.crtcs| == |b.crtcs|
    && (forall c: nat :: c < |a.crtcs| ==> SameFields(a.crtcs[c], b.crtcs[c]))
  }

  /** Off, without a mode, a plane, a connector or an encoder. */
  predicate Idle(s: CrtcState) {
    !s.enable && !s.active && s.mode == ZERO_MODE && s.blob == None && s.planes == {} && s.connectors == {} && s.encoders == {}
  }

  /** Everything is off: no link, no mask bit, no mode. */
  ghost predicate Dark(cfg: Config) {
    && (forall c: nat :: c < |cfg.crtcs| ==> Idle(cfg.crtcs[c]))
    && (forall p: nat :: p < |cfg.planes| ==> cfg.planes[p] == PlaneState(None, None))
    && (forall k: nat :: k < |cfg.connectors| ==> cfg.connectors[k].crtc == None && cfg.connectors[k].encoder == None)
  }

  /** Switched off, with nothing but that changed: links keep their status. */
  ghost predicate SwitchedOff(was: Config, now: Config) {
    Dark(now) && SameSizes(now, was) && forall k: nat :: k < |was.connectors| ==> now.connectors[k].link == was.connectors[k].link
  }

  // ----- restoring onto a dark device -----

  lemma RestoringStarts(now: Config, saved: Config)
    requires Consistent(saved) && Dark(now) && SameSizes(now, saved)
    ensures var u := Restoring(now, saved); Assembled(u) && Pending(u) && ModesAgree(u)
  {
    var u := Restoring(now, saved);
    forall p: nat, c: nat ensures PlaneOn(u, p, c) <==> PlaneAt(saved, p, c) {}
    forall k: nat, c: nat ensures ConnectorOn(u, k, c) <==> ConnectorAt(saved, k, c) {}
    forall k: nat, c: nat ensures !ConnectorAt(now, k, c) {}
    forall p: nat, c: nat ensures !PlaneAt(now, p, c) {}
    RestoringEncoders(now, saved);
  }

  lemma RestoringTargets(now: Config, saved: Config, k: nat)
    requires Routed(saved) && SameSizes(now, saved)
    ensures var u := Restoring(now, saved); k < |saved.connectors| ==> Target(u, k) == saved.connectors[k].encoder
    ensures var u := Restoring(now, saved); k >= |saved.connectors| ==> Target(u, k) == None
  {
    if k < |saved.connectors| { assert RoutedConnector(saved, saved.connectors[k], k); }
  }

  lemma RestoringEncoders(now: Config, saved: Config)
    requires Routed(saved) && Exclusive(saved) && EncodersLinked(saved) && Dark(now) && SameSizes(now, saved)
    ensures Pending(Restoring(now, saved))
  {
    var u := Restoring(now, saved);
    forall k: nat, e: nat ensures Holds(u, k, e) <==> k < |saved.connectors| && saved.connectors[k].encoder == Some(e) {}
    forall k: nat, c: nat, e: nat
      ensures Carries(u, 0, k, c, e) <==>
        k < |saved.connectors| && saved.connectors[k].crtc == Some(c) && saved.connectors[k].encoder == Some(e)
    {}
    forall k: nat | HasConnector(u, k)
      ensures Connector(u, k).encoder == now.connectors[k].encoder || Restored(u, k)
    {
      RestoringTargets(now, saved, k);
    }
    forall c: nat, e: nat | HasCrtc(u, c)
      ensures e in Crtc(u, c).encoders <==> exists k: nat :: Carries(u, 0, k, c, e)
    {
      if ServedOn(saved, c, e) {
        var k: nat :| k < |saved.connectors| && saved.connectors[k].crtc == Some(c) && saved.connectors[k].encoder == Some(e);
        assert Carries(u, 0, k, c, e);
      }
      if k: nat :| Carries(u, 0, k, c, e) { assert ServedOn(saved, c, e); }
    }
  }

  /** Nothing can refuse a restore but a hook. */
  lemma RestoringFeasible(now: Config, saved: Config)
    requires Consistent(saved) && Dark(now) && SameSizes(now, saved)
    ensures CoreOk(Restoring(now, saved)) && Feasible(Restoring(now, saved))
  {
    var u := Restoring(now, saved);
    forall k: nat ensures Target(u, k) == if k < |saved.connectors| then saved.connectors[k].encoder else None {
      RestoringTargets(now, saved, k);
    }
    forall k: nat | HasConnector(u, k) ensures Routable(u, k) {
      assert RoutedConnector(saved, saved.connectors[k], k);
    }
    forall c: nat | HasCrtc(u, c) ensures Populated(Crtc(u, c)) && CrtcAcceptable(Crtc(u, c)) {
      assert CrtcSound(saved.crtcs[c]);
    }
    forall p: nat | HasPlane(u, p) ensures PlaneAcceptable(u.cfg.planes[p], Plane(u, p)) {}
  }

  /** Whatever the check does to it, an approved restore installs the saved setup. */
  lemma RestoredSame(now: Config, saved: Config, v: Update)
    requires Consistent(saved) && SameSizes(now, saved)
    requires Settled(Restoring(now, saved), v) && Approved(v)
    ensures SameSetup(Installed(v), saved)
  {
    var u, cfg := Restoring(now, saved), Installed(v);
    forall k: nat | k < |saved.connectors| ensures cfg.connectors[k] == saved.connectors[k] {
      assert RoutedConnector(v.cfg, Connector(v, k), k) && RoutedConnector(saved, saved.connectors[k], k);
      assert Connector(u, k) == saved.connectors[k];
    }
    forall p: nat | p < |saved.planes| ensures cfg.planes[p] == saved.planes[p] { assert Plane(u, p) == saved.planes[p]; }
    forall c: nat | c < |saved.crtcs| ensures SameFields(cfg.crtcs[c], saved.crtcs[c]) {
      assert HasCrtc(u, c) && HasCrtc(v, c);
      RestoredMask(saved, v, c);
    }
  }

  lemma RestoredMask(saved: Config, v: Update, c: nat)
    requires EncodersLinked(saved) && Shaped(v) && EncoderMasks(v, |v.connectors|) && HasCrtc(v, c) && c < |saved.crtcs|
    requires |v.connectors| == |saved.connectors|
    requires forall k: nat :: k < |saved.connectors| ==> Connector(v, k) == saved.connectors[k]
    ensures Crtc(v, c).encoders == saved.crtcs[c].encoders
  {
    var n := |v.connectors|;
    forall e: nat ensures e in Crtc(v, c).encoders <==> e in saved.crtcs[c].encoders {
      if k: nat :| Carries(v, n, k, c, e) {
        assert Connector(v, k) == saved.connectors[k];
        assert ServedOn(saved, c, e);
      }
      if ServedOn(saved, c, e) {
        var k: nat :| k < n && saved.connectors[k].crtc == Some(c) && saved.connectors[k].encoder == Some(e);
        assert Carries(v, n, k, c, e);
      }
    }
  }

  // ----- switching everything off -----

  /** Every CRTC is in the update with its mode cleared, and so is everything that is on a CRTC. */
  ghost predicate Gathered(u: Update, n: nat)
    requires Shaped(u)
  {
    && (forall c: nat :: c < n && c < |u.crtcs| ==> HasCrtc(u, c) && Cleared(Crtc(u, c)))
    && (forall p: nat, c: nat :: c < n && PlaneAt(u.cfg, p, c) ==> HasPlane(u, p))
    && (forall k: nat, c: nat :: c < n && ConnectorAt(u.cfg, k, c) ==> HasConnector(u, k))
    && (forall p: nat :: HasPlane(u, p) ==> u.planes[p] == Some(u.cfg.planes[p]))
    && (forall k: nat :: HasConnector(u, k) ==> u.connectors[k] == Some(u.cfg.connectors[k]))
  }

  predicate Cleared(s: CrtcState) {
    !s.active && !s.enable && s.blob == None && s.mode == ZERO_MODE
  }

  lemma GrownGathered(u: Update, v: Update, n: nat)
    requires Grown(u, v) && Gathered(u, n)
    ensures Gathered(v, n)
  {
    forall p: nat | HasPlane(v, p) ensures v.planes[p] == Some(v.cfg.planes[p]) { assert Plane(v, p) == Plane(u, p); }
    forall k: nat | HasConnector(v, k) ensures v.connectors[k] == Some(v.cfg.connectors[k]) {
      assert Connector(v, k) == Connector(u, k);
    }
  }

  method ClearCrtc(state: AtomicState, c: nat) returns (r: Status)
    requires Open(state.View()) && Gathered(state.View(), c) && c < |state.crtcs|
    modifies state
    ensures Shaped(state.View()) && |state.crtcs| == |old(state.crtcs)| && (state.dev.reliable ==> r.Ok?)
    ensures r.Ok? ==> Open(state.View()) && Gathered(state.View(), c) && HasCrtc(state.View(), c) && Cleared(Crtc(state.View(), c))
  {
    AddCrtcKeeps(state.View(), c);
    ClearCrtcGathered(state.View(), c);
    r := state.GetCrtcState(c);
    if r.Failed? { return; }
    ghost var u := state.View();
    state.crtcs := state.crtcs[c := Some(state.crtcs[c].value.(active := false))];
    r := state.SetModePropForCrtc(c, None);
    assert state.View() == EditCrtc(u, c, WithBlob(Crtc(u, c).(active := false), None).value);
  }

  lemma ClearCrtcGathered(u: Update, c: nat)
    requires Open(u) && Gathered(u, c) && c < |u.crtcs|
    ensures var v := AddCrtc(u, c);
      var w := EditCrtc(v, c, WithBlob(Crtc(v, c).(active := false), None).value);
      Open(w) && Gathered(w, c) && HasCrtc(w, c) && Cleared(Crtc(w, c))
  {
    AddCrtcKeeps(u, c);
    var v := AddCrtc(u, c);
    assert ModeAgrees(Crtc(v, c));
    var s := WithBlob(Crtc(v, c).(active := false), None).value;
    EditCrtcKeeps(v, c, s);
    forall d: nat | d < c ensures HasCrtc(EditCrtc(v, c, s), d) && Cleared(Crtc(EditCrtc(v, c, s), d)) {
      assert HasCrtc(u, d) && Cleared(Crtc(u, d));
    }
  }

  /** Brings CRTC c, cleared, and everything on it into the update. */
  method GatherCrtc(state: AtomicState, c: nat) returns (r: Status)
    requires Open(state.View()) && Gathered(state.View(), c) && c < |state.crtcs|
    modifies state
    ensures Shaped(state.View()) && (state.dev.reliable ==> r.Ok?)
    ensures r.Ok? ==> Open(state.View()) && Gathered(state.View(), c + 1)
  {
    r := ClearCrtc(state, c);
    if r.Failed? { return; }
    ghost var v := state.View();
    r := AddForModeset(state, c);
    if r.Failed? { return; }
    GrownOpen(v, state.View());
    GrownGathered(v, state.View(), c);
  }

  /** The first n members no longer name a CRTC; the others are unchanged. */
  ghost predicate PlanesDetached(u: Update, n: nat)
    requires Shaped(u)
  {
    forall p: nat :: HasPlane(u, p) ==>
      if p < n then Plane(u, p) == PlaneState(None, None) else Plane(u, p) == u.cfg.planes[p]
  }

  ghost predicate ConnectorsDetached(u: Update, n: nat)
    requires Shaped(u)
  {
    forall k: nat :: HasConnector(u, k) ==> (k < n ==> Connector(u, k).crtc == None) && Connector(u, k).link == u.cfg.connectors[k].link
  }

  ghost predicate AllCleared(u: Update)
    requires Shaped(u)
  {
    forall c: nat :: c < |u.crtcs| ==> HasCrtc(u, c) && Cleared(Crtc(u, c))
  }

  /** Planes and connectors that are on a CRTC are in the update. */
  ghost predicate Covered(u: Update)
    requires Shaped(u)
  {
    && (forall p: nat, c: nat :: PlaneAt(u.cfg, p, c) ==> HasPlane(u, p))
    && (forall k: nat, c: nat :: ConnectorAt(u.cfg, k, c) ==> HasConnector(u, k))
  }

  lemma DetachConnectorCleared(u: Update, k: nat)
    requires Open(u) && AllCleared(u) && Covered(u) && HasConnector(u, k)
    ensures Connector(u, k).crtc.Some? ==> HasCrtc(u, Connector(u, k).crtc.value)
    ensures var v := MoveConnector(u, k, None);
      Open(v) && AllCleared(v) && Covered(v) && v.planes == u.planes && |v.connectors| == |u.connectors|
    ensures MoveConnector(u, k, None).connectors == u.connectors[k := Some(Connector(u, k).(crtc := None))]
  {
    MoveConnectorKeeps(u, k, None);
    MoveConnectorSlots(u, k, None);
    var v := MoveConnector(u, k, None);
    forall d: nat | d < |u.crtcs| ensures HasCrtc(v, d) && Cleared(Crtc(v, d)) {
      assert HasCrtc(u, d) && Cleared(Crtc(u, d));
      assert k in Crtc(u, d).connectors <==> ConnectorOn(u, k, d);
      MoveConnectorAt(u, k, None, d);
    }
    forall l: nat, c: nat | ConnectorAt(v.cfg, l, c) ensures HasConnector(v, l) { assert HasConnector(u, l); }
  }

  lemma DetachPlaneCleared(u: Update, p: nat)
    requires Open(u) && AllCleared(u) && Covered(u) && HasPlane(u, p)
    ensures Plane(u, p).crtc.Some? ==> HasCrtc(u, Plane(u, p).crtc.value)
    ensures var v := MovePlane(u, p, None); Shaped(v) && HasPlane(v, p)
    ensures var v := MovePlane(u, p, None); var w := EditPlane(v, p, Plane(v, p).(fb := None));
      Open(w) && AllCleared(w) && Covered(w) && w.connectors == u.connectors && w.planes == u.planes[p := Some(PlaneState(None, None))]
  {
    MovePlaneKeeps(u, p, None);
    var v := MovePlane(u, p, None);
    EditPlaneKeeps(v, p, Plane(v, p).(fb := None));
    forall d: nat | d < |u.crtcs| ensures HasCrtc(v, d) && Cleared(Crtc(v, d)) {
      assert HasCrtc(u, d) && Cleared(Crtc(u, d));
      MovePlaneAt(u, p, None, d);
    }
    var w := EditPlane(v, p, Plane(v, p).(fb := None));
    forall d: nat | d < |u.crtcs| ensures HasCrtc(w, d) && Cleared(Crtc(w, d)) { assert HasCrtc(v, d); }
  }

  method DetachConnectors(state: AtomicState)
    requires Open(state.View()) && AllCleared(state.View()) && Covered(state.View()) && ConnectorsDetached(state.View(), 0)
    modifies state
    ensures Open(state.View()) && AllCleared(state.View()) && Covered(state.View())
    ensures state.planes == old(state.planes)
    ensures ConnectorsDetached(state.View(), |state.connectors|)
  {
    for k := 0 to |state.connectors|
      invariant |state.connectors| == |old(state.connectors)| && state.planes == old(state.planes)
      invariant Open(state.View()) && AllCleared(state.View()) && Covered(state.View())
      invariant ConnectorsDetached(state.View(), k)
    {
      if state.connectors[k].Some? {
        ghost var u := state.View();
        DetachConnectorCleared(u, k);
        var r := state.SetCrtcForConnector(k, None);
        forall l: nat | HasConnector(state.View(), l) && l != k ensures HasConnector(u, l) && Connector(state.View(), l) == Connector(u, l) {}
      }
    }
  }

  method DetachPlanes(state: AtomicState) returns (r: Status)
    requires Open(state.View()) && AllCleared(state.View()) && Covered(state.View()) && PlanesDetached(state.View(), 0)
    modifies state
    ensures Shaped(state.View()) && (state.dev.reliable ==> r.Ok?)
    ensures r.Ok? ==> Open(state.View()) && AllCleared(state.View()) && Covered(state.View())
    ensures r.Ok? ==> state.connectors == old(state.connectors) && PlanesDetached(state.View(), |state.planes|)
  {
    for p := 0 to |state.planes|
      invariant |state.planes| == |old(state.planes)| && state.connectors == old(state.connectors)
      invariant Open(state.View()) && AllCleared(state.View()) && Covered(state.View())
      invariant PlanesDetached(state.View(), p)
    {
      if state.planes[p].Some? {
        ghost var u := state.View();
        DetachPlaneCleared(u, p);
        r := state.SetCrtcForPlane(p, None);
        if r.Failed? { return; }
        state.planes := state.planes[p := Some(state.planes[p].value.(fb := None))];
        forall q: nat | HasPlane(state.View(), q) && q != p ensures HasPlane(u, q) && Plane(state.View(), q) == Plane(u, q) {}
      }
    }
    r := Ok;
  }

  /** With everything detached, no connector or plane is on any CRTC. */
  lemma DetachedBare(u: Update)
    requires Open(u) && Covered(u) && PlanesDetached(u, |u.planes|) && ConnectorsDetached(u, |u.connectors|)
    ensures forall p: nat :: p < |u.planes| ==> Plane(u, p).crtc == None
    ensures forall k: nat :: k < |u.connectors| ==> Connector(u, k).crtc == None
    ensures forall c: nat :: HasCrtc(u, c) ==> Crtc(u, c).planes == {} && Crtc(u, c).connectors == {}
  {
    forall p: nat | p < |u.planes| ensures Plane(u, p).crtc == None {
      if !HasPlane(u, p) && u.cfg.planes[p].crtc.Some? { assert PlaneAt(u.cfg, p, u.cfg.planes[p].crtc.value); }
    }
    forall k: nat | k < |u.connectors| ensures Connector(u, k).crtc == None {
      if !HasConnector(u, k) && u.cfg.connectors[k].crtc.Some? { assert ConnectorAt(u.cfg, k, u.cfg.connectors[k].crtc.value); }
    }
    forall c: nat | HasCrtc(u, c) ensures Crtc(u, c).planes == {} && Crtc(u, c).connectors == {} {
      assert forall p: nat :: !PlaneOn(u, p, c);
      assert forall k: nat :: !ConnectorOn(u, k, c);
    }
  }

  lemma DetachedFeasible(u: Update)
    requires Open(u) && AllCleared(u) && Covered(u) && PlanesDetached(u, |u.planes|) && ConnectorsDetached(u, |u.connectors|)
    ensures CoreOk(u) && Feasible(u)
  {
    DetachedBare(u);
    forall k: nat ensures Target(u, k) == None {}
  }

  /** An approved update with everything detached installs a dark configuration. */
  lemma DetachedDark(u: Update, v: Update)
    requires Open(u) && AllCleared(u) && Covered(u) && PlanesDetached(u, |u.planes|) && ConnectorsDetached(u, |u.connectors|)
    requires forall p: nat :: p < |u.cfg.planes| ==> PlaneSound(u.cfg.planes[p])
    requires Settled(u, v) && Approved(v)
    ensures SwitchedOff(u.cfg, Installed(v))
  {
    DetachedBare(u);
    var cfg := Installed(v);
    forall k: nat | k < |v.connectors|
      ensures cfg.connectors[k].crtc == None && cfg.connectors[k].encoder == None && cfg.connectors[k].link == u.cfg.connectors[k].link
    {
      assert HasConnector(u, k) || Connector(u, k) == u.cfg.connectors[k];
      assert RoutedConnector(v.cfg, Connector(v, k), k);
    }
    forall p: nat | p < |v.planes| ensures cfg.planes[p] == PlaneState(None, None) {
      assert Plane(v, p) == Plane(u, p);
    }
    forall c: nat | c < |v.crtcs| ensures Duplicate(cfg.crtcs[c]) == OFF_CRTC {
      assert HasCrtc(u, c) && HasCrtc(v, c);
      assert forall k: nat, e: nat :: !Carries(v, |v.connectors|, k, c, e);
      assert Crtc(v, c).encoders == {};
    }
  }

  /** Switches off every output. If nothing refuses it succeeds, and then every link and mask is empty. */
  method DisableAll(dev: Device, hw: Hardware) returns (r: Status)
    requires InSync(dev, hw)
    modifies dev, hw
    ensures InSync(dev, hw) && (dev.reliable ==> r.Ok?)
    ensures r.Ok? ==> SwitchedOff(old(dev.Current()), dev.Current())
    ensures r.Failed? ==> dev.Current() == old(dev.Current()) && hw.trace == old(hw.trace)
  {
    var state := new AtomicState(dev);
    EmptyAssembled(dev.Current());
    for c := 0 to |state.crtcs|
      invariant state.dev == dev && fresh(state) && |state.crtcs| == |dev.crtcs|
      invariant dev.Current() == old(dev.Current()) && hw.trace == old(hw.trace)
      invariant Open(state.View()) && Gathered(state.View(), c)
    {
      r := GatherCrtc(state, c);
      if r.Failed? { return; }
    }
    GatheredCovered(state.View());
    r := DetachAndCommit(state, hw);
  }

  lemma GatheredCovered(u: Update)
    requires Open(u) && Gathered(u, |u.crtcs|)
    ensures AllCleared(u) && Covered(u) && PlanesDetached(u, 0) && ConnectorsDetached(u, 0)
  {
  }

  method DetachAndCommit(state: AtomicState, hw: Hardware) returns (r: Status)
    requires InSync(state.dev, hw) && Open(state.View())
    requires AllCleared(state.View()) && Covered(state.View()) && PlanesDetached(state.View(), 0) && ConnectorsDetached(state.View(), 0)
    modifies state, state.dev, hw
    ensures InSync(state.dev, hw) && (state.dev.reliable ==> r.Ok?)
    ensures r.Ok? ==> SwitchedOff(old(state.dev.Current()), state.dev.Current())
    ensures r.Failed? ==> state.dev.Current() == old(state.dev.Current()) && hw.trace == old(hw.trace)
  {
    DetachConnectors(state);
    r := DetachPlanes(state);
    if r.Failed? { return; }
    ghost var u := state.View();
    DetachedFeasible(u);
    OpenPending(u);
    r := AtomicCommit(state, hw, true);
    if r.Ok? {
      ghost var v: Update :| Settled(u, v) && Approved(v) && state.dev.Current() == Installed(v);
      DetachedDark(u, v);
    }
  }

  // ----- suspend and resume -----

  /** Copies every current state into a new update. */
  method DuplicateState(dev: Device) returns (r: Status, saved: AtomicState)
    requires Linked(dev.Current())
    ensures fresh(saved) && saved.dev == dev && (dev.reliable ==> r.Ok?)
    ensures r.Ok? ==> saved.View() == Restoring(dev.Current(), dev.Current())
  {
    saved := new AtomicState(dev);
    ghost var none := saved.View();
    r := CopyCrtcs(saved, none);
    if r.Failed? { return; }
    r := CopyPlanes(saved, none);
    if r.Failed? { return; }
    r := CopyConnectors(saved, none);
    if r.Failed? { return; }
    FullCopy(saved.View());
  }

  method CopyCrtcs(state: AtomicState, ghost none: Update) returns (r: Status)
    requires Shaped(state.View()) && Grown(none, state.View())
    modifies state
    ensures Shaped(state.View()) && (state.dev.reliable ==> r.Ok?)
    ensures r.Ok? ==> Grown(none, state.View()) && forall c: nat :: c < |state.crtcs| ==> HasCrtc(state.View(), c)
  {
    for c := 0 to |state.crtcs|
      invariant |state.crtcs| == |old(state.crtcs)|
      invariant Grown(none, state.View()) && forall d: nat :: d < c ==> HasCrtc(state.View(), d)
    {
      ghost var v := state.View();
      AddCrtcGrows(v, c);
      r := state.GetCrtcState(c);
      if r.Failed? { return; }
      GrownTransitive(none, v, state.View());
      forall d: nat | d < c + 1 ensures HasCrtc(state.View(), d) { assert d < c ==> HasCrtc(v, d); }
    }
    r := Ok;
  }

  method CopyPlanes(state: AtomicState, ghost none: Update) returns (r: Status)
    requires Shaped(state.View()) && InRange(state.dev.Current()) && Grown(none, state.View())
    modifies state
    ensures Shaped(state.View()) && (state.dev.reliable ==> r.Ok?)
    ensures r.Ok? ==> Grown(none, state.View()) && Grown(old(state.View()), state.View())
    ensures r.Ok? ==> forall p: nat :: p < |state.planes| ==> HasPlane(state.View(), p)
  {
    for p := 0 to |state.planes|
      invariant |state.planes| == |old(state.planes)|
      invariant Grown(none, state.View()) && Grown(old(state.View()), state.View())
      invariant forall q: nat :: q < p ==> HasPlane(state.View(), q)
    {
      AddPlaneGrows(state.View(), p);
      r := state.GetPlaneState(p);
      if r.Failed? { return; }
    }
    r := Ok;
  }

  method CopyConnectors(state: AtomicState, ghost none: Update) returns (r: Status)
    requires Shaped(state.View()) && InRange(state.dev.Current()) && Grown(none, state.View())
    modifies state
    ensures Shaped(state.View()) && (state.dev.reliable ==> r.Ok?)
    ensures r.Ok? ==> Grown(none, state.View()) && Grown(old(state.View()), state.View())
    ensures r.Ok? ==> forall k: nat :: k < |state.connectors| ==> HasConnector(state.View(), k)
  {
    for k := 0 to |state.connectors|
      invariant |state.connectors| == |old(state.connectors)|
      invariant Grown(none, state.View()) && Grown(old(state.View()), state.View())
      invariant forall l: nat :: l < k ==> HasConnector(state.View(), l)
    {
      AddConnectorGrows(state.View(), k);
      r := state.GetConnectorState(k);
      if r.Failed? { return; }
    }
    r := Ok;
  }

  lemma FullCopy(u: Update)
    requires Grown(Empty(u.cfg), u)
    requires forall c: nat :: c < |u.crtcs| ==> HasCrtc(u, c)
    requires forall p: nat :: p < |u.planes| ==> HasPlane(u, p)
    requires forall k: nat :: k < |u.connectors| ==> HasConnector(u, k)
    ensures u == Restoring(u.cfg, u.cfg)
  {
    var v := Restoring(u.cfg, u.cfg);
    forall c: nat | c < |u.crtcs| ensures u.crtcs[c] == v.crtcs[c] { assert HasCrtc(u, c) && !HasCrtc(Empty(u.cfg), c); }
    forall p: nat | p < |u.planes| ensures u.planes[p] == v.planes[p] { assert HasPlane(u, p) && !HasPlane(Empty(u.cfg), p); }
    forall k: nat | k < |u.connectors| ensures u.connectors[k] == v.connectors[k] {
      assert HasConnector(u, k) && !HasConnector(Empty(u.cfg), k);
    }
  }

  /** Saves the configuration and switches everything off. */
  method Suspend(dev: Device, hw: Hardware) returns (r: Status, saved: AtomicState)
    requires InSync(dev, hw)
    modifies dev, hw
    ensures InSync(dev, hw) && fresh(saved) && saved.dev == dev && (dev.reliable ==> r.Ok?)
    ensures r.Ok? ==> SwitchedOff(old(dev.Current()), dev.Current())
    ensures r.Failed? ==> dev.Current() == old(dev.Current()) && hw.trace == old(hw.trace)
    ensures r.Ok? ==> saved.View() == Restoring(dev.Current(), old(dev.Current()))
  {
    r, saved := DuplicateState(dev);
    if r.Failed? { return; }
    r := DisableAll(dev, hw);
  }

  /** The configuration of the same device after reset. */
  function OffOf(cfg: Config): Config {
    Off(cfg.best, cfg.fits, |cfg.crtcs|, |cfg.planes|, |cfg.connectors|)
  }

  lemma OffDark(cfg: Config)
    ensures Dark(OffOf(cfg)) && SameSizes(OffOf(cfg), cfg)
  {
  }

  /** Resets the device and commits the saved configuration. If nothing refuses, it is restored; else all stays off. */
  method Resume(dev: Device, hw: Hardware, saved: AtomicState, ghost was: Config) returns (r: Status)
    requires InSync(dev, hw) && Dark(dev.Current()) && saved.dev == dev
    requires Consistent(was) && SameSizes(dev.Current(), was) && saved.View() == Restoring(dev.Current(), was)
    modifies dev, hw, saved
    ensures InSync(dev, hw) && |dev.crtcs| == |old(dev.crtcs)| && |dev.planes| == |old(dev.planes)| && (dev.reliable ==> r.Ok?)
    ensures r.Ok? ==> SameSetup(dev.Current(), was)
    ensures r.Failed? ==> dev.Current() == OffOf(was)
  {
    OffDark(dev.Current());
    OffConsistent(dev.best, dev.fits, |dev.crtcs|, |dev.planes|, |dev.connectors|);
    DarkShows(Replay(hw.trace).value, dev.Current(), OffOf(dev.Current()));
    dev.Reset();
    ghost var now := dev.Current();
    assert saved.View() == Restoring(now, was);
    RestoringStarts(now, was);
    RestoringFeasible(now, was);
    r := AtomicCommit(saved, hw, true);
    if r.Ok? {
      ghost var v: Update :| Settled(Restoring(now, was), v) && Approved(v) && dev.Current() == Installed(v);
      RestoredSame(now, was, v);
    }
  }

  /** Two dark configurations light the same outputs, none. */
  lemma DarkShows(l: Lit, a: Config, b: Config)
    requires Dark(a) && Dark(b) && |a.crtcs| == |b.crtcs| && Shows(l, a)
    ensures Shows(l, b)
  {
    assert forall k: nat, e: nat :: !Lights(a, k, e) && !Lights(b, k, e);
    assert forall c: nat :: c < |a.crtcs| ==> Duplicate(a.crtcs[c]) == OFF_CRTC == Duplicate(b.crtcs[c]);
  }

  /** Suspend followed by resume brings back the configuration the device had, unless a hook refuses. */
  method SuspendThenResume(dev: Device, hw: Hardware) returns (r: Status)
    requires InSync(dev, hw)
    modifies dev, hw
    ensures InSync(dev, hw) && |dev.crtcs| == |old(dev.crtcs)| && |dev.planes| == |old(dev.planes)| && (dev.reliable ==> r.Ok?)
    ensures r.Ok? ==> SameSetup(dev.Current(), old(dev.Current()))
    ensures r.Failed? ==> dev.Current() == old(dev.Current()) || dev.Current() == OffOf(old(dev.Current()))
  {
    ghost var was := dev.Current();
    var saved;
    r, saved := Suspend(dev, hw);
    if r.Failed? { return; }
    r := Resume(dev, hw, saved, was);
  }
}
