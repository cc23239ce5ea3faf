/**
 Committing an update: the core checks, the modeset check, the swap, and the hook calls; and the atomic
 ioctl that drives all of it for a sequence of property requests.
 */
module Commit {
  import opened Outcomes
  import opened Modeset
  import opened Assembly
  import opened EncoderRouting
  import opened AtomicCore
  import opened ModesetCheck
  import opened OutputHooks

  class Hardware {
    var trace: seq<Hook>

    constructor ()
      ensures trace == []
    {
      trace := [];
    }

    method Call(h: Hook)
      requires Replay(trace).Some? && Fire(Replay(trace).value, h).Some?
      modifies this
      ensures trace == old(trace) + [h]
      ensures Replay(trace) == Fire(Replay(old(trace)).value, h)
    {
      ReplayAppend(trace, h);
      trace := trace + [h];
    }
  }

  /** Connector k lights encoder e now and has not been switched off by the first i rounds. */
  ghost predicate Glows(u: Update, i: nat, k: nat, e: nat)
    requires Shaped(u)
  {
    Lights(u.cfg, k, e) && !(k < i && GoesDark(u, k))
  }

  /** The encoders that glow after i rounds. */
  ghost predicate Glowing(u: Update, i: nat, lit: set<nat>)
    requires Shaped(u)
  {
    forall e: nat :: e in lit <==> exists k: nat :: Glows(u, i, k, e)
  }

  method DisableEncoders(state: AtomicState, hw: Hardware)
    requires var u := state.Committed(); Checked(u) && state.dev.Current() == Installed(u)
    requires Wired(state.before)
    requires Replay(hw.trace).Some?
    requires Glowing(state.Committed(), 0, Replay(hw.trace).value.encoders)
    modifies hw
    ensures Replay(hw.trace).Some? && Replay(hw.trace).value.crtcs == Replay(old(hw.trace)).value.crtcs
    ensures forall e: nat :: e in Replay(hw.trace).value.encoders <==>
      exists k: nat :: StillLit(state.Committed(), k, e)
  {
    ghost var u := state.Committed();
    for i := 0 to |state.connectors|
      invariant Replay(hw.trace).Some? && Replay(hw.trace).value.crtcs == Replay(old(hw.trace)).value.crtcs
      invariant Glowing(u, i, Replay(hw.trace).value.encoders)
    {
      ghost var lit := Replay(hw.trace).value.encoders;
      if state.connectors[i].Some? && DarkCrtc(state, i) {
        LightsOwn(u, i);
        var e := state.before.connectors[i].encoder.value;
        OneGlows(u, i, e, lit);
        hw.Call(EncoderOff(e));
        OneDarker(u, i, i + 1, e, lit);
      } else {
        assert !GoesDark(u, i);
        NoneDarker(u, i, i + 1, lit);
      }
    }
    LeftLit(u, Replay(hw.trace).value.encoders);
  }

  /** Connector k is lit now on a CRTC that gets a modeset; the flags are read through the device. */
  predicate DarkCrtc(state: AtomicState, k: nat)
    requires var u := state.Committed(); Shaped(u) && InRange(u.cfg) && state.dev.Current() == Installed(u) && HasConnector(u, k)
    requires Closed(state.Committed())
    reads state, state.dev
    ensures DarkCrtc(state, k) <==> GoesDark(state.Committed(), k)
  {
    var o := state.before.connectors[k].crtc;
    assert o.Some? ==> ConnectorAt(state.Committed().cfg, k, o.value);
    o.Some? && state.before.crtcs[o.value].active && NeedsModeset(state.dev.crtcs[o.value])
  }

  lemma LightsOwn(u: Update, k: nat)
    requires Shaped(u) && InRange(u.cfg) && Routed(u.cfg) && GoesDark(u, k)
    ensures u.cfg.connectors[k].encoder.Some? && Lights(u.cfg, k, u.cfg.connectors[k].encoder.value)
  {
    assert RoutedConnector(u.cfg, u.cfg.connectors[k], k);
    assert ConnectorAt(u.cfg, k, u.cfg.connectors[k].crtc.value);
  }

  lemma FirstLit(u: Update, l: Lit)
    requires Shaped(u) && Shows(l, u.cfg)
    ensures Glowing(u, 0, l.encoders)
  {
    forall k: nat, e: nat ensures Glows(u, 0, k, e) <==> Lights(u.cfg, k, e) {}
  }

  lemma OneGlows(u: Update, i: nat, e: nat, lit: set<nat>)
    requires Shaped(u) && Lights(u.cfg, i, e) && Glowing(u, i, lit)
    ensures e in lit
  {
    assert Glows(u, i, i, e);
  }

  lemma OneDarker(u: Update, i: nat, j: nat, f: nat, lit: set<nat>)
    requires Shaped(u) && Exclusive(u.cfg) && j == i + 1 && GoesDark(u, i) && Lights(u.cfg, i, f)
    requires Glowing(u, i, lit)
    ensures Glowing(u, j, lit - {f})
  {
    forall k: nat, e: nat ensures Glows(u, j, k, e) <==> Glows(u, i, k, e) && k != i {}
    forall k: nat | Glows(u, i, k, f) ensures k == i {}
  }

  lemma NoneDarker(u: Update, i: nat, j: nat, lit: set<nat>)
    requires Shaped(u) && j == i + 1 && !GoesDark(u, i)
    requires Glowing(u, i, lit)
    ensures Glowing(u, j, lit)
  {
    forall k: nat, e: nat ensures Glows(u, j, k, e) <==> Glows(u, i, k, e) {}
  }

  lemma LeftLit(u: Update, lit: set<nat>)
    requires Shaped(u)
    requires Glowing(u, |u.connectors|, lit)
    ensures forall e: nat :: e in lit <==> exists k: nat :: StillLit(u, k, e)
  {
    forall k: nat, e: nat ensures Glows(u, |u.connectors|, k, e) <==> StillLit(u, k, e) {}
  }

  method DisableCrtcs(state: AtomicState, hw: Hardware)
    requires Shaped(state.Committed())
    requires Replay(hw.trace).Some?
    requires forall c: nat :: c in Replay(hw.trace).value.crtcs <==> c < |state.before.crtcs| && state.before.crtcs[c].active
    modifies hw
    ensures Replay(hw.trace).Some? && Replay(hw.trace).value.encoders == Replay(old(hw.trace)).value.encoders
    ensures var u := state.Committed();
      forall c: nat :: c in Replay(hw.trace).value.crtcs <==> c < |u.crtcs| && u.cfg.crtcs[c].active && !Modesets(u, c)
  {
    ghost var u := state.Committed();
    for i := 0 to |state.crtcs|
      invariant Replay(hw.trace).Some? && Replay(hw.trace).value.encoders == Replay(old(hw.trace)).value.encoders
      invariant forall c: nat :: c in Replay(hw.trace).value.crtcs <==>
        c < |u.crtcs| && u.cfg.crtcs[c].active && !(c < i && Modesets(u, c))
    {
      if state.crtcs[i].Some? && NeedsModeset(state.crtcs[i].value) && state.before.crtcs[i].active {
        hw.Call(CrtcOff(i));
      }
    }
  }

  method EnableCrtcs(state: AtomicState, hw: Hardware)
    requires Checked(state.Committed())
    requires ActiveEnabled(state.Committed())
    requires Replay(hw.trace).Some?
    requires var u := state.Committed();
      forall c: nat :: c in Replay(hw.trace).value.crtcs <==> c < |u.crtcs| && u.cfg.crtcs[c].active && !Modesets(u, c)
    modifies hw
    ensures Replay(hw.trace).Some? && Replay(hw.trace).value.encoders == Replay(old(hw.trace)).value.encoders
    ensures var u := state.Committed();
      forall c: nat :: c in Replay(hw.trace).value.crtcs <==> c < |u.crtcs| && Crtc(u, c).active
  {
    ghost var u := state.Committed();
    for i := 0 to |state.crtcs|
      invariant Replay(hw.trace).Some? && Replay(hw.trace).value.encoders == Replay(old(hw.trace)).value.encoders
      invariant forall c: nat :: c in Replay(hw.trace).value.crtcs <==>
        c < |u.crtcs| && if Modesets(u, c) then c < i && Crtc(u, c).active else u.cfg.crtcs[c].active
    {
      if state.crtcs[i].Some? && NeedsModeset(state.crtcs[i].value) && state.crtcs[i].value.active &&
         state.crtcs[i].value.enable {
        assert HasCrtc(u, i);
        hw.Call(CrtcOn(i));
      }
    }
    assert forall c: nat :: HasCrtc(u, c) ==> Honest(u.cfg.crtcs[c], Crtc(u, c));
  }

  method EnableEncoders(state: AtomicState, hw: Hardware)
    requires var u := state.Committed(); Checked(u) && InRange(u.cfg) && state.dev.Current() == Installed(u)
    requires Replay(hw.trace).Some?
    requires forall e: nat :: e in Replay(hw.trace).value.encoders <==> exists k: nat :: StillLit(state.Committed(), k, e)
    modifies hw
    ensures Replay(hw.trace).Some? && Replay(hw.trace).value.crtcs == Replay(old(hw.trace)).value.crtcs
    ensures var u := state.Committed();
      forall e: nat :: e in Replay(hw.trace).value.encoders <==>
        (exists k: nat :: StillLit(u, k, e)) || (exists k: nat :: Relit(u, |u.connectors|, k, e))
  {
    ghost var u := state.Committed();
    for i := 0 to |state.connectors|
      invariant Replay(hw.trace).Some? && Replay(hw.trace).value.crtcs == Replay(old(hw.trace)).value.crtcs
      invariant forall e: nat :: e in Replay(hw.trace).value.encoders <==>
        (exists k: nat :: StillLit(u, k, e)) || (exists k: nat :: Relit(u, i, k, e))
    {
      ghost var lit := Replay(hw.trace).value.encoders;
      if state.connectors[i].Some? && state.connectors[i].value.encoder.Some? && LitCrtc(state, i) {
        var e := state.connectors[i].value.encoder.value;
        RelightDistinct(u, i, e);
        hw.Call(EncoderOn(e));
        OneBrighter(u, i, i + 1, e, lit);
      } else {
        assert !GoesLit(u, i);
        NoneBrighter(u, i, i + 1, lit);
      }
    }
  }

  /** The CRTC connector k is on gets a modeset and is active; both are read through the device. */
  predicate LitCrtc(state: AtomicState, k: nat)
    requires var u := state.Committed(); Checked(u) && InRange(u.cfg) && state.dev.Current() == Installed(u) && HasConnector(u, k)
    requires Connector(state.Committed(), k).encoder.Some?
    reads state, state.dev
    ensures LitCrtc(state, k) <==> GoesLit(state.Committed(), k)
  {
    ghost var u := state.Committed();
    assert RoutedConnector(u.cfg, Connector(u, k), k);
    var c := state.connectors[k].value.crtc.value;
    assert ConnectorOn(u, k, c);
    state.dev.crtcs[c].active && NeedsModeset(state.dev.crtcs[c])
  }

  lemma RelightDistinct(u: Update, i: nat, e: nat)
    requires Checked(u) && InRange(u.cfg) && GoesLit(u, i) && Holds(u, i, e)
    ensures forall k: nat :: !StillLit(u, k, e)
    ensures forall k: nat :: !Relit(u, i, k, e)
  {
    forall k: nat ensures !StillLit(u, k, e) {
      DimmedDistinct(u, i, k, e);
    }
  }

  lemma OneBrighter(u: Update, i: nat, j: nat, f: nat, lit: set<nat>)
    requires Shaped(u) && j == i + 1 && GoesLit(u, i) && Holds(u, i, f)
    requires forall e: nat :: e in lit <==> (exists k: nat :: StillLit(u, k, e)) || (exists k: nat :: Relit(u, i, k, e))
    ensures forall e: nat :: e in lit + {f} <==> (exists k: nat :: StillLit(u, k, e)) || (exists k: nat :: Relit(u, j, k, e))
  {
    assert Relit(u, j, i, f);
    forall k: nat, e: nat ensures Relit(u, j, k, e) <==> Relit(u, i, k, e) || (k == i && e == f) {}
  }

  lemma NoneBrighter(u: Update, i: nat, j: nat, lit: set<nat>)
    requires Shaped(u) && j == i + 1 && !GoesLit(u, i)
    requires forall e: nat :: e in lit <==> (exists k: nat :: StillLit(u, k, e)) || (exists k: nat :: Relit(u, i, k, e))
    ensures forall e: nat :: e in lit <==> (exists k: nat :: StillLit(u, k, e)) || (exists k: nat :: Relit(u, j, k, e))
  {
    forall k: nat, e: nat ensures Relit(u, j, k, e) <==> Relit(u, i, k, e) {}
  }

  /** Switches off every encoder and CRTC that is lit and needs a modeset. */
  method DisableOutputs(state: AtomicState, hw: Hardware)
    requires var u := state.Committed(); Checked(u) && Wired(u.cfg) && state.dev.Current() == Installed(u)
    requires Replay(hw.trace).Some? && Shows(Replay(hw.trace).value, state.before)
    modifies hw
    ensures Replay(hw.trace).Some? && Dimmed(Replay(hw.trace).value, state.Committed())
  {
    FirstLit(state.Committed(), Replay(hw.trace).value);
    DisableEncoders(state, hw);
    DisableCrtcs(state, hw);
  }

  /** Switches on every active CRTC that got a modeset, and the encoders routed to it. */
  method EnableOutputs(state: AtomicState, hw: Hardware)
    requires var u := state.Committed(); Checked(u) && InRange(u.cfg) && state.dev.Current() == Installed(u)
    requires ActiveEnabled(state.Committed())
    requires Replay(hw.trace).Some? && Dimmed(Replay(hw.trace).value, state.Committed())
    modifies hw
    ensures Replay(hw.trace).Some? && Shows(Replay(hw.trace).value, state.dev.Current())
  {
    EnableCrtcs(state, hw);
    EnableEncoders(state, hw);
    RelitShows(state.Committed(), Replay(hw.trace).value);
  }

  // ----- checking and committing -----

  predicate PlaneAcceptable(o: PlaneState, s: PlaneState) {
    PlaneSound(s) && !(o.crtc.Some? && s.crtc.Some? && o.crtc != s.crtc)
  }

  predicate CrtcAcceptable(s: CrtcState) {
    (s.active ==> s.enable) && (s.enable <==> s.blob.Some?)
  }

  /** The core's own checks of the states in the update. */
  ghost predicate CoreOk(u: Update)
    requires Shaped(u)
  {
    && (forall p: nat :: HasPlane(u, p) ==> PlaneAcceptable(u.cfg.planes[p], Plane(u, p)))
    && (forall c: nat :: HasCrtc(u, c) ==> CrtcAcceptable(Crtc(u, c)))
  }

  method CheckCore(state: AtomicState) returns (r: Status)
    requires Shaped(state.View())
    ensures r.Ok? ==> CoreOk(state.View())
    ensures state.dev.reliable ==> (r.Ok? <==> CoreOk(state.View()))
  {
    ghost var u := state.View();
    for p := 0 to |state.planes|
      invariant forall q: nat :: q < p && HasPlane(u, q) ==> PlaneAcceptable(u.cfg.planes[q], Plane(u, q))
    {
      if state.planes[p].Some? {
        var usable := state.dev.Grant();
        if !usable || !PlaneAcceptable(state.dev.planes[p], state.planes[p].value) {
          assert HasPlane(u, p);
          return Failed(EINVAL);
        }
      }
    }
    for c := 0 to |state.crtcs|
      invariant forall d: nat :: d < c && HasCrtc(u, d) ==> CrtcAcceptable(Crtc(u, d))
    {
      if state.crtcs[c].Some? && !CrtcAcceptable(state.crtcs[c].value) {
        assert HasCrtc(u, c);
        return Failed(EINVAL);
      }
    }
    r := Ok;
  }

  /** Modes agree in every CRTC of the update. */
  ghost predicate ModesAgree(u: Update)
    requires Shaped(u)
  {
    forall c: nat :: HasCrtc(u, c) ==> ModeAgrees(Crtc(u, c))
  }

  /** Installing a checked update leaves the whole device consistent. */
  lemma CheckedInstalls(u: Update)
    requires Checked(u) && Consistent(u.cfg) && ModesAgree(u) && ActiveEnabled(u)
    requires forall p: nat :: p < |u.planes| ==> PlaneSound(Plane(u, p))
    ensures Consistent(Installed(u))
  {
    var cfg, n := Installed(u), |u.connectors|;
    InstalledLinked(u);
    forall k: nat, e: nat ensures (k < n && cfg.connectors[k].encoder == Some(e)) <==> Holds(u, k, e) {}
    InstalledEncoders(u);
    forall k: nat, l: nat | k < n && l < n && k != l && cfg.connectors[k].encoder.Some?
      ensures cfg.connectors[k].encoder != cfg.connectors[l].encoder
    {
      assert Holds(u, k, cfg.connectors[k].encoder.value);
    }
  }

  lemma InstalledEncoders(u: Update)
    requires Checked(u) && EncodersLinked(u.cfg)
    ensures EncodersLinked(Installed(u))
  {
    var cfg, n := Installed(u), |u.connectors|;
    forall c: nat, e: nat | c < |cfg.crtcs| ensures e in cfg.crtcs[c].encoders <==> ServedOn(cfg, c, e) {
      if HasCrtc(u, c) {
        if k: nat :| Carries(u, n, k, c, e) { assert cfg.connectors[k] == Connector(u, k); }
        if ServedOn(cfg, c, e) {
          var k: nat :| k < n && cfg.connectors[k].crtc == Some(c) && cfg.connectors[k].encoder == Some(e);
          assert Carries(u, n, k, c, e);
        }
      } else {
        forall k: nat | k < n ensures ConnectorAt(u.cfg, k, c) <==> ConnectorOn(u, k, c) {}
        forall k: nat | k < n && ConnectorOn(u, k, c) ensures cfg.connectors[k] == u.cfg.connectors[k] {}
        if ServedOn(cfg, c, e) {
          var k: nat :| k < n && cfg.connectors[k].crtc == Some(c) && cfg.connectors[k].encoder == Some(e);
          assert ConnectorOn(u, k, c);
        }
        if ServedOn(u.cfg, c, e) {
          var k: nat :| k < n && u.cfg.connectors[k].crtc == Some(c) && u.cfg.connectors[k].encoder == Some(e);
          assert ConnectorAt(u.cfg, k, c);
          assert cfg.connectors[k] == u.cfg.connectors[k];
        }
      }
    }
  }

  lemma SettledSound(u: Update, v: Update)
    requires Settled(u, v) && CoreOk(u) && ModesAgree(u) && Consistent(u.cfg)
    ensures ModesAgree(v) && ActiveEnabled(v)
    ensures forall p: nat :: p < |v.planes| ==> PlaneSound(Plane(v, p))
  {
    forall c: nat | HasCrtc(v, c) ensures ModeAgrees(Crtc(v, c)) && (Crtc(v, c).active ==> Crtc(v, c).enable) {
      assert HasCrtc(u, c);
    }
    forall p: nat | p < |v.planes| ensures PlaneSound(Plane(v, p)) {
      if HasPlane(u, p) {}
    }
  }

  /** Everything a commit needs before its swap. */
  ghost predicate Approved(u: Update) {
    && Checked(u) && ModesAgree(u) && ActiveEnabled(u)
    && (forall p: nat :: p < |u.planes| ==> PlaneSound(Plane(u, p)))
  }

  /** No CRTC of the update will need a modeset. */
  ghost predicate Quiet(u: Update)
    requires Shaped(u)
  {
    forall c: nat :: !WillModeset(u, c)
  }

  /** Exactly when an update is accepted if no hook refuses. */
  ghost predicate Acceptable(u: Update, allowModeset: bool)
    requires Shaped(u)
  {
    CoreOk(u) && Feasible(u) && (allowModeset || Quiet(u))
  }

  method CheckOnly(state: AtomicState, allowModeset: bool) returns (r: Status)
    requires Assembled(state.View()) && Pending(state.View()) && ModesAgree(state.View()) && Consistent(state.dev.Current())
    modifies state
    ensures Shaped(state.View())
    ensures r.Ok? ==> Approved(state.View()) && Settled(old(state.View()), state.View())
    ensures r.Ok? ==> forall c: nat :: Modesets(state.View(), c) <==> WillModeset(old(state.View()), c)
    ensures r.Ok? ==> allowModeset || Quiet(old(state.View()))
    ensures state.dev.reliable ==> (r.Ok? <==> Acceptable(old(state.View()), allowModeset))
  {
    ghost var u := state.View();
    r := CheckCore(state);
    if r.Failed? { return; }
    r := CheckModeset(state);
    if r.Failed? { return; }
    SettledSound(u, state.View());
    var accepted := state.dev.Grant();
    if !accepted { return Failed(EINVAL); }
    if !allowModeset {
      for c := 0 to |state.crtcs|
        invariant forall d: nat :: d < c ==> !Modesets(state.View(), d)
      {
        if state.crtcs[c].Some? && NeedsModeset(state.crtcs[c].value) {
          assert Modesets(state.View(), c) && WillModeset(u, c);
          return Failed(EINVAL);
        }
      }
    }
  }

  /** The device is consistent and its hardware shows what its current states say. */
  ghost predicate InSync(dev: Device, hw: Hardware)
    reads dev, hw
  {
    Consistent(dev.Current()) && Replay(hw.trace).Some? && Shows(Replay(hw.trace).value, dev.Current())
  }

  /** The update v is u after the check, ready to install, with modesets exactly where u causes them, if allowed. */
  ghost predicate Answers(u: Update, v: Update, allowModeset: bool) {
    && Settled(u, v) && Approved(v) && (allowModeset || Quiet(u))
    && (forall c: nat :: Modesets(v, c) <==> WillModeset(u, c))
  }

  /** Check, swap and drive the hardware. A refused commit leaves the device and the hardware alone. */
  method AtomicCommit(state: AtomicState, hw: Hardware, allowModeset: bool) returns (r: Status)
    requires Assembled(state.View()) && Pending(state.View()) && ModesAgree(state.View())
    requires InSync(state.dev, hw)
    modifies state, state.dev, hw
    ensures InSync(state.dev, hw) && |state.dev.crtcs| == |old(state.dev.crtcs)| && |state.dev.planes| == |old(state.dev.planes)|
    ensures r.Failed? ==> state.dev.Current() == old(state.dev.Current()) && hw.trace == old(hw.trace)
    ensures r.Ok? ==> exists v: Update :: Answers(old(state.View()), v, allowModeset) && state.dev.Current() == Installed(v)
    ensures state.dev.reliable ==> (r.Ok? <==> Acceptable(old(state.View()), allowModeset))
  {
    r := CheckOnly(state, allowModeset);
    if r.Failed? { return; }
    var prepared := state.dev.Grant();
    if !prepared { return Failed(ENOMEM); }
    ghost var v := state.View();
    CheckedInstalls(v);
    state.SwapState();
    DisableOutputs(state, hw);
    EnableOutputs(state, hw);
  }
}
