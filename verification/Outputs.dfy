/**
 Driving the hardware hooks of a commit: outputs that need a modeset go dark, then the new configuration is
 lit. The trace of hook calls is replayed against the set of lit objects; a hook that switches an object to
 the state it is already in has no replay.
 */
module OutputHooks {
  import opened Outcomes
  import opened Modeset
  import opened Assembly
  import opened EncoderRouting
  import opened ModesetCheck

  datatype Hook =
    | CrtcOff(id: nat)
    | CrtcOn(id: nat)
    | EncoderOff(id: nat)
    | EncoderOn(id: nat)

  datatype Lit = Lit(crtcs: set<nat>, encoders: set<nat>)

  function Fire(l: Lit, h: Hook): Option<Lit> {
    match h
    case CrtcOff(c) => if c in l.crtcs then Some(l.(crtcs := l.crtcs - {c})) else None
    case CrtcOn(c) => if c in l.crtcs then None else Some(l.(crtcs := l.crtcs + {c}))
    case EncoderOff(e) => if e in l.encoders then Some(l.(encoders := l.encoders - {e})) else None
    case EncoderOn(e) => if e in l.encoders then None else Some(l.(encoders := l.encoders + {e}))
  }

  /** What is lit after the trace, if no hook in it was called on an object already in that state. */
  function Replay(trace: seq<Hook>): Option<Lit> {
    if trace == [] then Some(Lit({}, {}))
    else
      var l := Replay(trace[..|trace| - 1]);
      if l == None then None else Fire(l.value, trace[|trace| - 1])
  }

  lemma ReplayAppend(trace: seq<Hook>, h: Hook)
    ensures Replay(trace + [h]) == if Replay(trace) == None then None else Fire(Replay(trace).value, h)
  {
    assert (trace + [h])[..|trace|] == trace;
  }

  // ----- strict alternation -----

  predicate SameObject(g: Hook, h: Hook) {
    || (g.id == h.id && (g.CrtcOff? || g.CrtcOn?) && (h.CrtcOff? || h.CrtcOn?))
    || (g.id == h.id && (g.EncoderOff? || g.EncoderOn?) && (h.EncoderOff? || h.EncoderOn?))
  }

  predicate IsOn(h: Hook) {
    h.CrtcOn? || h.EncoderOn?
  }

  /** For each object the first hook is an on hook, and consecutive hooks of one object alternate. */
  ghost predicate Alternates(trace: seq<Hook>) {
    && (forall j: nat :: j < |trace| && !IsOn(trace[j]) ==> exists i: nat :: i < j && SameObject(trace[i], trace[j]))
    && (forall i: nat, j: nat :: i < j < |trace| && Consecutive(trace, i, j) ==> IsOn(trace[i]) != IsOn(trace[j]))
  }

  ghost predicate Consecutive(trace: seq<Hook>, i: nat, j: nat)
    requires i < j < |trace|
  {
    SameObject(trace[i], trace[j]) && forall m: nat :: i < m < j ==> !SameObject(trace[m], trace[j])
  }

  predicate LitObject(l: Lit, h: Hook) {
    if h.CrtcOff? || h.CrtcOn? then h.id in l.crtcs else h.id in l.encoders
  }

  /** An object is lit exactly when its last hook was an on hook. */
  lemma {:induction false} LastHook(trace: seq<Hook>, h: Hook)
    requires Replay(trace).Some?
    ensures LitObject(Replay(trace).value, h) ==> exists i: nat :: i < |trace| && SameObject(trace[i], h)
    ensures forall i: nat :: i < |trace| && SameObject(trace[i], h) && (forall m: nat :: i < m < |trace| ==> !SameObject(trace[m], h)) ==>
      (LitObject(Replay(trace).value, h) <==> IsOn(trace[i]))
  {
    if trace != [] {
      var n := |trace| - 1;
      var init := trace[..n];
      LastHook(init, h);
      if SameObject(trace[n], h) {
      } else if LitObject(Replay(init).value, h) {
        var i: nat :| i < n && SameObject(init[i], h);
        assert SameObject(trace[i], h);
      }
      forall i: nat | i < n && SameObject(trace[i], h) && (forall m: nat :: i < m < |trace| ==> !SameObject(trace[m], h))
        ensures LitObject(Replay(trace).value, h) <==> IsOn(trace[i])
      {
        assert forall m: nat :: i < m < n ==> init[m] == trace[m];
        assert !SameObject(trace[n], h);
        assert init[i] == trace[i];
      }
    }
  }

  /** A trace that replays calls the off and on hooks of every object strictly in turn. */
  lemma {:induction false} ReplayAlternates(trace: seq<Hook>)
    requires Replay(trace).Some?
    ensures Alternates(trace)
  {
    forall j: nat | j < |trace| ensures Replay(trace[..j]).Some? && Fire(Replay(trace[..j]).value, trace[j]).Some? {
      ReplayPrefix(trace, j);
    }
    forall j: nat | j < |trace| && !IsOn(trace[j]) ensures exists i: nat :: i < j && SameObject(trace[i], trace[j]) {
      LastHook(trace[..j], trace[j]);
      var i: nat :| i < j && SameObject(trace[..j][i], trace[j]);
      assert SameObject(trace[i], trace[j]);
    }
    forall i: nat, j: nat | i < j < |trace| && Consecutive(trace, i, j) ensures IsOn(trace[i]) != IsOn(trace[j]) {
      LastHook(trace[..j], trace[j]);
      var init := trace[..j];
      assert forall m: nat :: m < j ==> init[m] == trace[m];
    }
  }

  lemma {:induction false} ReplayPrefix(trace: seq<Hook>, j: nat)
    requires Replay(trace).Some? && j < |trace|
    ensures Replay(trace[..j]).Some? && Fire(Replay(trace[..j]).value, trace[j]).Some?
  {
    if j < |trace| - 1 {
      ReplayPrefix(trace[..|trace| - 1], j);
      assert trace[..|trace| - 1][..j] == trace[..j];
    }
  }

  // ----- what a configuration lights -----

  /** Connector k uses encoder e on an active CRTC. */
  ghost predicate Lights(cfg: Config, k: nat, e: nat) {
    && k < |cfg.connectors| && cfg.connectors[k].encoder == Some(e)
    && cfg.connectors[k].crtc.Some? && cfg.connectors[k].crtc.value < |cfg.crtcs|
    && cfg.crtcs[cfg.connectors[k].crtc.value].active
  }

  /** Lit are exactly the active CRTCs and the encoders routed to them. */
  ghost predicate Shows(l: Lit, cfg: Config) {
    && (forall c: nat :: c in l.crtcs <==> c < |cfg.crtcs| && cfg.crtcs[c].active)
    && (forall e: nat :: e in l.encoders <==> exists k: nat :: Lights(cfg, k, e))
  }

  predicate Modesets(u: Update, c: nat)
    requires Shaped(u)
  {
    HasCrtc(u, c) && NeedsModeset(Crtc(u, c))
  }

  /** Connector k is lit by the current configuration on a CRTC that gets a modeset. */
  ghost predicate GoesDark(u: Update, k: nat)
    requires Shaped(u)
  {
    && k < |u.connectors| && u.cfg.connectors[k].crtc.Some? && Modesets(u, u.cfg.connectors[k].crtc.value)
    && u.cfg.crtcs[u.cfg.connectors[k].crtc.value].active
  }

  /** Connector k lights encoder e now and is not touched by a modeset. */
  ghost predicate StillLit(u: Update, k: nat, e: nat)
    requires Shaped(u)
  {
    Lights(u.cfg, k, e) && !GoesDark(u, k)
  }

  /** Between the phases only what no modeset touches is lit. */
  ghost predicate Dimmed(l: Lit, u: Update)
    requires Shaped(u)
  {
    && (forall c: nat :: c in l.crtcs <==> c < |u.crtcs| && u.cfg.crtcs[c].active && !Modesets(u, c))
    && (forall e: nat :: e in l.encoders <==> exists k: nat :: StillLit(u, k, e))
  }

  /** Routing facts of the current configuration that the disable phase relies on. */
  ghost predicate Wired(cfg: Config) {
    InRange(cfg) && Routed(cfg) && Exclusive(cfg)
  }

  /** A connector on a CRTC without a modeset keeps its CRTC and its encoder, and none joins it. */
  lemma Undisturbed(u: Update, k: nat, c: nat)
    requires Checked(u) && k < |u.connectors| && c < |u.crtcs| && !Modesets(u, c)
    ensures ConnectorAt(u.cfg, k, c) <==> ConnectorOn(u, k, c)
    ensures ConnectorAt(u.cfg, k, c) ==> Connector(u, k).encoder == u.cfg.connectors[k].encoder
    ensures Crtc(u, c).active == u.cfg.crtcs[c].active
  {
    if !HasCrtc(u, c) && HasConnector(u, k) {
      assert !ConnectorAt(u.cfg, k, c) && !ConnectorOn(u, k, c);
    }
  }

  ghost predicate GoesLit(u: Update, k: nat)
    requires Shaped(u)
  {
    && k < |u.connectors| && Connector(u, k).encoder.Some? && Connector(u, k).crtc.Some?
    && Modesets(u, Connector(u, k).crtc.value) && Crtc(u, Connector(u, k).crtc.value).active
  }

  /** Connector k is one of the first i and lights encoder e after its modeset. */
  ghost predicate Relit(u: Update, i: nat, k: nat, e: nat)
    requires Shaped(u)
  {
    k < i && GoesLit(u, k) && Holds(u, k, e)
  }

  /** An encoder still lit between the phases is not lit again, since its connector is not touched. */
  lemma DimmedDistinct(u: Update, k: nat, l: nat, e: nat)
    requires Checked(u) && InRange(u.cfg) && GoesLit(u, k) && Holds(u, k, e)
    ensures !StillLit(u, l, e)
  {
    if StillLit(u, l, e) {
      var d := u.cfg.connectors[l].crtc.value;
      assert ConnectorAt(u.cfg, l, d);
      Undisturbed(u, l, d);
      assert Holds(u, l, e);
    }
  }

  /** The encoders lit by the new configuration are those left lit and those lit again. */
  lemma RelitEncoders(u: Update, e: nat)
    requires Checked(u) && InRange(u.cfg)
    ensures (exists k: nat :: Lights(Installed(u), k, e)) <==>
      (exists k: nat :: StillLit(u, k, e)) || (exists k: nat :: Relit(u, |u.connectors|, k, e))
  {
    var cfg := Installed(u);
    if k: nat :| Lights(cfg, k, e) {
      var c := cfg.connectors[k].crtc.value;
      assert ConnectorOn(u, k, c) && Holds(u, k, e);
      if Modesets(u, c) {
        assert Relit(u, |u.connectors|, k, e);
      } else {
        Undisturbed(u, k, c);
        assert ConnectorAt(u.cfg, k, c);
        assert StillLit(u, k, e);
      }
    }
    if k: nat :| StillLit(u, k, e) {
      var c := u.cfg.connectors[k].crtc.value;
      assert ConnectorAt(u.cfg, k, c);
      Undisturbed(u, k, c);
      assert ConnectorOn(u, k, c);
      assert Lights(cfg, k, e);
    }
    if k: nat :| Relit(u, |u.connectors|, k, e) {
      assert Lights(cfg, k, e);
    }
  }

  lemma RelitShows(u: Update, l: Lit)
    requires Checked(u) && InRange(u.cfg)
    requires forall c: nat :: c in l.crtcs <==> c < |u.crtcs| && Crtc(u, c).active
    requires forall e: nat :: e in l.encoders <==>
      (exists k: nat :: StillLit(u, k, e)) || (exists k: nat :: Relit(u, |u.connectors|, k, e))
    ensures Shows(l, Installed(u))
  {
    forall e: nat ensures e in l.encoders <==> exists k: nat :: Lights(Installed(u), k, e) {
      RelitEncoders(u, e);
    }
  }
}
