/** Runs that mix every way of changing the configuration: atomic calls, legacy set_config, switching off, suspend. */
module MixedRun {
  import opened Outcomes
  import opened Modeset
  import opened Assembly
  import opened EncoderRouting
  import opened AtomicCore
  import opened ModesetCheck
  import opened OutputHooks
  import opened Commit
  import opened AtomicIoctl
  import opened SetConfig
  import opened SuspendResume
  import opened Properties

  /** A set_config call as userspace makes it: no framebuffer is looked up unless a mode is given. */
  datatype CrtcRequest = CrtcRequest(crtc: nat, mode: Option<nat>, fb: Option<nat>, connectors: seq<nat>, blobId: nat)

  datatype Operation =
    | Atomic(call: Call)
    | SetCrtc(req: CrtcRequest)
    | SwitchOff
    | SuspendAndResume

  /** What the ioctl refuses before it calls the helper. The all-zero mode has no clock and is not valid. */
  predicate WellFormed(req: CrtcRequest, numCrtcs: nat, numConnectors: nat) {
    && req.crtc < numCrtcs
    && (req.mode.Some? ==> req.fb.Some? && req.mode.value != ZERO_MODE)
    && (req.mode.Some? <==> req.connectors != [])
    && |req.connectors| <= numConnectors
    && forall i: nat :: i < |req.connectors| ==> req.connectors[i] < numConnectors
  }

  /** The connectors named have encoders that fit the CRTC, no two the same. */
  ghost predicate Encodable(cfg: Config, c: nat, ks: seq<nat>) {
    && Separate(cfg, c, ks)
    && forall i: nat :: i < |ks| ==> cfg.best(ks[i], c).Some? && cfg.fits(cfg.best(ks[i], c).value, c)
  }

  /** The primary plane is to go off, or is not on a CRTC other than the one it goes to. */
  predicate Available(s: PlaneState, c: nat, mode: Option<nat>) {
    mode == None || s.crtc == None || s.crtc == Some(c)
  }

  /** A prepared request passes the check exactly if the connectors can be encoded and the plane is available. */
  lemma PreparedAcceptable(u: Update, c: nat, primary: nat, mode: Option<nat>, fb: Option<nat>, ks: seq<nat>)
    requires Open(u) && Matched(u) && NoConflict(u) && Separate(u.cfg, c, ks) && (mode.Some? ==> fb.Some?)
    requires Shown(u, primary, PrimaryState(c, mode, fb)) && OnlyNamed(u, ks)
    requires forall i: nat :: i < |ks| ==> ks[i] < |u.connectors|
    requires CrtcSet(u.cfg, c, primary, mode, fb, ks, Installed(u))
    ensures Acceptable(u, true) <==> Encodable(u.cfg, c, ks) && Available(u.cfg.planes[primary], c, mode)
  {
    forall k: nat | HasConnector(u, k)
      ensures Routable(u, k) <==> (k in ks ==> u.cfg.best(k, c).Some? && u.cfg.fits(u.cfg.best(k, c).value, c))
    {
      assert Installed(u).connectors[k].crtc == CrtcAfter(u.cfg, c, ks, k);
    }
    assert HasPlane(u, primary);
    assert CoreOk(u) <==> Available(u.cfg.planes[primary], c, mode);
    if Feasible(u) {
      forall i: nat | i < |ks| ensures u.cfg.best(ks[i], c).Some? && u.cfg.fits(u.cfg.best(ks[i], c).value, c) {
        assert HasConnector(u, ks[i]);
      }
    }
  }

  /** Exactly when a call succeeds if no hook refuses. */
  ghost predicate Settable(cfg: Config, req: CrtcRequest, primary: nat) {
    && WellFormed(req, |cfg.crtcs|, |cfg.connectors|) && Encodable(cfg, req.crtc, req.connectors)
    && primary < |cfg.planes| && Available(cfg.planes[primary], req.crtc, req.mode)
  }

  /** Commits a prepared request. */
  method CommitPrepared(state: AtomicState, hw: Hardware, c: nat, primary: nat, mode: Option<nat>, fb: Option<nat>, ks: seq<nat>)
    returns (r: Status)
    requires InSync(state.dev, hw) && Open(state.View()) && Matched(state.View()) && Pending(state.View())
    requires CrtcSet(state.dev.Current(), c, primary, mode, fb, ks, Installed(state.View()))
    modifies state, state.dev, hw
    ensures InSync(state.dev, hw) && |state.dev.crtcs| == |old(state.dev.crtcs)| && |state.dev.planes| == |old(state.dev.planes)|
    ensures r.Failed? ==> state.dev.Current() == old(state.dev.Current()) && hw.trace == old(hw.trace)
    ensures r.Ok? ==> CrtcSet(old(state.dev.Current()), c, primary, mode, fb, ks, state.dev.Current())
    ensures state.dev.reliable ==> (r.Ok? <==> Acceptable(old(state.View()), true))
  {
    ghost var was, u := state.dev.Current(), state.View();
    r := AtomicCommit(state, hw, true);
    if r.Ok? {
      ghost var v: Update :| Answers(u, v, true) && state.dev.Current() == Installed(v);
      SettledCrtcSet(was, c, primary, mode, fb, ks, u, v);
    }
  }

  /** Legacy set_config on an atomic driver: assemble, make room, commit. `primary` is the CRTC's primary plane. */
  method SetCrtcIoctl(dev: Device, hw: Hardware, req: CrtcRequest, primary: nat) returns (r: Status)
    requires InSync(dev, hw) && (req.crtc < |dev.crtcs| ==> primary < |dev.planes|)
    modifies dev, hw
    ensures InSync(dev, hw) && |dev.crtcs| == |old(dev.crtcs)| && |dev.planes| == |old(dev.planes)|
    ensures r.Failed? ==> dev.Current() == old(dev.Current()) && hw.trace == old(hw.trace)
    ensures r.Ok? ==> WellFormed(req, |old(dev.crtcs)|, |old(dev.connectors)|)
    ensures r.Ok? ==> (req.mode.Some? <==> req.connectors != []) && |req.connectors| <= |old(dev.connectors)|
    ensures r.Ok? && req.mode.Some? ==> req.fb.Some? && req.mode.value != ZERO_MODE
    ensures r.Ok? ==> CrtcSet(old(dev.Current()), req.crtc, primary, req.mode, req.fb, req.connectors, dev.Current())
    ensures dev.reliable ==> (r.Ok? <==> Settable(old(dev.Current()), req, primary))
  {
    if !WellFormed(req, |dev.crtcs|, |dev.connectors|) { return Failed(EINVAL); }
    var state := new AtomicState(dev);
    var fb := if req.mode.Some? then req.fb else None;
    r := PrepareSetConfig(state, req.crtc, primary, req.mode, fb, req.connectors, req.blobId);
    if r.Failed? { return; }
    OpenPending(state.View());
    if dev.reliable { PreparedAcceptable(state.View(), req.crtc, primary, req.mode, fb, req.connectors); }
    r := CommitPrepared(state, hw, req.crtc, primary, req.mode, fb, req.connectors);
  }

  /** After a request has been carried out the connectors on its CRTC are those it names. */
  lemma ExactlyNamed(was: Config, c: nat, primary: nat, mode: Option<nat>, fb: Option<nat>, ks: seq<nat>, now: Config, k: nat)
    requires CrtcSet(was, c, primary, mode, fb, ks, now) && k < |was.connectors|
    ensures ConnectorAt(now, k, c) <==> k in ks
  {
    assert now.connectors[k].crtc == CrtcAfter(was, c, ks, k);
  }

  /** What an operation has done, by its own result. */
  ghost predicate Outcome(op: Operation, primary: nat -> nat, r: Status, was: Config, now: Config) {
    match op
    case Atomic(call) => if r.Failed? || call.testOnly then now == was else Performed(was, call.requests, now)
    case SetCrtc(req) => if r.Failed? then now == was else CrtcSet(was, req.crtc, primary(req.crtc), req.mode, req.fb, req.connectors, now)
    case SwitchOff => if r.Failed? then now == was else SwitchedOff(was, now)
    case SuspendAndResume => if r.Failed? then now == was || now == OffOf(was) else SameSetup(now, was)
  }

  /** One operation, whatever comes of it. */
  method Perform(dev: Device, hw: Hardware, op: Operation, primary: nat -> nat) returns (r: Status)
    requires InSync(dev, hw) && forall c: nat :: c < |dev.crtcs| ==> primary(c) < |dev.planes|
    modifies dev, hw
    ensures InSync(dev, hw) && |dev.crtcs| == |old(dev.crtcs)| && |dev.planes| == |old(dev.planes)|
    ensures Outcome(op, primary, r, old(dev.Current()), dev.Current())
  {
    match op
    case Atomic(call) => r := Ioctl(dev, hw, call);
    case SetCrtc(req) => r := SetCrtcIoctl(dev, hw, req, primary(req.crtc));
    case SwitchOff => r := DisableAll(dev, hw);
    case SuspendAndResume => r := SuspendThenResume(dev, hw);
  }

  /** A trace of configurations in which each operation has the outcome its result says. */
  ghost predicate Followed(ops: seq<Operation>, primary: nat -> nat, results: seq<Status>, n: nat, states: seq<Config>) {
    && |results| == n && |states| == n + 1 && n <= |ops|
    && forall i: nat, j: nat :: i < n && j == i + 1 ==> Outcome(ops[i], primary, results[i], states[i], states[j])
  }

  /**
   After any sequence of operations from reset, in any mixture and whatever refuses, the device is consistent, the
   off and on hooks of every CRTC and encoder strictly alternate, and exactly the active CRTCs and the encoders
   routed to them are lit. The configurations on the way are what the results of the operations say.
   */
  method RunMixture(best: (nat, nat) -> Option<nat>, fits: (nat, nat) -> bool, reliable: bool, primary: nat -> nat,
                    numCrtcs: nat, numPlanes: nat, numConnectors: nat, ops: seq<Operation>)
    returns (dev: Device, hw: Hardware, results: seq<Status>, ghost states: seq<Config>)
    requires forall c: nat :: c < numCrtcs ==> primary(c) < numPlanes
    ensures Consistent(dev.Current())
    ensures Alternates(hw.trace)
    ensures Replay(hw.trace).Some? && Shows(Replay(hw.trace).value, dev.Current())
    ensures Followed(ops, primary, results, |ops|, states)
    ensures states[0] == Off(best, fits, numCrtcs, numPlanes, numConnectors) && states[|ops|] == dev.Current()
  {
    dev := new Device(best, fits, reliable, numCrtcs, numPlanes, numConnectors);
    hw := new Hardware();
    results, states := [], [dev.Current()];
    OffConsistent(best, fits, numCrtcs, numPlanes, numConnectors);
    assert forall k: nat, e: nat :: !Lights(dev.Current(), k, e);
    for i := 0 to |ops|
      invariant fresh(dev) && fresh(hw) && InSync(dev, hw) && |dev.crtcs| == numCrtcs && |dev.planes| == numPlanes
      invariant Followed(ops, primary, results, i, states)
      invariant states[0] == Off(best, fits, numCrtcs, numPlanes, numConnectors) && states[i] == dev.Current()
    {
      var r := Perform(dev, hw, ops[i], primary);
      results, states := results + [r], states + [dev.Current()];
    }
    ReplayAlternates(hw.trace);
  }
}
