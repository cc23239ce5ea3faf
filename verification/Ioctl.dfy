/** The atomic ioctl: a list of property requests assembled into one update and committed. */
module AtomicIoctl {
  import opened Outcomes
  import opened Modeset
  import opened Assembly
  import opened EncoderRouting
  import opened AtomicCore
  import opened ModesetCheck
  import opened OutputHooks
  import opened Commit
  import opened Properties

  datatype Call = Call(requests: seq<Request>, allowModeset: bool, testOnly: bool)

  // ----- what a request means -----

  /** Plane p brought in with its new CRTC or framebuffer, if the request names objects of the device. */
  function PlaneRequest(u: Update, req: Request): (r: Option<Update>)
    requires Open(u) && (req.PlaneCrtc? || req.PlaneFb?)
    ensures r.Some? ==> Open(r.value) && r.value.cfg == u.cfg
  {
    var p := req.plane;
    if p >= |u.planes| || (req.PlaneCrtc? && req.crtc.Some? && req.crtc.value >= |u.crtcs|) then None
    else
      AddPlaneKeeps(u, p);
      var v := AddPlane(u, p);
      if req.PlaneCrtc? then MovePlaneKeeps(v, p, req.crtc); Some(MovePlane(v, p, req.crtc))
      else EditPlaneKeeps(v, p, Plane(v, p).(fb := req.fb)); Some(EditPlane(v, p, Plane(v, p).(fb := req.fb)))
  }

  /** Userspace cannot downgrade a good link; the request is dropped without an error. */
  function WithLink(s: ConnectorState, link: nat): (t: ConnectorState)
    ensures t == s.(link := t.link) && (t.link == s.link || t.link == link)
    ensures s.link == LINK_GOOD ==> t.link == LINK_GOOD
    ensures s.link != LINK_GOOD ==> t.link == link
  {
    if s.link != LINK_GOOD then s.(link := link) else s
  }

  function ConnectorRequest(u: Update, req: Request): (r: Option<Update>)
    requires Open(u) && (req.ConnectorCrtc? || req.LinkStatus?)
    ensures r.Some? ==> Open(r.value) && r.value.cfg == u.cfg
  {
    var k := req.connector;
    if k >= |u.connectors| || (req.ConnectorCrtc? && req.crtc.Some? && req.crtc.value >= |u.crtcs|) then None
    else
      AddConnectorKeeps(u, k);
      var v := AddConnector(u, k);
      if req.ConnectorCrtc? then MoveConnectorKeeps(v, k, req.crtc); Some(MoveConnector(v, k, req.crtc))
      else
        var s := WithLink(Connector(v, k), req.link);
        EditConnectorKeeps(v, k, s); Some(EditConnector(v, k, s))
  }

  /** CRTC c brought in with its new mode or activity; a malformed mode is refused. */
  function CrtcRequest(u: Update, req: Request): (r: Option<Update>)
    requires Open(u) && (req.ModeBlob? || req.Active?)
    ensures r.Some? ==> Open(r.value) && r.value.cfg == u.cfg
  {
    var c := req.crtcIndex;
    if c >= |u.crtcs| then None
    else
      AddCrtcKeeps(u, c);
      var v := AddCrtc(u, c);
      var s := if req.ModeBlob? then WithBlob(Crtc(v, c), req.blob) else Some(Crtc(v, c).(active := req.active));
      if s == None then None else EditCrtcKeeps(v, c, s.value); Some(EditCrtc(v, c, s.value))
  }

  function Requested(u: Update, req: Request): (r: Option<Update>)
    requires Open(u)
    ensures r.Some? ==> Open(r.value) && r.value.cfg == u.cfg
  {
    if req.PlaneCrtc? || req.PlaneFb? then PlaneRequest(u, req)
    else if req.ConnectorCrtc? || req.LinkStatus? then ConnectorRequest(u, req)
    else CrtcRequest(u, req)
  }

  /** All requests in order. */
  function AllRequested(u: Update, reqs: seq<Request>): (r: Option<Update>)
    requires Open(u)
    ensures r.Some? ==> Open(r.value) && r.value.cfg == u.cfg
  {
    if reqs == [] then Some(u)
    else
      var v := AllRequested(u, reqs[..|reqs| - 1]);
      if v == None then None else Requested(v.value, reqs[|reqs| - 1])
  }

  /** The object is there, and so is the CRTC it is to be put on; a new mode blob is well-formed. */
  predicate Valid(cfg: Config, req: Request) {
    match req
    case PlaneCrtc(p, crtc) => p < |cfg.planes| && (crtc.Some? ==> crtc.value < |cfg.crtcs|)
    case PlaneFb(p, _) => p < |cfg.planes|
    case ConnectorCrtc(k, crtc) => k < |cfg.connectors| && (crtc.Some? ==> crtc.value < |cfg.crtcs|)
    case LinkStatus(k, _) => k < |cfg.connectors|
    case ModeBlob(c, blob) => c < |cfg.crtcs| && (blob.Some? && blob != cfg.crtcs[c].blob ==> blob.value.wellFormed)
    case Active(c, _) => c < |cfg.crtcs|
  }

  /** A request is refused exactly if it is not valid, and otherwise does what it says and nothing else. */
  lemma RequestedObeys(u: Update, req: Request)
    requires Open(u)
    ensures Requested(u, req).Some? <==> Valid(Installed(u), req)
    ensures Requested(u, req).Some? ==> Obeys(Installed(u), req, Installed(Requested(u, req).value))
  {
    if Valid(Installed(u), req) {
      if req.PlaneCrtc? || req.PlaneFb? { PlaneObeys(u, req); }
      else if req.ConnectorCrtc? || req.LinkStatus? { ConnectorObeys(u, req); }
      else { CrtcObeys(u, req); }
    }
  }

  /** CRTCs keep what properties show of them. */
  ghost predicate CrtcsKept(u: Update, v: Update)
    requires Shaped(u) && Shaped(v) && |v.crtcs| == |u.crtcs|
  {
    forall c: nat :: c < |u.crtcs| ==> Crtc(v, c).blob == Crtc(u, c).blob && Crtc(v, c).active == Crtc(u, c).active
  }

  lemma PlaneObeys(u: Update, req: Request)
    requires Open(u) && (req.PlaneCrtc? || req.PlaneFb?) && PlaneRequest(u, req).Some?
    ensures Obeys(Installed(u), req, Installed(PlaneRequest(u, req).value))
  {
    var p, w := req.plane, PlaneRequest(u, req).value;
    AddPlaneKeeps(u, p);
    AddPlaneGrows(u, p);
    var v := AddPlane(u, p);
    if req.PlaneCrtc? {
      MovePlaneKeeps(v, p, req.crtc);
      MovePlaneOnly(v, p, req.crtc);
    }
    PlaneChange(u, v, req, w);
    OneChangeObeys(Installed(u), req, Installed(w));
  }

  lemma PlaneChange(u: Update, v: Update, req: Request, w: Update)
    requires Grown(u, v) && Shaped(w) && w.cfg == u.cfg && (req.PlaneCrtc? || req.PlaneFb?) && CrtcsKept(v, w) && w.connectors == v.connectors
    requires forall q: nat :: q < |u.planes| ==>
      Plane(w, q) == if q != req.plane then Plane(v, q) else if req.PlaneCrtc? then Plane(v, q).(crtc := req.crtc) else Plane(v, q).(fb := req.fb)
    ensures OneChange(Installed(u), req, Installed(w))
  {
    forall k: nat | k < |u.connectors| ensures Connector(w, k) == Connector(u, k) { assert HasConnector(v, k) || !HasConnector(v, k); }
  }

  lemma MovePlaneOnly(u: Update, p: nat, to: Option<nat>)
    requires Shaped(u) && HasPlane(u, p) && (Plane(u, p).crtc.Some? ==> HasCrtc(u, Plane(u, p).crtc.value)) && (to.Some? ==> to.value < |u.crtcs|)
    ensures var v := MovePlane(u, p, to);
      && v.cfg == u.cfg && Shaped(v) && CrtcsKept(u, v) && v.connectors == u.connectors
      && forall q: nat :: q < |u.planes| ==> Plane(v, q) == if q == p then Plane(u, q).(crtc := to) else Plane(u, q)
  {
  }

  lemma ConnectorObeys(u: Update, req: Request)
    requires Open(u) && (req.ConnectorCrtc? || req.LinkStatus?) && ConnectorRequest(u, req).Some?
    ensures Obeys(Installed(u), req, Installed(ConnectorRequest(u, req).value))
  {
    var k, w := req.connector, ConnectorRequest(u, req).value;
    AddConnectorKeeps(u, k);
    AddConnectorGrows(u, k);
    var v := AddConnector(u, k);
    if req.ConnectorCrtc? {
      MoveConnectorKeeps(v, k, req.crtc);
      MoveConnectorOnly(v, k, req.crtc);
    }
    ConnectorChange(u, v, req, w);
    OneChangeObeys(Installed(u), req, Installed(w));
  }

  lemma ConnectorChange(u: Update, v: Update, req: Request, w: Update)
    requires Grown(u, v) && Shaped(w) && w.cfg == u.cfg && (req.ConnectorCrtc? || req.LinkStatus?) && CrtcsKept(v, w) && w.planes == v.planes
    requires forall l: nat :: l < |u.connectors| ==>
      Connector(w, l) == if l != req.connector then Connector(v, l) else if req.ConnectorCrtc? then Connector(v, l).(crtc := req.crtc)
                         else WithLink(Connector(v, l), req.link)
    ensures OneChange(Installed(u), req, Installed(w))
  {
    forall p: nat | p < |u.planes| ensures Plane(w, p) == Plane(u, p) { assert HasPlane(v, p) || !HasPlane(v, p); }
  }

  lemma MoveConnectorOnly(u: Update, k: nat, to: Option<nat>)
    requires Shaped(u) && HasConnector(u, k) && (to.Some? ==> to.value < |u.crtcs|)
    requires Connector(u, k).crtc.Some? ==> HasCrtc(u, Connector(u, k).crtc.value)
    ensures var v := MoveConnector(u, k, to);
      && v.cfg == u.cfg && Shaped(v) && CrtcsKept(u, v) && v.planes == u.planes
      && forall l: nat :: l < |u.connectors| ==> Connector(v, l) == if l == k then Connector(u, l).(crtc := to) else Connector(u, l)
  {
  }

  lemma CrtcObeys(u: Update, req: Request)
    requires Open(u) && (req.ModeBlob? || req.Active?) && CrtcRequest(u, req).Some?
    ensures Obeys(Installed(u), req, Installed(CrtcRequest(u, req).value))
  {
    AddCrtcGrows(u, req.crtcIndex);
    var w := CrtcRequest(u, req).value;
    assert forall d: nat :: d < |u.crtcs| && d != req.crtcIndex ==> Crtc(w, d) == Crtc(AddCrtc(u, req.crtcIndex), d);
    OneChangeObeys(Installed(u), req, Installed(w));
  }

  /** All requests together: what was asked for last holds, everything else is as it was. */
  lemma {:induction false} AllPerformed(u: Update, reqs: seq<Request>)
    requires Open(u) && AllRequested(u, reqs).Some?
    ensures Performed(Installed(u), reqs, Installed(AllRequested(u, reqs).value))
  {
    if reqs != [] {
      var last := |reqs| - 1;
      AllPerformed(u, reqs[..last]);
      var v := AllRequested(u, reqs[..last]).value;
      RequestedObeys(v, reqs[last]);
      assert reqs == reqs[..last] + [reqs[last]];
      PerformedNext(Installed(u), reqs[..last], Installed(v), reqs[last], Installed(AllRequested(u, reqs).value));
    }
  }

  /** The requests before i are carried out, and the one at i is not valid then. */
  ghost predicate StopsAt(u: Update, reqs: seq<Request>, i: nat)
    requires Open(u)
  {
    i < |reqs| && AllRequested(u, reqs[..i]).Some? && !Valid(Installed(AllRequested(u, reqs[..i]).value), reqs[i])
  }

  lemma {:induction false} RefusedEarly(u: Update, reqs: seq<Request>, n: nat)
    requires Open(u) && n <= |reqs| && AllRequested(u, reqs[..n]) == None
    ensures AllRequested(u, reqs) == None
  {
    if n == |reqs| {
      assert reqs[..n] == reqs;
    } else {
      assert reqs[..|reqs| - 1][..n] == reqs[..n];
      RefusedEarly(u, reqs[..|reqs| - 1], n);
    }
  }

  /** Requests taken together are refused at one that is not valid when its turn comes. */
  lemma {:induction false} RefusedAt(u: Update, reqs: seq<Request>) returns (i: nat)
    requires Open(u) && AllRequested(u, reqs) == None
    ensures StopsAt(u, reqs, i)
  {
    var last := |reqs| - 1;
    if AllRequested(u, reqs[..last]) == None {
      i := RefusedAt(u, reqs[..last]);
      assert reqs[..last][..i] == reqs[..i];
    } else {
      i := last;
      RequestedObeys(AllRequested(u, reqs[..last]).value, reqs[last]);
    }
  }

  lemma StopRefuses(u: Update, reqs: seq<Request>, i: nat)
    requires Open(u) && StopsAt(u, reqs, i)
    ensures AllRequested(u, reqs) == None
  {
    assert reqs[..i + 1][..i] == reqs[..i];
    RequestedObeys(AllRequested(u, reqs[..i]).value, reqs[i]);
    RefusedEarly(u, reqs, i + 1);
  }

  // ----- the call -----

  /** Sets one property, bringing the object into the update first. */
  method SetProperty(state: AtomicState, req: Request) returns (r: Status)
    requires Open(state.View())
    modifies state
    ensures Shaped(state.View())
    ensures r.Ok? ==> Requested(old(state.View()), req) == Some(state.View())
    ensures r.Ok? ==> Obeys(Installed(old(state.View())), req, Installed(state.View()))
    ensures state.dev.reliable ==> (r.Ok? <==> Valid(Installed(old(state.View())), req))
  {
    RequestedObeys(state.View(), req);
    match req
    case PlaneCrtc(_, _) => r := SetPlaneProperty(state, req);
    case PlaneFb(_, _) => r := SetPlaneProperty(state, req);
    case ConnectorCrtc(_, _) => r := SetConnectorProperty(state, req);
    case LinkStatus(_, _) => r := SetConnectorProperty(state, req);
    case ModeBlob(_, _) => r := SetCrtcProperty(state, req);
    case Active(_, _) => r := SetCrtcProperty(state, req);
  }

  method SetPlaneProperty(state: AtomicState, req: Request) returns (r: Status)
    requires Open(state.View()) && (req.PlaneCrtc? || req.PlaneFb?)
    modifies state
    ensures Shaped(state.View())
    ensures r.Ok? ==> PlaneRequest(old(state.View()), req) == Some(state.View())
    ensures state.dev.reliable ==> (r.Ok? <==> PlaneRequest(old(state.View()), req).Some?)
  {
    var p := req.plane;
    if p >= |state.planes| { return Failed(ENOENT); }
    if req.PlaneCrtc? && req.crtc.Some? && req.crtc.value >= |state.crtcs| { return Failed(EINVAL); }
    AddPlaneKeeps(state.View(), p);
    r := state.GetPlaneState(p);
    if r.Failed? { return; }
    if req.PlaneCrtc? {
      MovePlaneKeeps(state.View(), p, req.crtc);
      r := state.SetCrtcForPlane(p, req.crtc);
    } else {
      EditPlaneKeeps(state.View(), p, state.planes[p].value.(fb := req.fb));
      state.planes := state.planes[p := Some(state.planes[p].value.(fb := req.fb))];
    }
  }

  method SetConnectorProperty(state: AtomicState, req: Request) returns (r: Status)
    requires Open(state.View()) && (req.ConnectorCrtc? || req.LinkStatus?)
    modifies state
    ensures Shaped(state.View())
    ensures r.Ok? ==> ConnectorRequest(old(state.View()), req) == Some(state.View())
    ensures state.dev.reliable ==> (r.Ok? <==> ConnectorRequest(old(state.View()), req).Some?)
  {
    var k := req.connector;
    if k >= |state.connectors| { return Failed(ENOENT); }
    if req.ConnectorCrtc? && req.crtc.Some? && req.crtc.value >= |state.crtcs| { return Failed(EINVAL); }
    AddConnectorKeeps(state.View(), k);
    r := state.GetConnectorState(k);
    if r.Failed? { return; }
    if req.ConnectorCrtc? {
      MoveConnectorKeeps(state.View(), k, req.crtc);
      r := state.SetCrtcForConnector(k, req.crtc);
    } else {
      var s := state.connectors[k].value;
      EditConnectorKeeps(state.View(), k, WithLink(s, req.link));
      assert state.connectors[k := Some(s)] == state.connectors;
      if s.link != LINK_GOOD { state.connectors := state.connectors[k := Some(s.(link := req.link))]; }
    }
  }

  method SetCrtcProperty(state: AtomicState, req: Request) returns (r: Status)
    requires Open(state.View()) && (req.ModeBlob? || req.Active?)
    modifies state
    ensures Shaped(state.View())
    ensures r.Ok? ==> CrtcRequest(old(state.View()), req) == Some(state.View())
    ensures state.dev.reliable ==> (r.Ok? <==> CrtcRequest(old(state.View()), req).Some?)
  {
    var c := req.crtcIndex;
    if c >= |state.crtcs| { return Failed(ENOENT); }
    AddCrtcKeeps(state.View(), c);
    r := state.GetCrtcState(c);
    if r.Failed? { return; }
    ghost var u := state.View();
    if req.ModeBlob? {
      r := state.SetModePropForCrtc(c, req.blob);
      if r.Ok? { EditCrtcKeeps(u, c, WithBlob(Crtc(u, c), req.blob).value); }
    } else {
      EditCrtcKeeps(u, c, Crtc(u, c).(active := req.active));
      state.crtcs := state.crtcs[c := Some(state.crtcs[c].value.(active := req.active))];
    }
  }

  /** Sets the properties in order, up to the first that is refused. */
  method SetProperties(state: AtomicState, reqs: seq<Request>) returns (r: Status)
    requires Open(state.View())
    modifies state
    ensures Shaped(state.View())
    ensures r.Ok? ==> AllRequested(old(state.View()), reqs) == Some(state.View())
    ensures r.Ok? ==> Performed(Installed(old(state.View())), reqs, Installed(state.View()))
    ensures state.dev.reliable ==> (r.Ok? <==> AllRequested(old(state.View()), reqs).Some?)
  {
    ghost var none := state.View();
    for i := 0 to |reqs|
      invariant AllRequested(none, reqs[..i]) == Some(state.View())
    {
      assert reqs[..i + 1][..i] == reqs[..i];
      RequestedObeys(state.View(), reqs[i]);
      r := SetProperty(state, reqs[i]);
      if r.Failed? {
        if state.dev.reliable { RefusedEarly(none, reqs, i + 1); }
        return;
      }
    }
    assert reqs[..|reqs|] == reqs;
    AllPerformed(none, reqs);
    r := Ok;
  }

  /** The update v is what a call's requests come to, checked and ready to install. */
  ghost predicate Accepted(cfg: Config, call: Call, v: Update) {
    && Open(Empty(cfg)) && AllRequested(Empty(cfg), call.requests).Some?
    && Answers(AllRequested(Empty(cfg), call.requests).value, v, call.allowModeset)
  }

  lemma EmptyOpen(cfg: Config)
    requires Consistent(cfg)
    ensures Open(Empty(cfg))
  {
    EmptyAssembled(cfg);
    forall c: nat | c < |cfg.crtcs| ensures ModeAgrees(cfg.crtcs[c]) { assert CrtcSound(cfg.crtcs[c]); }
  }

  lemma CallPerformed(was: Config, reqs: seq<Request>, w: Update, v: Update)
    requires Shaped(w) && Performed(Installed(Empty(was)), reqs, Installed(w)) && Settled(w, v)
    ensures Performed(was, reqs, Installed(v))
  {
    assert Installed(Empty(was)) == was;
    forall c: nat | c < |w.crtcs| ensures Crtc(v, c).blob == Crtc(w, c).blob && Crtc(v, c).active == Crtc(w, c).active {
      assert HasCrtc(v, c) <==> HasCrtc(w, c);
    }
    PerformedSame(was, reqs, Installed(w), Installed(v));
  }

  /**
   One call. It installs what its requests come to, or leaves device and hardware alone; if no hook, lock or
   allocation refuses, it succeeds exactly when the requests make sense, pass the core checks, can be routed and
   cause no modeset that is not allowed.
   Either way the device stays consistent and in sync.
   */
  method Ioctl(dev: Device, hw: Hardware, call: Call) returns (r: Status)
    requires InSync(dev, hw)
    modifies dev, hw
    ensures InSync(dev, hw) && |dev.crtcs| == |old(dev.crtcs)| && |dev.planes| == |old(dev.planes)|
    ensures r.Failed? || call.testOnly ==> dev.Current() == old(dev.Current()) && hw.trace == old(hw.trace)
    ensures r.Ok? && !call.testOnly ==> exists v: Update :: Accepted(old(dev.Current()), call, v) && dev.Current() == Installed(v)
    ensures r.Ok? && !call.testOnly ==> Performed(old(dev.Current()), call.requests, dev.Current())
    ensures Open(Empty(old(dev.Current())))
    ensures dev.reliable ==>
      var w := AllRequested(Empty(old(dev.Current())), call.requests);
      r.Ok? <==> w.Some? && Acceptable(w.value, call.allowModeset)
  {
    var state := new AtomicState(dev);
    EmptyOpen(dev.Current());
    r := SetProperties(state, call.requests);
    if r.Failed? { return; }
    OpenPending(state.View());
    ghost var was, w := dev.Current(), state.View();
    if call.testOnly {
      r := CheckOnly(state, call.allowModeset);
    } else {
      r := AtomicCommit(state, hw, call.allowModeset);
      if r.Ok? {
        ghost var v: Update :| Answers(w, v, call.allowModeset) && dev.Current() == Installed(v);
        CallPerformed(was, call.requests, w, v);
        assert Accepted(was, call, v);
      }
    }
  }

  /**
   Every sequence of calls from reset, whatever they ask for and whatever refuses: the device is consistent
   after each of them, off and on hooks of every CRTC and encoder strictly alternate, and exactly the active
   CRTCs and the encoders routed to them are lit.
   */
  method RunFromReset(best: (nat, nat) -> Option<nat>, fits: (nat, nat) -> bool, reliable: bool,
                      numCrtcs: nat, numPlanes: nat, numConnectors: nat, calls: seq<Call>)
    returns (dev: Device, hw: Hardware)
    ensures Consistent(dev.Current())
    ensures Alternates(hw.trace)
    ensures Replay(hw.trace).Some? && Shows(Replay(hw.trace).value, dev.Current())
  {
    dev := new Device(best, fits, reliable, numCrtcs, numPlanes, numConnectors);
    hw := new Hardware();
    OffConsistent(best, fits, numCrtcs, numPlanes, numConnectors);
    assert forall k: nat, e: nat :: !Lights(dev.Current(), k, e);
    for i := 0 to |calls|
      invariant fresh(dev) && fresh(hw) && InSync(dev, hw)
    {
      var r := Ioctl(dev, hw, calls[i]);
    }
    ReplayAlternates(hw.trace);
  }
}
