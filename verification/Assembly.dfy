/**
 Assembling an update: looking up states, moving planes and connectors between CRTCs, and setting modes.
 The functions give the effect of each successful call on the update as a value; the lemmas show that
 every one of them keeps the update assembled.
 */
module Assembly {
  import opened Outcomes
  import opened Modeset

  function AddCrtc(u: Update, c: nat): Update
    requires Shaped(u) && c < |u.crtcs|
  {
    if u.crtcs[c].Some? then u else u.(crtcs := u.crtcs[c := Some(Duplicate(u.cfg.crtcs[c]))])
  }

  function AddPlane(u: Update, p: nat): Update
    requires Shaped(u) && p < |u.planes| && InRange(u.cfg)
  {
    if u.planes[p].Some? then u
    else
      var s := u.cfg.planes[p];
      assert s.crtc.Some? ==> PlaneAt(u.cfg, p, s.crtc.value);
      var v := u.(planes := u.planes[p := Some(s)]);
      if s.crtc.Some? then AddCrtc(v, s.crtc.value) else v
  }

  function AddConnector(u: Update, k: nat): Update
    requires Shaped(u) && k < |u.connectors| && InRange(u.cfg)
  {
    if u.connectors[k].Some? then u
    else
      var s := u.cfg.connectors[k];
      assert s.crtc.Some? ==> ConnectorAt(u.cfg, k, s.crtc.value);
      var v := u.(connectors := u.connectors[k := Some(s)]);
      if s.crtc.Some? then AddCrtc(v, s.crtc.value) else v
  }

  /** Edit the new state of a CRTC that is in the update. */
  function EditCrtc(u: Update, c: nat, s: CrtcState): Update
    requires Shaped(u) && HasCrtc(u, c)
  {
    u.(crtcs := u.crtcs[c := Some(s)])
  }

  function EditPlane(u: Update, p: nat, s: PlaneState): Update
    requires Shaped(u) && HasPlane(u, p)
  {
    u.(planes := u.planes[p := Some(s)])
  }

  function EditConnector(u: Update, k: nat, s: ConnectorState): Update
    requires Shaped(u) && HasConnector(u, k)
  {
    u.(connectors := u.connectors[k := Some(s)])
  }

  /** Take plane p off the CRTC its new state names. */
  function DetachPlane(u: Update, p: nat): Update
    requires Shaped(u) && HasPlane(u, p)
    requires Plane(u, p).crtc.Some? ==> HasCrtc(u, Plane(u, p).crtc.value)
  {
    var s := Plane(u, p);
    if s.crtc == None then u
    else
      var c := s.crtc.value;
      EditPlane(EditCrtc(u, c, Crtc(u, c).(planes := Crtc(u, c).planes - {p})), p, s.(crtc := None))
  }

  /** Put a detached plane on CRTC c, which joins the update. */
  function AttachPlane(u: Update, p: nat, c: nat): Update
    requires Shaped(u) && HasPlane(u, p) && c < |u.crtcs|
  {
    var v := AddCrtc(u, c);
    EditPlane(EditCrtc(v, c, Crtc(v, c).(planes := Crtc(v, c).planes + {p})), p, Plane(v, p).(crtc := Some(c)))
  }

  function DetachConnector(u: Update, k: nat): Update
    requires Shaped(u) && HasConnector(u, k)
    requires Connector(u, k).crtc.Some? ==> HasCrtc(u, Connector(u, k).crtc.value)
  {
    var s := Connector(u, k);
    if s.crtc == None then u
    else
      var c := s.crtc.value;
      EditConnector(EditCrtc(u, c, Crtc(u, c).(connectors := Crtc(u, c).connectors - {k})), k, s.(crtc := None))
  }

  function AttachConnector(u: Update, k: nat, c: nat): Update
    requires Shaped(u) && HasConnector(u, k) && c < |u.crtcs|
  {
    var v := AddCrtc(u, c);
    EditConnector(EditCrtc(v, c, Crtc(v, c).(connectors := Crtc(v, c).connectors + {k})), k, Connector(v, k).(crtc := Some(c)))
  }

  /** Setting a kernel mode, or clearing it; an equal mode leaves the state alone. */
  function WithMode(s: CrtcState, mode: Option<nat>, blobId: nat): (t: CrtcState)
    ensures ModeAgrees(s) ==> ModeAgrees(t)
    ensures ModeAgrees(s) ==> (t.enable <==> mode.Some? && (mode.value != ZERO_MODE || s.enable))
    ensures t.mode == if mode == None then ZERO_MODE else mode.value
    ensures mode == None ==> t.blob == None && !t.enable
    ensures mode == Some(s.mode) ==> t == s
    ensures mode.Some? && mode.value != s.mode ==> t.blob.Some? && t.blob.value.mode == mode.value && t.enable
    ensures t == s.(mode := t.mode, blob := t.blob, enable := t.enable)
  {
    match mode
    case None => s.(mode := ZERO_MODE, blob := None, enable := false)
    case Some(m) => if s.mode == m then s else s.(mode := m, blob := Some(Blob(blobId, m, true)), enable := true)
  }

  /** Setting a mode blob; the same blob leaves the state alone, a malformed one is refused. */
  function WithBlob(s: CrtcState, blob: Option<Blob>): (t: Option<CrtcState>)
    ensures t.Some? && ModeAgrees(s) ==> ModeAgrees(t.value) && (t.value.enable <==> blob.Some?)
    ensures t.Some? ==> t.value == s.(mode := t.value.mode, blob := t.value.blob, enable := t.value.enable)
    ensures t == None <==> blob.Some? && blob != s.blob && !blob.value.wellFormed
    ensures t.Some? ==> t.value.blob == blob && (blob == s.blob ==> t.value == s)
    ensures t.Some? && blob != s.blob ==> t.value.mode == (if blob == None then ZERO_MODE else blob.value.mode) && (t.value.enable <==> blob.Some?)
  {
    if blob == s.blob then Some(s)
    else if blob == None then Some(s.(mode := ZERO_MODE, blob := None, enable := false))
    else if !blob.value.wellFormed then None
    else Some(s.(mode := blob.value.mode, blob := blob, enable := true))
  }

  // ----- every assembly call keeps the update assembled -----

  /** Assembled so far, against a linked configuration, with encoders not yet touched. */
  ghost predicate Open(u: Update) {
    Assembled(u) && Linked(u.cfg) && Untouched(u) && (forall c: nat :: c < |u.cfg.crtcs| ==> ModeAgrees(u.cfg.crtcs[c]))
  }

  lemma AddCrtcKeeps(u: Update, c: nat)
    requires Assembled(u) && Linked(u.cfg) && c < |u.crtcs|
    ensures Assembled(AddCrtc(u, c))
    ensures Open(u) ==> Open(AddCrtc(u, c))
  {
    var v := AddCrtc(u, c);
    forall p: nat, d: nat ensures PlaneOn(v, p, d) <==> PlaneOn(u, p, d) {}
    forall k: nat, d: nat ensures ConnectorOn(v, k, d) <==> ConnectorOn(u, k, d) {}
    if !HasCrtc(u, c) {
      forall p: nat ensures PlaneOn(u, p, c) <==> PlaneAt(u.cfg, p, c) {}
      forall k: nat ensures ConnectorOn(u, k, c) <==> ConnectorAt(u.cfg, k, c) {}
    }
  }

  lemma AddPlaneKeeps(u: Update, p: nat)
    requires Assembled(u) && Linked(u.cfg) && p < |u.planes|
    ensures Assembled(AddPlane(u, p)) && HasPlane(AddPlane(u, p), p)
    ensures Open(u) ==> Open(AddPlane(u, p))
  {
    if !HasPlane(u, p) && u.cfg.planes[p].crtc.Some? {
      var c := u.cfg.planes[p].crtc.value;
      assert PlaneAt(u.cfg, p, c);
      AddCrtcKeeps(u, c);
      var w := AddCrtc(u, c);
      AddedPlaneKeeps(w, p);
      assert AddPlane(u, p) == w.(planes := w.planes[p := Some(w.cfg.planes[p])]);
    } else if !HasPlane(u, p) {
      AddedPlaneKeeps(u, p);
    }
  }

  lemma AddedPlaneKeeps(u: Update, p: nat)
    requires Assembled(u) && p < |u.planes| && !HasPlane(u, p)
    requires forall c: nat :: PlaneAt(u.cfg, p, c) ==> HasCrtc(u, c)
    ensures Assembled(u.(planes := u.planes[p := Some(u.cfg.planes[p])]))
  {
    var v := u.(planes := u.planes[p := Some(u.cfg.planes[p])]);
    forall q: nat, d: nat ensures PlaneOn(v, q, d) <==> PlaneOn(u, q, d) {}
    forall k: nat, d: nat ensures ConnectorOn(v, k, d) <==> ConnectorOn(u, k, d) {}
  }

  lemma AddConnectorKeeps(u: Update, k: nat)
    requires Assembled(u) && Linked(u.cfg) && k < |u.connectors|
    ensures Assembled(AddConnector(u, k)) && HasConnector(AddConnector(u, k), k)
    ensures Open(u) ==> Open(AddConnector(u, k))
  {
    if !HasConnector(u, k) && u.cfg.connectors[k].crtc.Some? {
      var c := u.cfg.connectors[k].crtc.value;
      assert ConnectorAt(u.cfg, k, c);
      AddCrtcKeeps(u, c);
      var w := AddCrtc(u, c);
      AddedConnectorKeeps(w, k);
      assert AddConnector(u, k) == w.(connectors := w.connectors[k := Some(w.cfg.connectors[k])]);
    } else if !HasConnector(u, k) {
      AddedConnectorKeeps(u, k);
    }
  }

  lemma AddedConnectorKeeps(u: Update, k: nat)
    requires Assembled(u) && k < |u.connectors| && !HasConnector(u, k)
    requires forall c: nat :: ConnectorAt(u.cfg, k, c) ==> HasCrtc(u, c)
    ensures Assembled(u.(connectors := u.connectors[k := Some(u.cfg.connectors[k])]))
  {
    var v := u.(connectors := u.connectors[k := Some(u.cfg.connectors[k])]);
    forall p: nat, d: nat ensures PlaneOn(v, p, d) <==> PlaneOn(u, p, d) {}
    forall l: nat, d: nat ensures ConnectorOn(v, l, d) <==> ConnectorOn(u, l, d) {}
  }

  lemma DetachPlaneKeeps(u: Update, p: nat)
    requires Assembled(u) && HasPlane(u, p)
    ensures Plane(u, p).crtc.Some? ==> HasCrtc(u, Plane(u, p).crtc.value)
    ensures Assembled(DetachPlane(u, p))
    ensures Open(u) ==> Open(DetachPlane(u, p))
  {
    if Plane(u, p).crtc.Some? {
      assert PlaneOn(u, p, Plane(u, p).crtc.value);
      var v := DetachPlane(u, p);
      forall q: nat, d: nat ensures PlaneOn(v, q, d) <==> PlaneOn(u, q, d) && q != p {}
      forall k: nat, d: nat ensures ConnectorOn(v, k, d) <==> ConnectorOn(u, k, d) {}
    }
  }

  lemma AttachPlaneKeeps(u: Update, p: nat, c: nat)
    requires Assembled(u) && Linked(u.cfg) && HasPlane(u, p) && c < |u.crtcs| && Plane(u, p).crtc == None
    ensures Assembled(AttachPlane(u, p, c))
    ensures Open(u) ==> Open(AttachPlane(u, p, c))
  {
    AddCrtcKeeps(u, c);
    var w := AddCrtc(u, c);
    var v := AttachPlane(u, p, c);
    forall q: nat, d: nat ensures PlaneOn(v, q, d) <==> PlaneOn(w, q, d) || (q == p && d == c) {}
    forall k: nat, d: nat ensures ConnectorOn(v, k, d) <==> ConnectorOn(w, k, d) {}
  }

  lemma DetachConnectorKeeps(u: Update, k: nat)
    requires Assembled(u) && HasConnector(u, k)
    ensures Connector(u, k).crtc.Some? ==> HasCrtc(u, Connector(u, k).crtc.value)
    ensures Assembled(DetachConnector(u, k))
    ensures Open(u) ==> Open(DetachConnector(u, k))
  {
    if Connector(u, k).crtc.Some? {
      assert ConnectorOn(u, k, Connector(u, k).crtc.value);
      var v := DetachConnector(u, k);
      forall p: nat, d: nat ensures PlaneOn(v, p, d) <==> PlaneOn(u, p, d) {}
      forall l: nat, d: nat ensures ConnectorOn(v, l, d) <==> ConnectorOn(u, l, d) && l != k {}
    }
  }

  lemma AttachConnectorKeeps(u: Update, k: nat, c: nat)
    requires Assembled(u) && Linked(u.cfg) && HasConnector(u, k) && c < |u.crtcs| && Connector(u, k).crtc == None
    ensures Assembled(AttachConnector(u, k, c))
    ensures Open(u) ==> Open(AttachConnector(u, k, c))
  {
    AddCrtcKeeps(u, c);
    var w := AddCrtc(u, c);
    var v := AttachConnector(u, k, c);
    forall p: nat, d: nat ensures PlaneOn(v, p, d) <==> PlaneOn(w, p, d) {}
    forall l: nat, d: nat ensures ConnectorOn(v, l, d) <==> ConnectorOn(w, l, d) || (l == k && d == c) {}
  }

  /** Editing fields of a CRTC state other than its masks and derived flags keeps the update open. */
  lemma EditCrtcKeeps(u: Update, c: nat, s: CrtcState)
    requires Open(u) && HasCrtc(u, c)
    requires s.planes == Crtc(u, c).planes && s.connectors == Crtc(u, c).connectors && s.encoders == Crtc(u, c).encoders
    requires !NeedsModeset(s) && ModeAgrees(s)
    ensures Open(EditCrtc(u, c, s))
  {
    var v := EditCrtc(u, c, s);
    forall p: nat, d: nat ensures PlaneOn(v, p, d) <==> PlaneOn(u, p, d) {}
    forall k: nat, d: nat ensures ConnectorOn(v, k, d) <==> ConnectorOn(u, k, d) {}
  }

  /** Editing a plane or connector without moving it keeps the update open. */
  lemma EditPlaneKeeps(u: Update, p: nat, s: PlaneState)
    requires Open(u) && HasPlane(u, p) && s.crtc == Plane(u, p).crtc
    ensures Open(EditPlane(u, p, s))
  {
    var v := EditPlane(u, p, s);
    forall q: nat, d: nat ensures PlaneOn(v, q, d) <==> PlaneOn(u, q, d) {}
    forall k: nat, d: nat ensures ConnectorOn(v, k, d) <==> ConnectorOn(u, k, d) {}
  }

  lemma EditConnectorKeeps(u: Update, k: nat, s: ConnectorState)
    requires Open(u) && HasConnector(u, k) && s.crtc == Connector(u, k).crtc && s.encoder == Connector(u, k).encoder
    ensures Open(EditConnector(u, k, s))
  {
    var v := EditConnector(u, k, s);
    forall p: nat, d: nat ensures PlaneOn(v, p, d) <==> PlaneOn(u, p, d) {}
    forall l: nat, d: nat ensures ConnectorOn(v, l, d) <==> ConnectorOn(u, l, d) {}
  }

  /** The new state of a plane names another CRTC, or none. */
  function MovePlane(u: Update, p: nat, to: Option<nat>): Update
    requires Shaped(u) && HasPlane(u, p)
    requires Plane(u, p).crtc.Some? ==> HasCrtc(u, Plane(u, p).crtc.value)
    requires to.Some? ==> to.value < |u.crtcs|
  {
    var v := DetachPlane(u, p);
    if to.Some? then AttachPlane(v, p, to.value) else v
  }

  /** The new state of a connector names another CRTC, or none; naming the same one changes nothing. */
  function MoveConnector(u: Update, k: nat, to: Option<nat>): Update
    requires Shaped(u) && HasConnector(u, k)
    requires Connector(u, k).crtc.Some? ==> HasCrtc(u, Connector(u, k).crtc.value)
    requires to.Some? ==> to.value < |u.crtcs|
  {
    if Connector(u, k).crtc == to then u
    else
      var v := DetachConnector(u, k);
      if to.Some? then AttachConnector(v, k, to.value) else v
  }

  lemma MovePlaneKeeps(u: Update, p: nat, to: Option<nat>)
    requires Assembled(u) && Linked(u.cfg) && HasPlane(u, p) && (to.Some? ==> to.value < |u.crtcs|)
    ensures Plane(u, p).crtc.Some? ==> HasCrtc(u, Plane(u, p).crtc.value)
    ensures Assembled(MovePlane(u, p, to)) && Plane(MovePlane(u, p, to), p).crtc == to
    ensures Open(u) ==> Open(MovePlane(u, p, to))
  {
    DetachPlaneKeeps(u, p);
    if to.Some? { AttachPlaneKeeps(DetachPlane(u, p), p, to.value); }
  }

  lemma MoveConnectorKeeps(u: Update, k: nat, to: Option<nat>)
    requires Assembled(u) && Linked(u.cfg) && HasConnector(u, k) && (to.Some? ==> to.value < |u.crtcs|)
    ensures Connector(u, k).crtc.Some? ==> HasCrtc(u, Connector(u, k).crtc.value)
    ensures Assembled(MoveConnector(u, k, to)) && Connector(MoveConnector(u, k, to), k).crtc == to
    ensures Open(u) ==> Open(MoveConnector(u, k, to))
  {
    DetachConnectorKeeps(u, k);
    if to.Some? && Connector(u, k).crtc != to { AttachConnectorKeeps(DetachConnector(u, k), k, to.value); }
  }

  /** Moving plane p changes the CRTC it names, and no other plane or connector. */
  lemma MovePlaneSlots(u: Update, p: nat, to: Option<nat>)
    requires Shaped(u) && HasPlane(u, p) && (to.Some? ==> to.value < |u.crtcs|)
    requires Plane(u, p).crtc.Some? ==> HasCrtc(u, Plane(u, p).crtc.value)
    ensures var v := MovePlane(u, p, to);
      v.cfg == u.cfg && v.planes == u.planes[p := Some(Plane(u, p).(crtc := to))] && v.connectors == u.connectors && |v.crtcs| == |u.crtcs|
  {
    assert u.planes[p := Some(Plane(u, p))] == u.planes;
  }

  lemma MoveConnectorSlots(u: Update, k: nat, to: Option<nat>)
    requires Shaped(u) && HasConnector(u, k) && (to.Some? ==> to.value < |u.crtcs|)
    requires Connector(u, k).crtc.Some? ==> HasCrtc(u, Connector(u, k).crtc.value)
    ensures var v := MoveConnector(u, k, to);
      v.cfg == u.cfg && v.connectors == u.connectors[k := Some(Connector(u, k).(crtc := to))] && v.planes == u.planes && |v.crtcs| == |u.crtcs|
  {
    assert u.connectors[k := Some(Connector(u, k))] == u.connectors;
  }

  /** The plane mask of CRTC d once plane p has moved: without it, unless d is where it goes. */
  function PlanesAfter(u: Update, p: nat, to: Option<nat>, d: nat): set<nat>
    requires Shaped(u) && d < |u.crtcs|
  {
    (if PlaneOn(u, p, d) then Crtc(u, d).planes - {p} else Crtc(u, d).planes) + (if to == Some(d) then {p} else {})
  }

  /** What moving plane p does to the state of CRTC d. */
  lemma MovePlaneAt(u: Update, p: nat, to: Option<nat>, d: nat)
    requires Shaped(u) && HasPlane(u, p) && HasCrtc(u, d)
    requires Plane(u, p).crtc.Some? ==> HasCrtc(u, Plane(u, p).crtc.value)
    requires to.Some? ==> HasCrtc(u, to.value)
    ensures var v := MovePlane(u, p, to);
      && |v.crtcs| == |u.crtcs| && HasPlane(v, p) && v.connectors == u.connectors
      && HasCrtc(v, d) && Crtc(v, d) == Crtc(u, d).(planes := PlanesAfter(u, p, to, d))
    ensures forall c: nat :: HasCrtc(MovePlane(u, p, to), c) <==> HasCrtc(u, c)
  {
  }

  /** What moving connector k does to the state of CRTC d. */
  lemma MoveConnectorAt(u: Update, k: nat, to: Option<nat>, d: nat)
    requires Shaped(u) && HasConnector(u, k) && HasCrtc(u, d)
    requires Connector(u, k).crtc.Some? ==> HasCrtc(u, Connector(u, k).crtc.value)
    requires to.Some? ==> HasCrtc(u, to.value)
    requires k in Crtc(u, d).connectors <==> ConnectorOn(u, k, d)
    ensures var v := MoveConnector(u, k, to);
      && |v.crtcs| == |u.crtcs| && |v.connectors| == |u.connectors| && HasConnector(v, k) && v.planes == u.planes
      && HasCrtc(v, d) && Crtc(v, d) == Crtc(u, d).(connectors := Crtc(u, d).connectors - {k} + if to == Some(d) then {k} else {})
    ensures forall c: nat :: HasCrtc(MoveConnector(u, k, to), c) <==> HasCrtc(u, c)
  {
  }

  // ----- growth -----

  /** `v` is `u` with unchanged copies of further current states added. */
  ghost predicate Grown(u: Update, v: Update) {
    && Shaped(u) && Shaped(v) && v.cfg == u.cfg
    && (forall c: nat :: HasCrtc(v, c) ==> Crtc(v, c) == if HasCrtc(u, c) then Crtc(u, c) else Duplicate(u.cfg.crtcs[c]))
    && (forall p: nat :: HasPlane(v, p) ==> Plane(v, p) == Plane(u, p))
    && (forall k: nat :: HasConnector(v, k) ==> Connector(v, k) == Connector(u, k))
    && (forall c: nat :: HasCrtc(u, c) ==> HasCrtc(v, c))
    && (forall p: nat :: HasPlane(u, p) ==> HasPlane(v, p))
    && (forall k: nat :: HasConnector(u, k) ==> HasConnector(v, k))
  }

  /** An update that grows by connector k, where k is on c, has all connectors on c up to k. */
  lemma GrownOn(u: Update, v: Update, k: nat, next: nat, c: nat)
    requires Grown(u, v) && Assembled(u) && HasCrtc(u, c) && next == k + 1
    requires k in Crtc(u, c).connectors ==> HasConnector(v, k)
    requires forall l: nat :: l < k && ConnectorOn(u, l, c) ==> HasConnector(u, l)
    ensures forall l: nat :: l < next && ConnectorOn(v, l, c) ==> HasConnector(v, l)
  {
    forall l: nat ensures ConnectorOn(v, l, c) <==> ConnectorOn(u, l, c) {}
    assert ConnectorOn(u, k, c) ==> k in Crtc(u, c).connectors;
  }

  lemma AddCrtcGrows(u: Update, c: nat)
    requires Shaped(u) && c < |u.crtcs|
    ensures Grown(u, AddCrtc(u, c)) && HasCrtc(AddCrtc(u, c), c)
  {
  }

  lemma GrownTransitive(u: Update, v: Update, w: Update)
    requires Grown(u, v) && Grown(v, w)
    ensures Grown(u, w)
  {
  }

  lemma GrownOpen(u: Update, v: Update)
    requires Grown(u, v) && Open(u) && Assembled(v)
    ensures Open(v)
  {
    forall k: nat | HasConnector(v, k) ensures Connector(v, k).encoder == v.cfg.connectors[k].encoder {
      if HasConnector(u, k) {}
    }
  }

  /** The CRTCs of an update that gains plane p are those it had and the one the plane is currently on. */
  lemma AddPlaneGrows(u: Update, p: nat)
    requires Shaped(u) && InRange(u.cfg) && p < |u.planes|
    ensures Grown(u, AddPlane(u, p))
    ensures forall c: nat :: HasCrtc(AddPlane(u, p), c) ==> HasCrtc(u, c) || PlaneAt(u.cfg, p, c)
    ensures AddPlane(u, p).connectors == u.connectors
  {
    var s := u.cfg.planes[p];
    assert s.crtc.Some? ==> PlaneAt(u.cfg, p, s.crtc.value);
  }

  lemma AddConnectorGrows(u: Update, k: nat)
    requires Shaped(u) && InRange(u.cfg) && k < |u.connectors|
    ensures Grown(u, AddConnector(u, k))
    ensures forall c: nat :: HasCrtc(AddConnector(u, k), c) ==> HasCrtc(u, c) || ConnectorAt(u.cfg, k, c)
    ensures AddConnector(u, k).planes == u.planes
  {
    var s := u.cfg.connectors[k];
    assert s.crtc.Some? ==> ConnectorAt(u.cfg, k, s.crtc.value);
  }
}
