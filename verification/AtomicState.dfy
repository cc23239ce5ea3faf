/**
 The objects of the atomic core: a device with its current states, and the update being assembled against
 it. A driver hook, a lock or an allocation may refuse at any point unless the device is `reliable`.
 */
module AtomicCore {
  import opened Outcomes
  import opened Modeset
  import opened Assembly

  class Device {
    const best: (nat, nat) -> Option<nat>
    const fits: (nat, nat) -> bool
    const reliable: bool
    var crtcs: seq<CrtcState>
    var planes: seq<PlaneState>
    var connectors: seq<ConnectorState>

    ghost function Current(): Config
      reads this
    {
      Config(best, fits, crtcs, planes, connectors)
    }

    /** A device after reset: everything is off. */
    constructor (best: (nat, nat) -> Option<nat>, fits: (nat, nat) -> bool, reliable: bool,
                 numCrtcs: nat, numPlanes: nat, numConnectors: nat)
      ensures Current() == Off(best, fits, numCrtcs, numPlanes, numConnectors)
      ensures this.reliable == reliable
    {
      this.best, this.fits, this.reliable := best, fits, reliable;
      crtcs := seq(numCrtcs, _ => OFF_CRTC);
      planes := seq(numPlanes, _ => PlaneState(None, None));
      connectors := seq(numConnectors, _ => ConnectorState(None, None, 0));
    }

    /** Replaces every state by a zeroed one. */
    method Reset()
      modifies this
      ensures Current() == Off(best, fits, |old(crtcs)|, |old(planes)|, |old(connectors)|)
    {
      crtcs := seq(|crtcs|, _ => OFF_CRTC);
      planes := seq(|planes|, _ => PlaneState(None, None));
      connectors := seq(|connectors|, _ => ConnectorState(None, None, 0));
    }

    /** Whether the next lock, allocation or driver hook goes through. */
    method Grant() returns (ok: bool)
      ensures reliable ==> ok
    {
      if reliable { return true; }
      ok := *;
    }
  }

  class AtomicState {
    const dev: Device
    var crtcs: seq<Option<CrtcState>>
    var planes: seq<Option<PlaneState>>
    var connectors: seq<Option<ConnectorState>>
    var before: Config  // old states, once the update has been swapped in

    ghost function View(): Update
      reads this, dev
    {
      Update(dev.Current(), crtcs, planes, connectors)
    }

    constructor (dev: Device)
      ensures this.dev == dev
      ensures View() == Empty(dev.Current())
    {
      this.dev := dev;
      crtcs := seq(|dev.crtcs|, _ => None);
      planes := seq(|dev.planes|, _ => None);
      connectors := seq(|dev.connectors|, _ => None);
      before := Config(dev.best, dev.fits, dev.crtcs, dev.planes, dev.connectors);
    }

    /** The update as it was swapped in: old states and the new ones. */
    ghost function Committed(): Update
      reads this
    {
      Update(before, crtcs, planes, connectors)
    }

    method GetCrtcState(c: nat) returns (r: Status)
      requires Shaped(View()) && c < |crtcs|
      modifies this
      ensures dev.reliable ==> r.Ok?
      ensures View() == if r.Ok? then AddCrtc(old(View()), c) else old(View())
      ensures r.Ok? ==> HasCrtc(View(), c)
      ensures r.Ok? && !HasCrtc(old(View()), c) ==> SameFields(crtcs[c].value, dev.crtcs[c]) && Unflagged(crtcs[c].value)
    {
      if crtcs[c].Some? { return Ok; }
      var locked := dev.Grant();
      if !locked { return Failed(EDEADLK); }
      var copied := dev.Grant();
      if !copied { return Failed(ENOMEM); }
      crtcs := crtcs[c := Some(Duplicate(dev.crtcs[c]))];
      return Ok;
    }

    method GetPlaneState(p: nat) returns (r: Status)
      requires Shaped(View()) && InRange(dev.Current()) && p < |planes|
      modifies this
      ensures Shaped(View()) && (dev.reliable ==> r.Ok?)
      ensures r.Ok? ==> View() == AddPlane(old(View()), p)
    {
      if planes[p].Some? { return Ok; }
      var locked := dev.Grant();
      if !locked { return Failed(EDEADLK); }
      var copied := dev.Grant();
      if !copied { return Failed(ENOMEM); }
      planes := planes[p := Some(dev.planes[p])];
      if dev.planes[p].crtc.Some? {
        assert PlaneAt(dev.Current(), p, dev.planes[p].crtc.value);
        r := GetCrtcState(dev.planes[p].crtc.value);
        return;
      }
      return Ok;
    }

    method GetConnectorState(k: nat) returns (r: Status)
      requires Shaped(View()) && InRange(dev.Current()) && k < |connectors|
      modifies this
      ensures Shaped(View()) && (dev.reliable ==> r.Ok?)
      ensures r.Ok? ==> View() == AddConnector(old(View()), k)
    {
      var locked := dev.Grant();
      if !locked { return Failed(EDEADLK); }
      if connectors[k].Some? { return Ok; }
      var copied := dev.Grant();
      if !copied { return Failed(ENOMEM); }
      connectors := connectors[k := Some(dev.connectors[k])];
      if dev.connectors[k].crtc.Some? {
        assert ConnectorAt(dev.Current(), k, dev.connectors[k].crtc.value);
        r := GetCrtcState(dev.connectors[k].crtc.value);
        return;
      }
      return Ok;
    }

    /** A blob that cannot be created leaves the mode but not the old blob. */
    method SetModeForCrtc(c: nat, mode: Option<nat>, blobId: nat) returns (r: Status)
      requires Shaped(View()) && HasCrtc(View(), c)
      modifies this
      ensures Shaped(View()) && (dev.reliable ==> r.Ok?)
      ensures r.Ok? ==> View() == EditCrtc(old(View()), c, WithMode(Crtc(old(View()), c), mode, blobId))
      ensures r.Failed? ==> View() == EditCrtc(old(View()), c, Crtc(old(View()), c).(blob := None))
    {
      var s := crtcs[c].value;
      if mode.Some? && s.mode == mode.value {
        assert crtcs == crtcs[c := Some(s)];
        return Ok;
      }
      if mode.Some? {
        var created := dev.Grant();
        if !created {
          crtcs := crtcs[c := Some(s.(blob := None))];
          return Failed(ENOMEM);
        }
      }
      crtcs := crtcs[c := Some(WithMode(s, mode, blobId))];
      return Ok;
    }

    /** A malformed blob is refused when the old blob is gone and the mode overwritten already. */
    method SetModePropForCrtc(c: nat, blob: Option<Blob>) returns (r: Status)
      requires Shaped(View()) && HasCrtc(View(), c)
      modifies this
      ensures Shaped(View()) && (r.Ok? <==> WithBlob(Crtc(old(View()), c), blob).Some?)
      ensures r.Ok? ==> View() == EditCrtc(old(View()), c, WithBlob(Crtc(old(View()), c), blob).value)
      ensures r.Failed? ==> exists m: nat :: View() == EditCrtc(old(View()), c, Crtc(old(View()), c).(blob := None, mode := m))
    {
      var s := WithBlob(crtcs[c].value, blob);
      if s == None {
        var m: nat := *;
        crtcs := crtcs[c := Some(crtcs[c].value.(blob := None, mode := m))];
        return Failed(EINVAL);
      }
      crtcs := crtcs[c := s];
      return Ok;
    }

    /** The plane leaves its CRTC before the new CRTC is looked up, which can fail. */
    method SetCrtcForPlane(p: nat, to: Option<nat>) returns (r: Status)
      requires Assembled(View()) && HasPlane(View(), p) && (to.Some? ==> to.value < |crtcs|)
      modifies this
      ensures Shaped(View()) && (dev.reliable ==> r.Ok?)
      ensures Plane(old(View()), p).crtc.Some? ==> HasCrtc(old(View()), Plane(old(View()), p).crtc.value)
      ensures r.Ok? ==> View() == MovePlane(old(View()), p, to)
    {
      DetachPlaneKeeps(View(), p);
      var s := planes[p].value;
      if s.crtc.Some? {
        var c := s.crtc.value;
        crtcs := crtcs[c := Some(crtcs[c].value.(planes := crtcs[c].value.planes - {p}))];
      }
      planes := planes[p := Some(s.(crtc := None))];
      assert View() == DetachPlane(old(View()), p);
      if to.Some? {
        planes := planes[p := Some(s.(crtc := to))];
        var c := to.value;
        r := GetCrtcState(c);
        if r.Failed? { return; }
        crtcs := crtcs[c := Some(crtcs[c].value.(planes := crtcs[c].value.planes + {p}))];
      }
      return Ok;
    }

    method SetCrtcForConnector(k: nat, to: Option<nat>) returns (r: Status)
      requires Assembled(View()) && HasConnector(View(), k) && (to.Some? ==> to.value < |crtcs|)
      modifies this
      ensures Shaped(View()) && (dev.reliable || to == None ==> r.Ok?)
      ensures Connector(old(View()), k).crtc.Some? ==> HasCrtc(old(View()), Connector(old(View()), k).crtc.value)
      ensures r.Ok? ==> View() == MoveConnector(old(View()), k, to)
    {
      DetachConnectorKeeps(View(), k);
      var s := connectors[k].value;
      if s.crtc == to { return Ok; }
      if s.crtc.Some? {
        var c := s.crtc.value;
        crtcs := crtcs[c := Some(crtcs[c].value.(connectors := crtcs[c].value.connectors - {k}))];
        connectors := connectors[k := Some(s.(crtc := None))];
      }
      assert View() == DetachConnector(old(View()), k);
      if to.Some? {
        var c := to.value;
        r := GetCrtcState(c);
        if r.Failed? { return; }
        crtcs := crtcs[c := Some(crtcs[c].value.(connectors := crtcs[c].value.connectors + {k}))];
        connectors := connectors[k := Some(s.(crtc := to))];
      }
      return Ok;
    }

    /** Brings a connector that ends up on CRTC c into the update; no CRTC joins. */
    method AddConnectorOn(k: nat, c: nat) returns (r: Status)
      requires Assembled(View()) && Linked(dev.Current()) && HasCrtc(View(), c) && ConnectorOn(View(), k, c)
      modifies this
      ensures Shaped(View()) && (dev.reliable ==> r.Ok?) && |connectors| == |old(connectors)|
      ensures r.Ok? ==> Assembled(View()) && Grown(old(View()), View()) && HasConnector(View(), k) && planes == old(planes)
      ensures r.Ok? ==> forall d: nat :: HasCrtc(View(), d) <==> HasCrtc(old(View()), d)
      ensures r.Ok? ==> forall l: nat :: HasConnector(View(), l) <==> HasConnector(old(View()), l) || l == k
    {
      AddConnectorKeeps(View(), k);
      AddConnectorGrows(View(), k);
      r := GetConnectorState(k);
    }

    /** Brings every connector that ends up on CRTC c into the update. */
    method AddAffectedConnectors(c: nat) returns (r: Status)
      requires Assembled(View()) && Linked(dev.Current()) && c < |crtcs|
      modifies this
      ensures Shaped(View()) && (dev.reliable ==> r.Ok?)
      ensures r.Ok? ==> Assembled(View()) && Grown(old(View()), View()) && HasCrtc(View(), c) && planes == old(planes)
      ensures r.Ok? ==> forall d: nat :: HasCrtc(View(), d) ==> HasCrtc(old(View()), d) || d == c
      ensures r.Ok? ==> forall k: nat :: ConnectorOn(View(), k, c) ==> HasConnector(View(), k)
      ensures r.Ok? ==> forall k: nat :: HasConnector(View(), k) ==> HasConnector(old(View()), k) || ConnectorOn(old(View()), k, c)
    {
      r := GetCrtcState(c);
      if r.Failed? { return; }
      AddCrtcKeeps(old(View()), c);
      ghost var before := View();
      for k := 0 to |connectors|
        invariant Assembled(View()) && Grown(before, View())
        invariant |connectors| == |old(connectors)| && HasCrtc(View(), c) && planes == old(planes)
        invariant forall d: nat :: HasCrtc(View(), d) <==> HasCrtc(before, d)
        invariant forall l: nat :: l < k && ConnectorOn(View(), l, c) ==> HasConnector(View(), l)
        invariant forall l: nat :: HasConnector(View(), l) ==> HasConnector(before, l) || ConnectorOn(before, l, c)
      {
        ghost var u := View();
        if k in crtcs[c].value.connectors {
          r := AddConnectorOn(k, c);
          if r.Failed? { return; }
          GrownTransitive(before, u, View());
        }
        GrownOn(u, View(), k, k + 1, c);
      }
      GrownTransitive(old(View()), before, View());
      return Ok;
    }

    /** Brings every plane currently on CRTC c into the update. */
    method AddAffectedPlanes(c: nat) returns (r: Status)
      requires Assembled(View()) && Linked(dev.Current()) && HasCrtc(View(), c)
      modifies this
      ensures Shaped(View()) && (dev.reliable ==> r.Ok?)
      ensures r.Ok? ==> Assembled(View()) && Grown(old(View()), View()) && connectors == old(connectors)
      ensures r.Ok? ==> forall d: nat :: HasCrtc(View(), d) ==> HasCrtc(old(View()), d)
      ensures r.Ok? ==> forall p: nat :: HasPlane(View(), p) <==> HasPlane(old(View()), p) || PlaneAt(dev.Current(), p, c)
    {
      for p := 0 to |planes|
        invariant Assembled(View()) && Grown(old(View()), View())
        invariant |planes| == |old(planes)| && connectors == old(connectors)
        invariant forall d: nat :: HasCrtc(View(), d) ==> HasCrtc(old(View()), d)
        invariant forall q: nat :: HasPlane(View(), q) <==> HasPlane(old(View()), q) || (q < p && PlaneAt(dev.Current(), q, c))
      {
        if p in dev.crtcs[c].planes {
          ghost var u := View();
          AddPlaneKeeps(u, p);
          AddPlaneGrows(u, p);
          assert PlaneAt(dev.Current(), p, c);
          r := GetPlaneState(p);
          if r.Failed? { return; }
          GrownTransitive(old(View()), u, View());
        }
      }
      return Ok;
    }

    /** Installs every new state of the update; the current ones stay reachable as the old states. */
    method SwapState()
      requires Shaped(View())
      modifies this, dev
      ensures Committed() == old(View())
      ensures dev.Current() == Installed(old(View()))
    {
      ghost var u := View();
      before := Config(dev.best, dev.fits, dev.crtcs, dev.planes, dev.connectors);
      for k := 0 to |connectors|
        invariant crtcs == u.crtcs && planes == u.planes && connectors == u.connectors && before == u.cfg
        invariant dev.crtcs == u.cfg.crtcs && dev.planes == u.cfg.planes && |dev.connectors| == |connectors|
        invariant forall l: nat :: l < |connectors| ==> dev.connectors[l] == if l < k then Connector(u, l) else u.cfg.connectors[l]
      {
        if connectors[k].Some? { dev.connectors := dev.connectors[k := connectors[k].value]; }
      }
      for c := 0 to |crtcs|
        invariant crtcs == u.crtcs && planes == u.planes && connectors == u.connectors && before == u.cfg
        invariant dev.connectors == Installed(u).connectors && dev.planes == u.cfg.planes && |dev.crtcs| == |crtcs|
        invariant forall d: nat :: d < |crtcs| ==> dev.crtcs[d] == if d < c then Crtc(u, d) else u.cfg.crtcs[d]
      {
        if crtcs[c].Some? { dev.crtcs := dev.crtcs[c := crtcs[c].value]; }
      }
      for p := 0 to |planes|
        invariant crtcs == u.crtcs && planes == u.planes && connectors == u.connectors && before == u.cfg
        invariant dev.connectors == Installed(u).connectors && dev.crtcs == Installed(u).crtcs && |dev.planes| == |planes|
        invariant forall q: nat :: q < |planes| ==> dev.planes[q] == if q < p then Plane(u, q) else u.cfg.planes[q]
      {
        if planes[p].Some? { dev.planes := dev.planes[p := planes[p].value]; }
      }
    }
  }
}
