/**
 Encoder routing during the modeset check: choosing an encoder for each connector of an update, taking it
 away from a connector that still holds it, and keeping the encoder masks of the CRTCs in step.
 */
module EncoderRouting {
  import opened Outcomes
  import opened Modeset
  import opened Assembly

  function MarkConnectors(u: Update, c: nat): Update
    requires Shaped(u) && HasCrtc(u, c)
  {
    EditCrtc(u, c, Crtc(u, c).(connectorsChanged := true))
  }

  /** Drop encoder e from the mask of CRTC c. */
  function Unmask(u: Update, c: nat, e: nat): Update
    requires Shaped(u) && HasCrtc(u, c)
  {
    EditCrtc(u, c, Crtc(u, c).(encoders := Crtc(u, c).encoders - {e}))
  }

  function Mask(u: Update, c: nat, e: nat): Update
    requires Shaped(u) && HasCrtc(u, c)
  {
    EditCrtc(u, c, Crtc(u, c).(encoders := Crtc(u, c).encoders + {e}))
  }

  /** States of the update differ from `u` only in encoders, encoder masks and `connectors_changed`. */
  ghost predicate Rerouted(u: Update, v: Update) {
    && Shaped(u) && Shaped(v) && u.cfg == v.cfg && u.planes == v.planes
    && |u.crtcs| == |v.crtcs| && |u.connectors| == |v.connectors|
    && (forall c: nat :: HasCrtc(u, c) <==> HasCrtc(v, c))
    && (forall c: nat :: HasCrtc(u, c) ==>
          Crtc(v, c) == Crtc(u, c).(encoders := Crtc(v, c).encoders, connectorsChanged := Crtc(v, c).connectorsChanged)
          && (Crtc(u, c).connectorsChanged ==> Crtc(v, c).connectorsChanged))
    && (forall k: nat :: HasConnector(u, k) <==> HasConnector(v, k))
    && (forall k: nat :: HasConnector(u, k) ==> Connector(v, k) == Connector(u, k).(encoder := Connector(v, k).encoder))
  }

  /** Connector k and the CRTCs it is on and moving to are in the update, so their states can be edited. */
  predicate AtHand(u: Update, k: nat) {
    && Shaped(u) && HasConnector(u, k)
    && (u.cfg.connectors[k].crtc.Some? ==> HasCrtc(u, u.cfg.connectors[k].crtc.value))
    && (Connector(u, k).crtc.Some? ==> HasCrtc(u, Connector(u, k).crtc.value))
  }

  /** A closed update has every CRTC at hand that routing dereferences. */
  lemma ClosedAtHand(u: Update, k: nat)
    requires Assembled(u) && HasConnector(u, k)
    ensures AtHand(u, k)
  {
    var s, o := Connector(u, k), u.cfg.connectors[k].crtc;
    assert o.Some? ==> ConnectorAt(u.cfg, k, o.value);
    assert s.crtc.Some? ==> ConnectorOn(u, k, s.crtc.value);
  }

  /**
   Give connector k the encoder `e`, or none. The encoder it held leaves the mask of the CRTC it is currently
   on, and the new one enters the mask of the CRTC it is moving to.
   */
  function SetBestEncoder(u: Update, k: nat, e: Option<nat>): (v: Update)
    requires AtHand(u, k)
    ensures Shaped(v)
  {
    var s, o := Connector(u, k), u.cfg.connectors[k].crtc;
    var v := if s.encoder.Some? && o.Some? then Unmask(u, o.value, s.encoder.value) else u;
    var w := if e.Some? && s.crtc.Some? then Mask(v, s.crtc.value, e.value) else v;
    EditConnector(w, k, s.(encoder := e))
  }

  /** The encoder the driver picks for a connector of the update that is on a CRTC. */
  function Target(u: Update, k: nat): Option<nat>
    requires Shaped(u)
  {
    if HasConnector(u, k) && Connector(u, k).crtc.Some? then u.cfg.best(k, Connector(u, k).crtc.value) else None
  }

  /** No two connectors want the same encoder. */
  ghost predicate DistinctTargets(u: Update)
    requires Shaped(u)
  {
    forall k: nat, l: nat :: k != l && Target(u, k).Some? ==> Target(u, k) != Target(u, l)
  }

  /** Targets are distinct, and none is held by a connector outside the update. */
  ghost predicate NoConflict(u: Update)
    requires Shaped(u)
  {
    && DistinctTargets(u)
    && (forall k: nat, l: nat :: Target(u, k).Some? && l < |u.connectors| && !HasConnector(u, l) ==>
          u.cfg.connectors[l].encoder != Target(u, k))
  }

  predicate Holds(u: Update, k: nat, e: nat)
    requires Shaped(u)
  {
    k < |u.connectors| && Connector(u, k).encoder == Some(e)
  }

  /** No encoder serves two connectors, whether or not they are in the update. */
  ghost predicate Sole(u: Update)
    requires Shaped(u)
  {
    forall k: nat, l: nat, e: nat :: Holds(u, k, e) && Holds(u, l, e) ==> k == l
  }

  /**
   The CRTC whose mask holds the encoder of connector k once the first i connectors have been routed: the CRTC
   it is moving to if it has been routed, else the one it is currently on. A connector that is currently off
   has nothing to move away from.
   */
  function Home(u: Update, i: nat, k: nat): Option<nat>
    requires Shaped(u) && k < |u.connectors|
  {
    if HasConnector(u, k) && (k < i || u.cfg.connectors[k].crtc == None) then Connector(u, k).crtc
    else u.cfg.connectors[k].crtc
  }

  ghost predicate Carries(u: Update, i: nat, k: nat, c: nat, e: nat)
    requires Shaped(u)
  {
    Holds(u, k, e) && Home(u, i, k) == Some(c)
  }

  ghost predicate EncoderMasks(u: Update, i: nat)
    requires Shaped(u)
  {
    forall c: nat, e: nat :: HasCrtc(u, c) ==>
      (e in Crtc(u, c).encoders <==> exists k: nat :: Carries(u, i, k, c, e))
  }

  /** Connector k is off now and its new state already names the encoder the driver picks, as after a restore. */
  predicate Restored(u: Update, k: nat)
    requires Shaped(u) && k < |u.connectors|
  {
    u.cfg.connectors[k].crtc == None && Target(u, k).Some? && Connector(u, k).encoder == Target(u, k)
  }

  /** What holds of connector k when the first i connectors have been routed. */
  ghost predicate Progress(u: Update, i: nat, k: nat)
    requires Shaped(u) && k < |u.connectors|
  {
    if k < i then RoutedConnector(u.cfg, Connector(u, k), k)
    else Connector(u, k).encoder == u.cfg.connectors[k].encoder || Connector(u, k).encoder == None || Restored(u, k)
  }

  /** A CRTC whose `connectors_changed` is still clear has lost no connector and no encoder, and gained none. */
  ghost predicate Steady(u: Update, i: nat)
    requires Shaped(u)
  {
    && (forall c: nat, k: nat :: HasCrtc(u, c) && !Crtc(u, c).connectorsChanged && ConnectorAt(u.cfg, k, c) && k < |u.connectors| ==>
          Connector(u, k).encoder == u.cfg.connectors[k].encoder && (k < i ==> ConnectorOn(u, k, c)))
    && (forall c: nat, k: nat :: HasCrtc(u, c) && !Crtc(u, c).connectorsChanged && k < i && ConnectorOn(u, k, c) ==>
          ConnectorAt(u.cfg, k, c))
  }

  ghost predicate Routing(u: Update, i: nat) {
    && Assembled(u) && Routed(u.cfg) && i <= |u.connectors|
    && Sole(u) && NoConflict(u)
    && EncoderMasks(u, i)
    && (forall k: nat :: HasConnector(u, k) ==> Progress(u, i, k))
    && Steady(u, i)
  }

  lemma ReroutedKeeps(u: Update, v: Update)
    requires Rerouted(u, v) && Assembled(u)
    ensures Assembled(v)
    ensures forall k: nat :: Target(v, k) == Target(u, k)
    ensures NoConflict(u) ==> NoConflict(v)
  {
    forall p: nat, d: nat ensures PlaneOn(v, p, d) <==> PlaneOn(u, p, d) {}
    forall k: nat, d: nat ensures ConnectorOn(v, k, d) <==> ConnectorOn(u, k, d) {}
    forall k: nat ensures Target(v, k) == Target(u, k) {
      if HasConnector(u, k) { assert HasConnector(v, k); }
    }
  }

  /** The encoder mask of CRTC c after `SetBestEncoder(u, k, e)`. */
  function EncodersAfter(u: Update, k: nat, e: Option<nat>, c: nat): set<nat>
    requires Shaped(u) && HasConnector(u, k) && c < |u.crtcs|
  {
    var s := Connector(u, k);
    (if s.encoder.Some? && u.cfg.connectors[k].crtc == Some(c) then Crtc(u, c).encoders - {s.encoder.value} else Crtc(u, c).encoders)
    + (if e.Some? && s.crtc == Some(c) then {e.value} else {})
  }

  lemma SetBestEncoderAt(u: Update, k: nat, e: Option<nat>, c: nat)
    requires AtHand(u, k)
    ensures var v := SetBestEncoder(u, k, e);
      && v.cfg == u.cfg && v.planes == u.planes && |v.crtcs| == |u.crtcs|
      && v.connectors == u.connectors[k := Some(Connector(u, k).(encoder := e))]
      && (c < |u.crtcs| ==> (HasCrtc(v, c) <==> HasCrtc(u, c)))
      && (HasCrtc(u, c) ==> Crtc(v, c) == Crtc(u, c).(encoders := EncodersAfter(u, k, e, c)))
  {
  }

  lemma SetBestEncoderReroutes(u: Update, k: nat, e: Option<nat>)
    requires AtHand(u, k)
    ensures Rerouted(u, SetBestEncoder(u, k, e))
    ensures forall l: nat :: HasConnector(u, l) ==>
      Connector(SetBestEncoder(u, k, e), l).encoder == if l == k then e else Connector(u, l).encoder
  {
    var v := SetBestEncoder(u, k, e);
    forall c: nat | c < |u.crtcs|
      ensures HasCrtc(v, c) <==> HasCrtc(u, c)
      ensures HasCrtc(u, c) ==> Crtc(v, c) == Crtc(u, c).(encoders := EncodersAfter(u, k, e, c))
    {
      SetBestEncoderAt(u, k, e, c);
    }
    SetBestEncoderAt(u, k, e, 0);
  }

  lemma MarkConnectorsRouting(u: Update, i: nat, c: nat)
    requires Routing(u, i) && HasCrtc(u, c)
    ensures Rerouted(u, MarkConnectors(u, c))
    ensures Routing(MarkConnectors(u, c), i)
  {
    var v := MarkConnectors(u, c);
    ReroutedKeeps(u, v);
    forall l: nat, e: nat ensures Holds(v, l, e) <==> Holds(u, l, e) {}
    forall l: nat, d: nat, e: nat ensures Carries(v, i, l, d, e) <==> Carries(u, i, l, d, e) {}
    forall k: nat | HasConnector(v, k) ensures Progress(v, i, k) { assert Progress(u, i, k); }
    forall k: nat, d: nat ensures ConnectorOn(v, k, d) <==> ConnectorOn(u, k, d) {}
  }

  /** Taking an encoder away from a connector that has not been routed yet. */
  lemma UnsetRouting(u: Update, i: nat, k: nat)
    requires Routing(u, i) && HasConnector(u, k) && i <= k
    requires Connector(u, k).encoder.Some? && u.cfg.connectors[k].crtc.Some?
    requires HasCrtc(u, u.cfg.connectors[k].crtc.value) && Crtc(u, u.cfg.connectors[k].crtc.value).connectorsChanged
    ensures AtHand(u, k) && Routing(SetBestEncoder(u, k, None), i)
  {
    ClosedAtHand(u, k);
    var v, e, c := SetBestEncoder(u, k, None), Connector(u, k).encoder.value, u.cfg.connectors[k].crtc.value;
    SetBestEncoderReroutes(u, k, None);
    ReroutedKeeps(u, v);
    forall l: nat, f: nat ensures Holds(v, l, f) <==> Holds(u, l, f) && l != k {}
    forall l: nat, d: nat, f: nat ensures Carries(v, i, l, d, f) <==> Carries(u, i, l, d, f) && l != k {}
    assert Carries(u, i, k, c, e);
    forall l: nat | HasConnector(v, l) ensures Progress(v, i, l) { assert Progress(u, i, l); }
    forall l: nat, d: nat ensures ConnectorOn(v, l, d) <==> ConnectorOn(u, l, d) {}
  }

  /** Routing connector i to the encoder the driver picks for it, or to none when it is off. */
  lemma SetRouting(u: Update, i: nat)
    requires Routing(u, i) && HasConnector(u, i)
    requires var s := Connector(u, i);
      && (s.crtc.Some? ==> Target(u, i).Some? && u.cfg.fits(Target(u, i).value, s.crtc.value))
      && (forall l: nat :: Target(u, i).Some? && Holds(u, l, Target(u, i).value) ==> l == i)
    requires ChangesMarked(u, i)
    ensures AtHand(u, i) && Routing(SetBestEncoder(u, i, Target(u, i)), i + 1)
  {
    ClosedAtHand(u, i);
    var v := SetBestEncoder(u, i, Target(u, i));
    SetBestEncoderReroutes(u, i, Target(u, i));
    ReroutedKeeps(u, v);
    assert Progress(u, i, i);
    forall l: nat, f: nat ensures Holds(v, l, f) <==> if l == i then Target(u, i) == Some(f) else Holds(u, l, f) {}
    SetMasks(u, i, i + 1);
    forall l: nat | HasConnector(v, l) ensures Progress(v, i + 1, l) { assert Progress(u, i, l); }
    forall l: nat, d: nat ensures ConnectorOn(v, l, d) <==> ConnectorOn(u, l, d) {}
  }

  /** If routing connector i changes its CRTC or its encoder, both CRTCs concerned are marked. */
  ghost predicate ChangesMarked(u: Update, i: nat)
    requires Shaped(u) && HasConnector(u, i)
  {
    var s, o := Connector(u, i), u.cfg.connectors[i];
    s.crtc != o.crtc || Target(u, i) != o.encoder ==>
      && (forall c: nat :: ConnectorAt(u.cfg, i, c) ==> HasCrtc(u, c) && Crtc(u, c).connectorsChanged)
      && (forall c: nat :: ConnectorOn(u, i, c) ==> HasCrtc(u, c) && Crtc(u, c).connectorsChanged)
  }

  lemma SetMasks(u: Update, i: nat, j: nat)
    requires Routing(u, i) && AtHand(u, i) && Progress(u, i, i) && j == i + 1
    requires Connector(u, i).crtc.Some? ==> Target(u, i).Some?
    ensures EncoderMasks(SetBestEncoder(u, i, Target(u, i)), j)
  {
    var v := SetBestEncoder(u, i, Target(u, i));
    SetBestEncoderReroutes(u, i, Target(u, i));
    forall l: nat, d: nat, f: nat
      ensures Carries(v, j, l, d, f) <==>
        if l == i then Target(u, i) == Some(f) && Connector(u, i).crtc == Some(d) else Carries(u, i, l, d, f)
    {}
    forall c: nat, e: nat | HasCrtc(v, c)
      ensures e in Crtc(v, c).encoders <==> exists k: nat :: Carries(v, j, k, c, e)
    {
      SetBestEncoderAt(u, i, Target(u, i), c);
      if Target(u, i) == Some(e) && Connector(u, i).crtc == Some(c) {
        assert Carries(v, j, i, c, e);
      } else {
        if e in Crtc(v, c).encoders {
          var k: nat :| Carries(u, i, k, c, e);
          assert k != i;
          assert Carries(v, j, k, c, e);
        }
        if k: nat :| Carries(v, j, k, c, e) {
          assert Carries(u, i, k, c, e);
          assert Holds(u, k, e) && !Holds(u, i, e);
        }
      }
    }
  }

  /** Taking encoder `e` for connector i away from connector k, which still holds it. */
  lemma StealRouting(u: Update, i: nat, k: nat, e: nat)
    requires Routing(u, i) && HasConnector(u, i) && Target(u, i) == Some(e)
    requires HasConnector(u, k) && k != i && Holds(u, k, e)
    ensures i < k && AtHand(u, k) && u.cfg.connectors[k].crtc.Some?
    ensures var v := MarkConnectors(SetBestEncoder(u, k, None), u.cfg.connectors[k].crtc.value);
      Rerouted(u, v) && Routing(v, i) && Connector(v, i) == Connector(u, i) && (forall l: nat :: !Holds(v, l, e))
  {
    ClosedAtHand(u, k);
    assert Progress(u, i, k);
    assert Target(u, k) != Some(e);
    assert i < k && RoutedConnector(u.cfg, u.cfg.connectors[k], k);
    var c := u.cfg.connectors[k].crtc.value;
    var w := MarkConnectors(u, c);
    MarkConnectorsRouting(u, i, c);
    UnsetRouting(w, i, k);
    SetBestEncoderReroutes(w, k, None);
    MarkSetCommute(u, k, None, c);
    var v := SetBestEncoder(w, k, None);
    forall l: nat ensures !Holds(v, l, e) {
      if l < |u.connectors| && l != k { assert Connector(v, l).encoder == Connector(u, l).encoder; assert !Holds(u, l, e); }
    }
  }

  lemma ReroutedTransitive(u: Update, v: Update, w: Update)
    requires Rerouted(u, v) && Rerouted(v, w)
    ensures Rerouted(u, w)
  {
  }

  /** Marking the CRTC of connector i and giving the connector its encoder can be done in either order. */
  lemma MarkSetCommute(u: Update, i: nat, e: Option<nat>, c: nat)
    requires AtHand(u, i) && HasCrtc(u, c)
    ensures AtHand(MarkConnectors(u, c), i) && HasCrtc(SetBestEncoder(u, i, e), c)
    ensures MarkConnectors(SetBestEncoder(u, i, e), c) == SetBestEncoder(MarkConnectors(u, c), i, e)
  {
    SetBestEncoderAt(u, i, e, c);
    var v, w := MarkConnectors(SetBestEncoder(u, i, e), c), SetBestEncoder(MarkConnectors(u, c), i, e);
    assert |v.crtcs| == |w.crtcs|;
    forall d: nat | d < |u.crtcs| ensures v.crtcs[d] == w.crtcs[d] { MarkSetAt(u, i, e, c, d); }
  }

  lemma MarkSetAt(u: Update, i: nat, e: Option<nat>, c: nat, d: nat)
    requires AtHand(u, i) && HasCrtc(u, c) && d < |u.crtcs| && AtHand(MarkConnectors(u, c), i) && HasCrtc(SetBestEncoder(u, i, e), c)
    ensures MarkConnectors(SetBestEncoder(u, i, e), c).crtcs[d] == SetBestEncoder(MarkConnectors(u, c), i, e).crtcs[d]
  {
    SetBestEncoderAt(u, i, e, d);
    SetBestEncoderAt(MarkConnectors(u, c), i, e, d);
  }

  /** Routing connector i to an encoder it does not hold and that nobody else holds, then marking its CRTC. */
  lemma SetMarkRouting(u: Update, i: nat)
    requires Routing(u, i) && HasConnector(u, i) && Connector(u, i).crtc.Some?
    requires Target(u, i).Some? && u.cfg.fits(Target(u, i).value, Connector(u, i).crtc.value)
    requires forall l: nat :: !Holds(u, l, Target(u, i).value)
    requires Connector(u, i).crtc != u.cfg.connectors[i].crtc ==>
      forall c: nat :: ConnectorAt(u.cfg, i, c) ==> HasCrtc(u, c) && Crtc(u, c).connectorsChanged
    ensures AtHand(u, i)
    ensures var v := MarkConnectors(SetBestEncoder(u, i, Target(u, i)), Connector(u, i).crtc.value);
      Rerouted(u, v) && Routing(v, i + 1)
  {
    ClosedAtHand(u, i);
    var c := Connector(u, i).crtc.value;
    var w := MarkConnectors(u, c);
    MarkConnectorsRouting(u, i, c);
    forall l: nat ensures !Holds(w, l, Target(u, i).value) { assert !Holds(u, l, Target(u, i).value); }
    SetRouting(w, i);
    MarkSetCommute(u, i, Target(u, i), c);
    SetBestEncoderReroutes(w, i, Target(u, i));
    ReroutedTransitive(u, w, SetBestEncoder(w, i, Target(u, i)));
  }

  // ----- entering and leaving the routing loop -----

  /** Encoders before routing: those of the current configuration, or restored ones. */
  ghost predicate Pending(u: Update)
    requires Shaped(u)
  {
    && Sole(u) && EncoderMasks(u, 0)
    && (forall k: nat :: HasConnector(u, k) ==>
          Connector(u, k).encoder == u.cfg.connectors[k].encoder || Restored(u, k))
  }

  /** An update whose encoders are untouched is pending. */
  lemma OpenPending(u: Update)
    requires Open(u) && Consistent(u.cfg)
    ensures Pending(u)
  {
    var cfg := u.cfg;
    forall k: nat | k < |u.connectors| ensures Connector(u, k).encoder == cfg.connectors[k].encoder {
      if HasConnector(u, k) {}
    }
    forall k: nat, c: nat, e: nat
      ensures Carries(u, 0, k, c, e) <==> ConnectorAt(cfg, k, c) && cfg.connectors[k].encoder == Some(e)
    {
      if k < |cfg.connectors| { assert RoutedConnector(cfg, cfg.connectors[k], k); }
    }
    forall c: nat, e: nat | HasCrtc(u, c)
      ensures e in Crtc(u, c).encoders <==> exists k: nat :: Carries(u, 0, k, c, e)
    {
      if ServedOn(cfg, c, e) {
        var k: nat :| k < |cfg.connectors| && cfg.connectors[k].crtc == Some(c) && cfg.connectors[k].encoder == Some(e);
        assert Carries(u, 0, k, c, e);
      }
      if k: nat :| Carries(u, 0, k, c, e) {
        assert ConnectorAt(cfg, k, c) && cfg.connectors[k].encoder == Some(e);
        assert ServedOn(cfg, c, e);
      }
    }
  }

  lemma PendingRouting(u: Update)
    requires Assembled(u) && Routed(u.cfg) && Pending(u) && NoConflict(u)
    ensures Routing(u, 0)
  {
    forall k: nat | HasConnector(u, k) ensures Progress(u, 0, k) {}
    forall c: nat, k: nat | ConnectorAt(u.cfg, k, c) && k < |u.connectors|
      ensures Connector(u, k).encoder == u.cfg.connectors[k].encoder
    {
      if HasConnector(u, k) { assert !Restored(u, k); }
    }
  }

  // ----- which CRTCs routing marks -----

  predicate LinkChanges(u: Update, k: nat)
    requires Shaped(u) && HasConnector(u, k)
  {
    Connector(u, k).link != u.cfg.connectors[k].link
  }

  /** Connector k joins or leaves CRTC c, gets another encoder there, or has its link trained anew. */
  ghost predicate Disturbs(u: Update, k: nat, c: nat)
    requires Shaped(u)
  {
    && HasConnector(u, k)
    && var s, o := Connector(u, k), u.cfg.connectors[k];
       (((ConnectorAt(u.cfg, k, c) || ConnectorOn(u, k, c)) && (s.crtc != o.crtc || Target(u, k) != s.encoder))
        || (ConnectorAt(u.cfg, k, c) && LinkChanges(u, k)))
  }

  ghost predicate Disturbed(u: Update, c: nat)
    requires Shaped(u)
  {
    exists k: nat :: Disturbs(u, k, c)
  }

  /** Every CRTC marked on the way from f to v is one that a connector disturbs. */
  ghost predicate Caused(f: Update, v: Update)
    requires Shaped(f) && Shaped(v)
  {
    forall c: nat :: HasCrtc(f, c) && HasCrtc(v, c) && Crtc(v, c).connectorsChanged && !Crtc(f, c).connectorsChanged ==> Disturbed(f, c)
  }

  /** Connectors from i on still have the encoders they had in f, or have lost ones they would not keep. */
  ghost predicate Untaken(f: Update, v: Update, i: nat)
    requires Shaped(f) && Shaped(v)
  {
    forall k: nat :: i <= k && HasConnector(f, k) && HasConnector(v, k) ==>
      Connector(v, k).encoder == Connector(f, k).encoder || (Connector(v, k).encoder == None && Target(f, k) != Connector(f, k).encoder)
  }

  /** The CRTCs of connectors before j whose link changes are marked. */
  ghost predicate LinksMarked(f: Update, v: Update, j: nat)
    requires Shaped(f) && Shaped(v)
  {
    forall k: nat, c: nat :: k < j && HasConnector(f, k) && ConnectorAt(f.cfg, k, c) && LinkChanges(f, k) && HasCrtc(v, c) ==>
      Crtc(v, c).connectorsChanged
  }

  /** Routing has come from f to v; connectors before i are routed, and links before j looked at. */
  ghost predicate Traced(f: Update, v: Update, i: nat, j: nat) {
    Rerouted(f, v) && Caused(f, v) && Untaken(f, v, i) && LinksMarked(f, v, j)
  }

  lemma TracedTargets(f: Update, v: Update, i: nat, j: nat)
    requires Traced(f, v, i, j)
    ensures forall k: nat :: Target(v, k) == Target(f, k)
    ensures forall k: nat, c: nat :: ConnectorOn(v, k, c) <==> ConnectorOn(f, k, c)
  {
    forall k: nat ensures Target(v, k) == Target(f, k) { if HasConnector(f, k) { assert HasConnector(v, k); } }
  }

  lemma MarkTraced(f: Update, v: Update, i: nat, j: nat, c: nat)
    requires Traced(f, v, i, j) && HasCrtc(v, c) && Disturbed(f, c)
    ensures Traced(f, MarkConnectors(v, c), i, j)
  {
    var w := MarkConnectors(v, c);
    forall d: nat | HasCrtc(w, d) && d != c ensures HasCrtc(v, d) && Crtc(w, d) == Crtc(v, d) {}
  }

  /** Looking at the link of connector j, whose CRTC is marked if the link changes. */
  lemma LinkTraced(f: Update, v: Update, i: nat, j: nat, next: nat)
    requires Traced(f, v, i, j) && next == j + 1
    requires HasConnector(f, j) && LinkChanges(f, j) ==>
      forall c: nat :: ConnectorAt(f.cfg, j, c) && HasCrtc(v, c) ==> Crtc(v, c).connectorsChanged
    ensures Traced(f, v, i, next)
  {
  }

  /** Connector i is given an encoder, or one after it loses an encoder it would not keep. */
  lemma SetTraced(f: Update, v: Update, i: nat, j: nat, k: nat, e: Option<nat>, next: nat)
    requires Traced(f, v, i, j) && AtHand(v, k) && (if k == i then next == i + 1 else next == i)
    requires k != i ==> e == None && HasConnector(f, k) && Target(f, k) != Connector(f, k).encoder
    ensures Traced(f, SetBestEncoder(v, k, e), next, j)
  {
    var w := SetBestEncoder(v, k, e);
    SetBestEncoderReroutes(v, k, e);
    ReroutedTransitive(f, v, w);
    forall c: nat | HasCrtc(v, c) ensures HasCrtc(w, c) && Crtc(w, c).connectorsChanged == Crtc(v, c).connectorsChanged {
      SetBestEncoderAt(v, k, e, c);
    }
  }

  /** What connector i does to the CRTCs it is on, before or after, if it does not simply keep its encoder. */
  lemma OwnDisturbs(f: Update, v: Update, i: nat, j: nat, c: nat)
    requires Traced(f, v, i, j) && HasConnector(f, i) && (ConnectorAt(f.cfg, i, c) || ConnectorOn(f, i, c))
    requires Connector(f, i).crtc != f.cfg.connectors[i].crtc || Connector(v, i).encoder != Target(f, i)
    ensures Disturbed(f, c)
  {
    assert HasConnector(v, i);
    assert Disturbs(f, i, c);
  }

  /** The connector an encoder is stolen from would not have kept it, so its CRTC is disturbed. */
  lemma VictimDisturbs(f: Update, v: Update, i: nat, j: nat, k: nat, e: nat, c: nat)
    requires Traced(f, v, i, j) && DistinctTargets(f) && Target(f, i) == Some(e)
    requires i < k && HasConnector(f, k) && Holds(v, k, e) && ConnectorAt(f.cfg, k, c)
    ensures Target(f, k) != Connector(f, k).encoder && Disturbed(f, c)
  {
    assert HasConnector(v, k);
    assert Target(f, k) != Target(f, i);
    assert Disturbs(f, k, c);
  }
}
