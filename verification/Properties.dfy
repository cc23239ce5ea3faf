/** What property requests ask for, said of configurations before and after. */
module Properties {
  import opened Outcomes
  import opened Modeset

  datatype Request =
    | PlaneCrtc(plane: nat, crtc: Option<nat>)
    | PlaneFb(plane: nat, fb: Option<nat>)
    | ConnectorCrtc(connector: nat, crtc: Option<nat>)
    | LinkStatus(connector: nat, link: nat)
    | ModeBlob(crtcIndex: nat, blob: Option<Blob>)
    | Active(crtcIndex: nat, active: bool)

  /** The property has the value requested. */
  predicate Has(cfg: Config, req: Request) {
    match req
    case PlaneCrtc(p, crtc) => p < |cfg.planes| && cfg.planes[p].crtc == crtc
    case PlaneFb(p, fb) => p < |cfg.planes| && cfg.planes[p].fb == fb
    case ConnectorCrtc(k, crtc) => k < |cfg.connectors| && cfg.connectors[k].crtc == crtc
    case LinkStatus(k, link) => k < |cfg.connectors| && cfg.connectors[k].link == link
    case ModeBlob(c, blob) => c < |cfg.crtcs| && cfg.crtcs[c].blob == blob
    case Active(c, active) => c < |cfg.crtcs| && cfg.crtcs[c].active == active
  }

  /** It has, or it is a link that was good and stays so. */
  predicate Granted(cfg: Config, req: Request) {
    Has(cfg, req) || (req.LinkStatus? && Has(cfg, LinkStatus(req.connector, LINK_GOOD)))
  }

  /** Both requests are about the same property of the same object. */
  predicate SameProperty(a: Request, b: Request) {
    || (a.PlaneCrtc? && b.PlaneCrtc? && a.plane == b.plane)
    || (a.PlaneFb? && b.PlaneFb? && a.plane == b.plane)
    || (a.ConnectorCrtc? && b.ConnectorCrtc? && a.connector == b.connector)
    || (a.LinkStatus? && b.LinkStatus? && a.connector == b.connector)
    || (a.ModeBlob? && b.ModeBlob? && a.crtcIndex == b.crtcIndex)
    || (a.Active? && b.Active? && a.crtcIndex == b.crtcIndex)
  }

  /** One request has been carried out: its property has the value, a link already good aside, and no other has changed. */
  ghost predicate Obeys(was: Config, req: Request, now: Config) {
    && SameSizes(was, now) && Granted(now, req)
    && (req.LinkStatus? && !Has(was, LinkStatus(req.connector, LINK_GOOD)) ==> Has(now, req))
    && (req.LinkStatus? && Has(was, LinkStatus(req.connector, LINK_GOOD)) ==> Has(now, LinkStatus(req.connector, LINK_GOOD)))
    && forall other: Request :: !SameProperty(other, req) ==> (Has(now, other) <==> Has(was, other))
  }

  /** The same, property by property. */
  ghost predicate OneChange(was: Config, req: Request, now: Config) {
    && SameSizes(was, now)
    && (forall c: nat :: c < |was.crtcs| ==>
          && now.crtcs[c].blob == (if req.ModeBlob? && req.crtcIndex == c then req.blob else was.crtcs[c].blob)
          && now.crtcs[c].active == (if req.Active? && req.crtcIndex == c then req.active else was.crtcs[c].active))
    && (forall p: nat :: p < |was.planes| ==>
          && now.planes[p].crtc == (if req.PlaneCrtc? && req.plane == p then req.crtc else was.planes[p].crtc)
          && now.planes[p].fb == (if req.PlaneFb? && req.plane == p then req.fb else was.planes[p].fb))
    && (forall k: nat :: k < |was.connectors| ==>
          && now.connectors[k].crtc == (if req.ConnectorCrtc? && req.connector == k then req.crtc else was.connectors[k].crtc)
          && now.connectors[k].link ==
               (if req.LinkStatus? && req.connector == k && was.connectors[k].link != LINK_GOOD then req.link else was.connectors[k].link))
  }

  predicate Names(cfg: Config, req: Request) {
    match req
    case PlaneCrtc(p, _) => p < |cfg.planes|
    case PlaneFb(p, _) => p < |cfg.planes|
    case ConnectorCrtc(k, _) => k < |cfg.connectors|
    case LinkStatus(k, _) => k < |cfg.connectors|
    case ModeBlob(c, _) => c < |cfg.crtcs|
    case Active(c, _) => c < |cfg.crtcs|
  }

  lemma OneChangeObeys(was: Config, req: Request, now: Config)
    requires OneChange(was, req, now) && Names(was, req)
    ensures Obeys(was, req, now)
  {
    forall other: Request | !SameProperty(other, req) ensures Has(now, other) <==> Has(was, other) {}
  }

  /** No request from j on is about the property of `req`. */
  ghost predicate Silent(reqs: seq<Request>, j: nat, req: Request) {
    forall i: nat :: j <= i < |reqs| ==> !SameProperty(req, reqs[i])
  }

  /** What was asked for last holds, and what nobody asked for is as it was. */
  ghost predicate Performed(was: Config, reqs: seq<Request>, now: Config) {
    && SameSizes(was, now)
    && (forall i: nat, j: nat :: i < |reqs| && j == i + 1 && Silent(reqs, j, reqs[i]) ==> Granted(now, reqs[i]))
    && (forall req: Request :: Silent(reqs, 0, req) ==> (Has(now, req) <==> Has(was, req)))
  }

  /** Carrying out one more request. */
  lemma PerformedNext(was: Config, reqs: seq<Request>, mid: Config, req: Request, now: Config)
    requires Performed(was, reqs, mid) && Obeys(mid, req, now)
    ensures Performed(was, reqs + [req], now)
  {
    var all := reqs + [req];
    forall i: nat, j: nat | i < |all| && j == i + 1 && Silent(all, j, all[i]) ensures Granted(now, all[i]) {
      if i < |reqs| {
        assert all[i] == reqs[i] && !SameProperty(all[i], all[|reqs|]);
        forall k: nat | j <= k < |reqs| ensures !SameProperty(reqs[i], reqs[k]) { assert all[k] == reqs[k]; }
        assert Silent(reqs, j, reqs[i]);
        StaysGranted(mid, req, now, reqs[i]);
      }
    }
    forall other: Request | Silent(all, 0, other) ensures Has(now, other) <==> Has(was, other) {
      forall k: nat | k < |reqs| ensures !SameProperty(other, reqs[k]) { assert all[k] == reqs[k]; }
      assert !SameProperty(other, all[|reqs|]);
    }
  }

  lemma StaysGranted(mid: Config, req: Request, now: Config, other: Request)
    requires Obeys(mid, req, now) && Granted(mid, other) && !SameProperty(other, req)
    ensures Granted(now, other)
  {
    if other.LinkStatus? { assert !SameProperty(LinkStatus(other.connector, LINK_GOOD), req); }
  }

  /** Links, framebuffers, modes and activity are the same in both. */
  ghost predicate SameProperties(a: Config, b: Config) {
    && SameSizes(a, b)
    && (forall c: nat :: c < |a.crtcs| ==> b.crtcs[c].blob == a.crtcs[c].blob && b.crtcs[c].active == a.crtcs[c].active)
    && (forall p: nat :: p < |a.planes| ==> b.planes[p] == a.planes[p])
    && (forall k: nat :: k < |a.connectors| ==> b.connectors[k].crtc == a.connectors[k].crtc && b.connectors[k].link == a.connectors[k].link)
  }

  lemma PerformedSame(was: Config, reqs: seq<Request>, mid: Config, now: Config)
    requires Performed(was, reqs, mid) && SameProperties(mid, now)
    ensures Performed(was, reqs, now)
  {
    forall req: Request ensures Has(now, req) <==> Has(mid, req) {}
    forall req: Request ensures Granted(now, req) <==> Granted(mid, req) {}
  }

  /** A CRTC no request names keeps its blob, its activity and, as modes agree with blobs, its mode. */
  lemma UnaskedKept(was: Config, reqs: seq<Request>, now: Config, c: nat)
    requires Performed(was, reqs, now) && c < |was.crtcs|
    requires ModeAgrees(was.crtcs[c]) && ModeAgrees(now.crtcs[c])
    requires forall i: nat :: i < |reqs| ==> !(reqs[i].ModeBlob? && reqs[i].crtcIndex == c)
    ensures now.crtcs[c].blob == was.crtcs[c].blob && now.crtcs[c].mode == was.crtcs[c].mode && now.crtcs[c].enable == was.crtcs[c].enable
    ensures Silent(reqs, 0, Active(c, true)) ==> now.crtcs[c].active == was.crtcs[c].active
  {
    assert Silent(reqs, 0, ModeBlob(c, was.crtcs[c].blob));
    assert Has(was, ModeBlob(c, was.crtcs[c].blob));
    if Silent(reqs, 0, Active(c, true)) {
      assert Silent(reqs, 0, Active(c, was.crtcs[c].active));
      assert Has(was, Active(c, was.crtcs[c].active));
    }
  }
}
