/**
 The legacy set_config helper: it rewires connectors and encoders in place, tries the new mode and, when
 anything goes wrong, puts everything back.
 */
module LegacySetConfig {
  import opened Outcomes

  datatype Crtc = Crtc(enabled: bool, mode: nat, hwmode: nat, x: int, y: int, fb: Option<nat>)

  /** The CRTC each encoder feeds from and the encoder each connector is bound to. */
  datatype Routing = Routing(crtcOf: seq<Option<nat>>, encoderOf: seq<Option<nat>>)

  /** What userspace asks for. */
  datatype Request = Request(crtc: nat, mode: Option<nat>, x: int, y: int, fb: Option<nat>, connectors: seq<nat>)

  /** Connectors are bound to encoders of the device. */
  predicate Wired(r: Routing) {
    forall k: nat :: k < |r.encoderOf| && r.encoderOf[k].Some? ==> r.encoderOf[k].value < |r.crtcOf|
  }

  predicate Binds(r: Routing, k: nat, e: nat) {
    k < |r.encoderOf| && r.encoderOf[k] == Some(e)
  }

  predicate EncoderInUse(r: Routing, e: nat) {
    exists k: nat :: k < |r.encoderOf| && Binds(r, k, e)
  }

  predicate Feeds(r: Routing, e: nat, c: nat) {
    e < |r.crtcOf| && r.crtcOf[e] == Some(c)
  }

  predicate CrtcInUse(r: Routing, c: nat) {
    exists e: nat :: e < |r.crtcOf| && Feeds(r, e, c) && EncoderInUse(r, e)
  }

  /** Connector k shows what CRTC c scans out. */
  predicate Drives(r: Routing, c: nat, k: nat) {
    k < |r.encoderOf| && r.encoderOf[k].Some? && Feeds(r, r.encoderOf[k].value, c)
  }

  function Count(l: seq<nat>, k: nat): nat {
    if l == [] then 0 else (if l[0] == k then 1 else 0) + Count(l[1..], k)
  }

  lemma {:induction false} CountPrefix(l: seq<nat>, n: nat, k: nat)
    requires n < |l|
    ensures Count(l[..n + 1], k) == Count(l[..n], k) + (if l[n] == k then 1 else 0)
  {
    if n > 0 {
      assert l[..n + 1][1..] == l[1..][..n] && l[..n][1..] == l[1..][..n - 1];
      CountPrefix(l[1..], n - 1, k);
    }
  }

  // ----- the two passes over the connectors -----

  /** Bind connector k to encoder `choice`; an encoder it leaves loses its CRTC. */
  function Bind(r: Routing, k: nat, choice: Option<nat>): Routing
    requires Wired(r) && k < |r.encoderOf|
  {
    if choice == r.encoderOf[k] then r
    else
      Routing(
        if r.encoderOf[k].Some? then r.crtcOf[r.encoderOf[k].value := None] else r.crtcOf,
        r.encoderOf[k := choice])
  }

  /** The CRTC the encoder of connector k is meant to feed from. */
  function Target(r: Routing, req: Request, k: nat): Option<nat>
    requires Wired(r) && k < |r.encoderOf| && r.encoderOf[k].Some?
  {
    if k in req.connectors then Some(req.crtc)
    else if r.crtcOf[r.encoderOf[k].value] == Some(req.crtc) then None
    else r.crtcOf[r.encoderOf[k].value]
  }

  /** A connector of the request before k gives encoder e up. */
  predicate Left(was: Routing, req: Request, best: nat -> Option<nat>, k: nat, e: nat) {
    k > 0 && (Left(was, req, best, k - 1, e) || (k - 1 in req.connectors && Binds(was, k - 1, e) && best(k - 1) != Some(e)))
  }

  lemma {:induction false} LeftIs(was: Routing, req: Request, best: nat -> Option<nat>, k: nat, e: nat)
    ensures Left(was, req, best, k, e) <==> exists j: nat :: j < k && j in req.connectors && Binds(was, j, e) && best(j) != Some(e)
  {
    if k > 0 { LeftIs(was, req, best, k - 1, e); }
  }

  /** The connectors before k are bound as the request wants, the others as they were; encoders given up lose their CRTC. */
  ghost predicate Bound(was: Routing, r: Routing, req: Request, best: nat -> Option<nat>, k: nat) {
    && Wired(r) && |r.crtcOf| == |was.crtcOf| && |r.encoderOf| == |was.encoderOf|
    && (forall j: nat :: j < |r.encoderOf| ==> r.encoderOf[j] == if j < k && j in req.connectors then best(j) else was.encoderOf[j])
    && (forall e: nat :: e < |r.crtcOf| ==> r.crtcOf[e] == if Left(was, req, best, k, e) then None else was.crtcOf[e])
  }

  lemma BoundNext(was: Routing, r: Routing, req: Request, best: nat -> Option<nat>, k: nat, choice: Option<nat>)
    requires Bound(was, r, req, best, k) && k < |r.encoderOf| && choice == if k in req.connectors then best(k) else r.encoderOf[k]
    requires choice.Some? ==> choice.value < |r.crtcOf|
    ensures Bound(was, Bind(r, k, choice), req, best, k + 1)
  {
  }

  // ----- where the second pass puts an encoder -----

  /** The last connector before k that is bound to encoder e. */
  function LastBound(r: Routing, k: nat, e: nat): Option<nat> {
    if k == 0 then None else if Binds(r, k - 1, e) then Some(k - 1) else LastBound(r, k - 1, e)
  }

  lemma {:induction false} LastBoundIs(r: Routing, k: nat, e: nat)
    ensures match LastBound(r, k, e)
      case Some(j) => j < k && Binds(r, j, e) && forall i: nat :: j < i < k ==> !Binds(r, i, e)
      case None => forall i: nat :: i < k ==> !Binds(r, i, e)
  {
    if k > 0 { LastBoundIs(r, k - 1, e); }
  }

  /** A connector of the request before k is bound to encoder e. */
  predicate Claimed(r: Routing, req: Request, k: nat, e: nat) {
    k > 0 && (Claimed(r, req, k - 1, e) || (k - 1 in req.connectors && Binds(r, k - 1, e)))
  }

  lemma {:induction false} ClaimedIs(r: Routing, req: Request, k: nat, e: nat)
    ensures Claimed(r, req, k, e) <==> exists j: nat :: j < k && j in req.connectors && Binds(r, j, e)
  {
    if k > 0 { ClaimedIs(r, req, k - 1, e); }
  }

  /**
   The CRTC of each encoder once the connectors before k are done. One claimed is on the request's CRTC if the last
   connector bound to it is named, and on none otherwise; any other leaves that CRTC and is else where it was.
   */
  predicate Placed(was: Routing, r: Routing, req: Request, k: nat) {
    && r.encoderOf == was.encoderOf && |r.crtcOf| == |was.crtcOf|
    && forall e: nat :: e < |r.crtcOf| ==> r.crtcOf[e] == PlaceOf(was, req, k, e)
  }

  function PlaceOf(was: Routing, req: Request, k: nat, e: nat): Option<nat>
    requires e < |was.crtcOf|
  {
    var last := LastBound(was, k, e);
    if last == None then was.crtcOf[e]
    else if last.value in req.connectors then Some(req.crtc)
    else if Claimed(was, req, k, e) || was.crtcOf[e] == Some(req.crtc) then None
    else was.crtcOf[e]
  }

  lemma PlacedNext(was: Routing, r: Routing, req: Request, k: nat, j: nat)
    requires Placed(was, r, req, k) && Wired(r) && k < |r.encoderOf| && r.encoderOf[k].Some? && j == k + 1
    ensures Placed(was, r.(crtcOf := r.crtcOf[r.encoderOf[k].value := Target(r, req, k)]), req, j)
  {
    LastClaims(was, req, k, r.encoderOf[k].value);
  }

  lemma PlacedSkip(was: Routing, r: Routing, req: Request, k: nat, j: nat)
    requires Placed(was, r, req, k) && k < |r.encoderOf| && r.encoderOf[k] == None && j == k + 1
    ensures Placed(was, r, req, j)
  {
  }

  /** An encoder whose last connector is named is claimed. */
  lemma {:induction false} LastClaims(was: Routing, req: Request, k: nat, e: nat)
    ensures LastBound(was, k, e).Some? && LastBound(was, k, e).value in req.connectors ==> Claimed(was, req, k, e)
    ensures Claimed(was, req, k, e) ==> LastBound(was, k, e).Some?
  {
    if k > 0 { LastClaims(was, req, k - 1, e); }
  }

  /** The CRTC that connector k asks for its encoder suits the encoder. */
  ghost predicate FitsFor(was: Routing, req: Request, fits: (nat, nat) -> bool, k: nat) {
    k < |was.encoderOf| && was.encoderOf[k].Some? && was.encoderOf[k].value < |was.crtcOf| ==>
      var e := was.encoderOf[k].value;
      if k in req.connectors then fits(e, req.crtc)
      else
        Claimed(was, req, k, e) || was.crtcOf[e] == None || was.crtcOf[e] == Some(req.crtc) || fits(e, was.crtcOf[e].value)
  }

  /** The routing once the encoder of connector k, if it has one, points at its CRTC. */
  function Retarget(r: Routing, req: Request, k: nat): Routing
    requires Wired(r) && k < |r.encoderOf|
  {
    if r.encoderOf[k] == None then r else r.(crtcOf := r.crtcOf[r.encoderOf[k].value := Target(r, req, k)])
  }

  predicate TargetOk(r: Routing, req: Request, fits: (nat, nat) -> bool, k: nat)
    requires Wired(r) && k < |r.encoderOf|
  {
    r.encoderOf[k].Some? && Target(r, req, k).Some? ==> fits(r.encoderOf[k].value, Target(r, req, k).value)
  }

  /** Every connector before k asks for a CRTC its encoder fits. */
  ghost predicate AllFit(was: Routing, req: Request, fits: (nat, nat) -> bool, k: nat) {
    forall j: nat :: j < k ==> FitsFor(was, req, fits, j)
  }

  /** The encoders of the connectors before k are placed, and as far as none is shared those connectors are served. */
  ghost predicate PlacedTo(was: Routing, r: Routing, req: Request, k: nat) {
    Wired(r) && Placed(was, r, req, k) && (Split(r, req) ==> Served(r, req, k))
  }

  /** What k rounds make of a routing. */
  function Rounds(was: Routing, req: Request, k: nat): (r: Routing)
    requires Wired(was) && k <= |was.encoderOf|
    ensures Wired(r) && r.encoderOf == was.encoderOf && |r.crtcOf| == |was.crtcOf|
  {
    if k == 0 then was else Retarget(Rounds(was, req, k - 1), req, k - 1)
  }

  lemma PlacedMore(was: Routing, r: Routing, req: Request, k: nat, j: nat)
    requires PlacedTo(was, r, req, k) && k < |r.encoderOf| && j == k + 1
    ensures PlacedTo(was, Retarget(r, req, k), req, j)
  {
    if r.encoderOf[k] == None {
      PlacedSkip(was, r, req, k, j);
    } else {
      PlacedNext(was, r, req, k, j);
      var z := Retarget(r, req, k);
      assert Split(z, req) <==> Split(r, req);
      if Split(r, req) { ServedStep(r, req, k); }
    }
  }

  lemma {:induction false} RoundsPlaced(was: Routing, req: Request, k: nat)
    requires Wired(was) && k <= |was.encoderOf|
    ensures PlacedTo(was, Rounds(was, req, k), req, k)
  {
    if k > 0 {
      RoundsPlaced(was, req, k - 1);
      PlacedMore(was, Rounds(was, req, k - 1), req, k - 1, k);
    }
  }

  lemma RoundFits(was: Routing, req: Request, fits: (nat, nat) -> bool, k: nat)
    requires Wired(was) && k < |was.encoderOf|
    ensures TargetOk(Rounds(was, req, k), req, fits, k) <==> FitsFor(was, req, fits, k)
  {
    RoundsPlaced(was, req, k);
    if was.encoderOf[k].Some? { TargetFits(was, Rounds(was, req, k), req, fits, k); }
  }

  lemma TargetFits(was: Routing, r: Routing, req: Request, fits: (nat, nat) -> bool, k: nat)
    requires Placed(was, r, req, k) && Wired(r) && k < |r.encoderOf| && r.encoderOf[k].Some?
    ensures FitsFor(was, req, fits, k) <==> (Target(r, req, k).Some? ==> fits(r.encoderOf[k].value, Target(r, req, k).value))
  {
    assert r.crtcOf[r.encoderOf[k].value] == PlaceOf(was, req, k, r.encoderOf[k].value);
    LastClaims(was, req, k, r.encoderOf[k].value);
  }

  /** Every connector named gets an encoder, and every encoder a CRTC that suits it. */
  ghost predicate Rewirable(was: Routing, req: Request, best: nat -> Option<nat>, fits: (nat, nat) -> bool) {
    && (forall j: nat :: j < |was.encoderOf| && j in req.connectors ==> best(j).Some?)
    && forall bound: Routing, k: nat :: Bound(was, bound, req, best, |was.encoderOf|) && k < |was.encoderOf| ==> FitsFor(bound, req, fits, k)
  }

  lemma BoundUnique(was: Routing, a: Routing, b: Routing, req: Request, best: nat -> Option<nat>, k: nat)
    requires Bound(was, a, req, best, k) && Bound(was, b, req, best, k)
    ensures a == b
  {
    assert a.encoderOf == b.encoderOf && a.crtcOf == b.crtcOf;
  }

  /** Encoders suit the CRTCs they feed from, as far as a connector is bound to them. */
  ghost predicate Fitting(r: Routing, fits: (nat, nat) -> bool) {
    forall k: nat, c: nat :: Drives(r, c, k) ==> fits(r.encoderOf[k].value, c)
  }

  lemma PlacedFitting(was: Routing, r: Routing, req: Request, fits: (nat, nat) -> bool)
    requires Wired(was) && Placed(was, r, req, |r.encoderOf|) && forall k: nat :: k < |r.encoderOf| ==> FitsFor(was, req, fits, k)
    ensures Fitting(r, fits)
  {
    var n := |r.encoderOf|;
    forall k: nat, c: nat | Drives(r, c, k) ensures fits(r.encoderOf[k].value, c) {
      var e := r.encoderOf[k].value;
      assert Binds(was, k, e) && FitsFor(was, req, fits, k);
      ClaimedIs(was, req, n, e);
      ClaimedIs(was, req, k, e);
      LastBoundIs(was, n, e);
      LastClaims(was, req, n, e);
      if Claimed(was, req, n, e) {
        var j: nat :| j < n && j in req.connectors && Binds(was, j, e);
        assert FitsFor(was, req, fits, j);
      } else {
        assert k !in req.connectors && !Claimed(was, req, k, e);
      }
    }
  }

  /** Encoder e serves a connector of the request, before or after. */
  ghost predicate Involved(was: Routing, req: Request, best: nat -> Option<nat>, e: nat) {
    exists j: nat :: j < |was.encoderOf| && j in req.connectors && (best(j) == Some(e) || Binds(was, j, e))
  }

  /** What becomes of connectors off the request: those whose encoders are not involved stay on other CRTCs. */
  ghost predicate OthersStay(was: Routing, r: Routing, req: Request, best: nat -> Option<nat>) {
    && |r.encoderOf| == |was.encoderOf|
    && (forall k: nat :: k < |r.encoderOf| ==> r.encoderOf[k] == if k in req.connectors then best(k) else was.encoderOf[k])
    && (forall k: nat, d: nat :: d != req.crtc ==>
          (Drives(r, d, k) <==> Drives(was, d, k) && k !in req.connectors && !Involved(was, req, best, was.encoderOf[k].value)))
  }

  lemma PlacedOthers(was: Routing, bound: Routing, r: Routing, req: Request, best: nat -> Option<nat>)
    requires Wired(was) && Bound(was, bound, req, best, |bound.encoderOf|) && Placed(bound, r, req, |bound.encoderOf|)
    ensures OthersStay(was, r, req, best)
  {
    var n := |was.encoderOf|;
    forall k: nat, d: nat | d != req.crtc
      ensures Drives(r, d, k) <==> Drives(was, d, k) && k !in req.connectors && !Involved(was, req, best, was.encoderOf[k].value)
    {
      if k < n && r.encoderOf[k].Some? {
        var e := r.encoderOf[k].value;
        assert Binds(bound, k, e);
        InvolvedClaimed(was, bound, req, best, e);
        LastBoundIs(bound, n, e);
        LastClaims(bound, req, n, e);
        ClaimedIs(bound, req, n, e);
      }
    }
  }

  lemma InvolvedClaimed(was: Routing, bound: Routing, req: Request, best: nat -> Option<nat>, e: nat)
    requires Bound(was, bound, req, best, |bound.encoderOf|)
    ensures var n := |bound.encoderOf|; Involved(was, req, best, e) <==> Claimed(bound, req, n, e) || Left(was, req, best, n, e)
  {
    var n := |bound.encoderOf|;
    ClaimedIs(bound, req, n, e);
    LeftIs(was, req, best, n, e);
    if j: nat :| j < n && j in req.connectors && (best(j) == Some(e) || Binds(was, j, e)) {
      if best(j) == Some(e) { assert Binds(bound, j, e); } else { assert Left(was, req, best, n, e); }
    }
    if Claimed(bound, req, n, e) {
      var j: nat :| j < n && j in req.connectors && Binds(bound, j, e);
      assert best(j) == Some(e);
    }
  }

  /**
   Connectors before k are served as the request wants: those named are on its CRTC, no other connector is,
   as far as no encoder serves both kinds.
   */
  ghost predicate Served(r: Routing, req: Request, k: nat) {
    Wired(r) && forall j: nat :: j < k && j < |r.encoderOf| && r.encoderOf[j].Some? ==> (Drives(r, req.crtc, j) <==> j in req.connectors)
  }

  /** No encoder serves a connector of the request and one outside it. */
  ghost predicate Split(r: Routing, req: Request) {
    forall j: nat, k: nat :: j < |r.encoderOf| && k < |r.encoderOf| && j in req.connectors && k !in req.connectors && r.encoderOf[j].Some?
      ==> r.encoderOf[j] != r.encoderOf[k]
  }

  lemma ServedStep(r: Routing, req: Request, k: nat)
    requires Served(r, req, k) && Split(r, req) && k < |r.encoderOf| && r.encoderOf[k].Some?
    ensures Served(r.(crtcOf := r.crtcOf[r.encoderOf[k].value := Target(r, req, k)]), req, k + 1)
  {
    var z := r.(crtcOf := r.crtcOf[r.encoderOf[k].value := Target(r, req, k)]);
    forall j: nat | j < k + 1 && j < |z.encoderOf| && z.encoderOf[j].Some? ensures Drives(z, req.crtc, j) <==> j in req.connectors {
      if j < k { assert Drives(r, req.crtc, j) <==> j in req.connectors; }
    }
  }

  /** What the sweep over unused CRTCs makes of one. */
  function Swept(c: Crtc, used: bool): Crtc {
    if used then c.(enabled := true) else c.(enabled := false, fb := None)
  }

  lemma SameBindings(r: Routing, z: Routing, e: nat)
    requires z.encoderOf == r.encoderOf
    ensures EncoderInUse(z, e) <==> EncoderInUse(r, e)
  {
    forall k: nat ensures Binds(z, k, e) <==> Binds(r, k, e) {}
  }

  /** The encoder picked for a connector of the request is bound to no connector outside it. */
  ghost predicate Unshared(r: Routing, req: Request, best: nat -> Option<nat>) {
    forall j: nat, k: nat :: j < |r.encoderOf| && k < |r.encoderOf| && j in req.connectors && k !in req.connectors && best(j).Some?
      ==> best(j) != r.encoderOf[k]
  }

  /** Asking for connector 0 alone while connector 1 is on the encoder the driver picks for it cannot be exact. */
  lemma SharedExample(best: nat -> Option<nat>, mode: nat, fb: nat)
    requires best(0) == Some(0)
    ensures !Unshared(Routing([None], [None, Some(0)]), Request(0, Some(mode), 0, 0, Some(fb), [0]), best)
  {
    var r, req := Routing([None], [None, Some(0)]), Request(0, Some(mode), 0, 0, Some(fb), [0]);
    assert 0 in req.connectors && 1 !in req.connectors && best(0) == r.encoderOf[1];
  }

  /** CRTC c drives the connectors of the request and no other. */
  ghost predicate Exact(r: Routing, req: Request) {
    forall k: nat :: k < |r.encoderOf| ==> (Drives(r, req.crtc, k) <==> k in req.connectors)
  }

  lemma BoundSplit(was: Routing, r: Routing, req: Request, best: nat -> Option<nat>)
    requires Bound(was, r, req, best, |r.encoderOf|)
    ensures Split(r, req) <==> Unshared(was, req, best)
  {
    if Split(r, req) {
      forall j: nat, k: nat | j < |was.encoderOf| && k < |was.encoderOf| && j in req.connectors && k !in req.connectors && best(j).Some?
        ensures best(j) != was.encoderOf[k]
      {
        assert r.encoderOf[j] != r.encoderOf[k];
      }
    }
  }

  /** Connectors sharing an encoder are driven alike, so only a split binding can be exact. */
  lemma ExactSplit(r: Routing, req: Request)
    requires Wired(r) && forall k: nat :: k < |r.encoderOf| && k in req.connectors ==> r.encoderOf[k].Some?
    requires Split(r, req) ==> Served(r, req, |r.encoderOf|)
    ensures Exact(r, req) <==> Split(r, req)
  {
    if Exact(r, req) {
      forall j: nat, k: nat | j < |r.encoderOf| && k < |r.encoderOf| && j in req.connectors && k !in req.connectors && r.encoderOf[j].Some?
        ensures r.encoderOf[j] != r.encoderOf[k]
      {
        assert Drives(r, req.crtc, j) && !Drives(r, req.crtc, k);
      }
    }
  }

  /** Sweeping unused encoders leaves what each CRTC drives alone. */
  lemma SweepDrives(r: Routing, z: Routing)
    requires Wired(r) && z.encoderOf == r.encoderOf && |z.crtcOf| == |r.crtcOf|
    requires forall e: nat :: e < |r.crtcOf| ==> z.crtcOf[e] == if EncoderInUse(r, e) then r.crtcOf[e] else None
    ensures forall c: nat, k: nat :: Drives(z, c, k) <==> Drives(r, c, k)
  {
    forall c: nat, k: nat ensures Drives(z, c, k) <==> Drives(r, c, k) {
      if k < |r.encoderOf| && r.encoderOf[k].Some? { assert Binds(r, k, r.encoderOf[k].value); }
    }
  }

  lemma DrivesInUse(r: Routing, c: nat)
    requires Wired(r)
    ensures CrtcInUse(r, c) <==> exists k: nat :: k < |r.encoderOf| && Drives(r, c, k)
  {
    if k: nat :| k < |r.encoderOf| && Drives(r, c, k) {
      var e := r.encoderOf[k].value;
      assert Binds(r, k, e) && Feeds(r, e, c);
    }
    if CrtcInUse(r, c) {
      var e: nat :| e < |r.crtcOf| && Feeds(r, e, c) && EncoderInUse(r, e);
      var k: nat :| k < |r.encoderOf| && Binds(r, k, e);
      assert Drives(r, c, k);
    }
  }

  /** Connector k is driven by c through an encoder before e. */
  ghost predicate DrivenBelow(r: Routing, c: nat, k: nat, e: nat) {
    Drives(r, c, k) && r.encoderOf[k].value < e
  }

  /** The CRTC scans out what the request asks for. */
  predicate Shows(c: Crtc, req: Request) {
    req.mode == Some(c.mode) && c.fb == req.fb && c.x == req.x && c.y == req.y
  }

  lemma ExactInUse(r: Routing, req: Request)
    requires Wired(r) && Exact(r, req) && req.connectors != [] && req.connectors[0] < |r.encoderOf|
    ensures CrtcInUse(r, req.crtc)
  {
    assert Drives(r, req.crtc, req.connectors[0]);
    DrivesInUse(r, req.crtc);
  }

  /** What CRTC c drove is unbound, and nothing else is driven differently. */
  ghost predicate Freed(was: Routing, r: Routing, c: nat) {
    && |r.encoderOf| == |was.encoderOf| && !CrtcInUse(r, c)
    && (forall k: nat :: k < |r.encoderOf| ==> r.encoderOf[k] == if Drives(was, c, k) then None else was.encoderOf[k])
    && (forall d: nat, k: nat :: d != c ==> (Drives(r, d, k) <==> Drives(was, d, k)))
  }

  lemma NoLongerDriven(was: Routing, mid: Routing, z: Routing, c: nat)
    requires Wired(was) && Wired(mid) && mid.crtcOf == was.crtcOf && |mid.encoderOf| == |was.encoderOf|
    requires forall k: nat :: k < |was.encoderOf| ==> mid.encoderOf[k] == if Drives(was, c, k) then None else was.encoderOf[k]
    requires Wired(z) && z.encoderOf == mid.encoderOf && |z.crtcOf| == |mid.crtcOf|
    requires forall e: nat :: e < |mid.crtcOf| ==> z.crtcOf[e] == if EncoderInUse(mid, e) then mid.crtcOf[e] else None
    ensures !CrtcInUse(z, c)
    ensures forall d: nat, k: nat :: d != c ==> (Drives(z, d, k) <==> Drives(was, d, k))
  {
    SweepDrives(mid, z);
    DrivesInUse(z, c);
    forall d: nat, k: nat | d != c ensures Drives(z, d, k) <==> Drives(was, d, k) {}
    forall k: nat ensures !Drives(mid, c, k) {}
  }

  // ----- the device -----

  class Device {
    var routing: Routing
    var refs: seq<int>
    var dpmsOn: seq<bool>
    var crtcs: seq<Crtc>
    const best: nat -> Option<nat>
    const fits: (nat, nat) -> bool
    const format: nat -> nat
    const hasSetBase: bool

    ghost predicate Valid()
      reads this
    {
      && Wired(routing) && |refs| == |routing.encoderOf| && |dpmsOn| == |routing.encoderOf|
      && (forall k: nat :: best(k).Some? ==> best(k).value < |routing.crtcOf|)
    }

    constructor (routing: Routing, refs: seq<int>, dpmsOn: seq<bool>, crtcs: seq<Crtc>, best: nat -> Option<nat>,
                 fits: (nat, nat) -> bool, format: nat -> nat, hasSetBase: bool)
      requires Wired(routing) && |refs| == |routing.encoderOf| && |dpmsOn| == |routing.encoderOf|
      requires forall k: nat :: best(k).Some? ==> best(k).value < |routing.crtcOf|
      ensures Valid() && this.routing == routing && this.refs == refs && this.dpmsOn == dpmsOn && this.crtcs == crtcs
      ensures this.best == best && this.fits == fits && this.format == format && this.hasSetBase == hasSetBase
    {
      this.routing, this.refs, this.dpmsOn, this.crtcs := routing, refs, dpmsOn, crtcs;
      this.best, this.fits, this.format, this.hasSetBase := best, fits, format, hasSetBase;
    }

    /** Try a mode on CRTC c; any hook may refuse it, and then the CRTC is left exactly as it was. */
    method SetMode(c: nat, mode: nat, x: int, y: int) returns (ok: bool)
      requires Valid() && c < |crtcs|
      modifies this`crtcs
      ensures |crtcs| == |old(crtcs)|
      ensures forall d: nat :: d < |crtcs| && d != c ==> crtcs[d] == old(crtcs)[d]
      ensures !CrtcInUse(routing, c) ==> ok && crtcs[c] == old(crtcs)[c].(enabled := false)
      ensures CrtcInUse(routing, c) && ok ==>
        crtcs[c] == old(crtcs)[c].(enabled := true, mode := mode, x := x, y := y, hwmode := crtcs[c].hwmode)
      ensures !ok ==> crtcs == old(crtcs)
    {
      var saved := crtcs[c];
      crtcs := crtcs[c := crtcs[c].(enabled := CrtcInUse(routing, c))];
      if !crtcs[c].enabled { return true; }
      var memory: bool := *;
      if !memory {
        crtcs := crtcs[c := crtcs[c].(enabled := saved.enabled)];
        return false;
      }
      crtcs := crtcs[c := crtcs[c].(mode := mode, x := x, y := y)];
      var adjusted: nat := mode;
      ok := true;
      var e := 0;
      while e < |routing.crtcOf| && ok
      {
        if routing.crtcOf[e] == Some(c) { ok, adjusted := *, *; }
        e := e + 1;
      }
      if ok { ok, adjusted := *, *; }
      if ok {
        crtcs := crtcs[c := crtcs[c].(hwmode := adjusted)];
        ok := *;
      }
      if !ok {
        crtcs := crtcs[c := crtcs[c].(enabled := saved.enabled, mode := saved.mode, hwmode := saved.hwmode, x := saved.x, y := saved.y)];
      }
    }

    /** Take encoders and CRTCs that nothing uses out of service. */
    method DisableUnused()
      requires Valid()
      modifies this`routing, this`crtcs
      ensures Valid() && routing.encoderOf == old(routing).encoderOf && |routing.crtcOf| == |old(routing).crtcOf|
      ensures forall e: nat :: e < |routing.crtcOf| ==>
        routing.crtcOf[e] == if EncoderInUse(old(routing), e) then old(routing).crtcOf[e] else None
      ensures |crtcs| == |old(crtcs)|
      ensures forall c: nat :: c < |crtcs| ==> crtcs[c] == Swept(old(crtcs)[c], CrtcInUse(routing, c))
    {
      var e := 0;
      while e < |routing.crtcOf|
        invariant Valid() && e <= |routing.crtcOf| == |old(routing).crtcOf| && routing.encoderOf == old(routing).encoderOf
        invariant crtcs == old(crtcs)
        invariant forall f: nat :: f < |routing.crtcOf| ==>
          routing.crtcOf[f] == if f < e && !EncoderInUse(old(routing), f) then None else old(routing).crtcOf[f]
      {
        SameBindings(old(routing), routing, e);
        if !EncoderInUse(routing, e) { routing := routing.(crtcOf := routing.crtcOf[e := None]); }
        e := e + 1;
      }
      ghost var swept := routing;
      var c := 0;
      while c < |crtcs|
        invariant c <= |crtcs| == |old(crtcs)| && routing == swept
        invariant forall d: nat :: d < |crtcs| ==> crtcs[d] == if d < c then Swept(old(crtcs)[d], CrtcInUse(routing, d)) else old(crtcs)[d]
      {
        crtcs := crtcs[c := crtcs[c].(enabled := CrtcInUse(routing, c))];
        if !crtcs[c].enabled { crtcs := crtcs[c := crtcs[c].(fb := None)]; }
        c := c + 1;
      }
    }

    /** Bind the connectors of the request to the encoders the driver picks for them. */
    method PickEncoders(req: Request) returns (changed: bool, fail: bool)
      requires Valid()
      modifies this`routing
      ensures Valid() && Bound(old(routing), routing, req, best, |routing.encoderOf|)
      ensures fail <==> exists j: nat :: j < |routing.encoderOf| && j in req.connectors && best(j) == None
      ensures !changed ==> routing == old(routing) && forall j: nat :: j < |dpmsOn| && j in req.connectors ==> dpmsOn[j]
    {
      changed, fail := false, false;
      var k := 0;
      while k < |routing.encoderOf|
        invariant Valid() && k <= |routing.encoderOf| && Bound(old(routing), routing, req, best, k)
        invariant fail <==> exists j: nat :: j < k && j in req.connectors && best(j) == None
        invariant !changed ==> routing == old(routing) && forall j: nat :: j < k && j in req.connectors ==> dpmsOn[j]
      {
        var encoder := routing.encoderOf[k];
        if k in req.connectors {
          encoder := best(k);
          if encoder == None { fail := true; }
          if !dpmsOn[k] { changed := true; }
        }
        BoundNext(old(routing), routing, req, best, k, encoder);
        if encoder != routing.encoderOf[k] {
          changed := true;
          routing := Bind(routing, k, encoder);
        }
        k := k + 1;
      }
    }

    /** Point the encoder of connector k at its CRTC, unless it cannot feed from it. */
    method PlaceEncoder(req: Request, k: nat) returns (r: Status, changed: bool)
      requires Valid() && k < |routing.encoderOf|
      modifies this`routing
      ensures r.Ok? <==> TargetOk(old(routing), req, fits, k)
      ensures routing == if r.Ok? then Retarget(old(routing), req, k) else old(routing)
      ensures r.Failed? || !changed ==> routing == old(routing)
    {
      if routing.encoderOf[k] == None { return Ok, false; }
      var e, crtc := routing.encoderOf[k].value, Target(routing, req, k);
      if crtc.Some? && !fits(e, crtc.value) { return Failed(EINVAL), false; }
      r, changed := Ok, crtc != routing.crtcOf[e];
      assert !changed ==> routing.crtcOf[e := crtc] == routing.crtcOf;
      if changed { routing := routing.(crtcOf := routing.crtcOf[e := crtc]); }
    }

    /** Point all encoders at their CRTCs, in the order of the connectors, up to one that does not fit. */
    method PlaceEncoders(req: Request) returns (r: Status, changed: bool)
      requires Valid()
      modifies this`routing
      ensures Valid() && routing.encoderOf == old(routing).encoderOf && |routing.crtcOf| == |old(routing).crtcOf|
      ensures r.Ok? <==> AllFit(old(routing), req, fits, |routing.encoderOf|)
      ensures r.Ok? ==> PlacedTo(old(routing), routing, req, |routing.encoderOf|)
      ensures !changed ==> routing == old(routing)
    {
      changed := false;
      ghost var was := routing;
      var k := 0;
      while k < |routing.encoderOf|
        invariant k <= |was.encoderOf| && routing == Rounds(was, req, k) && AllFit(was, req, fits, k)
        invariant !changed ==> routing == was
      {
        RoundFits(was, req, fits, k);
        var moved;
        r, moved := PlaceEncoder(req, k);
        changed := changed || moved;
        if r.Failed? { return; }
        k := k + 1;
      }
      RoundsPlaced(was, req, k);
      r := Ok;
    }

    /** Take a reference on each connector named that is not bound yet. */
    method TakeRefs(req: Request)
      requires Valid() && forall i: nat :: i < |req.connectors| ==> req.connectors[i] < |refs|
      modifies this`refs
      ensures Valid()
      ensures forall k: nat :: k < |refs| ==>
        refs[k] == old(refs)[k] + if routing.encoderOf[k] == None then Count(req.connectors, k) else 0
    {
      var i := 0;
      while i < |req.connectors|
        invariant i <= |req.connectors| && Valid()
        invariant forall k: nat :: k < |refs| ==>
          refs[k] == old(refs)[k] + if routing.encoderOf[k] == None then Count(req.connectors[..i], k) else 0
      {
        var k := req.connectors[i];
        forall j: nat { CountPrefix(req.connectors, i, j); }
        if routing.encoderOf[k] == None { refs := refs[k := refs[k] + 1]; }
        i := i + 1;
      }
      assert req.connectors[..i] == req.connectors;
    }

    /** Drop a reference on each connector named that is not bound. */
    method DropRefs(req: Request)
      requires Valid() && forall i: nat :: i < |req.connectors| ==> req.connectors[i] < |refs|
      modifies this`refs
      ensures Valid()
      ensures forall k: nat :: k < |refs| ==>
        refs[k] == old(refs)[k] - if routing.encoderOf[k] == None then Count(req.connectors, k) else 0
    {
      var i := 0;
      while i < |req.connectors|
        invariant i <= |req.connectors| && Valid()
        invariant forall k: nat :: k < |refs| ==>
          refs[k] == old(refs)[k] - if routing.encoderOf[k] == None then Count(req.connectors[..i], k) else 0
      {
        var k := req.connectors[i];
        forall j: nat { CountPrefix(req.connectors, i, j); }
        if routing.encoderOf[k] == None { refs := refs[k := refs[k] - 1]; }
        i := i + 1;
      }
      assert req.connectors[..i] == req.connectors;
    }

    /** Decouple everything CRTC c drives. */
    method Disable(c: nat)
      requires Valid() && c < |crtcs|
      modifies this
      ensures Valid() && |refs| == |old(refs)| && |crtcs| == |old(crtcs)| && |routing.crtcOf| == |old(routing).crtcOf|
      ensures Freed(old(routing), routing, c)
      ensures forall k: nat :: k < |refs| ==> refs[k] == old(refs)[k] - if Drives(old(routing), c, k) then 1 else 0
      ensures forall k: nat :: k < |refs| ==> dpmsOn[k] == (old(dpmsOn)[k] && !Drives(old(routing), c, k))
      ensures crtcs[c] == old(crtcs)[c].(enabled := false, fb := None)
      ensures forall d: nat :: d < |crtcs| ==> crtcs[d] == Swept(old(crtcs)[d], CrtcInUse(routing, d))
    {
      var e := 0;
      while e < |routing.crtcOf|
        invariant Valid() && e <= |routing.crtcOf| && routing.crtcOf == old(routing).crtcOf && crtcs == old(crtcs)
        invariant |refs| == |old(refs)|
        invariant forall k: nat :: k < |refs| ==> routing.encoderOf[k] == if DrivenBelow(old(routing), c, k, e) then None else old(routing).encoderOf[k]
        invariant forall k: nat :: k < |refs| ==> refs[k] == old(refs)[k] - if DrivenBelow(old(routing), c, k, e) then 1 else 0
        invariant forall k: nat :: k < |refs| ==> dpmsOn[k] == (old(dpmsOn)[k] && !DrivenBelow(old(routing), c, k, e))
      {
        if routing.crtcOf[e] == Some(c) { DecoupleEncoder(e); }
        e := e + 1;
      }
      forall k: nat ensures DrivenBelow(old(routing), c, k, e) <==> Drives(old(routing), c, k) {}
      ghost var decoupled := routing;
      DisableUnused();
      NoLongerDriven(old(routing), decoupled, routing, c);
    }

    /** Unbind the connectors of encoder e. */
    method DecoupleEncoder(e: nat)
      requires Valid()
      modifies this`routing, this`refs, this`dpmsOn
      ensures Valid() && routing.crtcOf == old(routing).crtcOf && |refs| == |old(refs)|
      ensures forall k: nat :: k < |refs| ==> routing.encoderOf[k] == if old(routing).encoderOf[k] == Some(e) then None else old(routing).encoderOf[k]
      ensures forall k: nat :: k < |refs| ==> refs[k] == old(refs)[k] - if old(routing).encoderOf[k] == Some(e) then 1 else 0
      ensures forall k: nat :: k < |refs| ==> dpmsOn[k] == (old(dpmsOn)[k] && old(routing).encoderOf[k] != Some(e))
    {
      var k := 0;
      while k < |routing.encoderOf|
        invariant Valid() && k <= |routing.encoderOf| && routing.crtcOf == old(routing).crtcOf && |refs| == |old(refs)|
        invariant forall j: nat :: j < |refs| ==> routing.encoderOf[j] == if j < k && old(routing).encoderOf[j] == Some(e) then None else old(routing).encoderOf[j]
        invariant forall j: nat :: j < |refs| ==> refs[j] == old(refs)[j] - if j < k && old(routing).encoderOf[j] == Some(e) then 1 else 0
        invariant forall j: nat :: j < |refs| ==> dpmsOn[j] == (old(dpmsOn)[j] && !(j < k && old(routing).encoderOf[j] == Some(e)))
      {
        if routing.encoderOf[k] == Some(e) {
          routing := routing.(encoderOf := routing.encoderOf[k := None]);
          dpmsOn := dpmsOn[k := false];
          refs := refs[k := refs[k] - 1];
        }
        k := k + 1;
      }
    }

    /** Copy the CRTC of every encoder and the encoder of every connector. */
    method Backup() returns (encoderCrtcs: array<Option<nat>>, connectorEncoders: array<Option<nat>>)
      ensures fresh(encoderCrtcs) && fresh(connectorEncoders) && encoderCrtcs != connectorEncoders
      ensures encoderCrtcs[..] == routing.crtcOf && connectorEncoders[..] == routing.encoderOf
    {
      encoderCrtcs := new Option<nat>[|routing.crtcOf|](_ => None);
      connectorEncoders := new Option<nat>[|routing.encoderOf|](_ => None);
      var count := 0;
      while count < |routing.crtcOf|
        invariant count <= |routing.crtcOf| && encoderCrtcs[..count] == routing.crtcOf[..count]
      {
        encoderCrtcs[count] := routing.crtcOf[count];
        count := count + 1;
      }
      count := 0;
      while count < |routing.encoderOf|
        invariant count <= |routing.encoderOf| && connectorEncoders[..count] == routing.encoderOf[..count]
        invariant encoderCrtcs[..] == routing.crtcOf
      {
        connectorEncoders[count] := routing.encoderOf[count];
        count := count + 1;
      }
    }

    /** Put the copies back. */
    method Restore(encoderCrtcs: array<Option<nat>>, connectorEncoders: array<Option<nat>>)
      requires encoderCrtcs.Length == |routing.crtcOf| && connectorEncoders.Length == |routing.encoderOf|
      modifies this`routing
      ensures routing == Routing(encoderCrtcs[..], connectorEncoders[..])
    {
      var count := 0;
      while count < |routing.crtcOf|
        invariant count <= |routing.crtcOf| == encoderCrtcs.Length && routing.crtcOf[..count] == encoderCrtcs[..count]
        invariant routing.encoderOf == old(routing).encoderOf
      {
        routing := routing.(crtcOf := routing.crtcOf[count := encoderCrtcs[count]]);
        count := count + 1;
      }
      count := 0;
      while count < |routing.encoderOf|
        invariant count <= |routing.encoderOf| == connectorEncoders.Length && routing.encoderOf[..count] == connectorEncoders[..count]
        invariant routing.crtcOf == encoderCrtcs[..]
      {
        routing := routing.(encoderOf := routing.encoderOf[count := connectorEncoders[count]]);
        count := count + 1;
      }
    }

    /** The CRTC is as it was but for what a mode set that restores it settles anew. */
    ghost predicate Reset(was: Crtc, c: nat)
      reads this
    {
      && c < |crtcs| && crtcs[c] == was.(enabled := crtcs[c].enabled, hwmode := crtcs[c].hwmode)
      && (crtcs[c].enabled == was.enabled || crtcs[c].enabled == CrtcInUse(routing, c))
    }

    /** Undo the rewiring, drop the references taken, and set the old mode again if a full mode set was under way. */
    method RollBack(req: Request, encoderCrtcs: array<Option<nat>>, connectorEncoders: array<Option<nat>>, modeChanged: bool, x: int, y: int)
      requires Valid() && req.crtc < |crtcs| && (forall i: nat :: i < |req.connectors| ==> req.connectors[i] < |refs|)
      requires encoderCrtcs.Length == |routing.crtcOf| && connectorEncoders.Length == |routing.encoderOf|
      requires Wired(Routing(encoderCrtcs[..], connectorEncoders[..]))
      requires x == crtcs[req.crtc].x && y == crtcs[req.crtc].y
      modifies this`routing, this`refs, this`crtcs
      ensures Valid() && routing == Routing(encoderCrtcs[..], connectorEncoders[..])
      ensures |refs| == |old(refs)| && forall k: nat :: k < |refs| ==>
        refs[k] == old(refs)[k] - if routing.encoderOf[k] == None then Count(req.connectors, k) else 0
      ensures |crtcs| == |old(crtcs)| && Reset(old(crtcs)[req.crtc], req.crtc) && (!modeChanged ==> crtcs == old(crtcs))
      ensures forall c: nat :: c < |crtcs| && c != req.crtc ==> crtcs[c] == old(crtcs)[c]
      ensures modeChanged && !CrtcInUse(routing, req.crtc) ==> !crtcs[req.crtc].enabled
    {
      Restore(encoderCrtcs, connectorEncoders);
      DropRefs(req);
      // the saved mode is the CRTC's own
      if modeChanged { var ok := SetMode(req.crtc, crtcs[req.crtc].mode, x, y); }
    }

    /** What userspace must respect, or the helper refuses to go on. */
    ghost predicate Sane(req: Request)
      reads this
    {
      && req.crtc < |crtcs| && (forall i: nat :: i < |req.connectors| ==> req.connectors[i] < |refs|)
      && (req.fb.Some? ==> req.mode.Some? && req.connectors != [])
    }

    /** The request has been carried out, seen from the routing, power states and CRTCs before it. */
    ghost predicate Switched(was: Routing, dpms: seq<bool>, screens: seq<Crtc>, req: Request)
      requires Valid() && |dpms| == |dpmsOn| && |screens| == |crtcs| && req.crtc < |crtcs|
      reads this
    {
      && Rewirable(was, req, best, fits)
      && OthersStay(was, routing, req, best) && Fitting(routing, fits)
      && (Exact(routing, req) <==> Unshared(was, req, best))
      && (Exact(routing, req) ==> Shows(crtcs[req.crtc], req))
      && (Exact(routing, req) ==> forall k: nat :: k < |dpms| && k in req.connectors ==> dpmsOn[k])
      && (forall k: nat :: k < |dpms| && k !in req.connectors ==> dpmsOn[k] == dpms[k])
      && (forall c: nat :: c < |screens| && c != req.crtc ==> crtcs[c] == screens[c] || crtcs[c] == Swept(screens[c], CrtcInUse(routing, c)))
    }

    /**
     All or nothing. On failure every link, reference and CRTC field a caller can see is as it was; `enabled` may
     only have been brought in line with the restored links. On success the CRTC drives exactly the connectors
     named, if and only if their encoders serve no other connector, and then it shows what was asked for.
     */
    method SetConfig(req: Request) returns (r: Status)
      requires Valid() && Sane(req)
      modifies this
      ensures Valid() && |refs| == |old(refs)| && |crtcs| == |old(crtcs)|
      ensures r.Failed? ==> routing == old(routing) && refs == old(refs) && dpmsOn == old(dpmsOn) && Reset(old(crtcs)[req.crtc], req.crtc)
      ensures r.Failed? ==> forall c: nat :: c < |crtcs| && c != req.crtc ==> crtcs[c] == old(crtcs)[c]
      ensures r.Ok? && req.fb.Some? ==> Switched(old(routing), old(dpmsOn), old(crtcs), req)
      ensures r.Ok? && req.fb.Some? ==> forall k: nat :: k < |refs| ==>
        refs[k] == old(refs)[k] + if old(routing).encoderOf[k] == None then Count(req.connectors, k) else 0
      ensures req.fb == None ==> r.Ok? && Freed(old(routing), routing, req.crtc)
      ensures req.fb == None ==> crtcs[req.crtc] == old(crtcs)[req.crtc].(enabled := false, fb := None)
      ensures req.fb == None ==> forall k: nat :: k < |refs| ==>
        && refs[k] == old(refs)[k] - (if Drives(old(routing), req.crtc, k) then 1 else 0)
        && dpmsOn[k] == (old(dpmsOn)[k] && !Drives(old(routing), req.crtc, k))
    {
      var c := req.crtc;
      if req.fb == None {
        Disable(c);
        return Ok;
      }
      var memory: bool := *;
      if !memory { return Failed(ENOMEM); }
      var encoderCrtcs, connectorEncoders := Backup();
      var was := crtcs[c];
      TakeRefs(req);
      var modeChanged;
      r, modeChanged := Switch(req);
      if r.Failed? { RollBack(req, encoderCrtcs, connectorEncoders, modeChanged, was.x, was.y); }
    }

    /** Rewire and program; if that fails only the routing has changed. */
    method Switch(req: Request) returns (r: Status, modeChanged: bool)
      requires Valid() && Sane(req) && req.fb.Some?
      modifies this`routing, this`crtcs, this`dpmsOn
      ensures Valid() && |crtcs| == |old(crtcs)| && |routing.encoderOf| == |old(routing).encoderOf| && |routing.crtcOf| == |old(routing).crtcOf|
      ensures r.Failed? ==> dpmsOn == old(dpmsOn) && crtcs == old(crtcs)
      ensures r.Ok? ==> Switched(old(routing), old(dpmsOn), old(crtcs), req)
    {
      var was := crtcs[req.crtc];
      var fbChanged, rewired;
      modeChanged, fbChanged := Differences(req, was);
      r, rewired := Rewire(req);
      modeChanged := modeChanged || rewired || (r.Ok? && fbChanged && !hasSetBase);
      if r.Ok? { r := Apply(req, was, modeChanged, fbChanged); }
    }

    /** Whether a full mode set is needed, or a flip. */
    method Differences(req: Request, was: Crtc) returns (modeChanged: bool, fbChanged: bool)
      requires req.fb.Some? && req.mode.Some?
      ensures !modeChanged && !fbChanged <==> Shows(was, req)
      ensures modeChanged <==> was.mode != req.mode.value || was.fb == None || format(was.fb.value) != format(req.fb.value)
    {
      modeChanged, fbChanged := false, false;
      if was.fb != req.fb {
        if was.fb == None || format(req.fb.value) != format(was.fb.value) { modeChanged := true; } else { fbChanged := true; }
      }
      if req.x != was.x || req.y != was.y { fbChanged := true; }
      if req.mode.value != was.mode { modeChanged := true; }
    }

    /** Program the CRTC for the links now in place, or leave everything as it is. */
    method Apply(req: Request, was: Crtc, modeChanged: bool, fbChanged: bool) returns (r: Status)
      requires Valid() && Sane(req) && req.fb.Some? && was == crtcs[req.crtc]
      requires !modeChanged ==> was.mode == req.mode.value
      requires !modeChanged && !fbChanged ==> Shows(was, req)
      requires !modeChanged && fbChanged ==> hasSetBase
      requires !modeChanged ==> forall k: nat :: k < |dpmsOn| && k in req.connectors ==> dpmsOn[k]
      modifies this`routing, this`crtcs, this`dpmsOn
      ensures Valid() && |crtcs| == |old(crtcs)| && |routing.crtcOf| == |old(routing).crtcOf|
      ensures routing.encoderOf == old(routing).encoderOf
      ensures r.Failed? ==> routing == old(routing) && dpmsOn == old(dpmsOn) && crtcs == old(crtcs)
      ensures r.Ok? ==> forall d: nat, k: nat :: Drives(routing, d, k) <==> Drives(old(routing), d, k)
      ensures r.Ok? && Exact(old(routing), req) ==> Shows(crtcs[req.crtc], req)
      ensures r.Ok? && Exact(old(routing), req) ==> forall k: nat :: k < |dpmsOn| && k in req.connectors ==> dpmsOn[k]
      ensures |dpmsOn| == |old(dpmsOn)| && forall k: nat :: k < |dpmsOn| && k !in req.connectors ==> dpmsOn[k] == old(dpmsOn)[k]
      ensures forall c: nat :: c < |crtcs| && c != req.crtc ==>
        crtcs[c] == old(crtcs)[c] || crtcs[c] == Swept(old(crtcs)[c], CrtcInUse(routing, c))
    {
      if Exact(routing, req) { ExactInUse(routing, req); }
      if modeChanged { r := FullSet(req, was); } else if fbChanged { r := Flip(req, was); } else { r := Ok; }
    }

    /** Bind the connectors and place their encoders. */
    method Rewire(req: Request) returns (r: Status, changed: bool)
      requires Valid()
      modifies this`routing
      ensures Valid() && |routing.encoderOf| == |old(routing).encoderOf| && |routing.crtcOf| == |old(routing).crtcOf|
      ensures r.Ok? ==> (Exact(routing, req) <==> Unshared(old(routing), req, best))
      ensures r.Ok? <==> Rewirable(old(routing), req, best, fits)
      ensures r.Ok? ==> OthersStay(old(routing), routing, req, best) && Fitting(routing, fits)
      ensures !changed ==> routing == old(routing)
      ensures r.Ok? && !changed ==> forall j: nat :: j < |dpmsOn| && j in req.connectors ==> dpmsOn[j]
    {
      var picked, fail := PickEncoders(req);
      if fail { return Failed(EINVAL), picked; }
      ghost var bound := routing;
      BoundSplit(old(routing), bound, req, best);
      forall b: Routing | Bound(old(routing), b, req, best, |b.encoderOf|) { BoundUnique(old(routing), bound, b, req, best, |b.encoderOf|); }
      var placed;
      r, placed := PlaceEncoders(req);
      changed := picked || placed;
      if r.Ok? {
        ExactSplit(routing, req);
        PlacedOthers(old(routing), bound, routing, req, best);
        PlacedFitting(bound, routing, req, fits);
      }
    }

    /** Power the connectors named. */
    method PowerOn(ks: seq<nat>)
      requires forall i: nat :: i < |ks| ==> ks[i] < |dpmsOn|
      modifies this`dpmsOn
      ensures |dpmsOn| == |old(dpmsOn)| && forall k: nat :: k < |dpmsOn| ==> dpmsOn[k] == (old(dpmsOn)[k] || k in ks)
    {
      var i := 0;
      while i < |ks|
        invariant i <= |ks| && |dpmsOn| == |old(dpmsOn)|
        invariant forall k: nat :: k < |dpmsOn| ==> dpmsOn[k] == (old(dpmsOn)[k] || k in ks[..i])
      {
        dpmsOn := dpmsOn[ks[i] := true];
        i := i + 1;
      }
      assert ks[..i] == ks;
    }

    /** Set the mode if the CRTC has ended up in use, power the connectors and sweep up. */
    method FullSet(req: Request, was: Crtc) returns (r: Status)
      requires Valid() && Sane(req) && req.fb.Some? && was == crtcs[req.crtc]
      modifies this`routing, this`crtcs, this`dpmsOn
      ensures Valid() && |crtcs| == |old(crtcs)| && |routing.crtcOf| == |old(routing).crtcOf|
      ensures routing.encoderOf == old(routing).encoderOf
      ensures r.Failed? ==> routing == old(routing) && dpmsOn == old(dpmsOn) && crtcs == old(crtcs)
      ensures r.Ok? ==> forall d: nat, k: nat :: Drives(routing, d, k) <==> Drives(old(routing), d, k)
      ensures r.Ok? && CrtcInUse(old(routing), req.crtc) ==> Shows(crtcs[req.crtc], req) && crtcs[req.crtc].enabled
      ensures |dpmsOn| == |old(dpmsOn)| && forall k: nat :: k < |dpmsOn| ==>
        dpmsOn[k] == (old(dpmsOn)[k] || (r.Ok? && CrtcInUse(old(routing), req.crtc) && k in req.connectors))
      ensures r.Ok? ==> forall c: nat :: c < |crtcs| && c != req.crtc ==> crtcs[c] == Swept(old(crtcs)[c], CrtcInUse(routing, c))
    {
      var c := req.crtc;
      ghost var before := routing;
      if CrtcInUse(routing, c) {
        crtcs := crtcs[c := crtcs[c].(fb := req.fb)];
        var ok := SetMode(c, req.mode.value, req.x, req.y);
        if !ok {
          crtcs := crtcs[c := crtcs[c].(fb := was.fb)];
          return Failed(EINVAL);
        }
        PowerOn(req.connectors);
      }
      DisableUnused();
      SweepDrives(before, routing);
      DrivesInUse(before, c);
      DrivesInUse(routing, c);
      r := Ok;
    }

    /** Show another framebuffer or position with the mode kept. */
    method Flip(req: Request, was: Crtc) returns (r: Status)
      requires Valid() && Sane(req) && req.fb.Some? && hasSetBase && was == crtcs[req.crtc]
      modifies this`crtcs
      ensures |crtcs| == |old(crtcs)|
      ensures r.Ok? ==> crtcs == old(crtcs)[req.crtc := was.(x := req.x, y := req.y, fb := req.fb)]
      ensures r.Failed? ==> crtcs == old(crtcs)
    {
      var c := req.crtc;
      crtcs := crtcs[c := crtcs[c].(x := req.x, y := req.y, fb := req.fb)];
      var ok: bool := *;
      if ok {
        r := Ok;
      } else {
        crtcs := crtcs[c := crtcs[c].(x := was.x, y := was.y, fb := was.fb)];
        r := Failed(EINVAL);
      }
    }
  }
}
