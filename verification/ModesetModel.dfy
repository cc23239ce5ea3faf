/**
 Values of the atomic modeset core: the state records of CRTCs, planes and connectors, the current
 configuration of a device, and an update that has been assembled against it.

 Object indices are positions in the sequences. A mask word is the set of the indices whose bit is set.
 */
module Modeset {
  import opened Outcomes

  /** The link status of a connector whose link is trained. */
  const LINK_GOOD: nat := 0

  /** The all-zero timing record left by clearing a mode. */
  const ZERO_MODE: nat := 0

  /** A mode property blob; `wellFormed` says that it has the right length and converts to a valid mode. */
  datatype Blob = Blob(id: nat, mode: nat, wellFormed: bool)

  datatype CrtcState = CrtcState(
    enable: bool,
    active: bool,
    mode: nat,
    blob: Option<Blob>,
    planes: set<nat>,
    connectors: set<nat>,
    encoders: set<nat>,
    modeChanged: bool,
    activeChanged: bool,
    connectorsChanged: bool)

  datatype PlaneState = PlaneState(crtc: Option<nat>, fb: Option<nat>)

  datatype ConnectorState = ConnectorState(crtc: Option<nat>, encoder: Option<nat>, link: nat)

  /** The current states of a device, with the driver's encoder choice and its CRTC compatibility. */
  datatype Config = Config(
    best: (nat, nat) -> Option<nat>,
    fits: (nat, nat) -> bool,
    crtcs: seq<CrtcState>,
    planes: seq<PlaneState>,
    connectors: seq<ConnectorState>)

  /** Per-object slots over a configuration; an empty slot means that the object is not in the update. */
  datatype Update = Update(
    cfg: Config,
    crtcs: seq<Option<CrtcState>>,
    planes: seq<Option<PlaneState>>,
    connectors: seq<Option<ConnectorState>>)

  predicate NeedsModeset(s: CrtcState) {
    s.modeChanged || s.activeChanged || s.connectorsChanged
  }

  /** Equal in everything but the derived flags. */
  predicate SameFields(a: CrtcState, b: CrtcState) {
    && a.enable == b.enable && a.active == b.active && a.mode == b.mode && a.blob == b.blob
    && a.planes == b.planes && a.connectors == b.connectors && a.encoders == b.encoders
  }

  /** Equal in what a CRTC shows: whether it is on, and in which mode. */
  predicate SameMode(a: CrtcState, b: CrtcState) {
    a.enable == b.enable && a.active == b.active && a.mode == b.mode && a.blob == b.blob
  }

  predicate Unflagged(s: CrtcState) {
    !s.modeChanged && !s.activeChanged && !s.connectorsChanged
  }

  /** Copy for an update: derived flags start out clear. */
  function Duplicate(s: CrtcState): (t: CrtcState)
    ensures SameFields(t, s) && Unflagged(t)
  {
    s.(modeChanged := false, activeChanged := false, connectorsChanged := false)
  }

  /** A zeroed CRTC state. */
  const OFF_CRTC := CrtcState(false, false, ZERO_MODE, None, {}, {}, {}, false, false, false)

  /** The configuration after reset: everything is off. */
  function Off(best: (nat, nat) -> Option<nat>, fits: (nat, nat) -> bool,
               numCrtcs: nat, numPlanes: nat, numConnectors: nat): Config
  {
    Config(best, fits, seq(numCrtcs, _ => OFF_CRTC), seq(numPlanes, _ => PlaneState(None, None)),
           seq(numConnectors, _ => ConnectorState(None, None, 0)))
  }

  /** Configurations of one device. */
  ghost predicate SameSizes(a: Config, b: Config) {
    |a.crtcs| == |b.crtcs| && |a.planes| == |b.planes| && |a.connectors| == |b.connectors| && a.best == b.best && a.fits == b.fits
  }

  // ----- effective states -----

  predicate Shaped(u: Update) {
    && |u.crtcs| == |u.cfg.crtcs|
    && |u.planes| == |u.cfg.planes|
    && |u.connectors| == |u.cfg.connectors|
  }

  predicate HasCrtc(u: Update, c: nat) {
    c < |u.crtcs| && u.crtcs[c].Some?
  }

  predicate HasPlane(u: Update, p: nat) {
    p < |u.planes| && u.planes[p].Some?
  }

  predicate HasConnector(u: Update, k: nat) {
    k < |u.connectors| && u.connectors[k].Some?
  }

  /** New state if the object is in the update, else its current state. */
  function Crtc(u: Update, c: nat): CrtcState
    requires Shaped(u) && c < |u.crtcs|
  {
    if u.crtcs[c].Some? then u.crtcs[c].value else u.cfg.crtcs[c]
  }

  function Plane(u: Update, p: nat): PlaneState
    requires Shaped(u) && p < |u.planes|
  {
    if u.planes[p].Some? then u.planes[p].value else u.cfg.planes[p]
  }

  function Connector(u: Update, k: nat): ConnectorState
    requires Shaped(u) && k < |u.connectors|
  {
    if u.connectors[k].Some? then u.connectors[k].value else u.cfg.connectors[k]
  }

  /** The configuration that installing the update yields. */
  function Installed(u: Update): (cfg: Config)
    requires Shaped(u)
    ensures |cfg.crtcs| == |u.crtcs| && |cfg.planes| == |u.planes| && |cfg.connectors| == |u.connectors|
    ensures cfg.best == u.cfg.best && cfg.fits == u.cfg.fits
    ensures forall c: nat :: c < |u.crtcs| ==> cfg.crtcs[c] == Crtc(u, c)
    ensures forall p: nat :: p < |u.planes| ==> cfg.planes[p] == Plane(u, p)
    ensures forall k: nat :: k < |u.connectors| ==> cfg.connectors[k] == Connector(u, k)
  {
    Config(u.cfg.best, u.cfg.fits,
           seq(|u.crtcs|, c requires 0 <= c < |u.crtcs| => Crtc(u, c)),
           seq(|u.planes|, p requires 0 <= p < |u.planes| => Plane(u, p)),
           seq(|u.connectors|, k requires 0 <= k < |u.connectors| => Connector(u, k)))
  }

  /** An update nothing has been added to yet. */
  function Empty(cfg: Config): (u: Update)
    ensures Shaped(u) && u.cfg == cfg
    ensures forall c: nat :: !HasCrtc(u, c)
    ensures forall p: nat :: !HasPlane(u, p)
    ensures forall k: nat :: !HasConnector(u, k)
  {
    Update(cfg, seq(|cfg.crtcs|, _ => None), seq(|cfg.planes|, _ => None), seq(|cfg.connectors|, _ => None))
  }

  // ----- consistency of a configuration -----

  predicate PlaneAt(cfg: Config, p: nat, c: nat) {
    p < |cfg.planes| && cfg.planes[p].crtc == Some(c)
  }

  predicate ConnectorAt(cfg: Config, k: nat, c: nat) {
    k < |cfg.connectors| && cfg.connectors[k].crtc == Some(c)
  }

  predicate PlaneOn(u: Update, p: nat, c: nat)
    requires Shaped(u)
  {
    p < |u.planes| && Plane(u, p).crtc == Some(c)
  }

  predicate ConnectorOn(u: Update, k: nat, c: nat)
    requires Shaped(u)
  {
    k < |u.connectors| && Connector(u, k).crtc == Some(c)
  }

  ghost predicate InRange(cfg: Config) {
    && (forall p: nat, c: nat :: PlaneAt(cfg, p, c) ==> c < |cfg.crtcs|)
    && (forall k: nat, c: nat :: ConnectorAt(cfg, k, c) ==> c < |cfg.crtcs|)
  }

  /** `plane_mask` and `connector_mask` of every CRTC name exactly the objects pointing at it. */
  ghost predicate Linked(cfg: Config) {
    && InRange(cfg)
    && (forall c: nat, p: nat :: c < |cfg.crtcs| ==>
          (p in cfg.crtcs[c].planes <==> PlaneAt(cfg, p, c)))
    && (forall c: nat, k: nat :: c < |cfg.crtcs| ==>
          (k in cfg.crtcs[c].connectors <==> ConnectorAt(cfg, k, c)))
  }

  /** `encoder_mask` of CRTC c is the set of encoders of the connectors routed to c. */
  ghost predicate EncodersLinked(cfg: Config) {
    forall c: nat, e: nat :: c < |cfg.crtcs| ==>
      (e in cfg.crtcs[c].encoders <==> ServedOn(cfg, c, e))
  }

  ghost predicate ServedOn(cfg: Config, c: nat, e: nat) {
    exists k: nat :: k < |cfg.connectors| && cfg.connectors[k].crtc == Some(c) && cfg.connectors[k].encoder == Some(e)
  }

  /** Every connector on a CRTC uses the encoder the driver chooses for it, and every other one has none. */
  ghost predicate Routed(cfg: Config) {
    forall k: nat :: k < |cfg.connectors| ==> RoutedConnector(cfg, cfg.connectors[k], k)
  }

  ghost predicate RoutedConnector(cfg: Config, s: ConnectorState, k: nat) {
    match s.crtc
    case None => s.encoder == None
    case Some(c) =>
      s.encoder.Some? && s.encoder == cfg.best(k, c) && cfg.fits(s.encoder.value, c)
  }

  /** No encoder serves two connectors. */
  ghost predicate Exclusive(cfg: Config) {
    forall k: nat, l: nat :: k < |cfg.connectors| && l < |cfg.connectors| && k != l && cfg.connectors[k].encoder.Some? ==>
      cfg.connectors[k].encoder != cfg.connectors[l].encoder
  }

  /** `enable` agrees with the blob, and the mode is the blob's. */
  predicate ModeAgrees(s: CrtcState) {
    (s.enable <==> s.blob.Some?) && s.mode == if s.blob == None then ZERO_MODE else s.blob.value.mode
  }

  predicate CrtcSound(s: CrtcState) {
    && ModeAgrees(s)
    && (s.enable <==> s.connectors != {})
    && (s.active ==> s.enable)
  }

  predicate PlaneSound(s: PlaneState) {
    s.crtc.Some? <==> s.fb.Some?
  }

  ghost predicate Consistent(cfg: Config) {
    && Linked(cfg)
    && EncodersLinked(cfg)
    && Routed(cfg)
    && Exclusive(cfg)
    && (forall c: nat :: c < |cfg.crtcs| ==> CrtcSound(cfg.crtcs[c]))
    && (forall p: nat :: p < |cfg.planes| ==> PlaneSound(cfg.planes[p]))
  }

  // ----- consistency of an update under assembly -----

  /** The old and the new CRTC of every plane and connector in the update are in the update. */
  ghost predicate Closed(u: Update)
    requires Shaped(u)
  {
    && (forall p: nat, c: nat :: HasPlane(u, p) && (PlaneAt(u.cfg, p, c) || PlaneOn(u, p, c)) ==> HasCrtc(u, c))
    && (forall k: nat, c: nat :: HasConnector(u, k) && (ConnectorAt(u.cfg, k, c) || ConnectorOn(u, k, c)) ==> HasCrtc(u, c))
  }

  /** The masks of each CRTC in the update name exactly the objects whose effective state points at it. */
  ghost predicate MasksAgree(u: Update)
    requires Shaped(u)
  {
    && (forall c: nat, p: nat :: HasCrtc(u, c) ==>
          (p in Crtc(u, c).planes <==> PlaneOn(u, p, c)))
    && (forall c: nat, k: nat :: HasCrtc(u, c) ==>
          (k in Crtc(u, c).connectors <==> ConnectorOn(u, k, c)))
  }

  ghost predicate Assembled(u: Update) {
    Shaped(u) && Closed(u) && MasksAgree(u)
  }

  /** Encoder assignments have not been touched yet, and modes agree. */
  ghost predicate Untouched(u: Update)
    requires Shaped(u)
  {
    && (forall c: nat :: HasCrtc(u, c) ==>
          Crtc(u, c).encoders == u.cfg.crtcs[c].encoders && ModeAgrees(Crtc(u, c)) && !NeedsModeset(Crtc(u, c)))
    && (forall k: nat :: HasConnector(u, k) ==> Connector(u, k).encoder == u.cfg.connectors[k].encoder)
  }

  /** An empty update is assembled. */
  lemma EmptyAssembled(cfg: Config)
    ensures Assembled(Empty(cfg)) && Untouched(Empty(cfg))
  {
  }

  lemma OffConsistent(best: (nat, nat) -> Option<nat>, fits: (nat, nat) -> bool, c: nat, p: nat, k: nat)
    ensures Consistent(Off(best, fits, c, p, k))
  {
  }

  /** Installing an assembled update re-establishes the links device-wide. */
  lemma InstalledLinked(u: Update)
    requires Assembled(u) && Linked(u.cfg)
    ensures Linked(Installed(u))
  {
    var cfg := Installed(u);
    forall p: nat, c: nat ensures PlaneAt(cfg, p, c) <==> PlaneOn(u, p, c) {}
    forall k: nat, c: nat ensures ConnectorAt(cfg, k, c) <==> ConnectorOn(u, k, c) {}
    forall p: nat, c: nat | !HasCrtc(u, c) ensures PlaneOn(u, p, c) <==> PlaneAt(u.cfg, p, c) {}
    forall k: nat, c: nat | !HasCrtc(u, c) ensures ConnectorOn(u, k, c) <==> ConnectorAt(u.cfg, k, c) {}
  }
}
