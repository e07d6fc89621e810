/** The observation model engine as a state machine: every public operation is
    a pure step from one state to the next together with the model events it
    hands to its sink. */
module EngineModel {
  import opened Common
  import opened Observations
  import opened LocalState
  import opened LldpIdentity

  datatype Classification =
    Artifact | LocalSelf | WeakCandidate | ProbableEndpoint | RemoteEndpoint | GatewayLike | TopologyPeer | Unknown

  datatype Status = Provisional | Confirmed | Aged | Expired | Removed

  datatype NeighborKey = NeighborKey(ifname: string, family: int, ip: string)

  datatype FdbKey = FdbKey(ifname: string, mac: string)

  datatype Candidate = Candidate(
    mac: string,
    ipv4: set<string>, ipv6: set<string>,
    bridgePort: Option<string>,
    neighborIfaces: set<string>,
    neighborEvidence: set<NeighborKey>, fdbEvidence: set<FdbKey>,
    seenInNeigh: bool, seenInFdb: bool, seenInLldp: bool,
    chassisId: Option<string>, portId: Option<string>, systemName: Option<string>,
    firstSeen: Time, lastSeen: Time,
    classification: Classification, status: Status)

  datatype Phase = Initializing | Live

  /** Interface policy and hard filter are fixed predicates; `macPasses` and
      `addressPasses` are the hard filter without its is-it-local tests. */
  datatype Config = Config(
    includeInLocalState: string -> bool,
    allowNeighborEvidence: string -> bool,
    allowFdbEvidence: string -> bool,
    allowLldpEvidence: string -> bool,
    macPasses: string -> bool,
    addressPasses: (string, string) -> bool,
    ageout: Time, expire: Time)

  datatype Engine = Engine(phase: Phase, local: Local, candidates: map<string, Candidate>)

  const NEW_ENGINE: Engine := Engine(Initializing, EMPTY, map[])

  datatype Notice = InterfaceChanged(ifname: string) | InterfaceRemoved(ifname: string) | AddressChanged(ifname: string)

  /** Events collected under the lock: the local notice, then `changed`, then `removed`. */
  datatype Pending = Pending(notice: Option<Notice>, changed: set<string>, removed: set<string>)

  const NOTHING: Pending := Pending(None, {}, {})

  datatype Out = Out(engine: Engine, pending: Pending)

  // ---------------------------------------------------------------------
  // Candidate rules
  // ---------------------------------------------------------------------

  /** The rule-based classifier. */
  function Classify(c: Candidate): Classification {
    if c.seenInLldp then TopologyPeer
    else if c.seenInFdb && c.ipv4 != {} then RemoteEndpoint
    else if c.seenInFdb && c.ipv6 != {} then RemoteEndpoint
    else if c.seenInFdb then RemoteEndpoint
    else if (c.ipv4 != {} || c.ipv6 != {}) && c.seenInNeigh then RemoteEndpoint
    else if c.seenInNeigh then WeakCandidate
    else Unknown
  }

  predicate ConfirmedWorthy(cls: Classification) {
    cls.RemoteEndpoint? || cls.GatewayLike? || cls.TopologyPeer?
  }

  predicate HasNoEvidence(c: Candidate) {
    !c.seenInNeigh && !c.seenInFdb && !c.seenInLldp && c.ipv4 == {} && c.ipv6 == {} && c.bridgePort.None?
  }

  predicate Publishable(c: Candidate) {
    (c.status.Confirmed? || c.status.Aged?) &&
    !c.classification.Artifact? && !c.classification.LocalSelf? && !c.classification.Unknown?
  }

  function Reclassified(c: Candidate): Candidate {
    c.(classification := Classify(c))
  }

  /** Revival, then the phase rule. */
  function NextStatus(phase: Phase, status: Status, cls: Classification, event: Event): Status {
    var revived :=
      if event.Present? && (status.Aged? || status.Expired?) then Confirmed
      else if event.Present? && status.Removed? then Provisional
      else status;
    if phase.Initializing? then (if revived.Removed? then Status.Removed else Provisional)
    else if revived.Provisional? && ConfirmedWorthy(cls) then Confirmed
    else revived
  }

  function Settled(phase: Phase, c: Candidate, event: Event): Candidate {
    var c' := Reclassified(c);
    c'.(status := NextStatus(phase, c'.status, c'.classification, event))
  }

  function NewCandidate(mac: string, now: Time): Candidate {
    Candidate(mac, {}, {}, None, {}, {}, {}, false, false, false, None, None, None, now, 0, Unknown, Provisional)
  }

  function WithNeighbor(c: Candidate, obs: NeighborObservation): Candidate {
    var key := NeighborKey(obs.ifname, obs.family, obs.ip);
    var c' :=
      if obs.event.Present? then
        c.(neighborEvidence := c.neighborEvidence + {key},
        neighborIfaces := c.neighborIfaces + {obs.ifname},
        lastSeen := obs.observedAt,
        ipv4 := if obs.family == AF_INET then c.ipv4 + {obs.ip} else c.ipv4,
        ipv6 := if obs.family == AF_INET then c.ipv6 else c.ipv6 + {obs.ip})
      else
        c.(neighborEvidence := c.neighborEvidence - {key},
        neighborIfaces := c.neighborIfaces - {obs.ifname},
        ipv4 := if obs.family == AF_INET then c.ipv4 - {obs.ip} else c.ipv4,
        ipv6 := if obs.family == AF_INET then c.ipv6 else c.ipv6 - {obs.ip});
    c'.(seenInNeigh := c'.neighborEvidence != {})
  }

  function WithFdb(c: Candidate, obs: FdbObservation): Candidate {
    var key := FdbKey(obs.portIfname, obs.mac);
    var c' :=
      if obs.event.Present? then
        c.(fdbEvidence := c.fdbEvidence + {key}, bridgePort := Some(obs.portIfname), lastSeen := obs.observedAt)
      else
        c.(fdbEvidence := c.fdbEvidence - {key},
        bridgePort := if c.bridgePort == Some(obs.portIfname) then None else c.bridgePort);
    c'.(seenInFdb := c'.fdbEvidence != {})
  }

  function WithLldp(c: Candidate, obs: LldpObservation): Candidate {
    if obs.event.Present? then
      c.(seenInLldp := true, chassisId := obs.chassisId, portId := obs.portId, systemName := obs.systemName,
      lastSeen := obs.observedAt, neighborIfaces := c.neighborIfaces + {obs.localIfname})
    else
      c.(seenInLldp := false, chassisId := None, portId := None, systemName := None,
      neighborIfaces := c.neighborIfaces - {obs.localIfname})
  }

  /** A keepalive refreshes and revives; it runs no phase rule. */
  function KeptAlive(c: Candidate, obs: LldpObservation): Candidate {
    var c' := Reclassified(WithLldp(c, obs));
    if c'.status.Aged? || c'.status.Expired? then c'.(status := Confirmed) else c'
  }

  function AgedCandidate(cfg: Config, c: Candidate, now: Time): Candidate {
    if c.status.Removed? || c.status.Provisional? then c
    else if now - c.lastSeen > cfg.expire then c.(status := Expired)
    else if now - c.lastSeen > cfg.ageout then c.(status := Aged)
    else c
  }

  /** Identity and timestamps survive a restart, everything else is forgotten. */
  function Wiped(c: Candidate): Candidate {
    NewCandidate(c.mac, c.firstSeen).(lastSeen := c.lastSeen)
  }

  function AsLocal(c: Candidate): Candidate {
    c.(classification := LocalSelf, status := Status.Removed)
  }

  // ---------------------------------------------------------------------
  // Engine steps
  // ---------------------------------------------------------------------

  function Record(mac: string, was: bool, isNow: bool): Pending {
    if isNow then Pending(None, {mac}, {})
    else if was then Pending(None, {}, {mac})
    else NOTHING
  }

  predicate HasIp(c: Candidate, ip: string) {
    ip in c.ipv4 || ip in c.ipv6
  }

  function LinkOn(cfg: Config, e: Engine, obs: LinkObservation): Out {
    if !cfg.includeInLocalState(obs.ifname) then Out(e, NOTHING)
    else
      var local := LinkStep(e.local, obs);
      var notice := Some(if obs.event.Removed? then InterfaceRemoved(obs.ifname) else InterfaceChanged(obs.ifname));
      if LinkReportsChange(e.local, obs) && obs.mac in e.candidates then
        var c := e.candidates[obs.mac];
        var candidates := if obs.mac in local.macRefs then e.candidates[obs.mac := AsLocal(c)] else e.candidates;
        Out(e.(local := local, candidates := candidates),
            Pending(notice, {}, if Publishable(c) then {obs.mac} else {}))
      else
        Out(e.(local := local), Pending(notice, {}, {}))
  }

  function ReconciledByIp(candidates: map<string, Candidate>, ip: string): map<string, Candidate> {
    map m | m in candidates :: if HasIp(candidates[m], ip) then AsLocal(candidates[m]) else candidates[m]
  }

  function PublishableWithIp(candidates: map<string, Candidate>, ip: string): set<string> {
    set m | m in candidates && HasIp(candidates[m], ip) && Publishable(candidates[m])
  }

  function AddressOn(cfg: Config, e: Engine, obs: AddressObservation): Out {
    if !cfg.includeInLocalState(obs.ifname) then Out(e, NOTHING)
    else
      var e' := e.(local := AddressStep(e.local, obs));
      var ip := IpOf(obs.cidr);
      if ip == "" then Out(e', NOTHING)
      else if obs.event.Present? then
        Out(e'.(candidates := ReconciledByIp(e.candidates, ip)),
            Pending(Some(AddressChanged(obs.ifname)), {}, PublishableWithIp(e.candidates, ip)))
      else Out(e', Pending(Some(AddressChanged(obs.ifname)), {}, {}))
  }

  function GetOrCreate(e: Engine, mac: string, now: Time): Candidate {
    if mac in e.candidates then e.candidates[mac] else NewCandidate(mac, now)
  }

  /** The shared tail of the evidence handlers: a candidate without evidence
      is erased, any other is reclassified and moved along the status machine. */
  function Observe(e: Engine, mac: string, prior: Candidate, c: Candidate, event: Event): Out {
    if HasNoEvidence(c) then
      Out(e.(candidates := e.candidates - {mac}), Record(mac, Publishable(prior), false))
    else
      var c' := Settled(e.phase, c, event);
      Out(e.(candidates := e.candidates[mac := c']), Record(mac, Publishable(prior), Publishable(c')))
  }

  predicate NeighborAdmitted(cfg: Config, local: Local, obs: NeighborObservation) {
    cfg.allowNeighborEvidence(obs.ifname) && cfg.macPasses(obs.mac) && cfg.addressPasses(obs.ifname, obs.ip) &&
    obs.mac !in local.macRefs && obs.ip !in local.ipRefs
  }

  function NeighborOn(cfg: Config, e: Engine, obs: NeighborObservation, now: Time): Out {
    if !NeighborAdmitted(cfg, e.local, obs) then Out(e, NOTHING)
    else
      var c := GetOrCreate(e, obs.mac, now);
      Observe(e, obs.mac, c, WithNeighbor(c, obs), obs.event)
  }

  predicate FdbAdmitted(cfg: Config, local: Local, obs: FdbObservation) {
    cfg.allowFdbEvidence(obs.portIfname) && cfg.macPasses(obs.mac) && obs.mac !in local.macRefs &&
    !obs.entryKind.FdbLocal? && !obs.entryKind.FdbControlPlane?
  }

  function FdbOn(cfg: Config, e: Engine, obs: FdbObservation, now: Time): Out {
    if !FdbAdmitted(cfg, e.local, obs) then Out(e, NOTHING)
    else
      var c := GetOrCreate(e, obs.mac, now);
      Observe(e, obs.mac, c, WithFdb(c, obs), obs.event)
  }

  predicate LldpAllowed(cfg: Config, obs: LldpObservation) {
    cfg.allowLldpEvidence(obs.localIfname) && Resolve(obs.chassisId, obs.portId) != ""
  }

  predicate LldpAdmitted(cfg: Config, e: Engine, obs: LldpObservation) {
    var key := Resolve(obs.chassisId, obs.portId);
    LldpAllowed(cfg, obs) &&
    (obs.keepalive ==> obs.event.Present? && key in e.candidates && !e.candidates[key].status.Removed?)
  }

  function LldpOn(cfg: Config, e: Engine, obs: LldpObservation, now: Time): Out {
    if !LldpAdmitted(cfg, e, obs) then Out(e, NOTHING)
    else
      var key := Resolve(obs.chassisId, obs.portId);
      var c := GetOrCreate(e, key, now);
      if obs.keepalive then
        var c' := KeptAlive(c, obs);
        Out(e.(candidates := e.candidates[key := c']),
            if c'.status != c.status || c'.classification != c.classification
            then Record(key, Publishable(c), Publishable(c')) else NOTHING)
      else
        Observe(e, key, c, WithLldp(c, obs), obs.event)
  }

  type Candidates = map<string, Candidate>

  function AgedAll(cfg: Config, cs: Candidates, now: Time): Candidates {
    map m | m in cs :: AgedCandidate(cfg, cs[m], now)
  }

  predicate AgeMoves(cfg: Config, c: Candidate, now: Time) {
    AgedCandidate(cfg, c, now).status != c.status
  }

  function AgeChanged(cfg: Config, cs: Candidates, now: Time): set<string> {
    set m | m in cs && AgeMoves(cfg, cs[m], now) && Publishable(AgedCandidate(cfg, cs[m], now))
  }

  function AgeRemoved(cfg: Config, cs: Candidates, now: Time): set<string> {
    set m | m in cs && AgeMoves(cfg, cs[m], now) && Publishable(cs[m]) && !Publishable(AgedCandidate(cfg, cs[m], now))
  }

  function AgeOn(cfg: Config, e: Engine, now: Time): Out {
    Out(e.(candidates := AgedAll(cfg, e.candidates, now)),
        Pending(None, AgeChanged(cfg, e.candidates, now), AgeRemoved(cfg, e.candidates, now)))
  }

  function WipedAll(cs: Candidates): Candidates {
    map m | m in cs :: Wiped(cs[m])
  }

  function PublishableMacs(cs: Candidates): set<string> {
    set m | m in cs && Publishable(cs[m])
  }

  function RestartOn(e: Engine): Out {
    Out(Engine(Initializing, EMPTY, WipedAll(e.candidates)), Pending(None, {}, PublishableMacs(e.candidates)))
  }

  predicate Promoted(c: Candidate) {
    c.status.Provisional? && ConfirmedWorthy(Classify(c))
  }

  /** Provisional candidates are promoted or dropped; tombstones stay. */
  function PromotedAll(cs: Candidates): Candidates {
    map m | m in cs && (!cs[m].status.Provisional? || Promoted(cs[m])) ::
      if Promoted(cs[m]) then Reclassified(cs[m]).(status := Confirmed) else cs[m]
  }

  function PromotedMacs(cs: Candidates): set<string> {
    set m | m in cs && Promoted(cs[m])
  }

  function MarkLiveOn(e: Engine): Out {
    Out(Engine(Live, e.local, PromotedAll(e.candidates)), Pending(None, PromotedMacs(e.candidates), {}))
  }

  datatype Op =
    | LinkOp(link: LinkObservation)
    | AddressOp(addr: AddressObservation)
    | NeighborOp(neigh: NeighborObservation, now: Time)
    | FdbOp(fdb: FdbObservation, now: Time)
    | LldpOp(lldp: LldpObservation, now: Time)
    | AgeOp(now: Time)
    | RestartOp
    | MarkLiveOp

  function Step(cfg: Config, e: Engine, op: Op): Out {
    match op
    case LinkOp(obs) => LinkOn(cfg, e, obs)
    case AddressOp(obs) => AddressOn(cfg, e, obs)
    case NeighborOp(obs, now) => NeighborOn(cfg, e, obs, now)
    case FdbOp(obs, now) => FdbOn(cfg, e, obs, now)
    case LldpOp(obs, now) => LldpOn(cfg, e, obs, now)
    case AgeOp(now) => AgeOn(cfg, e, now)
    case RestartOp => RestartOn(e)
    case MarkLiveOp => MarkLiveOn(e)
  }

  function Run(cfg: Config, e: Engine, ops: seq<Op>): Engine {
    if ops == [] then e else Step(cfg, Run(cfg, e, ops[..|ops| - 1]), ops[|ops| - 1]).engine
  }

  // ---------------------------------------------------------------------
  // Queries
  // ---------------------------------------------------------------------

  function At(e: Engine, mac: string): Option<Candidate> {
    if mac in e.candidates then Some(e.candidates[mac]) else None
  }

  predicate Shown(oc: Option<Candidate>) {
    oc.Some? && Publishable(oc.value)
  }

  /** `findCandidateByMac`: hidden candidates do not exist for a client. */
  function Visible(e: Engine, mac: string): Option<Candidate> {
    if Shown(At(e, mac)) then At(e, mac) else None
  }

  /** `remoteCandidates`. */
  function RemoteCandidates(e: Engine): set<Candidate> {
    set m | m in e.candidates && Publishable(e.candidates[m]) :: e.candidates[m]
  }
}
