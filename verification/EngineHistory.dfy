/** Independent reference for the engine: what a client sees of a MAC, read
    off the history of operations alone. */
module EngineHistory {
  import opened Common
  import opened Observations
  import opened LocalState
  import opened LldpIdentity
  import opened EngineModel
  import opened EngineInvariant

  // ---------------------------------------------------------------------
  // The reference
  // ---------------------------------------------------------------------

  datatype Freshness = Fresh | Stale | Gone

  /** What the history says about one MAC. `known`: an identity is kept for it,
      since `firstSeen`; `hidden`: it turned out to be local and has not been
      sighted since; `labelled`: nor has its evidence changed since. Each set holds the last word per key, the IP and interface
      sets whichever key it came with; ids, system name and port are the last
      ones announced. */
  datatype Sightings = Sightings(
    known: bool, hidden: bool, labelled: bool, freshness: Freshness, firstSeen: Time, lastSeen: Time,
    neighbors: set<NeighborKey>, ipv4: set<string>, ipv6: set<string>, ifaces: set<string>,
    fdb: set<FdbKey>, port: Option<string>,
    lldp: bool, chassisId: Option<string>, portId: Option<string>, systemName: Option<string>)

  const UNSEEN: Sightings :=
    Sightings(false, false, false, Fresh, 0, 0, {}, {}, {}, {}, {}, None, false, None, None, None)

  /** Phase and local state, from the local observations and lifecycle calls. */
  datatype Situation = Situation(phase: Phase, local: Local)

  function SituationAfter(cfg: Config, ops: seq<Op>): Situation {
    if ops == [] then Situation(Initializing, EMPTY)
    else
      var before := SituationAfter(cfg, ops[..|ops| - 1]);
      match ops[|ops| - 1]
      case LinkOp(obs) => if cfg.includeInLocalState(obs.ifname) then before.(local := LinkStep(before.local, obs)) else before
      case AddressOp(obs) => if cfg.includeInLocalState(obs.ifname) then before.(local := AddressStep(before.local, obs)) else before
      case RestartOp => Situation(Initializing, EMPTY)
      case MarkLiveOp => before.(phase := Live)
      case _ => before
  }

  predicate Evident(s: Sightings) {
    s.neighbors != {} || s.fdb != {} || s.lldp
  }

  function ClassOf(s: Sightings): Classification {
    if s.lldp then TopologyPeer
    else if s.fdb != {} then RemoteEndpoint
    else if s.neighbors == {} then Unknown
    else if s.ipv4 != {} || s.ipv6 != {} then RemoteEndpoint
    else WeakCandidate
  }

  function StatusOf(phase: Phase, s: Sightings): Status {
    if s.hidden then Status.Removed
    else if phase.Initializing? then Provisional
    else if s.freshness.Fresh? then Confirmed
    else if s.freshness.Stale? then Aged
    else Expired
  }

  /** Going live forgets an identity that is neither hidden nor backed by more
      than neighbour keys whose IPs have all been withdrawn. */
  predicate TooWeak(phase: Phase, s: Sightings) {
    phase.Initializing? && !s.hidden && !ConfirmedWorthy(ClassOf(s))
  }

  /** After an admitted observation: without evidence nothing is kept; a
      sighting reveals and refreshes. */
  function Heard(s: Sightings, event: Event): Sightings {
    if !Evident(s) then UNSEEN
    else if event.Present? then s.(known := true, hidden := false, labelled := false, freshness := Fresh)
    else s.(known := true, labelled := false)
  }

  function Hidden(s: Sightings): Sightings {
    s.(hidden := true, labelled := true, freshness := Fresh)
  }

  function WithNews(s: Sightings, obs: NeighborObservation): Sightings {
    var key := NeighborKey(obs.ifname, obs.family, obs.ip);
    var ips := if obs.family == AF_INET then s.ipv4 else s.ipv6;
    var ips' := if obs.event.Present? then ips + {obs.ip} else ips - {obs.ip};
    s.(neighbors := if obs.event.Present? then s.neighbors + {key} else s.neighbors - {key},
    ipv4 := if obs.family == AF_INET then ips' else s.ipv4,
    ipv6 := if obs.family == AF_INET then s.ipv6 else ips',
    ifaces := if obs.event.Present? then s.ifaces + {obs.ifname} else s.ifaces - {obs.ifname},
    lastSeen := if obs.event.Present? then obs.observedAt else s.lastSeen)
  }

  function ToldNeighbor(s: Sightings, obs: NeighborObservation): Sightings {
    Heard(WithNews(s, obs), obs.event)
  }

  function ToldFdb(s: Sightings, obs: FdbObservation): Sightings {
    var key := FdbKey(obs.portIfname, obs.mac);
    var s' :=
      if obs.event.Present? then
        s.(fdb := s.fdb + {key}, port := Some(obs.portIfname), lastSeen := obs.observedAt)
      else
        s.(fdb := s.fdb - {key}, port := if s.port == Some(obs.portIfname) then None else s.port);
    Heard(s', obs.event)
  }

  function ToldLldp(s: Sightings, obs: LldpObservation): Sightings {
    var s' :=
      if obs.event.Present? then
        s.(lldp := true, chassisId := obs.chassisId, portId := obs.portId, systemName := obs.systemName,
        ifaces := s.ifaces + {obs.localIfname}, lastSeen := obs.observedAt)
      else
        s.(lldp := false, chassisId := None, portId := None, systemName := None, ifaces := s.ifaces - {obs.localIfname});
    if obs.keepalive then s'.(freshness := Fresh) else Heard(s', obs.event)
  }

  /** An identity starts with the operation that first mentions it. */
  function Met(s: Sightings, now: Time): Sightings {
    if s.known then s else s.(firstSeen := now)
  }

  /** The observations that count for a MAC: their kind is allowed on their
      interface, they pass the hard filter, and neither the MAC nor the
      neighbour's IP is local. LLDP is not compared with local state, and its
      keepalives only count for a known MAC that is not hidden. */
  predicate Heeds(cfg: Config, local: Local, s: Sightings, op: Op, m: string) {
    match op
    case NeighborOp(obs, _) =>
      && m == obs.mac && cfg.allowNeighborEvidence(obs.ifname)
      && cfg.macPasses(m) && cfg.addressPasses(obs.ifname, obs.ip)
      && m !in local.macRefs && obs.ip !in local.ipRefs
    case FdbOp(obs, _) =>
      && m == obs.mac && cfg.allowFdbEvidence(obs.portIfname)
      && cfg.macPasses(m) && m !in local.macRefs
      && (obs.entryKind.FdbUnknown? || obs.entryKind.FdbDynamic? || obs.entryKind.FdbStatic?)
    case LldpOp(obs, _) =>
      && m == Resolve(obs.chassisId, obs.portId) && m != "" && cfg.allowLldpEvidence(obs.localIfname)
      && (obs.keepalive ==> obs.event.Present? && s.known && !s.hidden)
    case _ => false
  }

  function Grown(cfg: Config, s: Sightings, now: Time): Sightings {
    if now - s.lastSeen > cfg.expire then s.(freshness := Gone)
    else if now - s.lastSeen > cfg.ageout then s.(freshness := Stale)
    else s
  }

  /** What one operation, leading to local state `after`, adds to the history of one MAC. */
  function Told(cfg: Config, at: Situation, after: Local, s: Sightings, op: Op, m: string): Sightings {
    match op
    case NeighborOp(obs, now) => if Heeds(cfg, at.local, s, op, m) then ToldNeighbor(Met(s, now), obs) else s
    case FdbOp(obs, now) => if Heeds(cfg, at.local, s, op, m) then ToldFdb(Met(s, now), obs) else s
    case LldpOp(obs, now) => if Heeds(cfg, at.local, s, op, m) then ToldLldp(Met(s, now), obs) else s
    case LinkOp(obs) =>
      if s.known && obs.mac == m && m in after.macRefs && Moved(at.local, after, obs.ifname) then Hidden(s) else s
    case AddressOp(obs) =>
      var ip := IpOf(obs.cidr);
      if cfg.includeInLocalState(obs.ifname) && obs.event.Present? && ip != "" && ip in s.ipv4 + s.ipv6
      then Hidden(s) else s
    case AgeOp(now) => if at.phase.Initializing? || !s.known || s.hidden then s else Grown(cfg, s, now)
    case RestartOp => UNSEEN.(known := s.known, firstSeen := s.firstSeen, lastSeen := s.lastSeen)
    case MarkLiveOp => if TooWeak(at.phase, s) then UNSEEN else s
  }

  function History(cfg: Config, ops: seq<Op>, m: string): Sightings {
    if ops == [] then UNSEEN
    else
      var front := ops[..|ops| - 1];
      Told(cfg, SituationAfter(cfg, front), SituationAfter(cfg, ops).local, History(cfg, front, m), ops[|ops| - 1], m)
  }

  // ---------------------------------------------------------------------
  // The engine follows it
  // ---------------------------------------------------------------------

  function FreshnessOf(status: Status): Freshness {
    if status.Aged? then Stale else if status.Expired? then Gone else Fresh
  }

  function Seen(oc: Option<Candidate>): Sightings {
    if oc.None? then UNSEEN
    else
      var c := oc.value;
      Sightings(true, c.status.Removed?, c.classification.LocalSelf?, FreshnessOf(c.status), c.firstSeen, c.lastSeen,
                c.neighborEvidence, c.ipv4, c.ipv6, c.neighborIfaces, c.fdbEvidence, c.bridgePort,
                c.seenInLldp, c.chassisId, c.portId, c.systemName)
  }

  lemma {:induction false} SituationFollows(cfg: Config, ops: seq<Op>)
    ensures var e := Run(cfg, NEW_ENGINE, ops); SituationAfter(cfg, ops) == Situation(e.phase, e.local)
  {
    if ops != [] {
      SituationFollows(cfg, ops[..|ops| - 1]);
    }
  }

  function Surroundings(e: Engine): Situation {
    Situation(e.phase, e.local)
  }

  /** The shared tail of the evidence handlers, in terms of the history. */
  lemma ObserveSeen(e: Engine, m: string, prior: Candidate, c: Candidate, event: Event)
    requires c.mac == m && Coupled(c) && c.status == prior.status
    requires e.phase.Initializing? ==> c.status.Provisional? || c.status.Removed?
    requires event.Present? ==> ConfirmedWorthy(Classify(c))
    requires event.Removed? && !HasNoEvidence(c) && e.phase.Live? ==> !c.status.Provisional?
    ensures Seen(At(Observe(e, m, prior, c, event).engine, m)) == Heard(Seen(Some(c)), event)
  {
    NoEvidenceIsBare(c);
  }

  lemma NeighborConvinces(c: Candidate, obs: NeighborObservation)
    ensures obs.event.Present? ==> ConfirmedWorthy(Classify(WithNeighbor(c, obs)))
  {
    if obs.event.Present? {
      var c' := WithNeighbor(c, obs);
      assert NeighborKey(obs.ifname, obs.family, obs.ip) in c'.neighborEvidence;
      assert obs.ip in c'.ipv4 || obs.ip in c'.ipv6;
    }
  }

  lemma NewsSeen(c: Candidate, obs: NeighborObservation)
    ensures Seen(Some(WithNeighbor(c, obs))) == WithNews(Seen(Some(c)), obs)
  {
  }

  lemma MetSeen(e: Engine, m: string, now: Time)
    ensures Seen(Some(GetOrCreate(e, m, now))) == Met(Seen(At(e, m)), now).(known := true)
  {
  }

  lemma NeighborSeen(cfg: Config, e: Engine, obs: NeighborObservation, now: Time)
    requires EngineOk(e) && NeighborAdmitted(cfg, e.local, obs)
    ensures Seen(At(NeighborOn(cfg, e, obs, now).engine, obs.mac)) == ToldNeighbor(Met(Seen(At(e, obs.mac)), now), obs)
  {
    var c := GetOrCreate(e, obs.mac, now);
    var c' := WithNeighbor(c, obs);
    assert obs.mac in e.candidates ==> CandidateOk(e.phase, obs.mac, c);
    NewCandidateCoupled(obs.mac, now);
    NeighborCoupled(c, obs);
    NoEvidenceIsBare(c');
    NeighborConvinces(c, obs);
    ObserveSeen(e, obs.mac, c, c', obs.event);
    NewsSeen(c, obs);
    MetSeen(e, obs.mac, now);
  }

  lemma FdbSeen(cfg: Config, e: Engine, obs: FdbObservation, now: Time)
    requires EngineOk(e) && FdbAdmitted(cfg, e.local, obs)
    ensures Seen(At(FdbOn(cfg, e, obs, now).engine, obs.mac)) == ToldFdb(Met(Seen(At(e, obs.mac)), now), obs)
  {
    var c := GetOrCreate(e, obs.mac, now);
    var c' := WithFdb(c, obs);
    assert obs.mac in e.candidates ==> CandidateOk(e.phase, obs.mac, c);
    NewCandidateCoupled(obs.mac, now);
    FdbCoupled(c, obs);
    NoEvidenceIsBare(c');
    if obs.event.Present? {
      assert FdbKey(obs.portIfname, obs.mac) in c'.fdbEvidence;
    }
    ObserveSeen(e, obs.mac, c, c', obs.event);
  }

  lemma LldpSeen(cfg: Config, e: Engine, obs: LldpObservation, now: Time)
    requires EngineOk(e) && LldpAdmitted(cfg, e, obs)
    ensures var m := Resolve(obs.chassisId, obs.portId);
            Seen(At(LldpOn(cfg, e, obs, now).engine, m)) == ToldLldp(Met(Seen(At(e, m)), now), obs)
  {
    var m := Resolve(obs.chassisId, obs.portId);
    var c := GetOrCreate(e, m, now);
    assert m in e.candidates ==> CandidateOk(e.phase, m, c);
    if !obs.keepalive {
      NewCandidateCoupled(m, now);
      LldpCoupled(c, obs);
      NoEvidenceIsBare(WithLldp(c, obs));
      ObserveSeen(e, m, c, WithLldp(c, obs), obs.event);
    }
  }

  function ToldBy(cfg: Config, e: Engine, op: Op, m: string): Sightings {
    Told(cfg, Surroundings(e), Step(cfg, e, op).engine.local, Seen(At(e, m)), op, m)
  }

  lemma LocalOpSeen(cfg: Config, e: Engine, op: Op, m: string)
    requires Sound(e.local) && (op.LinkOp? || op.AddressOp?)
    ensures Seen(At(Step(cfg, e, op).engine, m)) == ToldBy(cfg, e, op, m)
  {
    var e' := Step(cfg, e, op).engine;
    assert m in e'.candidates <==> m in e.candidates;
    if op.LinkOp? {
      ReportsMeanChange(e.local, op.link, AddressObservation("", Present, AF_INET, ""));
    }
  }

  lemma GrownSeen(cfg: Config, phase: Phase, m: string, c: Candidate, now: Time)
    requires CandidateOk(phase, m, c)
    ensures Seen(Some(AgedCandidate(cfg, c, now))) ==
            if phase.Initializing? || c.status.Removed? then Seen(Some(c)) else Grown(cfg, Seen(Some(c)), now)
  {
  }

  lemma AgeSeen(cfg: Config, e: Engine, now: Time, m: string)
    requires EngineOk(e)
    ensures Seen(At(AgeOn(cfg, e, now).engine, m)) == ToldBy(cfg, e, AgeOp(now), m)
  {
    if m in e.candidates {
      assert CandidateOk(e.phase, m, e.candidates[m]);
      GrownSeen(cfg, e.phase, m, e.candidates[m], now);
      assert At(AgeOn(cfg, e, now).engine, m) == Some(AgedCandidate(cfg, e.candidates[m], now));
    }
  }

  lemma RestartSeen(cfg: Config, e: Engine, m: string)
    ensures Seen(At(RestartOn(e).engine, m)) == ToldBy(cfg, e, RestartOp, m)
  {
  }

  lemma MarkLiveSeen(cfg: Config, e: Engine, m: string)
    requires EngineOk(e)
    ensures Seen(At(MarkLiveOn(e).engine, m)) == ToldBy(cfg, e, MarkLiveOp, m)
  {
    if m in e.candidates {
      assert CandidateOk(e.phase, m, e.candidates[m]);
      assert ClassOf(Seen(At(e, m))) == Classify(e.candidates[m]);
    }
  }

  /** An unheeded observation leaves the candidate alone. */
  lemma Unheeded(cfg: Config, e: Engine, op: Op, m: string)
    requires op.NeighborOp? || op.FdbOp? || op.LldpOp?
    requires !Heeds(cfg, e.local, Seen(At(e, m)), op, m)
    ensures At(Step(cfg, e, op).engine, m) == At(e, m)
  {
  }

  lemma StepSeen(cfg: Config, e: Engine, op: Op, m: string)
    requires EngineOk(e) && Sound(e.local)
    ensures Seen(At(Step(cfg, e, op).engine, m)) == ToldBy(cfg, e, op, m)
  {
    match op
    case LinkOp(_) => LocalOpSeen(cfg, e, op, m);
    case AddressOp(_) => LocalOpSeen(cfg, e, op, m);
    case AgeOp(now) => AgeSeen(cfg, e, now, m);
    case RestartOp => RestartSeen(cfg, e, m);
    case MarkLiveOp => MarkLiveSeen(cfg, e, m);
    case _ =>
      if !Heeds(cfg, e.local, Seen(At(e, m)), op, m) {
        Unheeded(cfg, e, op, m);
      } else {
        HeededSeen(cfg, e, op, m);
      }
  }

  lemma HeededSeen(cfg: Config, e: Engine, op: Op, m: string)
    requires EngineOk(e) && Heeds(cfg, e.local, Seen(At(e, m)), op, m)
    ensures Seen(At(Step(cfg, e, op).engine, m)) == ToldBy(cfg, e, op, m)
  {
    match op
    case NeighborOp(obs, now) => NeighborSeen(cfg, e, obs, now);
    case FdbOp(obs, now) => FdbSeen(cfg, e, obs, now);
    case LldpOp(obs, now) => LldpSeen(cfg, e, obs, now);
  }

  lemma {:induction false} RunSound(cfg: Config, ops: seq<Op>)
    ensures Sound(Run(cfg, NEW_ENGINE, ops).local)
  {
    if ops == [] {
      EmptyExact();
    } else {
      RunSound(cfg, ops[..|ops| - 1]);
      StepKeepsSound(cfg, Run(cfg, NEW_ENGINE, ops[..|ops| - 1]), ops[|ops| - 1]);
    }
  }

  /** After every run, what the engine keeps of a MAC is what the history of
      operations alone says: evidence with the last word per key, since the last
      restart or the last go-live that found it too weak. */
  lemma {:induction false} EvidenceIsHistory(cfg: Config, ops: seq<Op>, m: string)
    ensures Seen(At(Run(cfg, NEW_ENGINE, ops), m)) == History(cfg, ops, m)
  {
    if ops != [] {
      var front := ops[..|ops| - 1];
      EvidenceIsHistory(cfg, front, m);
      SituationFollows(cfg, front);
      SituationFollows(cfg, ops);
      RunKeepsOk(cfg, front);
      RunSound(cfg, front);
      StepSeen(cfg, Run(cfg, NEW_ENGINE, front), ops[|ops| - 1], m);
    }
  }

  /** The candidate that a history describes. */
  function Described(phase: Phase, s: Sightings, m: string): Candidate {
    Candidate(m, s.ipv4, s.ipv6, s.port, s.ifaces, s.neighbors, s.fdb, s.neighbors != {}, s.fdb != {}, s.lldp,
              s.chassisId, s.portId, s.systemName, s.firstSeen, s.lastSeen,
              if s.labelled then LocalSelf else ClassOf(s), StatusOf(phase, s))
  }

  /** So the whole candidate table, hidden candidates included, is a function
      of the history, in every field. */
  lemma TableIsHistory(cfg: Config, ops: seq<Op>, m: string)
    ensures var h, phase := History(cfg, ops, m), SituationAfter(cfg, ops).phase;
            At(Run(cfg, NEW_ENGINE, ops), m) == if h.known then Some(Described(phase, h, m)) else None
  {
    var e := Run(cfg, NEW_ENGINE, ops);
    EvidenceIsHistory(cfg, ops, m);
    SituationFollows(cfg, ops);
    RunKeepsOk(cfg, ops);
    if m in e.candidates {
      assert CandidateOk(e.phase, m, e.candidates[m]);
    }
  }

  /** And it decides what a client sees: nothing before the model goes live,
      afterwards every known MAC that is neither hidden nor expired. */
  lemma VisibleIsHistory(cfg: Config, ops: seq<Op>, m: string)
    ensures var h, phase := History(cfg, ops, m), SituationAfter(cfg, ops).phase;
            Visible(Run(cfg, NEW_ENGINE, ops), m) ==
            if phase.Live? && h.known && !h.hidden && !h.freshness.Gone? then Some(Described(phase, h, m)) else None
  {
    var e := Run(cfg, NEW_ENGINE, ops);
    TableIsHistory(cfg, ops, m);
    SituationFollows(cfg, ops);
    EvidenceIsHistory(cfg, ops, m);
    RunKeepsOk(cfg, ops);
    if m in e.candidates {
      assert CandidateOk(e.phase, m, e.candidates[m]);
      NoEvidenceIsBare(e.candidates[m]);
    }
  }

  // ---------------------------------------------------------------------
  // Status
  // ---------------------------------------------------------------------

  predicate IsObservation(op: Op) {
    op.NeighborOp? || op.FdbOp? || op.LldpOp?
  }

  function EventOf(op: Op): Event
    requires IsObservation(op)
  {
    match op
    case NeighborOp(obs, _) => obs.event
    case FdbOp(obs, _) => obs.event
    case LldpOp(obs, _) => obs.event
  }

  function ObservedAt(op: Op): Time
    requires IsObservation(op)
  {
    match op
    case NeighborOp(obs, _) => obs.observedAt
    case FdbOp(obs, _) => obs.observedAt
    case LldpOp(obs, _) => obs.observedAt
  }

  predicate Counts(cfg: Config, ops: seq<Op>, op: Op, m: string) {
    IsObservation(op) && Heeds(cfg, SituationAfter(cfg, ops).local, History(cfg, ops, m), op, m)
  }

  lemma RunOn(cfg: Config, ops: seq<Op>, op: Op)
    ensures Run(cfg, NEW_ENGINE, ops + [op]) == Step(cfg, Run(cfg, NEW_ENGINE, ops), op).engine
    ensures SituationAfter(cfg, ops + [op]).phase == if op.RestartOp? then Initializing else if op.MarkLiveOp? then Live else SituationAfter(cfg, ops).phase
    ensures forall m :: History(cfg, ops + [op], m) ==
                        Told(cfg, SituationAfter(cfg, ops), SituationAfter(cfg, ops + [op]).local, History(cfg, ops, m), op, m)
  {
    assert (ops + [op])[..|ops|] == ops;
  }

  /** Once live, a sighting that counts makes its MAC visible and Confirmed, as
      of the time of the sighting, whatever the candidate was before: unknown,
      aged, expired or a tombstone. */
  lemma SightingConfirms(cfg: Config, ops: seq<Op>, op: Op, m: string)
    requires Run(cfg, NEW_ENGINE, ops).phase.Live? && Counts(cfg, ops, op, m) && EventOf(op).Present?
    ensures var v := Visible(Step(cfg, Run(cfg, NEW_ENGINE, ops), op).engine, m);
            v.Some? && v.value.status.Confirmed? && v.value.lastSeen == ObservedAt(op)
  {
    SituationFollows(cfg, ops);
    RunOn(cfg, ops, op);
    VisibleIsHistory(cfg, ops + [op], m);
    SightingReveals(cfg, SituationAfter(cfg, ops), SituationAfter(cfg, ops + [op]).local, History(cfg, ops, m), op, m);
  }

  lemma SightingReveals(cfg: Config, at: Situation, after: Local, s: Sightings, op: Op, m: string)
    requires IsObservation(op) && Heeds(cfg, at.local, s, op, m) && EventOf(op).Present?
    ensures var s' := Told(cfg, at, after, s, op, m);
            s'.known && !s'.hidden && s'.freshness.Fresh? && s'.lastSeen == ObservedAt(op)
  {
    match op
    case NeighborOp(obs, _) => assert NeighborKey(obs.ifname, obs.family, obs.ip) in s.neighbors + {NeighborKey(obs.ifname, obs.family, obs.ip)};
    case FdbOp(obs, _) => assert FdbKey(obs.portIfname, obs.mac) in s.fdb + {FdbKey(obs.portIfname, obs.mac)};
    case LldpOp(_, _) =>
  }

  /** A withdrawal that counts revives nothing: it keeps the status of a
      candidate that has evidence left and erases the candidate otherwise. */
  lemma WithdrawalOnlyErases(cfg: Config, ops: seq<Op>, op: Op, m: string)
    requires Counts(cfg, ops, op, m) && EventOf(op).Removed?
    ensures var e := Run(cfg, NEW_ENGINE, ops);
            var after := At(Step(cfg, e, op).engine, m);
            && (after.None? <==> !Evident(History(cfg, ops + [op], m)))
            && (after.Some? ==> At(e, m).Some? && after.value.status == At(e, m).value.status
                                && after.value.lastSeen == At(e, m).value.lastSeen)
  {
    var e := Run(cfg, NEW_ENGINE, ops);
    SituationFollows(cfg, ops);
    RunOn(cfg, ops, op);
    EvidenceIsHistory(cfg, ops, m);
    EvidenceIsHistory(cfg, ops + [op], m);
    WithdrawalTold(cfg, SituationAfter(cfg, ops), SituationAfter(cfg, ops + [op]).local, History(cfg, ops, m), op, m);
    SeenStatus(cfg, ops, m);
    SeenStatus(cfg, ops + [op], m);
  }

  lemma WithdrawalTold(cfg: Config, at: Situation, after: Local, s: Sightings, op: Op, m: string)
    requires IsObservation(op) && Heeds(cfg, at.local, s, op, m) && EventOf(op).Removed?
    requires !s.known ==> s == UNSEEN
    ensures var s' := Told(cfg, at, after, s, op, m);
            if Evident(s') then s.known && s'.known && s'.hidden == s.hidden && s'.freshness == s.freshness && s'.lastSeen == s.lastSeen
            else s' == UNSEEN
  {
  }

  /** A candidate exists exactly for known MACs, with the status the history gives it. */
  lemma SeenStatus(cfg: Config, ops: seq<Op>, m: string)
    ensures var e, h := Run(cfg, NEW_ENGINE, ops), History(cfg, ops, m);
            && (m in e.candidates <==> h.known)
            && (!h.known ==> h == UNSEEN)
            && (h.known ==> e.candidates[m].status == StatusOf(e.phase, h) && e.candidates[m].lastSeen == h.lastSeen)
  {
    EvidenceIsHistory(cfg, ops, m);
    RunKeepsOk(cfg, ops);
    var e := Run(cfg, NEW_ENGINE, ops);
    assert m in e.candidates ==> CandidateOk(e.phase, m, e.candidates[m]);
  }

  /** Aging in terms of what a client sees: a visible candidate stays visible
      exactly while it is no older than the expiry time, and shows as Aged
      exactly when it is older than the age-out time or was Aged before. */
  lemma AgingMeaning(cfg: Config, e: Engine, now: Time, m: string)
    requires cfg.ageout <= cfg.expire && Visible(e, m).Some?
    ensures var c := Visible(e, m).value;
            var v := Visible(AgeOn(cfg, e, now).engine, m);
            && (v.Some? <==> now - c.lastSeen <= cfg.expire)
            && (v.Some? ==> v.value == c.(status := v.value.status) &&
                            (v.value.status.Aged? <==> now - c.lastSeen > cfg.ageout || c.status.Aged?))
  {
  }
}
