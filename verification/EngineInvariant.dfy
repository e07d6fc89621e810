/** What every reachable engine state keeps: evidence coupling, the phase
    rule, and the hiding of local MACs. */
module EngineInvariant {
  import opened Common
  import opened Observations
  import opened LocalState
  import opened LldpIdentity
  import opened EngineModel

  // ---------------------------------------------------------------------
  // Evidence and phase
  // ---------------------------------------------------------------------

  /** Derived fields of one candidate match its evidence sets. */
  ghost predicate Coupled(c: Candidate) {
    && (c.seenInNeigh <==> c.neighborEvidence != {})
    && (c.seenInFdb <==> c.fdbEvidence != {})
    && (c.bridgePort.Some? ==> FdbKey(c.bridgePort.value, c.mac) in c.fdbEvidence)
    && (forall ip :: ip in c.ipv4 ==> exists k :: k in c.neighborEvidence && k.family == AF_INET && k.ip == ip)
    && (forall ip :: ip in c.ipv6 ==> exists k :: k in c.neighborEvidence && k.family != AF_INET && k.ip == ip)
  }

  /** No neighbour key, no FDB key and no LLDP mark. */
  ghost predicate Bare(c: Candidate) {
    c.neighborEvidence == {} && c.fdbEvidence == {} && !c.seenInLldp
  }

  lemma NoEvidenceIsBare(c: Candidate)
    requires Coupled(c)
    ensures HasNoEvidence(c) <==> Bare(c)
  {
  }

  ghost predicate CandidateOk(phase: Phase, m: string, c: Candidate) {
    && c.mac == m
    && Coupled(c)
    && (phase.Initializing? ==> c.status.Provisional? || c.status.Removed?)
    && (phase.Live? ==> !c.status.Provisional?)
    && (phase.Live? && !c.status.Removed? ==> !Bare(c))
    && (c.classification == Classify(c) || (c.status.Removed? && c.classification.LocalSelf?))
  }

  ghost predicate EngineOk(e: Engine) {
    forall m :: m in e.candidates ==> CandidateOk(e.phase, m, e.candidates[m])
  }

  lemma NewCandidateCoupled(mac: string, now: Time)
    ensures Coupled(NewCandidate(mac, now))
  {
  }

  lemma NeighborCoupled(c: Candidate, obs: NeighborObservation)
    requires Coupled(c)
    ensures Coupled(WithNeighbor(c, obs))
  {
    var c' := WithNeighbor(c, obs);
    var key := NeighborKey(obs.ifname, obs.family, obs.ip);
    forall ip | ip in c'.ipv4 ensures exists k :: k in c'.neighborEvidence && k.family == AF_INET && k.ip == ip {
      if ip in c.ipv4 {
        var k :| k in c.neighborEvidence && k.family == AF_INET && k.ip == ip;
        assert obs.event.Present? || k != key;
        assert k in c'.neighborEvidence;
      } else {
        assert key in c'.neighborEvidence;
      }
    }
    forall ip | ip in c'.ipv6 ensures exists k :: k in c'.neighborEvidence && k.family != AF_INET && k.ip == ip {
      if ip in c.ipv6 {
        var k :| k in c.neighborEvidence && k.family != AF_INET && k.ip == ip;
        assert obs.event.Present? || k != key;
        assert k in c'.neighborEvidence;
      } else {
        assert key in c'.neighborEvidence;
      }
    }
  }

  lemma FdbCoupled(c: Candidate, obs: FdbObservation)
    requires Coupled(c) && c.mac == obs.mac
    ensures Coupled(WithFdb(c, obs))
  {
    var c' := WithFdb(c, obs);
    assert c'.neighborEvidence == c.neighborEvidence && c'.ipv4 == c.ipv4 && c'.ipv6 == c.ipv6;
  }

  lemma LldpCoupled(c: Candidate, obs: LldpObservation)
    requires Coupled(c)
    ensures Coupled(WithLldp(c, obs))
  {
    var c' := WithLldp(c, obs);
    assert c'.neighborEvidence == c.neighborEvidence && c'.ipv4 == c.ipv4 && c'.ipv6 == c.ipv6;
  }

  /** The tail shared by the evidence handlers. A Present observation always
      leaves a classification worth confirming, which is why no Provisional
      candidate survives in the Live phase. */
  lemma ObserveKeepsOk(e: Engine, mac: string, prior: Candidate, c: Candidate, event: Event)
    requires EngineOk(e)
    requires c.mac == mac && Coupled(c) && c.status == prior.status
    requires mac in e.candidates ==> e.candidates[mac] == prior
    requires mac !in e.candidates ==> prior.status.Provisional?
    requires event.Present? ==> ConfirmedWorthy(Classify(c))
    requires event.Removed? && mac !in e.candidates ==> HasNoEvidence(c)
    ensures EngineOk(Observe(e, mac, prior, c, event).engine)
  {
    NoEvidenceIsBare(c);
    if !HasNoEvidence(c) {
      var c' := Settled(e.phase, c, event);
      assert Coupled(c') && Classify(c') == Classify(c) && Bare(c') == Bare(c);
      assert CandidateOk(e.phase, mac, c');
    }
  }

  lemma NeighborKeepsOk(cfg: Config, e: Engine, obs: NeighborObservation, now: Time)
    requires EngineOk(e)
    ensures EngineOk(NeighborOn(cfg, e, obs, now).engine)
  {
    var c := GetOrCreate(e, obs.mac, now);
    var c' := WithNeighbor(c, obs);
    NewCandidateCoupled(obs.mac, now);
    NeighborCoupled(c, obs);
    if obs.event.Present? {
      assert NeighborKey(obs.ifname, obs.family, obs.ip) in c'.neighborEvidence;
      assert obs.ip in c'.ipv4 || obs.ip in c'.ipv6;
      assert ConfirmedWorthy(Classify(c'));
    }
    ObserveKeepsOk(e, obs.mac, c, c', obs.event);
  }

  lemma FdbKeepsOk(cfg: Config, e: Engine, obs: FdbObservation, now: Time)
    requires EngineOk(e)
    ensures EngineOk(FdbOn(cfg, e, obs, now).engine)
  {
    var c := GetOrCreate(e, obs.mac, now);
    var c' := WithFdb(c, obs);
    NewCandidateCoupled(obs.mac, now);
    if obs.event.Present? {
      assert FdbKey(obs.portIfname, obs.mac) in c'.fdbEvidence;
      assert ConfirmedWorthy(Classify(c'));
    }
    FdbCoupled(c, obs);
    ObserveKeepsOk(e, obs.mac, c, c', obs.event);
  }

  lemma KeepaliveKeepsOk(phase: Phase, m: string, c: Candidate, obs: LldpObservation)
    requires CandidateOk(phase, m, c) && !c.status.Removed? && obs.event.Present?
    ensures CandidateOk(phase, m, KeptAlive(c, obs))
  {
    LldpCoupled(c, obs);
    assert Coupled(KeptAlive(c, obs));
  }

  lemma LldpKeepsOk(cfg: Config, e: Engine, obs: LldpObservation, now: Time)
    requires EngineOk(e)
    ensures EngineOk(LldpOn(cfg, e, obs, now).engine)
  {
    var key := Resolve(obs.chassisId, obs.portId);
    if LldpAdmitted(cfg, e, obs) {
      var c := GetOrCreate(e, key, now);
      if obs.keepalive {
        KeepaliveKeepsOk(e.phase, key, c, obs);
      } else {
        var c' := WithLldp(c, obs);
        NewCandidateCoupled(key, now);
        LldpCoupled(c, obs);
        ObserveKeepsOk(e, key, c, c', obs.event);
      }
    }
  }

  lemma LocalOpsKeepOk(cfg: Config, e: Engine, op: Op)
    requires EngineOk(e) && (op.LinkOp? || op.AddressOp?)
    ensures EngineOk(Step(cfg, e, op).engine)
  {
    var e' := Step(cfg, e, op).engine;
    forall m | m in e'.candidates ensures CandidateOk(e'.phase, m, e'.candidates[m]) {
      assert CandidateOk(e.phase, m, e.candidates[m]);
      assert e'.candidates[m] == e.candidates[m] || e'.candidates[m] == AsLocal(e.candidates[m]);
    }
  }

  lemma AgeKeepsOk(cfg: Config, phase: Phase, m: string, c: Candidate, now: Time)
    requires CandidateOk(phase, m, c)
    ensures CandidateOk(phase, m, AgedCandidate(cfg, c, now))
  {
  }

  lemma PromotionKeepsOk(m: string, c: Candidate)
    requires CandidateOk(Initializing, m, c) || CandidateOk(Live, m, c)
    requires !c.status.Provisional? || Promoted(c)
    ensures CandidateOk(Live, m, if Promoted(c) then Reclassified(c).(status := Confirmed) else c)
  {
  }

  lemma StepKeepsOk(cfg: Config, e: Engine, op: Op)
    requires EngineOk(e)
    ensures EngineOk(Step(cfg, e, op).engine)
  {
    match op
    case NeighborOp(obs, now) => NeighborKeepsOk(cfg, e, obs, now);
    case FdbOp(obs, now) => FdbKeepsOk(cfg, e, obs, now);
    case LldpOp(obs, now) => LldpKeepsOk(cfg, e, obs, now);
    case AgeOp(now) =>
      forall m | m in e.candidates ensures CandidateOk(e.phase, m, AgedCandidate(cfg, e.candidates[m], now)) {
        AgeKeepsOk(cfg, e.phase, m, e.candidates[m], now);
      }
    case RestartOp =>
    case MarkLiveOp =>
      var e' := MarkLiveOn(e).engine;
      forall m | m in e'.candidates ensures CandidateOk(Live, m, e'.candidates[m]) {
        PromotionKeepsOk(m, e.candidates[m]);
      }
    case _ => LocalOpsKeepOk(cfg, e, op);
  }

  lemma {:induction false} RunKeepsOk(cfg: Config, ops: seq<Op>)
    ensures EngineOk(Run(cfg, NEW_ENGINE, ops))
  {
    if ops != [] {
      RunKeepsOk(cfg, ops[..|ops| - 1]);
      StepKeepsOk(cfg, Run(cfg, NEW_ENGINE, ops[..|ops| - 1]), ops[|ops| - 1]);
    }
  }

  /** In every reachable state: evidence is gone exactly when all three kinds
      are; nothing is visible before the model goes live; after that a
      candidate is visible exactly when it is Confirmed or Aged, and every
      candidate that is not a tombstone is backed by evidence. */
  lemma ReachableEvidence(cfg: Config, ops: seq<Op>, m: string)
    requires m in Run(cfg, NEW_ENGINE, ops).candidates
    ensures var e := Run(cfg, NEW_ENGINE, ops);
            var c := e.candidates[m];
            && c.mac == m && Coupled(c)
            && (HasNoEvidence(c) <==> Bare(c))
            && (e.phase.Initializing? ==> (c.status.Provisional? || c.status.Removed?) && Visible(e, m).None?)
            && (e.phase.Live? && !c.status.Removed? ==> !HasNoEvidence(c))
            && (Visible(e, m).Some? <==> e.phase.Live? && (c.status.Confirmed? || c.status.Aged?))
  {
    var e := Run(cfg, NEW_ENGINE, ops);
    RunKeepsOk(cfg, ops);
    assert CandidateOk(e.phase, m, e.candidates[m]);
    NoEvidenceIsBare(e.candidates[m]);
  }

  // ---------------------------------------------------------------------
  // A local MAC is never visible
  // ---------------------------------------------------------------------

  ghost predicate LocalHidden(e: Engine) {
    forall m :: m in e.local.macRefs && m in e.candidates ==> e.candidates[m].status.Removed?
  }

  /** The one observation that can surface a local MAC: LLDP evidence is not
      checked against local state. */
  predicate NamesLocalMac(cfg: Config, e: Engine, op: Op) {
    op.LldpOp? && LldpAdmitted(cfg, e, op.lldp) && !op.lldp.keepalive && op.lldp.event.Present? &&
    Resolve(op.lldp.chassisId, op.lldp.portId) in e.local.macRefs
  }

  /** A MAC becomes local only through a link step that reports it. */
  lemma LinkAddsOnlyReported(l: Local, obs: LinkObservation, m: string)
    requires Sound(l)
    requires m in LinkStep(l, obs).macRefs && m !in l.macRefs
    ensures m == obs.mac && LinkReportsChange(l, obs)
  {
    var prev := IfaceOf(l, obs.ifname);
    if prev.mac != "" {
      assert Excess(l, prev.mac) >= 0;
      assert obs.ifname in MacHolders(l.ifaces, prev.mac);
    }
  }

  lemma LinkKeepsHidden(cfg: Config, e: Engine, obs: LinkObservation)
    requires Sound(e.local) && LocalHidden(e)
    ensures LocalHidden(LinkOn(cfg, e, obs).engine)
  {
    var e' := LinkOn(cfg, e, obs).engine;
    forall m | m in e'.local.macRefs && m in e'.candidates ensures e'.candidates[m].status.Removed? {
      if m !in e.local.macRefs {
        LinkAddsOnlyReported(e.local, obs, m);
      }
    }
  }

  lemma StepKeepsSound(cfg: Config, e: Engine, op: Op)
    requires Sound(e.local)
    ensures Sound(Step(cfg, e, op).engine.local)
  {
    match op
    case LinkOp(obs) => LinkKeepsSound(e.local, obs);
    case AddressOp(obs) => AddressKeepsSound(e.local, obs);
    case RestartOp => EmptyExact();
    case _ => assert Step(cfg, e, op).engine.local == e.local;
  }

  /** Exactly the observations of `NamesLocalMac` break the hiding. */
  lemma StepKeepsHidden(cfg: Config, e: Engine, op: Op)
    requires Sound(e.local) && LocalHidden(e)
    ensures LocalHidden(Step(cfg, e, op).engine) <==> !NamesLocalMac(cfg, e, op)
  {
    match op
    case LinkOp(obs) => LinkKeepsHidden(cfg, e, obs);
    case LldpOp(obs, now) =>
      if NamesLocalMac(cfg, e, op) {
        var key := Resolve(obs.chassisId, obs.portId);
        var c := WithLldp(GetOrCreate(e, key, now), obs);
        assert Step(cfg, e, op).engine.candidates[key] == Settled(e.phase, c, obs.event);
      }
    case _ =>
  }

  ghost predicate NeverNamesLocalMac(cfg: Config, e: Engine, ops: seq<Op>) {
    forall k :: 0 <= k < |ops| ==> !NamesLocalMac(cfg, Run(cfg, e, ops[..k]), ops[k])
  }

  /** Across link adds, MAC changes, shared MACs, removals and restarts: a MAC
      held by a tracked interface is never visible, in every run in which no
      LLDP announcement names a MAC that is local at that moment. */
  lemma {:induction false} LocalMacNeverVisible(cfg: Config, ops: seq<Op>)
    requires NeverNamesLocalMac(cfg, NEW_ENGINE, ops)
    ensures var e := Run(cfg, NEW_ENGINE, ops);
            && Sound(e.local) && LocalHidden(e)
            && (forall i :: i in e.local.ifaces && e.local.ifaces[i].mac != "" ==>
                              e.local.ifaces[i].mac in e.local.macRefs && Visible(e, e.local.ifaces[i].mac).None?)
  {
    var e := Run(cfg, NEW_ENGINE, ops);
    if ops == [] {
      EmptyExact();
    } else {
      var front := ops[..|ops| - 1];
      forall k | 0 <= k < |front| ensures !NamesLocalMac(cfg, Run(cfg, NEW_ENGINE, front[..k]), front[k]) {
        assert front[..k] == ops[..k];
        assert !NamesLocalMac(cfg, Run(cfg, NEW_ENGINE, ops[..k]), ops[k]);
      }
      LocalMacNeverVisible(cfg, front);
      assert !NamesLocalMac(cfg, Run(cfg, NEW_ENGINE, ops[..|ops| - 1]), ops[|ops| - 1]);
      StepKeepsSound(cfg, Run(cfg, NEW_ENGINE, front), ops[|ops| - 1]);
      StepKeepsHidden(cfg, Run(cfg, NEW_ENGINE, front), ops[|ops| - 1]);
    }
    forall i | i in e.local.ifaces && e.local.ifaces[i].mac != ""
      ensures e.local.ifaces[i].mac in e.local.macRefs && Visible(e, e.local.ifaces[i].mac).None?
    {
      assert Excess(e.local, e.local.ifaces[i].mac) >= 0;
      assert i in MacHolders(e.local.ifaces, e.local.ifaces[i].mac);
    }
  }
}
