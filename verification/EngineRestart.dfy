/** Restart equals fresh start: a restarted engine is indistinguishable from a
    new one, for ever, although it still carries the old identities. */
module EngineRestart {
  import opened Common
  import opened Observations
  import opened LocalState
  import opened LldpIdentity
  import opened EngineModel

  /** Equal in every field but `firstSeen`. */
  predicate Alike(a: Candidate, b: Candidate) {
    a == b.(firstSeen := a.firstSeen)
  }

  predicate AlikeOption(a: Option<Candidate>, b: Option<Candidate>) {
    match (a, b)
    case (None, None) => true
    case (Some(x), Some(y)) => Alike(x, y)
    case _ => false
  }

  /** A carried-over identity without any evidence: still waiting to be
      re-observed, or hidden because its MAC turned out to be local. */
  predicate Husk(phase: Phase, m: string, c: Candidate) {
    && Alike(c, NewCandidate(m, 0).(lastSeen := c.lastSeen, classification := c.classification, status := c.status))
    && (c.status.Removed? || (phase.Initializing? && c.status.Provisional?))
  }

  predicate Corresponds(phase: Phase, m: string, a: Option<Candidate>, b: Option<Candidate>) {
    match (a, b)
    case (Some(x), Some(y)) => Alike(x, y)
    case (Some(x), None) => Husk(phase, m, x)
    case (None, Some(y)) => false
    case (None, None) => true
  }

  /** Restarted engine `a` against new engine `b`. */
  ghost predicate Simulates(a: Engine, b: Engine) {
    && a.phase == b.phase
    && a.local == b.local
    && forall m :: Corresponds(a.phase, m, At(a, m), At(b, m))
  }

  /** The only operation that tells the two apart: a keepalive refreshes any
      non-hidden candidate, and here it hits a husk that `b` does not have. */
  predicate TellsApart(cfg: Config, a: Engine, b: Engine, op: Op) {
    op.LldpOp? && op.lldp.keepalive && LldpAdmitted(cfg, a, op.lldp) &&
    Resolve(op.lldp.chassisId, op.lldp.portId) !in b.candidates
  }

  /** Husks are non-hidden only while initializing, so this rules it out. */
  predicate KeepaliveWhileInitializing(e: Engine, op: Op) {
    op.LldpOp? && op.lldp.keepalive && e.phase.Initializing?
  }

  /** One evidence update, applied to corresponding candidates. */
  lemma ObserveSimulates(a: Engine, b: Engine, mac: string, x: Candidate, y: Candidate, x': Candidate, y': Candidate, event: Event)
    requires Simulates(a, b)
    requires At(a, mac) == Some(x) || (At(a, mac).None? && x.status.Provisional? && !Publishable(x))
    requires At(b, mac) == Some(y) || (At(b, mac).None? && y.status.Provisional? && !Publishable(y))
    requires HasNoEvidence(x') <==> HasNoEvidence(y')
    requires !HasNoEvidence(x') ==> Alike(Settled(a.phase, x', event), Settled(b.phase, y', event))
    requires Publishable(x) == Publishable(y)
    ensures Simulates(Observe(a, mac, x, x', event).engine, Observe(b, mac, y, y', event).engine)
    ensures Observe(a, mac, x, x', event).pending == Observe(b, mac, y, y', event).pending
  {
    var a' := Observe(a, mac, x, x', event).engine;
    var b' := Observe(b, mac, y, y', event).engine;
    forall m ensures Corresponds(a'.phase, m, At(a', m), At(b', m)) {
      assert Corresponds(a.phase, m, At(a, m), At(b, m));
    }
  }

  lemma GetOrCreateSimulates(a: Engine, b: Engine, mac: string, now: Time, now': Time)
    requires Simulates(a, b)
    ensures var x, y := GetOrCreate(a, mac, now), GetOrCreate(b, mac, now');
            && Publishable(x) == Publishable(y)
            && (Alike(x, y) || (Husk(a.phase, mac, x) && At(b, mac).None?))
            && y.mac == x.mac
  {
    assert Corresponds(a.phase, mac, At(a, mac), At(b, mac));
  }

  /** The same evidence, told to corresponding candidates. */
  lemma NeighborUpdates(phase: Phase, x: Candidate, y: Candidate, obs: NeighborObservation)
    requires Alike(x, y) || (Husk(phase, obs.mac, x) && Alike(y, NewCandidate(obs.mac, 0)))
    ensures var x', y' := WithNeighbor(x, obs), WithNeighbor(y, obs);
            && (HasNoEvidence(x') <==> HasNoEvidence(y'))
            && (!HasNoEvidence(x') ==> Alike(Settled(phase, x', obs.event), Settled(phase, y', obs.event)))
  {
    if Alike(x, y) {
      assert Alike(WithNeighbor(x, obs), WithNeighbor(y, obs));
    }
  }

  lemma FdbUpdates(phase: Phase, x: Candidate, y: Candidate, obs: FdbObservation)
    requires Alike(x, y) || (Husk(phase, obs.mac, x) && Alike(y, NewCandidate(obs.mac, 0)))
    ensures var x', y' := WithFdb(x, obs), WithFdb(y, obs);
            && (HasNoEvidence(x') <==> HasNoEvidence(y'))
            && (!HasNoEvidence(x') ==> Alike(Settled(phase, x', obs.event), Settled(phase, y', obs.event)))
  {
    if Alike(x, y) {
      assert Alike(WithFdb(x, obs), WithFdb(y, obs));
    }
  }

  lemma LldpUpdates(phase: Phase, m: string, x: Candidate, y: Candidate, obs: LldpObservation)
    requires Alike(x, y) || (Husk(phase, m, x) && Alike(y, NewCandidate(m, 0)))
    ensures var x', y' := WithLldp(x, obs), WithLldp(y, obs);
            && (HasNoEvidence(x') <==> HasNoEvidence(y'))
            && (!HasNoEvidence(x') ==> Alike(Settled(phase, x', obs.event), Settled(phase, y', obs.event)))
  {
    if Alike(x, y) {
      assert Alike(WithLldp(x, obs), WithLldp(y, obs));
    }
  }

  lemma NeighborSimulates(cfg: Config, a: Engine, b: Engine, obs: NeighborObservation, now: Time, now': Time)
    requires Simulates(a, b)
    ensures Simulates(NeighborOn(cfg, a, obs, now).engine, NeighborOn(cfg, b, obs, now').engine)
    ensures NeighborOn(cfg, a, obs, now).pending == NeighborOn(cfg, b, obs, now').pending
  {
    if NeighborAdmitted(cfg, a.local, obs) {
      var x, y := GetOrCreate(a, obs.mac, now), GetOrCreate(b, obs.mac, now');
      GetOrCreateSimulates(a, b, obs.mac, now, now');
      NeighborUpdates(a.phase, x, y, obs);
      ObserveSimulates(a, b, obs.mac, x, y, WithNeighbor(x, obs), WithNeighbor(y, obs), obs.event);
    }
  }

  lemma FdbSimulates(cfg: Config, a: Engine, b: Engine, obs: FdbObservation, now: Time, now': Time)
    requires Simulates(a, b)
    ensures Simulates(FdbOn(cfg, a, obs, now).engine, FdbOn(cfg, b, obs, now').engine)
    ensures FdbOn(cfg, a, obs, now).pending == FdbOn(cfg, b, obs, now').pending
  {
    if FdbAdmitted(cfg, a.local, obs) {
      var x, y := GetOrCreate(a, obs.mac, now), GetOrCreate(b, obs.mac, now');
      GetOrCreateSimulates(a, b, obs.mac, now, now');
      FdbUpdates(a.phase, x, y, obs);
      ObserveSimulates(a, b, obs.mac, x, y, WithFdb(x, obs), WithFdb(y, obs), obs.event);
    }
  }

  lemma KeepaliveSimulates(cfg: Config, a: Engine, b: Engine, obs: LldpObservation, now: Time, now': Time)
    requires Simulates(a, b) && obs.keepalive && !TellsApart(cfg, a, b, LldpOp(obs, now))
    ensures Simulates(LldpOn(cfg, a, obs, now).engine, LldpOn(cfg, b, obs, now').engine)
    ensures LldpOn(cfg, a, obs, now).pending == LldpOn(cfg, b, obs, now').pending
  {
    var key := Resolve(obs.chassisId, obs.portId);
    assert Corresponds(a.phase, key, At(a, key), At(b, key));
    assert LldpAdmitted(cfg, a, obs) == LldpAdmitted(cfg, b, obs);
    if LldpAdmitted(cfg, a, obs) {
      var a', b' := LldpOn(cfg, a, obs, now).engine, LldpOn(cfg, b, obs, now').engine;
      forall m ensures Corresponds(a'.phase, m, At(a', m), At(b', m)) {
        assert Corresponds(a.phase, m, At(a, m), At(b, m));
      }
    }
  }

  lemma LldpSimulates(cfg: Config, a: Engine, b: Engine, obs: LldpObservation, now: Time, now': Time)
    requires Simulates(a, b) && !TellsApart(cfg, a, b, LldpOp(obs, now))
    ensures Simulates(LldpOn(cfg, a, obs, now).engine, LldpOn(cfg, b, obs, now').engine)
    ensures LldpOn(cfg, a, obs, now).pending == LldpOn(cfg, b, obs, now').pending
  {
    var key := Resolve(obs.chassisId, obs.portId);
    if obs.keepalive {
      KeepaliveSimulates(cfg, a, b, obs, now, now');
    } else if LldpAllowed(cfg, obs) {
      var x, y := GetOrCreate(a, key, now), GetOrCreate(b, key, now');
      GetOrCreateSimulates(a, b, key, now, now');
      LldpUpdates(a.phase, key, x, y, obs);
      ObserveSimulates(a, b, key, x, y, WithLldp(x, obs), WithLldp(y, obs), obs.event);
    }
  }

  lemma LinkSimulates(cfg: Config, a: Engine, b: Engine, obs: LinkObservation)
    requires Simulates(a, b)
    ensures Simulates(LinkOn(cfg, a, obs).engine, LinkOn(cfg, b, obs).engine)
    ensures LinkOn(cfg, a, obs).pending == LinkOn(cfg, b, obs).pending
  {
    var oa, ob := LinkOn(cfg, a, obs), LinkOn(cfg, b, obs);
    forall m
      ensures Corresponds(oa.engine.phase, m, At(oa.engine, m), At(ob.engine, m))
      ensures m in oa.pending.removed <==> m in ob.pending.removed
    {
      assert Corresponds(a.phase, m, At(a, m), At(b, m));
    }
    assert oa.pending.removed == ob.pending.removed;
  }

  lemma LocalIpSimulates(a: Engine, b: Engine, ip: string)
    requires Simulates(a, b)
    ensures Simulates(a.(candidates := ReconciledByIp(a.candidates, ip)), b.(candidates := ReconciledByIp(b.candidates, ip)))
    ensures PublishableWithIp(a.candidates, ip) == PublishableWithIp(b.candidates, ip)
  {
    var a', b' := a.(candidates := ReconciledByIp(a.candidates, ip)), b.(candidates := ReconciledByIp(b.candidates, ip));
    forall m
      ensures Corresponds(a.phase, m, At(a', m), At(b', m))
      ensures m in PublishableWithIp(a.candidates, ip) <==> m in PublishableWithIp(b.candidates, ip)
    {
      assert Corresponds(a.phase, m, At(a, m), At(b, m));
    }
  }

  lemma AddressSimulates(cfg: Config, a: Engine, b: Engine, obs: AddressObservation)
    requires Simulates(a, b)
    ensures Simulates(AddressOn(cfg, a, obs).engine, AddressOn(cfg, b, obs).engine)
    ensures AddressOn(cfg, a, obs).pending == AddressOn(cfg, b, obs).pending
  {
    var local := AddressStep(a.local, obs);
    var a', b' := a.(local := local), b.(local := local);
    assert forall m :: At(a', m) == At(a, m) && At(b', m) == At(b, m);
    assert Simulates(a', b');
    LocalIpSimulates(a', b', IpOf(obs.cidr));
  }

  lemma AgeCorresponds(cfg: Config, a: Engine, b: Engine, m: string, now: Time)
    requires Corresponds(a.phase, m, At(a, m), At(b, m))
    ensures Corresponds(a.phase, m, At(AgeOn(cfg, a, now).engine, m), At(AgeOn(cfg, b, now).engine, m))
    ensures m in AgeChanged(cfg, a.candidates, now) <==> m in AgeChanged(cfg, b.candidates, now)
    ensures m in AgeRemoved(cfg, a.candidates, now) <==> m in AgeRemoved(cfg, b.candidates, now)
  {
    if m in a.candidates {
      var x := a.candidates[m];
      assert At(AgeOn(cfg, a, now).engine, m) == Some(AgedCandidate(cfg, x, now));
      if m in b.candidates {
        var y := b.candidates[m];
        assert Alike(AgedCandidate(cfg, x, now), AgedCandidate(cfg, y, now));
        assert AgeMoves(cfg, x, now) == AgeMoves(cfg, y, now) && Publishable(x) == Publishable(y);
      } else {
        assert AgedCandidate(cfg, x, now) == x;
      }
    }
  }

  lemma AgeSimulates(cfg: Config, a: Engine, b: Engine, now: Time)
    requires Simulates(a, b)
    ensures Simulates(AgeOn(cfg, a, now).engine, AgeOn(cfg, b, now).engine)
    ensures AgeOn(cfg, a, now).pending == AgeOn(cfg, b, now).pending
  {
    forall m
      ensures Corresponds(a.phase, m, At(AgeOn(cfg, a, now).engine, m), At(AgeOn(cfg, b, now).engine, m))
      ensures m in AgeChanged(cfg, a.candidates, now) <==> m in AgeChanged(cfg, b.candidates, now)
      ensures m in AgeRemoved(cfg, a.candidates, now) <==> m in AgeRemoved(cfg, b.candidates, now)
    {
      assert Corresponds(a.phase, m, At(a, m), At(b, m));
      AgeCorresponds(cfg, a, b, m, now);
    }
    assert AgeChanged(cfg, a.candidates, now) == AgeChanged(cfg, b.candidates, now);
    assert AgeRemoved(cfg, a.candidates, now) == AgeRemoved(cfg, b.candidates, now);
  }

  lemma RestartSimulates(a: Engine, b: Engine)
    requires Simulates(a, b)
    ensures Simulates(RestartOn(a).engine, RestartOn(b).engine)
    ensures RestartOn(a).pending == RestartOn(b).pending
  {
    var oa, ob := RestartOn(a), RestartOn(b);
    forall m
      ensures Corresponds(oa.engine.phase, m, At(oa.engine, m), At(ob.engine, m))
      ensures m in oa.pending.removed <==> m in ob.pending.removed
    {
      assert Corresponds(a.phase, m, At(a, m), At(b, m));
    }
    assert oa.pending.removed == ob.pending.removed;
  }

  lemma MarkLiveSimulates(a: Engine, b: Engine)
    requires Simulates(a, b)
    ensures Simulates(MarkLiveOn(a).engine, MarkLiveOn(b).engine)
    ensures MarkLiveOn(a).pending == MarkLiveOn(b).pending
  {
    var oa, ob := MarkLiveOn(a), MarkLiveOn(b);
    forall m
      ensures Corresponds(oa.engine.phase, m, At(oa.engine, m), At(ob.engine, m))
      ensures m in oa.pending.changed <==> m in ob.pending.changed
    {
      assert Corresponds(a.phase, m, At(a, m), At(b, m));
    }
    assert oa.pending.changed == ob.pending.changed;
  }

  lemma KeepaliveTellsApart(cfg: Config, a: Engine, b: Engine, op: Op)
    requires Simulates(a, b) && TellsApart(cfg, a, b, op)
    ensures a.phase.Initializing?
    ensures !Simulates(Step(cfg, a, op).engine, Step(cfg, b, op).engine)
  {
    var key := Resolve(op.lldp.chassisId, op.lldp.portId);
    var a', b' := Step(cfg, a, op).engine, Step(cfg, b, op).engine;
    assert Corresponds(a.phase, key, At(a, key), At(b, key));
    assert a'.candidates[key].seenInLldp && At(b', key).None?;
    assert !Corresponds(a'.phase, key, At(a', key), At(b', key));
  }

  /** Every operation keeps the correspondence and reports the same events,
      except exactly the keepalives that hit a husk. */
  lemma StepSimulates(cfg: Config, a: Engine, b: Engine, op: Op)
    requires Simulates(a, b)
    ensures Simulates(Step(cfg, a, op).engine, Step(cfg, b, op).engine) <==> !TellsApart(cfg, a, b, op)
    ensures !TellsApart(cfg, a, b, op) ==> Step(cfg, a, op).pending == Step(cfg, b, op).pending
    ensures TellsApart(cfg, a, b, op) ==> KeepaliveWhileInitializing(a, op)
  {
    if TellsApart(cfg, a, b, op) {
      KeepaliveTellsApart(cfg, a, b, op);
    } else {
      match op
      case NeighborOp(obs, now) => NeighborSimulates(cfg, a, b, obs, now, now);
      case FdbOp(obs, now) => FdbSimulates(cfg, a, b, obs, now, now);
      case LldpOp(obs, now) => LldpSimulates(cfg, a, b, obs, now, now);
      case LinkOp(obs) => LinkSimulates(cfg, a, b, obs);
      case AddressOp(obs) => AddressSimulates(cfg, a, b, obs);
      case AgeOp(now) => AgeSimulates(cfg, a, b, now);
      case RestartOp => RestartSimulates(a, b);
      case MarkLiveOp => MarkLiveSimulates(a, b);
    }
  }

  ghost predicate NoEarlyKeepalive(cfg: Config, ops: seq<Op>) {
    forall k :: 0 <= k < |ops| ==> !KeepaliveWhileInitializing(Run(cfg, NEW_ENGINE, ops[..k]), ops[k])
  }

  ghost predicate Keyed(e: Engine) {
    forall m :: m in e.candidates ==> e.candidates[m].mac == m
  }

  /** From any engine state, a restart followed by any operations gives, after
      each of them, the local snapshot, the visible candidates (all fields but
      `firstSeen`) and the events of a new engine fed the same operations.
      Later restarts, live phases and keepalives are included; only keepalives
      that arrive while initializing are not. */
  lemma {:induction false} RestartEqualsFreshStart(cfg: Config, e: Engine, ops: seq<Op>)
    requires Keyed(e) && NoEarlyKeepalive(cfg, ops)
    ensures var a, b := Run(cfg, RestartOn(e).engine, ops), Run(cfg, NEW_ENGINE, ops);
            && Simulates(a, b)
            && a.local == b.local && a.phase == b.phase
            && (forall m :: AlikeOption(Visible(a, m), Visible(b, m)))
            && (ops != [] ==>
                  Step(cfg, Run(cfg, RestartOn(e).engine, ops[..|ops| - 1]), ops[|ops| - 1]).pending ==
                  Step(cfg, Run(cfg, NEW_ENGINE, ops[..|ops| - 1]), ops[|ops| - 1]).pending)
  {
    var a, b := Run(cfg, RestartOn(e).engine, ops), Run(cfg, NEW_ENGINE, ops);
    if ops != [] {
      var front := ops[..|ops| - 1];
      forall k | 0 <= k < |front| ensures !KeepaliveWhileInitializing(Run(cfg, NEW_ENGINE, front[..k]), front[k]) {
        assert front[..k] == ops[..k];
        assert !KeepaliveWhileInitializing(Run(cfg, NEW_ENGINE, ops[..k]), ops[k]);
      }
      RestartEqualsFreshStart(cfg, e, front);
      assert !KeepaliveWhileInitializing(Run(cfg, NEW_ENGINE, ops[..|ops| - 1]), ops[|ops| - 1]);
      StepSimulates(cfg, Run(cfg, RestartOn(e).engine, front), Run(cfg, NEW_ENGINE, front), ops[|ops| - 1]);
    }
    forall m ensures AlikeOption(Visible(a, m), Visible(b, m)) {
      assert Corresponds(a.phase, m, At(a, m), At(b, m));
    }
  }
}
