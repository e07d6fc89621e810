/** What the engine tells its sink: every visible change is reported, and a
    batch says the truth about each MAC it names. */
module EngineReports {
  import opened Common
  import opened Observations
  import opened LocalState
  import opened LldpIdentity
  import opened EngineModel

  /** Same visibility, status and classification. */
  predicate SameFace(a: Option<Candidate>, b: Option<Candidate>) {
    match (a, b)
    case (None, None) => true
    case (Some(x), Some(y)) => x.status == y.status && x.classification == y.classification
    case _ => false
  }

  predicate IsKeepaliveFor(op: Op, m: string) {
    op.LldpOp? && op.lldp.keepalive && Resolve(op.lldp.chassisId, op.lldp.portId) == m
  }

  function Named(p: Pending): set<string> {
    p.changed + p.removed
  }

  lemma ObserveReported(e: Engine, mac: string, prior: Candidate, c: Candidate, event: Event, m: string)
    requires mac in e.candidates ==> e.candidates[mac] == prior
    requires mac !in e.candidates ==> !Publishable(prior)
    requires m !in Named(Observe(e, mac, prior, c, event).pending)
    ensures Visible(Observe(e, mac, prior, c, event).engine, m) == Visible(e, m)
  {
  }

  /** A MAC that a step does not name looks the same to a client before and
      after: equal in every field, except that a suppressed keepalive may
      refresh fields other than visibility, status and classification. */
  lemma UnnamedUnchanged(cfg: Config, e: Engine, op: Op, m: string)
    requires m !in Named(Step(cfg, e, op).pending)
    ensures var e' := Step(cfg, e, op).engine;
            && SameFace(Visible(e', m), Visible(e, m))
            && (!IsKeepaliveFor(op, m) ==> Visible(e', m) == Visible(e, m))
  {
    match op
    case NeighborOp(obs, now) =>
      if NeighborAdmitted(cfg, e.local, obs) {
        var c := GetOrCreate(e, obs.mac, now);
        ObserveReported(e, obs.mac, c, WithNeighbor(c, obs), obs.event, m);
      }
    case FdbOp(obs, now) =>
      if FdbAdmitted(cfg, e.local, obs) {
        var c := GetOrCreate(e, obs.mac, now);
        ObserveReported(e, obs.mac, c, WithFdb(c, obs), obs.event, m);
      }
    case LldpOp(obs, now) =>
      if LldpAdmitted(cfg, e, obs) && !obs.keepalive {
        var key := Resolve(obs.chassisId, obs.portId);
        var c := GetOrCreate(e, key, now);
        ObserveReported(e, key, c, WithLldp(c, obs), obs.event, m);
      }
    case AgeOp(now) =>
      if m in e.candidates {
        assert AgedCandidate(cfg, e.candidates[m], now).status == e.candidates[m].status ==>
            AgedCandidate(cfg, e.candidates[m], now) == e.candidates[m];
      }
    case _ =>
  }

  /** A link step reports a removal that did not happen: its MAC belonged to a
      visible candidate and is not (or no longer) local afterwards. */
  predicate FalseRemoval(cfg: Config, e: Engine, op: Op) {
    op.LinkOp? && cfg.includeInLocalState(op.link.ifname) && LinkReportsChange(e.local, op.link) &&
    Visible(e, op.link.mac).Some? && op.link.mac !in LinkStep(e.local, op.link).macRefs
  }

  lemma ObserveTruthful(e: Engine, mac: string, prior: Candidate, c: Candidate, event: Event)
    requires mac in e.candidates ==> e.candidates[mac] == prior
    requires mac !in e.candidates ==> !Publishable(prior)
    ensures var o := Observe(e, mac, prior, c, event);
            && o.pending.changed !! o.pending.removed
            && (forall m :: m in o.pending.changed ==> Visible(o.engine, m).Some?)
            && (forall m :: m in o.pending.removed ==> Visible(e, m).Some? && Visible(o.engine, m).None?)
  {
  }

  /** One batch never names a MAC twice; what it calls changed is visible;
      what it calls removed was visible; and it is no longer visible, except
      in exactly the `FalseRemoval` case. */
  lemma BatchTruthful(cfg: Config, e: Engine, op: Op)
    ensures var o := Step(cfg, e, op);
            && o.pending.changed !! o.pending.removed
            && (forall m :: m in o.pending.changed ==> Visible(o.engine, m).Some?)
            && (forall m :: m in o.pending.removed ==> Visible(e, m).Some?)
            && ((forall m :: m in o.pending.removed ==> Visible(o.engine, m).None?) <==> !FalseRemoval(cfg, e, op))
  {
    match op
    case LinkOp(obs) =>
      if FalseRemoval(cfg, e, op) {
        assert obs.mac in LinkOn(cfg, e, obs).pending.removed;
      }
    case NeighborOp(obs, now) =>
      if NeighborAdmitted(cfg, e.local, obs) {
        var c := GetOrCreate(e, obs.mac, now);
        ObserveTruthful(e, obs.mac, c, WithNeighbor(c, obs), obs.event);
      }
    case FdbOp(obs, now) =>
      if FdbAdmitted(cfg, e.local, obs) {
        var c := GetOrCreate(e, obs.mac, now);
        ObserveTruthful(e, obs.mac, c, WithFdb(c, obs), obs.event);
      }
    case LldpOp(obs, now) =>
      if LldpAdmitted(cfg, e, obs) && !obs.keepalive {
        var key := Resolve(obs.chassisId, obs.portId);
        var c := GetOrCreate(e, key, now);
        ObserveTruthful(e, key, c, WithLldp(c, obs), obs.event);
      }
    case _ =>
  }

  // ---------------------------------------------------------------------
  // Nothing more is reported
  // ---------------------------------------------------------------------

  /** The MAC whose candidate an admitted, ordinary evidence observation updates. */
  function Updated(cfg: Config, e: Engine, op: Op): Option<string> {
    match op
    case NeighborOp(obs, _) => if NeighborAdmitted(cfg, e.local, obs) then Some(obs.mac) else None
    case FdbOp(obs, _) => if FdbAdmitted(cfg, e.local, obs) then Some(obs.mac) else None
    case LldpOp(obs, _) =>
      if LldpAdmitted(cfg, e, obs) && !obs.keepalive then Some(Resolve(obs.chassisId, obs.portId)) else None
    case _ => None
  }

  /** Exactly these MACs are named: the one that evidence updated, if it is or
      was visible; the one of a link that moved, if it was visible; and
      whatever otherwise changed its face. */
  lemma NamedExactly(cfg: Config, e: Engine, op: Op, m: string)
    requires Sound(e.local)
    ensures var e' := Step(cfg, e, op).engine;
            m in Named(Step(cfg, e, op).pending) <==>
            || (Updated(cfg, e, op) == Some(m) && (Visible(e, m).Some? || Visible(e', m).Some?))
            || (op.LinkOp? && op.link.mac == m && Moved(e.local, e'.local, op.link.ifname) && Visible(e, m).Some?)
            || !SameFace(Visible(e, m), Visible(e', m))
  {
    match op
    case LinkOp(obs) => LinkNames(cfg, e, obs, m);
    case AddressOp(obs) => AddressNames(cfg, e, obs, m);
    case AgeOp(now) => LifecycleNames(cfg, e, op, m);
    case RestartOp => LifecycleNames(cfg, e, op, m);
    case MarkLiveOp => LifecycleNames(cfg, e, op, m);
    case _ =>
      EvidenceNames(cfg, e, op, m);
      if m !in Named(Step(cfg, e, op).pending) {
        UnnamedUnchanged(cfg, e, op, m);
      }
  }

  lemma LifecycleNames(cfg: Config, e: Engine, op: Op, m: string)
    requires op.AgeOp? || op.RestartOp? || op.MarkLiveOp?
    ensures m in Named(Step(cfg, e, op).pending) <==> !SameFace(Visible(e, m), Visible(Step(cfg, e, op).engine, m))
  {
    if op.AgeOp? && m in e.candidates {
      assert At(AgeOn(cfg, e, op.now).engine, m) == Some(AgedCandidate(cfg, e.candidates[m], op.now));
    }
  }

  lemma LinkNames(cfg: Config, e: Engine, obs: LinkObservation, m: string)
    requires Sound(e.local)
    ensures var o := LinkOn(cfg, e, obs);
            m in Named(o.pending) <==>
            || (obs.mac == m && Moved(e.local, o.engine.local, obs.ifname) && Visible(e, m).Some?)
            || !SameFace(Visible(e, m), Visible(o.engine, m))
  {
    ReportsMeanChange(e.local, obs, AddressObservation("", Present, AF_INET, ""));
  }

  lemma AddressNames(cfg: Config, e: Engine, obs: AddressObservation, m: string)
    ensures var o := AddressOn(cfg, e, obs); m in Named(o.pending) <==> !SameFace(Visible(e, m), Visible(o.engine, m))
  {
  }

  lemma EvidenceNames(cfg: Config, e: Engine, op: Op, m: string)
    requires op.NeighborOp? || op.FdbOp? || op.LldpOp?
    ensures var o := Step(cfg, e, op);
            && (m in Named(o.pending) ==> Updated(cfg, e, op) == Some(m) || !SameFace(Visible(e, m), Visible(o.engine, m)))
            && (m in Named(o.pending) ==> Visible(e, m).Some? || Visible(o.engine, m).Some?)
            && (Updated(cfg, e, op) == Some(m) && (Visible(e, m).Some? || Visible(o.engine, m).Some?) ==> m in Named(o.pending))
  {
  }
}
