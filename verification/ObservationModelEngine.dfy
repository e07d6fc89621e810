/** The engine object: handlers that mutate the candidate table in place,
    proved against the steps of `EngineModel`. The returned `Pending` is what
    the handler delivers to its sink after releasing the lock. */
module ObservationEngine {
  import opened Common
  import opened Observations
  import opened LocalState
  import opened LocalStateTracking
  import opened LldpIdentity
  import opened EngineModel

  class ObservationModelEngine {
    const cfg: Config
    const local: LocalStateTracker
    var phase: Phase
    var candidates: map<string, Candidate>

    ghost predicate Valid()
      reads this, local
    {
      local.Valid()
    }

    ghost function State(): Engine
      reads this, local
    {
      Engine(phase, local.State(), candidates)
    }

    constructor (cfg: Config)
      ensures Valid() && fresh(local) && this.cfg == cfg && State() == NEW_ENGINE
    {
      this.cfg := cfg;
      phase := Initializing;
      candidates := map[];
      local := new LocalStateTracker();
    }

    method OnLinkObservation(obs: LinkObservation) returns (pending: Pending)
      requires Valid()
      modifies this, local
      ensures Valid() && Out(State(), pending) == LinkOn(cfg, old(State()), obs)
    {
      pending := NOTHING;
      if !cfg.includeInLocalState(obs.ifname) {
        return;
      }
      var macChanged := local.OnLinkObservation(obs);
      var notice := if obs.event.Removed? then InterfaceRemoved(obs.ifname) else InterfaceChanged(obs.ifname);
      pending := pending.(notice := Some(notice));
      if macChanged && obs.mac in candidates {
        var c := candidates[obs.mac];
        var isLocal := local.IsLocalMac(obs.mac);
        if isLocal {
          candidates := candidates[obs.mac := c.(classification := LocalSelf, status := Status.Removed)];
        }
        if Publishable(c) {
          pending := pending.(removed := {obs.mac});
        }
      }
    }

    method CollectPublishableWithIp(ip: string) returns (macs: set<string>)
      ensures macs == PublishableWithIp(candidates, ip)
    {
      macs := {};
      var todo := candidates.Keys;
      while todo != {}
        invariant todo <= candidates.Keys
        invariant macs == set m | m in candidates && m !in todo && HasIp(candidates[m], ip) && Publishable(candidates[m])
        decreases todo
      {
        var m :| m in todo;
        if HasIp(candidates[m], ip) && Publishable(candidates[m]) {
          macs := macs + {m};
        }
        todo := todo - {m};
      }
    }

    method ReconcileAffectedByLocalIp(ip: string)
      modifies this`candidates
      ensures candidates == ReconciledByIp(old(candidates), ip)
    {
      ghost var before := candidates;
      var todo := candidates.Keys;
      while todo != {}
        invariant candidates.Keys == before.Keys && todo <= before.Keys
        invariant forall m :: m in before ==>
                                candidates[m] == if m in todo then before[m] else ReconciledByIp(before, ip)[m]
        decreases todo
      {
        var m :| m in todo;
        var c := candidates[m];
        if ip in c.ipv4 || ip in c.ipv6 {
          candidates := candidates[m := c.(classification := LocalSelf, status := Status.Removed)];
        }
        todo := todo - {m};
      }
    }

    method OnAddressObservation(obs: AddressObservation) returns (pending: Pending)
      requires Valid()
      modifies this, local
      ensures Valid() && Out(State(), pending) == AddressOn(cfg, old(State()), obs)
    {
      pending := NOTHING;
      if !cfg.includeInLocalState(obs.ifname) {
        return;
      }
      var _ := local.OnAddressObservation(obs);
      var ip := IpOf(obs.cidr);
      if ip == "" {
        return;
      }
      pending := pending.(notice := Some(AddressChanged(obs.ifname)));
      if obs.event.Present? {
        var removed := CollectPublishableWithIp(ip);
        pending := pending.(removed := removed);
        ReconcileAffectedByLocalIp(ip);
      }
    }

    method GetOrCreateCandidate(mac: string, now: Time) returns (c: Candidate)
      modifies this`candidates
      ensures c == old(if mac in candidates then candidates[mac] else NewCandidate(mac, now))
      ensures candidates == old(candidates)[mac := c]
    {
      if mac !in candidates {
        candidates := candidates[mac := NewCandidate(mac, now)];
      }
      c := candidates[mac];
    }

    /** The common end of the evidence handlers, on the candidate they updated. */
    method Commit(mac: string, wasPublishable: bool, c: Candidate, event: Event) returns (pending: Pending)
      requires mac in candidates
      modifies this`candidates
      ensures candidates == if HasNoEvidence(c) then old(candidates) - {mac} else old(candidates)[mac := Settled(phase, c, event)]
      ensures pending == Record(mac, wasPublishable, !HasNoEvidence(c) && Publishable(Settled(phase, c, event)))
    {
      if HasNoEvidence(c) {
        candidates := candidates - {mac};
        pending := if wasPublishable then Pending(None, {}, {mac}) else NOTHING;
      } else {
        var c' := c.(classification := Classify(c));
        c' := c'.(status := NextStatus(phase, c'.status, c'.classification, event));
        candidates := candidates[mac := c'];
        pending := Record(mac, wasPublishable, Publishable(c'));
      }
    }

    method OnNeighborObservation(obs: NeighborObservation, now: Time) returns (pending: Pending)
      requires Valid()
      modifies this`candidates
      ensures Valid() && Out(State(), pending) == NeighborOn(cfg, old(State()), obs, now)
    {
      pending := NOTHING;
      if !cfg.allowNeighborEvidence(obs.ifname) {
        return;
      }
      var isLocalMac := local.IsLocalMac(obs.mac);
      var isLocalIp := local.IsLocalIp(obs.ip);
      if !cfg.macPasses(obs.mac) || !cfg.addressPasses(obs.ifname, obs.ip) || isLocalMac || isLocalIp {
        return;
      }
      var c := GetOrCreateCandidate(obs.mac, now);
      var wasPublishable := Publishable(c);
      c := WithNeighbor(c, obs);
      pending := Commit(obs.mac, wasPublishable, c, obs.event);
    }

    method OnFdbObservation(obs: FdbObservation, now: Time) returns (pending: Pending)
      requires Valid()
      modifies this`candidates
      ensures Valid() && Out(State(), pending) == FdbOn(cfg, old(State()), obs, now)
    {
      pending := NOTHING;
      if !cfg.allowFdbEvidence(obs.portIfname) {
        return;
      }
      var isLocalMac := local.IsLocalMac(obs.mac);
      if !cfg.macPasses(obs.mac) || isLocalMac || obs.entryKind.FdbLocal? || obs.entryKind.FdbControlPlane? {
        return;
      }
      var c := GetOrCreateCandidate(obs.mac, now);
      var wasPublishable := Publishable(c);
      c := WithFdb(c, obs);
      pending := Commit(obs.mac, wasPublishable, c, obs.event);
    }

    method OnLldpObservation(obs: LldpObservation, now: Time) returns (pending: Pending)
      requires Valid()
      modifies this`candidates
      ensures Valid() && Out(State(), pending) == LldpOn(cfg, old(State()), obs, now)
    {
      pending := NOTHING;
      var key := Resolve(obs.chassisId, obs.portId);
      if !cfg.allowLldpEvidence(obs.localIfname) || key == "" {
        return;
      }
      if obs.keepalive {
        if !obs.event.Present? || key !in candidates || candidates[key].status.Removed? {
          return;
        }
        var c := candidates[key];
        var wasPublishable := Publishable(c);
        var oldStatus, oldClassification := c.status, c.classification;
        c := WithLldp(c, obs);
        c := c.(classification := Classify(c));
        if c.status.Aged? || c.status.Expired? {
          c := c.(status := Confirmed);
        }
        candidates := candidates[key := c];
        if c.status != oldStatus || c.classification != oldClassification {
          pending := Record(key, wasPublishable, Publishable(c));
        }
      } else {
        var c := GetOrCreateCandidate(key, now);
        var wasPublishable := Publishable(c);
        c := WithLldp(c, obs);
        pending := Commit(key, wasPublishable, c, obs.event);
      }
    }

    method AgeCandidate(m: string, now: Time) returns (changed: set<string>, removed: set<string>)
      requires m in candidates
      modifies this`candidates
      ensures candidates == old(candidates)[m := AgedCandidate(cfg, old(candidates)[m], now)]
      ensures changed == {m} * AgeChanged(cfg, old(candidates), now)
      ensures removed == {m} * AgeRemoved(cfg, old(candidates), now)
    {
      changed, removed := {}, {};
      var c := candidates[m];
      if c.status.Removed? || c.status.Provisional? {
        return;
      }
      var oldStatus := c.status;
      var wasPublishable := Publishable(c);
      var elapsed := now - c.lastSeen;
      if elapsed > cfg.expire {
        c := c.(status := Expired);
      } else if elapsed > cfg.ageout {
        c := c.(status := Aged);
      }
      candidates := candidates[m := c];
      if c.status == oldStatus {
        return;
      }
      if Publishable(c) {
        changed := {m};
      } else if wasPublishable {
        removed := {m};
      }
    }

    method Age(now: Time) returns (pending: Pending)
      requires Valid()
      modifies this`candidates
      ensures Valid() && Out(State(), pending) == AgeOn(cfg, old(State()), now)
    {
      ghost var before := candidates;
      var changed, removed := {}, {};
      var todo := candidates.Keys;
      while todo != {}
        invariant candidates.Keys == before.Keys && todo <= before.Keys
        invariant forall m :: m in before ==>
                                candidates[m] == if m in todo then before[m] else AgedCandidate(cfg, before[m], now)
        invariant changed == AgeChanged(cfg, before, now) - todo
        invariant removed == AgeRemoved(cfg, before, now) - todo
        decreases todo
      {
        var m :| m in todo;
        var changed1, removed1 := AgeCandidate(m, now);
        changed, removed := changed + changed1, removed + removed1;
        todo := todo - {m};
      }
      assert candidates == AgedAll(cfg, before, now);
      pending := Pending(None, changed, removed);
    }

    method WipeCandidates() returns (removed: set<string>)
      modifies this`candidates
      ensures candidates == WipedAll(old(candidates))
      ensures removed == PublishableMacs(old(candidates))
    {
      ghost var before := candidates;
      removed := {};
      var todo := candidates.Keys;
      while todo != {}
        invariant candidates.Keys == before.Keys && todo <= before.Keys
        invariant forall m :: m in before ==> candidates[m] == if m in todo then before[m] else Wiped(before[m])
        invariant removed == PublishableMacs(before) - todo
        decreases todo
      {
        var m :| m in todo;
        var c := candidates[m];
        if Publishable(c) {
          removed := removed + {m};
        }
        c := c.(neighborEvidence := {}, fdbEvidence := {},
        seenInNeigh := false, seenInFdb := false, seenInLldp := false,
        ipv4 := {}, ipv6 := {}, bridgePort := None, neighborIfaces := {},
        chassisId := None, portId := None, systemName := None,
        classification := Unknown, status := Provisional);
        candidates := candidates[m := c];
        todo := todo - {m};
      }
    }

    method PrepareForRestart() returns (pending: Pending)
      requires Valid()
      modifies this, local
      ensures Valid() && Out(State(), pending) == RestartOn(old(State()))
    {
      phase := Initializing;
      local.Clear();
      var removed := WipeCandidates();
      pending := Pending(None, {}, removed);
    }

    method PromoteCandidates() returns (changed: set<string>)
      modifies this`candidates
      ensures candidates == PromotedAll(old(candidates))
      ensures changed == PromotedMacs(old(candidates))
    {
      ghost var before := candidates;
      ghost var target := PromotedAll(before);
      changed := {};
      var todo := candidates.Keys;
      while todo != {}
        invariant todo <= before.Keys
        invariant candidates.Keys == todo + (target.Keys - todo)
        invariant forall m :: m in candidates ==> candidates[m] == if m in todo then before[m] else target[m]
        invariant changed == PromotedMacs(before) - todo
        decreases todo
      {
        var m :| m in todo;
        var c := candidates[m];
        if c.status.Provisional? {
          c := c.(classification := Classify(c));
          if ConfirmedWorthy(c.classification) {
            candidates := candidates[m := c.(status := Confirmed)];
            changed := changed + {m};
          } else {
            candidates := candidates - {m};
          }
        }
        todo := todo - {m};
      }
    }

    method MarkLive() returns (pending: Pending)
      requires Valid()
      modifies this
      ensures Valid() && Out(State(), pending) == MarkLiveOn(old(State()))
    {
      phase := Live;
      var changed := PromoteCandidates();
      pending := Pending(None, changed, {});
    }

    method FindCandidateByMac(mac: string) returns (r: Option<Candidate>)
      requires Valid()
      ensures r == Visible(State(), mac)
    {
      if mac in candidates && Publishable(candidates[mac]) {
        return Some(candidates[mac]);
      }
      return None;
    }

    method ListRemoteCandidates() returns (out: set<Candidate>)
      requires Valid()
      ensures out == RemoteCandidates(State())
    {
      out := {};
      var todo := candidates.Keys;
      while todo != {}
        invariant todo <= candidates.Keys
        invariant out == set m | m in candidates && m !in todo && Publishable(candidates[m]) :: candidates[m]
        decreases todo
      {
        var m :| m in todo;
        if Publishable(candidates[m]) {
          out := out + {candidates[m]};
        }
        todo := todo - {m};
      }
    }
  }
}
