/** Keepalives against aging: how the re-assert interval, the tick spacing and
    the age-out time must relate so that a stable LLDP neighbour never ages. */
module Keepalive {
  import opened Common
  import opened Observations
  import opened LldpIdentity
  import opened EngineModel
  import opened LldpSupervision
  import LocalState

  function Clamp(x: int, lo: int, hi: int): int {
    if x < lo then lo else if hi < x then hi else x
  }

  /** `deriveReassertInterval`, from whole seconds. */
  function ReassertInterval(ageoutSeconds: nat): Time {
    Clamp(ageoutSeconds / 2, 10, 300) * SECOND
  }

  /** The interval stays below the age-out time exactly when that exceeds ten
      seconds; below that the clamp wins. */
  lemma ReassertBelowAgeout(ageoutSeconds: nat)
    ensures ReassertInterval(ageoutSeconds) < ageoutSeconds * SECOND <==> ageoutSeconds > 10
  {
  }

  /** The derived interval is half the age-out time, in whole seconds, but at
      least ten seconds and at most five minutes. So it meets the bound of
      `KeepalivesDefeatAging` for exactly these tick spacings: up to what the
      age-out time exceeds ten seconds by, up to its larger half, and up to what
      it exceeds five minutes by. */
  lemma ReassertMeetsBound(ageoutSeconds: nat, spacing: Time)
    ensures var slack := (ageoutSeconds * SECOND + 1) - ReassertInterval(ageoutSeconds);
            && slack == (if ageoutSeconds <= 20 then ageoutSeconds - 10
                         else if ageoutSeconds >= 600 then ageoutSeconds - 300
                         else (ageoutSeconds + 1) / 2) * 1_000_000_000 + 1
            && (ReassertInterval(ageoutSeconds) + spacing - 1 <= ageoutSeconds * SECOND <==> spacing <= slack)
  {
  }

  /** One cached neighbour: the interface it is seen on and its raw ids. */
  datatype Neighbour = Neighbour(ifname: string, chassisId: Option<string>, portId: Option<string>, systemName: Option<string>)

  function KeepaliveOp(n: Neighbour, now: Time): Op {
    LldpOp(LldpObservation(n.ifname, Present, n.chassisId, n.portId, n.systemName, true, now), now)
  }

  function Key(n: Neighbour): string {
    Resolve(n.chassisId, n.portId)
  }

  datatype Keeper = Keeper(engine: Engine, lastReassert: Time, lastTick: Time)

  datatype Happening =
    | TickAt(now: Time)       // supervision tick; re-asserts the cached neighbour when due
    | AgeAt(now: Time)        // the aging worker
    | Elsewhere(op: Op)       // anything that concerns other candidates

  predicate Due(k: Keeper, interval: Time, now: Time) {
    now - k.lastReassert >= interval
  }

  function Happen(cfg: Config, n: Neighbour, interval: Time, k: Keeper, h: Happening): Keeper {
    match h
    case TickAt(now) =>
      if Due(k, interval, now)
      then Keeper(Step(cfg, k.engine, KeepaliveOp(n, now)).engine, now, now)
      else k.(lastTick := now)
    case AgeAt(now) => k.(engine := Step(cfg, k.engine, AgeOp(now)).engine)
    case Elsewhere(op) => k.(engine := Step(cfg, k.engine, op).engine)
  }

  function Run(cfg: Config, n: Neighbour, interval: Time, k: Keeper, hs: seq<Happening>): Keeper {
    if hs == [] then k else Happen(cfg, n, interval, Run(cfg, n, interval, k, hs[..|hs| - 1]), hs[|hs| - 1])
  }

  /** Observations of other MACs, and local changes that leave the candidate alone. */
  predicate Unrelated(e: Engine, m: string, op: Op) {
    match op
    case LinkOp(obs) => obs.mac != m
    case AddressOp(obs) => m in e.candidates ==> !HasIp(e.candidates[m], LocalState.IpOf(obs.cidr))
    case NeighborOp(obs, _) => obs.mac != m
    case FdbOp(obs, _) => obs.mac != m
    case LldpOp(obs, _) => Resolve(obs.chassisId, obs.portId) != m
    case _ => false
  }

  /** Ticks come at most `spacing` apart, so at any moment the last one is at
      most `spacing` old. */
  predicate Timely(spacing: Time, m: string, k: Keeper, h: Happening) {
    match h
    case TickAt(now) => k.lastTick <= now <= k.lastTick + spacing
    case AgeAt(now) => k.lastTick <= now <= k.lastTick + spacing
    case Elsewhere(op) => Unrelated(k.engine, m, op)
  }

  ghost predicate AlwaysTimely(cfg: Config, n: Neighbour, interval: Time, spacing: Time, k: Keeper, hs: seq<Happening>) {
    forall j :: 0 <= j < |hs| ==> Timely(spacing, Key(n), Run(cfg, n, interval, k, hs[..j]), hs[j])
  }

  /** Confirmed on LLDP evidence and at least as fresh as the last re-assert. */
  predicate Kept(m: string, interval: Time, k: Keeper) {
    && m in k.engine.candidates
    && var c := k.engine.candidates[m];
       && c.status.Confirmed? && c.seenInLldp && c.classification.TopologyPeer?
       && c.lastSeen >= k.lastReassert && k.lastTick - k.lastReassert < interval
  }

  /** A keepalive of a kept neighbour changes neither status nor
      classification and emits nothing. */
  lemma KeepaliveIsSilent(cfg: Config, n: Neighbour, e: Engine, now: Time)
    requires cfg.allowLldpEvidence(n.ifname) && Key(n) in e.candidates
    requires var c := e.candidates[Key(n)]; c.status.Confirmed? && c.classification.TopologyPeer?
    requires Key(n) != ""
    ensures var o := Step(cfg, e, KeepaliveOp(n, now));
            && o.pending == NOTHING
            && Key(n) in o.engine.candidates
            && var c, c' := e.candidates[Key(n)], o.engine.candidates[Key(n)];
               c'.status == c.status && c'.classification == c.classification && c'.seenInLldp && c'.lastSeen == now
  {
  }

  lemma UnrelatedLeaves(cfg: Config, e: Engine, m: string, op: Op)
    requires Unrelated(e, m, op)
    ensures At(Step(cfg, e, op).engine, m) == At(e, m)
  {
  }

  lemma HappenKeeps(cfg: Config, n: Neighbour, interval: Time, spacing: Time, k: Keeper, h: Happening)
    requires cfg.allowLldpEvidence(n.ifname) && Key(n) != "" && interval > 0
    requires interval + spacing - 1 <= cfg.ageout && interval + spacing - 1 <= cfg.expire
    requires Kept(Key(n), interval, k) && Timely(spacing, Key(n), k, h)
    ensures Kept(Key(n), interval, Happen(cfg, n, interval, k, h))
  {
    match h
    case TickAt(now) =>
      if Due(k, interval, now) {
        KeepaliveIsSilent(cfg, n, k.engine, now);
      }
    case AgeAt(now) =>
      assert AgedCandidate(cfg, k.engine.candidates[Key(n)], now) == k.engine.candidates[Key(n)];
    case Elsewhere(op) => UnrelatedLeaves(cfg, k.engine, Key(n), op);
  }

  /** Over unbounded time and under any interleaving of ticks, agings and
      unrelated observations, a cached neighbour that is Confirmed is never
      Aged or Expired. */
  lemma {:induction false} KeepalivesDefeatAging(cfg: Config, n: Neighbour, interval: Time, spacing: Time, k: Keeper, hs: seq<Happening>)
    requires cfg.allowLldpEvidence(n.ifname) && Key(n) != "" && interval > 0
    requires interval + spacing - 1 <= cfg.ageout && interval + spacing - 1 <= cfg.expire
    requires Kept(Key(n), interval, k) && AlwaysTimely(cfg, n, interval, spacing, k, hs)
    ensures Kept(Key(n), interval, Run(cfg, n, interval, k, hs))
  {
    if hs != [] {
      var front := hs[..|hs| - 1];
      forall j | 0 <= j < |front| ensures Timely(spacing, Key(n), Run(cfg, n, interval, k, front[..j]), front[j]) {
        assert front[..j] == hs[..j];
        assert Timely(spacing, Key(n), Run(cfg, n, interval, k, hs[..j]), hs[j]);
      }
      KeepalivesDefeatAging(cfg, n, interval, spacing, k, front);
      assert Timely(spacing, Key(n), Run(cfg, n, interval, k, hs[..|hs| - 1]), hs[|hs| - 1]);
      HappenKeeps(cfg, n, interval, spacing, Run(cfg, n, interval, k, front), hs[|hs| - 1]);
    }
  }

  // ---------------------------------------------------------------------
  // The bound is exact
  // ---------------------------------------------------------------------

  /** Ticks one time unit apart, none of them due. */
  function EarlyTicks(from: Time, count: nat): seq<Happening> {
    seq(count, j requires 0 <= j < count => TickAt(from + 1 + j))
  }

  lemma {:induction false} EarlyTicksDoNothing(cfg: Config, n: Neighbour, interval: Time, k: Keeper, count: nat)
    requires k.lastTick == k.lastReassert && count < interval
    ensures Run(cfg, n, interval, k, EarlyTicks(k.lastTick, count)) == k.(lastTick := k.lastTick + count)
  {
    if count > 0 {
      EarlyTicksDoNothing(cfg, n, interval, k, count - 1);
      assert EarlyTicks(k.lastTick, count)[..count - 1] == EarlyTicks(k.lastTick, count - 1);
    }
  }

  /** The slowest run: re-assert, tick until just before the next one is due,
      then age as late as the tick spacing allows. */
  function SlowestRun(k: Keeper, interval: Time, spacing: Time): seq<Happening>
    requires interval > 0
  {
    EarlyTicks(k.lastTick, interval - 1) + [AgeAt(k.lastTick + interval - 1 + spacing)]
  }

  lemma SlowestRunTimely(cfg: Config, n: Neighbour, interval: Time, spacing: Time, k: Keeper)
    requires interval > 0 && spacing > 0 && k.lastTick == k.lastReassert
    ensures AlwaysTimely(cfg, n, interval, spacing, k, SlowestRun(k, interval, spacing))
  {
    var hs := SlowestRun(k, interval, spacing);
    forall j | 0 <= j < |hs| ensures Timely(spacing, Key(n), Run(cfg, n, interval, k, hs[..j]), hs[j]) {
      assert hs[..j] == EarlyTicks(k.lastTick, j);
      EarlyTicksDoNothing(cfg, n, interval, k, j);
    }
  }

  lemma SlowestRunAges(cfg: Config, n: Neighbour, interval: Time, spacing: Time, k: Keeper)
    requires interval > 0 && spacing > 0 && Kept(Key(n), interval, k)
    requires k.lastTick == k.lastReassert == k.engine.candidates[Key(n)].lastSeen
    requires interval + spacing - 1 > cfg.ageout || interval + spacing - 1 > cfg.expire
    ensures var e := Run(cfg, n, interval, k, SlowestRun(k, interval, spacing)).engine;
            Key(n) in e.candidates && !e.candidates[Key(n)].status.Confirmed?
  {
    var hs := SlowestRun(k, interval, spacing);
    assert hs[..|hs| - 1] == EarlyTicks(k.lastTick, interval - 1);
    EarlyTicksDoNothing(cfg, n, interval, k, interval - 1);
  }

  /** Exact condition, for a neighbour just re-asserted: every timely run
      keeps it Confirmed if and only if the longest gap a run can produce,
      interval plus spacing less one unit, exceeds neither limit. */
  lemma KeepaliveBoundExact(cfg: Config, n: Neighbour, interval: Time, spacing: Time, k: Keeper)
    requires cfg.allowLldpEvidence(n.ifname) && Key(n) != "" && interval > 0 && spacing > 0
    requires Kept(Key(n), interval, k) && k.lastTick == k.lastReassert == k.engine.candidates[Key(n)].lastSeen
    ensures (forall hs :: AlwaysTimely(cfg, n, interval, spacing, k, hs) ==> Kept(Key(n), interval, Run(cfg, n, interval, k, hs)))
            <==> interval + spacing - 1 <= cfg.ageout && interval + spacing - 1 <= cfg.expire
  {
    if interval + spacing - 1 <= cfg.ageout && interval + spacing - 1 <= cfg.expire {
      forall hs | AlwaysTimely(cfg, n, interval, spacing, k, hs) ensures Kept(Key(n), interval, Run(cfg, n, interval, k, hs)) {
        KeepalivesDefeatAging(cfg, n, interval, spacing, k, hs);
      }
    } else {
      SlowestRunTimely(cfg, n, interval, spacing, k);
      SlowestRunAges(cfg, n, interval, spacing, k);
    }
  }
}
