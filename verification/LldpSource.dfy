/** The LLDP source as a concurrent protocol: cache writes happen under the
    cache lock, the observations they cause are delivered later, and watch
    events, interface flushes, keepalive passes and reconnects interleave. */
module LldpSource {
  import opened Common
  import opened Observations
  import opened LldpIdentity
  import opened LldpCache

  /** A keepalive pass works on a snapshot taken together with its generation. */
  datatype Pass = Pass(snapshot: CacheMap, generation: nat, todo: set<Pair>, emitted: seq<Pair>)

  /** `reconnecting` holds the pre-reconnect cache between the swap and the
      reconcile; `view` is the set of (interface, identity) pairs that the
      observations delivered so far leave present. */
  datatype Source = Source(
    cache: Cache, reconnecting: Option<CacheMap>, pass: Option<Pass>,
    undelivered: multiset<LldpObservation>, view: set<Pair>)

  const IDLE: Source := Source(EMPTY_CACHE, None, None, multiset{}, {})

  function PairOf(obs: LldpObservation): Pair {
    (obs.localIfname, Resolve(obs.chassisId, obs.portId))
  }

  function MakeObservation(ifname: string, event: Event, e: Entry, keepalive: bool, now: Time): LldpObservation {
    LldpObservation(ifname, event, e.chassisId, e.portId, e.systemName, keepalive, now)
  }

  /** Removed observations for a set of pairs of a cache map. */
  function Removals(m: CacheMap, ps: set<Pair>, now: Time): set<LldpObservation>
    requires ps <= Pairs(m)
  {
    set p | p in ps :: MakeObservation(p.0, Event.Removed, m[p.0][p.1], false, now)
  }

  function PairsOn(m: CacheMap, ifname: string): set<Pair> {
    set p | p in Pairs(m) && p.0 == ifname
  }

  datatype Action =
    | Change(obs: LldpObservation)              // watch callback or enumeration: cache, then forward
    | Flush(ifname: string, now: Time)          // removeInterface
    | Swap                                      // refreshAll: retire the old watch's cache
    | Reconcile(now: Time)                      // refreshAll: report what was not re-seen
    | BeginPass                                 // reassertAll: snapshot
    | Check(pair: Pair, now: Time)              // emitBatch: compare generations, then deliver
    | Deliver(obs: LldpObservation)

  function Lost(s: Source): set<Pair> {
    if s.reconnecting.None? then {} else Pairs(s.reconnecting.value) - Pairs(s.cache.byInterface)
  }

  predicate CheckPasses(s: Source, p: Pair) {
    s.pass.Some? && p in s.pass.value.todo && p in Pairs(s.pass.value.snapshot) &&
    s.cache.generation == s.pass.value.generation
  }

  function Act(s: Source, a: Action): Source {
    match a
    case Change(obs) =>
      s.(cache := Applied(s.cache, obs), undelivered := s.undelivered + multiset{obs})
    case Flush(ifname, now) =>
      s.(cache := Flushed(s.cache, ifname),
      undelivered := s.undelivered
      + multiset(Removals(s.cache.byInterface, PairsOn(s.cache.byInterface, ifname), now)))
    case Swap =>
      if s.reconnecting.Some? then s
      else s.(cache := Exchanged(s.cache, map[]), reconnecting := Some(s.cache.byInterface))
    case Reconcile(now) =>
      if s.reconnecting.None? then s
      else s.(undelivered := s.undelivered + multiset(Removals(s.reconnecting.value, Lost(s), now)), reconnecting := None)
    case BeginPass =>
      s.(pass := Some(Pass(s.cache.byInterface, s.cache.generation, Pairs(s.cache.byInterface), [])))
    case Check(p, now) =>
      if !CheckPasses(s, p) then s.(pass := None)
      else
        var pass := s.pass.value;
        s.(pass := Some(pass.(todo := pass.todo - {p}, emitted := pass.emitted + [p])),
        undelivered := s.undelivered + multiset{MakeObservation(p.0, Event.Present, pass.snapshot[p.0][p.1], true, now)})
    case Deliver(obs) =>
      if obs !in s.undelivered then s
      else s.(undelivered := s.undelivered - multiset{obs},
      view := if PairOf(obs).1 == "" then s.view
      else if obs.event.Present? then s.view + {PairOf(obs)} else s.view - {PairOf(obs)})
  }

  function Run(actions: seq<Action>): Source {
    if actions == [] then IDLE else Act(Run(actions[..|actions| - 1]), actions[|actions| - 1])
  }

  // ---------------------------------------------------------------------
  // What the view will be
  // ---------------------------------------------------------------------

  ghost predicate WaitingFor(s: Source, p: Pair, event: Event) {
    exists obs :: obs in s.undelivered && PairOf(obs) == p && obs.event == event
  }

  /** Presence of a pair once everything has been delivered. */
  ghost predicate Effective(s: Source, p: Pair) {
    WaitingFor(s, p, Event.Present) || (p in s.view && !WaitingFor(s, p, Event.Removed))
  }

  /** No pair has opposite news under way. */
  ghost predicate OneMind(s: Source) {
    forall p: Pair :: p.1 != "" ==> !(WaitingFor(s, p, Event.Present) && WaitingFor(s, p, Event.Removed))
  }

  /** The cached pairs are effectively present; nothing else is, except pairs
      from before a reconnect that has not reconciled yet. */
  ghost predicate InStep(s: Source) {
    forall p: Pair :: p.1 != "" ==>
                  && (p in Pairs(s.cache.byInterface) ==> Effective(s, p))
                  && (Effective(s, p) ==> p in Pairs(s.cache.byInterface) || p in Lost(s))
  }

  ghost predicate PassOk(s: Source) {
    s.pass.Some? ==>
      var pass := s.pass.value;
      && Keyed(pass.snapshot)
      && pass.generation <= s.cache.generation
      && (pass.generation == s.cache.generation ==> pass.snapshot == s.cache.byInterface)
      && pass.todo <= Pairs(pass.snapshot)
      && (forall p :: p in pass.emitted <==> p in Pairs(pass.snapshot) && p !in pass.todo)
      && (forall a, b :: 0 <= a < b < |pass.emitted| ==> pass.emitted[a] != pass.emitted[b])
  }

  /** Holds in every run, orderly or not. */
  ghost predicate Guarded(s: Source) {
    && Keyed(s.cache.byInterface)
    && (s.reconnecting.Some? ==> Keyed(s.reconnecting.value))
    && PassOk(s)
  }

  ghost predicate Good(s: Source) {
    Guarded(s) && (forall p :: p in s.view ==> p.1 != "") && OneMind(s) && InStep(s)
  }

  function Opposite(event: Event): Event {
    if event.Present? then Event.Removed else Event.Present
  }

  /** No action reports a pair while the opposite news about it is still under
      way. Repeating the same news is harmless. */
  ghost predicate Orderly(s: Source, a: Action) {
    match a
    case Change(obs) => PairOf(obs).1 != "" ==> !WaitingFor(s, PairOf(obs), Opposite(obs.event))
    case Flush(ifname, _) => forall p :: p in PairsOn(s.cache.byInterface, ifname) ==> !WaitingFor(s, p, Event.Present)
    case Reconcile(_) => forall p :: p in Lost(s) ==> !WaitingFor(s, p, Event.Present)
    case Check(p, _) => CheckPasses(s, p) ==> !WaitingFor(s, p, Event.Removed)
    case _ => true
  }

  // ---------------------------------------------------------------------
  // What the cache holds
  // ---------------------------------------------------------------------

  /** A reconnect is open from its swap to its reconcile. */
  predicate ReconnectOpen(actions: seq<Action>) {
    actions != [] &&
    match actions[|actions| - 1]
    case Swap => true
    case Reconcile(_) => false
    case _ => ReconnectOpen(actions[..|actions| - 1])
  }

  /** The entry last announced for a pair since the last swap that opened a
      reconnect and since the last flush of its interface. */
  function LastTold(actions: seq<Action>, p: Pair): Option<Entry> {
    if actions == [] then None
    else
      var front := actions[..|actions| - 1];
      match actions[|actions| - 1]
      case Change(obs) =>
        if PairOf(obs) != p || p.1 == "" then LastTold(front, p)
        else if obs.event.Present? then Some(Entry(obs.chassisId, obs.portId, obs.systemName))
        else None
      case Flush(ifname, _) => if ifname == p.0 then None else LastTold(front, p)
      case Swap => if ReconnectOpen(front) then LastTold(front, p) else None
      case _ => LastTold(front, p)
  }

  function Cached(s: Source, p: Pair): Option<Entry> {
    EntryAt(s.cache.byInterface, p.0, p.1)
  }

  lemma ChangeTells(s: Source, obs: LldpObservation, p: Pair)
    ensures Cached(Act(s, Change(obs)), p) ==
            if PairOf(obs) != p || p.1 == "" then Cached(s, p)
            else if obs.event.Present? then Some(Entry(obs.chassisId, obs.portId, obs.systemName))
            else None
  {
  }

  lemma OtherTells(s: Source, a: Action, p: Pair)
    requires !a.Change?
    ensures Cached(Act(s, a), p) ==
            if (a.Flush? && a.ifname == p.0) || (a.Swap? && s.reconnecting.None?) then None else Cached(s, p)
  {
  }

  /** In every run, orderly or not. */
  lemma {:induction false} CacheIsLastWord(actions: seq<Action>, p: Pair)
    ensures Run(actions).reconnecting.Some? <==> ReconnectOpen(actions)
    ensures Cached(Run(actions), p) == LastTold(actions, p)
    ensures p in Pairs(Run(actions).cache.byInterface) <==> LastTold(actions, p).Some?
  {
    if actions != [] {
      var s, a := Run(actions[..|actions| - 1]), actions[|actions| - 1];
      CacheIsLastWord(actions[..|actions| - 1], p);
      if a.Change? {
        ChangeTells(s, a.obs, p);
      } else {
        OtherTells(s, a, p);
      }
    }
    assert p in Pairs(Run(actions).cache.byInterface) <==> Cached(Run(actions), p).Some?;
  }

  // ---------------------------------------------------------------------
  // The generation guard
  // ---------------------------------------------------------------------

  lemma ActKeepsGuarded(s: Source, a: Action)
    requires Guarded(s)
    ensures Guarded(Act(s, a))
  {
    match a
    case Change(obs) => StepMovesGeneration(s.cache, ApplyOp(obs));
    case Flush(ifname, now) => StepMovesGeneration(s.cache, FlushOp(ifname));
    case _ =>
  }

  lemma {:induction false} AlwaysGuarded(actions: seq<Action>)
    ensures Guarded(Run(actions))
  {
    if actions != [] {
      AlwaysGuarded(actions[..|actions| - 1]);
      ActKeepsGuarded(Run(actions[..|actions| - 1]), actions[|actions| - 1]);
    }
  }

  /** In every run, disturbed or not: a keepalive that passes its generation
      check re-asserts an entry that is cached at that very moment, under the
      key its own ids resolve to, with the ids and system name last announced; and a pass that runs to its end has emitted
      every pair of its snapshot exactly once. */
  lemma KeepaliveGuardSound(actions: seq<Action>, p: Pair, now: Time)
    ensures var s := Run(actions);
            CheckPasses(s, p) ==>
              && p in Pairs(s.cache.byInterface)
              && PairOf(MakeObservation(p.0, Event.Present, s.pass.value.snapshot[p.0][p.1], true, now)) == p
              && s.pass.value.snapshot[p.0][p.1] == s.cache.byInterface[p.0][p.1]
              && LastTold(actions, p).Some?
              && var e := LastTold(actions, p).value;
                 Act(s, Check(p, now)).undelivered ==
                 s.undelivered + multiset{LldpObservation(p.0, Event.Present, e.chassisId, e.portId, e.systemName, true, now)}
    ensures var s := Run(actions);
            s.pass.Some? && s.pass.value.todo == {} ==>
              && (forall q :: q in s.pass.value.emitted <==> q in Pairs(s.pass.value.snapshot))
              && (forall a, b :: 0 <= a < b < |s.pass.value.emitted| ==> s.pass.value.emitted[a] != s.pass.value.emitted[b])
  {
    AlwaysGuarded(actions);
    CacheIsLastWord(actions, p);
  }

  function Checks(s: Source, order: seq<Pair>, now: Time): Source {
    if order == [] then s else Act(Checks(s, order[..|order| - 1], now), Check(order[|order| - 1], now))
  }

  function Reasserted(m: CacheMap, p: Pair, now: Time): LldpObservation
    requires p in Pairs(m)
  {
    var e := m[p.0][p.1];
    LldpObservation(p.0, Event.Present, e.chassisId, e.portId, e.systemName, true, now)
  }

  function AllReasserted(m: CacheMap, order: seq<Pair>, now: Time): seq<LldpObservation>
    requires forall p :: p in order ==> p in Pairs(m)
  {
    if order == [] then [] else AllReasserted(m, order[..|order| - 1], now) + [Reasserted(m, order[|order| - 1], now)]
  }

  /** A pass that nothing disturbs delivers one keepalive per pair it checks,
      with the cached ids and name, in whatever order it goes through the cache. */
  lemma {:induction false} UndisturbedPass(s: Source, order: seq<Pair>, now: Time)
    requires forall p :: p in order ==> p in Pairs(s.cache.byInterface)
    requires forall a, b :: 0 <= a < b < |order| ==> order[a] != order[b]
    ensures var s' := Checks(Act(s, BeginPass), order, now);
            && s'.cache == s.cache && s'.pass.Some? && s'.pass.value.generation == s.cache.generation
            && s'.pass.value.snapshot == s.cache.byInterface
            && (forall p :: p in s'.pass.value.todo <==> p in Pairs(s.cache.byInterface) && p !in order)
            && s'.undelivered == s.undelivered + multiset(AllReasserted(s.cache.byInterface, order, now))
  {
    if order != [] {
      var front, last := order[..|order| - 1], order[|order| - 1];
      assert order == front + [last] && last !in front;
      UndisturbedPass(s, front, now);
      assert CheckPasses(Checks(Act(s, BeginPass), front, now), last);
    }
  }

  /** Once the cache has moved, the pass gives up without another keepalive. */
  lemma DisturbedPassStops(s: Source, p: Pair, now: Time)
    requires s.pass.Some? && s.cache.generation != s.pass.value.generation
    ensures Act(s, Check(p, now)) == s.(pass := None)
  {
  }

  /** A Removed observation built from a cached entry names the cached pair. */
  lemma RemovalNamesPair(m: CacheMap, p: Pair, now: Time)
    requires Keyed(m) && p in Pairs(m)
    ensures PairOf(MakeObservation(p.0, Event.Removed, m[p.0][p.1], false, now)) == p && p.1 != ""
  {
  }

  // ---------------------------------------------------------------------
  // The view equals the cache
  // ---------------------------------------------------------------------

  /** `s'` is `s` with more observations under way: the same news about each pair of `ps`. */
  ghost predicate Announces(s: Source, s': Source, added: set<LldpObservation>, ps: set<Pair>, event: Event) {
    && s'.view == s.view && s'.undelivered == s.undelivered + multiset(added)
    && (forall o :: o in added ==> o.event == event && PairOf(o) in ps)
    && (forall p :: p in ps ==> exists o :: o in added && PairOf(o) == p)
  }

  lemma NewsWaits(s: Source, s': Source, added: set<LldpObservation>, ps: set<Pair>, event: Event, q: Pair, e: Event)
    requires Announces(s, s', added, ps, event)
    ensures WaitingFor(s', q, e) <==> WaitingFor(s, q, e) || (q in ps && e == event)
  {
    if WaitingFor(s, q, e) {
      var o :| o in s.undelivered && PairOf(o) == q && o.event == e;
      assert o in s'.undelivered;
    } else if q in ps && e == event {
      var o :| o in added && PairOf(o) == q;
      assert o in s'.undelivered;
    }
  }

  /** News splits no mind exactly when the opposite is not under way, and then
      it decides its pairs and no other. */
  lemma NewsDecides(s: Source, s': Source, added: set<LldpObservation>, ps: set<Pair>, event: Event)
    requires OneMind(s) && Announces(s, s', added, ps, event)
    ensures OneMind(s') <==> forall p :: p in ps && p.1 != "" ==> !WaitingFor(s, p, Opposite(event))
    ensures OneMind(s') ==>
              forall q: Pair :: q.1 != "" ==> (Effective(s', q) <==> if q in ps then event.Present? else Effective(s, q))
  {
    forall q, e ensures WaitingFor(s', q, e) <==> WaitingFor(s, q, e) || (q in ps && e == event) {
      NewsWaits(s, s', added, ps, event, q, e);
    }
    forall p | p in ps ensures WaitingFor(s', p, event) {}
  }

  lemma AppliedPairs(c: Cache, obs: LldpObservation)
    requires PairOf(obs).1 != ""
    ensures Pairs(Applied(c, obs).byInterface) ==
            if obs.event.Present? then Pairs(c.byInterface) + {PairOf(obs)} else Pairs(c.byInterface) - {PairOf(obs)}
  {
  }

  lemma OthersStay(s: Source, obs: LldpObservation, q: Pair)
    requires q.1 != "" && q != PairOf(obs)
    ensures var s' := Act(s, Change(obs));
            && (q in Pairs(s'.cache.byInterface) <==> q in Pairs(s.cache.byInterface))
            && (q in Lost(s') <==> q in Lost(s))
  {
    ChangeTells(s, obs, q);
  }

  lemma ChangeExact(s: Source, obs: LldpObservation)
    requires Good(s)
    ensures OneMind(Act(s, Change(obs))) <==> Orderly(s, Change(obs))
    ensures Orderly(s, Change(obs)) ==> InStep(Act(s, Change(obs)))
  {
    var s' := Act(s, Change(obs));
    var p := PairOf(obs);
    assert multiset({obs}) == multiset{obs};
    NewsDecides(s, s', {obs}, {p}, obs.event);
    if p.1 != "" {
      AppliedPairs(s.cache, obs);
    }
    forall q: Pair | q.1 != "" && q != p
      ensures q in Pairs(s'.cache.byInterface) <==> q in Pairs(s.cache.byInterface)
      ensures q in Lost(s') <==> q in Lost(s)
    {
      OthersStay(s, obs, q);
    }
  }

  /** Removed observations about cached pairs. */
  lemma RemovalsDecide(s: Source, s': Source, m: CacheMap, ps: set<Pair>, now: Time)
    requires OneMind(s) && Keyed(m) && ps <= Pairs(m)
    requires s'.view == s.view && s'.undelivered == s.undelivered + multiset(Removals(m, ps, now))
    ensures OneMind(s') <==> forall p :: p in ps ==> !WaitingFor(s, p, Event.Present)
    ensures OneMind(s') ==> forall q: Pair :: q.1 != "" ==> (Effective(s', q) <==> q !in ps && Effective(s, q))
  {
    var added := Removals(m, ps, now);
    forall p | p in ps ensures p.1 != "" && exists o :: o in added && PairOf(o) == p {
      RemovalNamesPair(m, p, now);
      assert MakeObservation(p.0, Event.Removed, m[p.0][p.1], false, now) in added;
    }
    forall o | o in added ensures o.event == Event.Removed && PairOf(o) in ps {
      var p :| p in ps && o == MakeObservation(p.0, Event.Removed, m[p.0][p.1], false, now);
      RemovalNamesPair(m, p, now);
    }
    NewsDecides(s, s', added, ps, Event.Removed);
  }

  lemma FlushedPairs(c: Cache, ifname: string)
    ensures Pairs(Flushed(c, ifname).byInterface) == Pairs(c.byInterface) - PairsOn(c.byInterface, ifname)
  {
  }

  lemma FlushExact(s: Source, ifname: string, now: Time)
    requires Good(s)
    ensures OneMind(Act(s, Flush(ifname, now))) <==> Orderly(s, Flush(ifname, now))
    ensures Orderly(s, Flush(ifname, now)) ==> InStep(Act(s, Flush(ifname, now)))
  {
    var s' := Act(s, Flush(ifname, now));
    RemovalsDecide(s, s', s.cache.byInterface, PairsOn(s.cache.byInterface, ifname), now);
    FlushedPairs(s.cache, ifname);
  }

  lemma ReconcileExact(s: Source, now: Time)
    requires Good(s)
    ensures OneMind(Act(s, Reconcile(now))) <==> Orderly(s, Reconcile(now))
    ensures Orderly(s, Reconcile(now)) ==> InStep(Act(s, Reconcile(now)))
  {
    if s.reconnecting.Some? {
      RemovalsDecide(s, Act(s, Reconcile(now)), s.reconnecting.value, Lost(s), now);
    }
  }

  lemma SameNews(s: Source, s': Source)
    requires s'.undelivered == s.undelivered && s'.view == s.view
    ensures forall q :: Effective(s', q) <==> Effective(s, q)
    ensures OneMind(s') <==> OneMind(s)
  {
    forall q, e ensures WaitingFor(s', q, e) <==> WaitingFor(s, q, e) {}
  }

  lemma CheckExact(s: Source, p: Pair, now: Time)
    requires Good(s)
    ensures OneMind(Act(s, Check(p, now))) <==> Orderly(s, Check(p, now))
    ensures Orderly(s, Check(p, now)) ==> InStep(Act(s, Check(p, now)))
  {
    var s' := Act(s, Check(p, now));
    assert Lost(s') == Lost(s);
    if CheckPasses(s, p) {
      var o := MakeObservation(p.0, Event.Present, s.pass.value.snapshot[p.0][p.1], true, now);
      assert multiset({o}) == multiset{o} && PairOf(o) == p && p.1 != "";
      NewsDecides(s, s', {o}, {p}, Event.Present);
    } else {
      SameNews(s, s');
    }
  }

  /** A delivery decides nothing anew: it only makes the news about its pair final. */
  lemma DeliverKeeps(s: Source, obs: LldpObservation)
    requires OneMind(s)
    ensures OneMind(Act(s, Deliver(obs)))
    ensures forall q: Pair :: q.1 != "" ==> (Effective(Act(s, Deliver(obs)), q) <==> Effective(s, q))
  {
    var s' := Act(s, Deliver(obs));
    if obs in s.undelivered {
      var p := PairOf(obs);
      assert WaitingFor(s, p, obs.event);
      forall q, e ensures WaitingFor(s', q, e) ==> WaitingFor(s, q, e) {}
      forall q, e | q != p ensures WaitingFor(s', q, e) <==> WaitingFor(s, q, e) {
        if WaitingFor(s, q, e) {
          var o :| o in s.undelivered && PairOf(o) == q && o.event == e;
          assert o in s'.undelivered;
        }
      }
    }
  }

  lemma SwapKeeps(s: Source)
    requires Good(s)
    ensures OneMind(Act(s, Swap)) && InStep(Act(s, Swap))
  {
    var s' := Act(s, Swap);
    SameNews(s, s');
    assert s.reconnecting.None? ==> Pairs(s'.cache.byInterface) == {} && Lost(s') == Pairs(s.cache.byInterface);
  }

  /** Every action of every thread, from a good state: it leaves opposite news
      under way about some pair if and only if it is not orderly; and if it is,
      the view-to-be stays equal to the cache. */
  lemma StepExact(s: Source, a: Action)
    requires Good(s)
    ensures OneMind(Act(s, a)) <==> Orderly(s, a)
    ensures Orderly(s, a) ==> Good(Act(s, a))
  {
    ActKeepsGuarded(s, a);
    match a
    case Change(obs) => ChangeExact(s, obs);
    case Flush(ifname, now) => FlushExact(s, ifname, now);
    case Reconcile(now) => ReconcileExact(s, now);
    case Check(p, now) => CheckExact(s, p, now);
    case Deliver(obs) =>
      DeliverKeeps(s, obs);
      assert Lost(Act(s, a)) == Lost(s);
    case Swap => SwapKeeps(s);
    case BeginPass => SameNews(s, Act(s, a));
  }

  // ---------------------------------------------------------------------
  // What opposite news costs
  // ---------------------------------------------------------------------

  function Delivered(s: Source, order: seq<LldpObservation>): Source
    decreases |order|
  {
    if order == [] then s else Delivered(Act(s, Deliver(order[0])), order[1..])
  }

  /** An order in which everything under way is delivered. */
  predicate Complete(s: Source, order: seq<LldpObservation>) {
    multiset(order) == s.undelivered
  }

  lemma NothingWaiting(s: Source)
    requires s.undelivered == multiset{}
    ensures forall q :: Effective(s, q) <==> q in s.view
  {
  }

  lemma CompleteTail(s: Source, order: seq<LldpObservation>)
    requires Complete(s, order) && order != []
    ensures order[0] in s.undelivered && Complete(Act(s, Deliver(order[0])), order[1..])
  {
    assert order == [order[0]] + order[1..];
  }

  lemma {:induction false} OneOutcome(s: Source, order: seq<LldpObservation>)
    requires OneMind(s) && Complete(s, order)
    ensures forall q: Pair :: q.1 != "" ==> (q in Delivered(s, order).view <==> Effective(s, q))
    decreases |order|
  {
    if order == [] {
      NothingWaiting(s);
    } else {
      CompleteTail(s, order);
      DeliverKeeps(s, order[0]);
      OneOutcome(Act(s, Deliver(order[0])), order[1..]);
    }
  }

  lemma {:induction false} DeliverLast(s: Source, order: seq<LldpObservation>, last: LldpObservation)
    ensures Delivered(s, order + [last]) == Act(Delivered(s, order), Deliver(last))
    decreases |order|
  {
    if order != [] {
      assert (order + [last])[1..] == order[1..] + [last];
      DeliverLast(Act(s, Deliver(order[0])), order[1..], last);
    } else {
      assert [last][1..] == [];
    }
  }

  lemma DeliveryTakes(s: Source, obs: LldpObservation)
    requires obs in s.undelivered
    ensures Act(s, Deliver(obs)).undelivered == s.undelivered - multiset{obs}
  {
  }

  lemma {:induction false} DeliveredRest(s: Source, order: seq<LldpObservation>)
    requires multiset(order) <= s.undelivered
    ensures Delivered(s, order).undelivered == s.undelivered - multiset(order)
    decreases |order|
  {
    if order != [] {
      var first, rest := order[0], order[1..];
      assert order == [first] + rest;
      assert multiset(order) == multiset{first} + multiset(rest);
      DeliveryTakes(s, first);
      DeliveredRest(Act(s, Deliver(first)), rest);
    }
  }

  lemma {:induction false} Listing(m: multiset<LldpObservation>) returns (order: seq<LldpObservation>)
    ensures multiset(order) == m
    decreases |m|
  {
    if m == multiset{} {
      order := [];
    } else {
      var o :| o in m;
      var rest := Listing(m - multiset{o});
      order := rest + [o];
    }
  }

  /** Whichever news is delivered last wins. */
  lemma LastWins(s: Source, p: Pair, event: Event) returns (order: seq<LldpObservation>)
    requires p.1 != "" && WaitingFor(s, p, event)
    ensures Complete(s, order) && (p in Delivered(s, order).view <==> event.Present?)
  {
    var o :| o in s.undelivered && PairOf(o) == p && o.event == event;
    var front := Listing(s.undelivered - multiset{o});
    order := front + [o];
    DeliverLast(s, front, o);
    DeliveredRest(s, front);
    assert Delivered(s, front).undelivered == multiset{o};
    FinalWord(Delivered(s, front), o);
  }

  lemma FinalWord(s: Source, o: LldpObservation)
    requires o in s.undelivered && PairOf(o).1 != ""
    ensures PairOf(o) in Act(s, Deliver(o)).view <==> o.event.Present?
  {
  }

  /** Opposite news about a pair is exactly what makes the final view depend on
      the order of deliveries. */
  lemma OneMindMeansOneView(s: Source)
    requires forall p :: p in s.view ==> p.1 != ""
    ensures OneMind(s) <==>
            forall a, b :: Complete(s, a) && Complete(s, b) ==> Delivered(s, a).view == Delivered(s, b).view
  {
    if OneMind(s) {
      forall a, b | Complete(s, a) && Complete(s, b) ensures Delivered(s, a).view == Delivered(s, b).view {
        OneOutcome(s, a);
        OneOutcome(s, b);
        NamedView(s, a);
        NamedView(s, b);
      }
    } else {
      var p: Pair :| p.1 != "" && WaitingFor(s, p, Event.Present) && WaitingFor(s, p, Event.Removed);
      var a := LastWins(s, p, Event.Present);
      var b := LastWins(s, p, Event.Removed);
      assert Delivered(s, a).view != Delivered(s, b).view;
    }
  }

  lemma {:induction false} NamedView(s: Source, order: seq<LldpObservation>)
    requires forall p :: p in s.view ==> p.1 != ""
    ensures forall p :: p in Delivered(s, order).view ==> p.1 != ""
    decreases |order|
  {
    if order != [] {
      NamedView(Act(s, Deliver(order[0])), order[1..]);
    }
  }

  // ---------------------------------------------------------------------
  // Main results
  // ---------------------------------------------------------------------

  ghost predicate AlwaysOrderly(actions: seq<Action>) {
    actions != [] ==>
      AlwaysOrderly(actions[..|actions| - 1]) && Orderly(Run(actions[..|actions| - 1]), actions[|actions| - 1])
  }

  /** Of one mind after the run and after each of its prefixes. */
  ghost predicate AlwaysOneMind(actions: seq<Action>) {
    OneMind(Run(actions)) && (actions != [] ==> AlwaysOneMind(actions[..|actions| - 1]))
  }

  lemma IdleGood()
    ensures Good(IDLE)
  {
    forall p ensures !Effective(IDLE, p) {}
  }

  lemma {:induction false} OrderlyRunsGood(actions: seq<Action>)
    requires AlwaysOrderly(actions)
    ensures Good(Run(actions))
  {
    if actions == [] {
      IdleGood();
    } else {
      OrderlyRunsGood(actions[..|actions| - 1]);
      StepExact(Run(actions[..|actions| - 1]), actions[|actions| - 1]);
    }
  }

  /** Over every orderly run of watch events, flushes, keepalive passes and
      reconnects, with however partial an enumeration: while no reconnect is
      open, every order of the deliveries still under way leaves exactly the
      cached pairs present. */
  lemma ViewEqualsCache(actions: seq<Action>)
    requires AlwaysOrderly(actions)
    ensures var s := Run(actions);
            s.reconnecting.None? ==>
              && (forall order :: Complete(s, order) ==> Delivered(s, order).view == Pairs(s.cache.byInterface))
              && (s.undelivered == multiset{} ==> s.view == Pairs(s.cache.byInterface))
  {
    var s := Run(actions);
    OrderlyRunsGood(actions);
    if s.reconnecting.None? {
      forall order | Complete(s, order) ensures Delivered(s, order).view == Pairs(s.cache.byInterface) {
        OneOutcome(s, order);
        NamedView(s, order);
      }
      assert s.undelivered == multiset{} ==> Complete(s, []) && Delivered(s, []) == s;
    }
  }

  /** So after a reconnect that has reconciled, a pair is present, once all is
      delivered, exactly if it was enumerated or announced since the swap and
      not withdrawn or flushed again. */
  lemma ViewIsLastWord(actions: seq<Action>, order: seq<LldpObservation>, p: Pair)
    requires AlwaysOrderly(actions) && !ReconnectOpen(actions) && Complete(Run(actions), order)
    ensures p in Delivered(Run(actions), order).view <==> LastTold(actions, p).Some?
  {
    CacheIsLastWord(actions, p);
    ViewEqualsCache(actions);
  }

  /** The hypothesis is exact: a run is orderly if and only if at each of its
      moments the final view is independent of the order of deliveries. */
  lemma {:induction false} OrderlyExact(actions: seq<Action>)
    ensures AlwaysOrderly(actions) <==> AlwaysOneMind(actions)
  {
    if actions == [] {
      IdleGood();
    } else {
      var front := actions[..|actions| - 1];
      OrderlyExact(front);
      if AlwaysOrderly(front) {
        OrderlyRunsGood(front);
        StepExact(Run(front), actions[|actions| - 1]);
      }
    }
  }

  /** A run that is not orderly: a flush between a neighbour's cache write and its
      delivery can overtake it, and the view keeps a pair the cache lost. */
  lemma OvertakenChangeDiverges(obs: LldpObservation, now: Time)
    requires obs.event.Present? && !obs.keepalive && PairOf(obs).1 != ""
    ensures var gone := LldpObservation(obs.localIfname, Event.Removed, obs.chassisId, obs.portId, obs.systemName, false, now);
            var s := Act(Act(Act(Act(IDLE, Change(obs)), Flush(obs.localIfname, now)), Deliver(gone)), Deliver(obs));
            s.undelivered == multiset{} && s.view == {PairOf(obs)} && Pairs(s.cache.byInterface) == {}
  {
    var gone := LldpObservation(obs.localIfname, Event.Removed, obs.chassisId, obs.portId, obs.systemName, false, now);
    FlushOvertakes(obs, now);
    var s2 := Act(Act(IDLE, Change(obs)), Flush(obs.localIfname, now));
    assert Act(s2, Deliver(gone)).undelivered == multiset{obs};
  }

  lemma FlushOvertakes(obs: LldpObservation, now: Time)
    requires obs.event.Present? && PairOf(obs).1 != ""
    ensures var gone := LldpObservation(obs.localIfname, Event.Removed, obs.chassisId, obs.portId, obs.systemName, false, now);
            var s := Act(Act(IDLE, Change(obs)), Flush(obs.localIfname, now));
            s.undelivered == multiset{obs, gone} && s.view == {} && Pairs(s.cache.byInterface) == {}
  {
    var gone := LldpObservation(obs.localIfname, Event.Removed, obs.chassisId, obs.portId, obs.systemName, false, now);
    var s1 := Act(IDLE, Change(obs));
    AppliedPairs(IDLE.cache, obs);
    var ps := PairsOn(s1.cache.byInterface, obs.localIfname);
    assert ps == {PairOf(obs)};
    assert Removals(s1.cache.byInterface, ps, now) == {gone};
    assert Pairs(Flushed(s1.cache, obs.localIfname).byInterface) == {};
  }
}
