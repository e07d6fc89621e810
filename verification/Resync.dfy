/** Repairing the model after the observation queue dropped items. Producers
    push at any moment, also during a repair; the supervision thread takes the
    mask, repairs, and puts back the bits it could not serve. */
module Resync {
  import opened Common
  import opened ObservationQueue
  import opened EngineModel

  /** `Serving` repairs a taken bit; `Reconnecting` and `Acquiring` are the
      repairs that LLDP supervision performs on its own account. */
  datatype Purpose = Serving | Reconnecting | Acquiring

  datatype Repair = Repair(origin: Origin, begunAt: nat, purpose: Purpose)

  /** `clock` numbers the actions. `lastDrop` is the action that last dropped
      an item of an origin by overflow (0: none), `lastLoss` the one that last
      dropped or discarded one, `lastGood` the one that began the last
      successful repair of it. `taken` holds the bits of the running
      `performResync` still to be served, `cleared` tells that it has discarded
      the backlog. */
  datatype Runtime = Runtime(
    queue: Queue<Op>, clock: nat,
    lastDrop: Origin -> nat, lastLoss: Origin -> nat, lastGood: Origin -> nat,
    taken: Option<set<Origin>>, cleared: bool, repair: Option<Repair>, observer: bool)

  const NEVER: Origin -> nat := _ => 0

  const STARTED: Runtime := Runtime(Queue([], {}, false), 0, NEVER, NEVER, NEVER, None, false, None, false)

  datatype Action =
    | Push(item: Item<Op>)
    | Pop
    | TakeMask
    | Discard                          // the backlog, before a netlink redump
    | BeginServing(origin: Origin)     // redump, or reconnect of the installed observer
    | SkipLldp                         // no observer: the retry path owns the repair
    | BeginReconnect                   // dead watch or failed probe
    | BeginAcquire                     // create and start a new observer
    | EndRepair(ok: bool)              // false also when throttled or when there is no monitor
    | EndTick
    | DropObserver

  function Set(f: Origin -> nat, o: Origin, t: nat): Origin -> nat {
    x => if x == o then t else f(x)
  }

  predicate HasItemOf(q: Queue<Op>, o: Origin) {
    exists item :: item in q.items && item.origin == o
  }

  predicate Discards(r: Runtime) {
    r.repair.None? && r.taken.Some? && NetlinkOrigin in r.taken.value && !r.cleared
  }

  function Do(capacity: nat, r: Runtime, a: Action): Runtime {
    var s := r.(clock := r.clock + 1);
    match a
    case Push(item) =>
      s.(queue := Pushed(r.queue, capacity, item),
      lastDrop := if Overflows(r.queue, capacity) then Set(r.lastDrop, r.queue.items[0].origin, s.clock) else r.lastDrop,
      lastLoss := if Overflows(r.queue, capacity) then Set(r.lastLoss, r.queue.items[0].origin, s.clock) else r.lastLoss)
    case Pop => if r.queue.items == [] then s else s.(queue := r.queue.(items := r.queue.items[1..]))
    case TakeMask =>
      if r.taken.Some? || r.repair.Some? then s else s.(taken := Some(r.queue.mask), queue := r.queue.(mask := {}))
    case Discard =>
      if !Discards(r) then s
      else s.(cleared := true, queue := r.queue.(items := []),
        lastLoss := o => if HasItemOf(r.queue, o) then s.clock else r.lastLoss(o))
    case BeginServing(o) =>
      if r.repair.Some? || r.taken.None? || o !in r.taken.value || (if o.LldpOrigin? then !r.observer else !r.cleared) then s
      else s.(repair := Some(Repair(o, s.clock, Serving)))
    case SkipLldp =>
      if r.repair.None? && r.taken.Some? && !r.observer then s.(taken := Some(r.taken.value - {LldpOrigin})) else s
    case BeginReconnect =>
      if r.repair.None? && r.taken.None? && r.observer then s.(repair := Some(Repair(LldpOrigin, s.clock, Reconnecting))) else s
    case BeginAcquire =>
      if r.repair.None? && r.taken.None? && !r.observer then s.(repair := Some(Repair(LldpOrigin, s.clock, Acquiring))) else s
    case EndRepair(ok) =>
      if r.repair.None? then s
      else
        var p := r.repair.value;
        s.(repair := None,
        lastGood := if ok then Set(r.lastGood, p.origin, p.begunAt) else r.lastGood,
        queue := if !ok && p.purpose.Serving? then r.queue.(mask := r.queue.mask + {p.origin}) else r.queue,
        taken := if p.purpose.Serving? && r.taken.Some? then Some(r.taken.value - {p.origin}) else r.taken,
        cleared := r.cleared && !(p.purpose.Serving? && p.origin.NetlinkOrigin?),
        observer := r.observer || (ok && p.purpose.Acquiring?))
    case EndTick => if r.repair.None? && r.taken == Some({}) then s.(taken := None) else s
    case DropObserver => if r.repair.None? && r.taken.None? then s.(observer := false) else s
  }

  function Run(capacity: nat, actions: seq<Action>): Runtime {
    if actions == [] then STARTED else Do(capacity, Run(capacity, actions[..|actions| - 1]), actions[|actions| - 1])
  }

  /** Whatever happened to the origin at `last` (0: nothing) is followed by a
      successful repair that began after it. */
  predicate RepairedSince(r: Runtime, last: Origin -> nat, o: Origin) {
    last(o) == 0 || last(o) < r.lastGood(o)
  }

  predicate BeingServed(r: Runtime, o: Origin) {
    r.taken.Some? && o in r.taken.value
  }

  predicate Owed(r: Runtime, o: Origin) {
    o in r.queue.mask || BeingServed(r, o) || (o.LldpOrigin? && !r.observer)
  }

  /** Nothing recorded in `last` is forgotten. While a repair runs, what it
      began too early to cover has its bit up. */
  ghost predicate Remembered(r: Runtime, last: Origin -> nat) {
    && (forall o :: last(o) <= r.clock && (RepairedSince(r, last, o) || Owed(r, o)))
    && (r.repair.Some? ==> last(r.repair.value.origin) < r.repair.value.begunAt || r.repair.value.origin in r.queue.mask)
  }

  predicate RepairOk(r: Runtime) {
    && (r.repair.Some? ==>
          var p := r.repair.value;
          && p.begunAt <= r.clock
          && (p.purpose.Serving? ==> BeingServed(r, p.origin) && (if p.origin.LldpOrigin? then r.observer else r.cleared))
          && (!p.purpose.Serving? ==> p.origin.LldpOrigin? && r.taken.None?))
    && (r.cleared ==> BeingServed(r, NetlinkOrigin))
    && (forall o :: r.lastGood(o) <= r.clock)
  }

  lemma DoKeepsRepair(capacity: nat, r: Runtime, a: Action)
    requires RepairOk(r)
    ensures RepairOk(Do(capacity, r, a))
  {
  }

  lemma DropRemembered(capacity: nat, r: Runtime, a: Action)
    requires RepairOk(r) && Remembered(r, r.lastDrop)
    ensures Remembered(Do(capacity, r, a), Do(capacity, r, a).lastDrop)
  {
    var r' := Do(capacity, r, a);
    forall o ensures r'.lastDrop(o) <= r'.clock && (RepairedSince(r', r'.lastDrop, o) || Owed(r', o)) {
      assert r.lastDrop(o) <= r.clock && (RepairedSince(r, r.lastDrop, o) || Owed(r, o));
    }
  }

  lemma {:induction false} RepairsOk(capacity: nat, actions: seq<Action>)
    ensures RepairOk(Run(capacity, actions))
  {
    if actions != [] {
      RepairsOk(capacity, actions[..|actions| - 1]);
      DoKeepsRepair(capacity, Run(capacity, actions[..|actions| - 1]), actions[|actions| - 1]);
    }
  }

  /** At every point between ticks, whatever producers, repairs and failures
      did: each overflow drop has been repaired by a repair begun after it, or
      its origin's bit is raised, or (LLDP) there is no observer, whose
      replacement enumerates from scratch. */
  lemma {:induction false} ResyncNeverLost(capacity: nat, actions: seq<Action>)
    ensures Remembered(Run(capacity, actions), Run(capacity, actions).lastDrop)
    ensures var r := Run(capacity, actions);
            r.taken.None? ==> forall o :: RepairedSince(r, r.lastDrop, o) || o in r.queue.mask || (o.LldpOrigin? && !r.observer)
  {
    if actions != [] {
      var front := actions[..|actions| - 1];
      ResyncNeverLost(capacity, front);
      RepairsOk(capacity, front);
      DropRemembered(capacity, Run(capacity, front), actions[|actions| - 1]);
    }
    var r := Run(capacity, actions);
    forall o | r.taken.None? ensures RepairedSince(r, r.lastDrop, o) || o in r.queue.mask || (o.LldpOrigin? && !r.observer) {
      assert RepairedSince(r, r.lastDrop, o) || Owed(r, o);
    }
  }

  // ---------------------------------------------------------------------
  // A tick that repairs
  // ---------------------------------------------------------------------

  function Serve(capacity: nat, r: Runtime, o: Origin): Runtime {
    Do(capacity, Do(capacity, r, BeginServing(o)), EndRepair(true))
  }

  /** `performResync` with repairs that succeed and nobody interfering. */
  function GoodTick(capacity: nat, r: Runtime): Runtime {
    var r1 := Do(capacity, r, TakeMask);
    var r2 := if NetlinkOrigin in r.queue.mask then Serve(capacity, Do(capacity, r1, Discard), NetlinkOrigin) else r1;
    var r3 := if LldpOrigin in r.queue.mask then Serve(capacity, r2, LldpOrigin) else r2;
    Do(capacity, r3, EndTick)
  }

  lemma ServeRepairs(capacity: nat, r: Runtime, o: Origin)
    requires r.repair.None? && BeingServed(r, o) && (if o.LldpOrigin? then r.observer else r.cleared)
    ensures var r' := Serve(capacity, r, o);
            && r'.repair.None? && r'.taken == Some(r.taken.value - {o}) && r'.queue == r.queue && r'.observer == r.observer
            && r'.lastDrop == r.lastDrop && r'.lastGood(o) == r.clock + 1
            && (forall p :: p != o ==> r'.lastGood(p) == r.lastGood(p))
            && r'.cleared == (r.cleared && o.LldpOrigin?) && r'.clock == r.clock + 2
  {
  }

  /** With an observer installed, such a tick leaves no bit up and every drop repaired. */
  lemma GoodTickRepairs(capacity: nat, r: Runtime)
    requires RepairOk(r) && Remembered(r, r.lastDrop) && r.repair.None? && r.taken.None? && r.observer
    ensures var r' := GoodTick(capacity, r);
            && r'.taken.None? && r'.repair.None? && r'.queue.mask == {} && r'.lastDrop == r.lastDrop
            && forall o :: RepairedSince(r', r'.lastDrop, o)
  {
    var r1 := Do(capacity, r, TakeMask);
    var r2 := if NetlinkOrigin in r.queue.mask then Serve(capacity, Do(capacity, r1, Discard), NetlinkOrigin) else r1;
    if NetlinkOrigin in r.queue.mask {
      ServeRepairs(capacity, Do(capacity, r1, Discard), NetlinkOrigin);
    }
    assert NetlinkOrigin !in r.queue.mask ==> r.queue.mask == r.queue.mask - {NetlinkOrigin};
    assert r2.taken == Some(r.queue.mask - {NetlinkOrigin}) && r2.repair.None? && r2.observer && r2.lastDrop == r.lastDrop;
    if LldpOrigin in r.queue.mask {
      ServeRepairs(capacity, r2, LldpOrigin);
    }
    forall o | o in r.queue.mask - {NetlinkOrigin} ensures o == LldpOrigin {}
    assert r.queue.mask - {NetlinkOrigin} - {LldpOrigin} == {};
    assert LldpOrigin !in r.queue.mask ==> r.queue.mask - {NetlinkOrigin} == r.queue.mask - {NetlinkOrigin} - {LldpOrigin};
    forall o ensures RepairedSince(GoodTick(capacity, r), r.lastDrop, o) {
      assert r.lastDrop(o) <= r.clock && (RepairedSince(r, r.lastDrop, o) || Owed(r, o));
    }
  }

  // ---------------------------------------------------------------------
  // Discarded items
  // ---------------------------------------------------------------------

  /** The backlog discarded before a netlink redump holds an LLDP observation,
      and nothing asks for an LLDP repair. */
  predicate LosesLldp(r: Runtime, a: Action) {
    a.Discard? && Discards(r) && HasItemOf(r.queue, LldpOrigin) && !Owed(r, LldpOrigin)
  }

  /** Dropped or discarded, everything lost stays repaired or owed through a
      step if and only if it is not such a discard. */
  lemma LossRemembered(capacity: nat, r: Runtime, a: Action)
    requires RepairOk(r) && Remembered(r, r.lastLoss)
    ensures Remembered(Do(capacity, r, a), Do(capacity, r, a).lastLoss) <==> !LosesLldp(r, a)
  {
    var r' := Do(capacity, r, a);
    if LosesLldp(r, a) {
      assert r.lastGood(LldpOrigin) <= r.clock;
      assert !RepairedSince(r', r'.lastLoss, LldpOrigin) && !Owed(r', LldpOrigin);
    } else {
      forall o ensures r'.lastLoss(o) <= r'.clock && (RepairedSince(r', r'.lastLoss, o) || Owed(r', o)) {
        assert r.lastLoss(o) <= r.clock && (RepairedSince(r, r.lastLoss, o) || Owed(r, o));
      }
    }
  }

  predicate NeverLosesLldp(capacity: nat, actions: seq<Action>) {
    actions != [] ==>
      var front := actions[..|actions| - 1];
      NeverLosesLldp(capacity, front) && !LosesLldp(Run(capacity, front), actions[|actions| - 1])
  }

  /** Nothing lost is forgotten, after the run and after each of its prefixes. */
  ghost predicate AlwaysRemembered(capacity: nat, actions: seq<Action>) {
    Remembered(Run(capacity, actions), Run(capacity, actions).lastLoss) &&
    (actions != [] ==> AlwaysRemembered(capacity, actions[..|actions| - 1]))
  }

  /** Every item lost in a run, by overflow or by a discard, is repaired by a
      repair begun after the loss or still owed one, at every moment, if and
      only if no discard of the run takes an unowed LLDP observation along. */
  lemma {:induction false} LossNeverForgotten(capacity: nat, actions: seq<Action>)
    ensures NeverLosesLldp(capacity, actions) <==> AlwaysRemembered(capacity, actions)
  {
    if actions != [] {
      var front := actions[..|actions| - 1];
      LossNeverForgotten(capacity, front);
      if AlwaysRemembered(capacity, front) {
        RepairsOk(capacity, front);
        LossRemembered(capacity, Run(capacity, front), actions[|actions| - 1]);
      }
    }
  }

  // ---------------------------------------------------------------------
  // A run that loses an LLDP observation
  // ---------------------------------------------------------------------

  function Repeat(item: Item<Op>, n: nat): seq<Action> {
    seq(n, _ => Push(item))
  }

  /** An observer is acquired; one netlink item and then `n` LLDP items arrive. */
  function Flooded(capacity: nat, op: Op, n: nat): seq<Action> {
    [BeginAcquire, EndRepair(true), Push(Item(NetlinkOrigin, op))] + Repeat(Item(LldpOrigin, op), n)
  }

  /** With a full queue of LLDP items the netlink item is dropped, and the tick
      repairs netlink. */
  function LosingRun(capacity: nat, op: Op): seq<Action> {
    Flooded(capacity, op, capacity) + [TakeMask] + [Discard] + [BeginServing(NetlinkOrigin)] + [EndRepair(true)] + [EndTick]
  }

  lemma RunOn(capacity: nat, actions: seq<Action>, a: Action)
    ensures Run(capacity, actions + [a]) == Do(capacity, Run(capacity, actions), a)
  {
    assert (actions + [a])[..|actions|] == actions;
  }

  predicate FloodedBy(capacity: nat, op: Op, n: nat, r: Runtime) {
    && r.observer && r.taken.None? && r.repair.None? && !r.cleared && !r.queue.closed
    && r.queue.items == (if n < capacity then [Item(NetlinkOrigin, op)] else []) + seq(n, _ => Item(LldpOrigin, op))
    && r.queue.mask == (if n < capacity then {} else {NetlinkOrigin})
    && r.lastGood(LldpOrigin) == 1 && r.clock == n + 3
  }

  lemma FloodStep(capacity: nat, op: Op, n: nat, r: Runtime)
    requires n < capacity && FloodedBy(capacity, op, n, r)
    ensures FloodedBy(capacity, op, n + 1, Do(capacity, r, Push(Item(LldpOrigin, op))))
  {
    var lldp := seq(n, _ => Item(LldpOrigin, op));
    assert lldp + [Item(LldpOrigin, op)] == seq(n + 1, _ => Item(LldpOrigin, op));
    assert |r.queue.items| == n + 1;
    assert r.queue.items[1..] == lldp;
  }

  lemma {:induction false} Floods(capacity: nat, op: Op, n: nat)
    requires n <= capacity && 0 < capacity
    ensures FloodedBy(capacity, op, n, Run(capacity, Flooded(capacity, op, n)))
  {
    if n == 0 {
      RunOn(capacity, [], BeginAcquire);
      RunOn(capacity, [BeginAcquire], EndRepair(true));
      RunOn(capacity, [BeginAcquire, EndRepair(true)], Push(Item(NetlinkOrigin, op)));
      assert [] + [BeginAcquire] == [BeginAcquire];
      assert [BeginAcquire] + [EndRepair(true)] == [BeginAcquire, EndRepair(true)];
      assert [BeginAcquire, EndRepair(true)] + [Push(Item(NetlinkOrigin, op))] == Flooded(capacity, op, 0);
    } else {
      Floods(capacity, op, n - 1);
      assert Flooded(capacity, op, n) == Flooded(capacity, op, n - 1) + [Push(Item(LldpOrigin, op))];
      RunOn(capacity, Flooded(capacity, op, n - 1), Push(Item(LldpOrigin, op)));
      FloodStep(capacity, op, n - 1, Run(capacity, Flooded(capacity, op, n - 1)));
    }
  }

  /** The netlink repair of a tick, on a backlog of unowed LLDP observations. */
  lemma RepairForgets(capacity: nat, r: Runtime)
    requires r.observer && r.taken.None? && r.repair.None? && !r.cleared
    requires r.queue.mask == {NetlinkOrigin} && HasItemOf(r.queue, LldpOrigin) && r.lastGood(LldpOrigin) <= r.clock
    ensures LosesLldp(Do(capacity, r, TakeMask), Discard)
    ensures var r1 := Do(capacity, Do(capacity, r, TakeMask), Discard);
            var r' := Do(capacity, Do(capacity, Do(capacity, r1, BeginServing(NetlinkOrigin)), EndRepair(true)), EndTick);
            && r'.taken.None? && r'.repair.None? && r'.observer && LldpOrigin !in r'.queue.mask
            && !RepairedSince(r', r'.lastLoss, LldpOrigin)
  {
    var r1 := Do(capacity, Do(capacity, r, TakeMask), Discard);
    assert r1.lastLoss(LldpOrigin) == r.clock + 2 && r1.taken == Some({NetlinkOrigin});
    var r2 := Do(capacity, Do(capacity, r1, BeginServing(NetlinkOrigin)), EndRepair(true));
    assert r1.taken.value - {NetlinkOrigin} == {};
    assert r2.taken == Some({}) && r2.lastLoss(LldpOrigin) == r.clock + 2 && r2.lastGood(LldpOrigin) == r.lastGood(LldpOrigin);
  }

  lemma {:induction false} LosesOnward(capacity: nat, front: seq<Action>, rest: seq<Action>)
    requires !NeverLosesLldp(capacity, front)
    ensures !NeverLosesLldp(capacity, front + rest)
  {
    if rest == [] {
      assert front + rest == front;
    } else {
      LosesOnward(capacity, front, rest[..|rest| - 1]);
      assert (front + rest)[..|front + rest| - 1] == front + rest[..|rest| - 1];
    }
  }

  /** For every capacity and payload, a run from the start that ends between
      ticks with LLDP observations discarded, no bit up for them, an observer
      installed, and no repair since. */
  lemma DiscardedLldpUnmarked(capacity: nat, op: Op)
    requires 0 < capacity
    ensures var r := Run(capacity, LosingRun(capacity, op));
            && r.taken.None? && r.repair.None? && r.observer && LldpOrigin !in r.queue.mask
            && !RepairedSince(r, r.lastLoss, LldpOrigin)
    ensures !NeverLosesLldp(capacity, LosingRun(capacity, op))
  {
    var front, all := Flooded(capacity, op, capacity), LosingRun(capacity, op);
    Floods(capacity, op, capacity);
    var r := Run(capacity, front);
    assert r.queue.items[0] == Item(LldpOrigin, op) && r.queue.items[0] in r.queue.items;
    RepairForgets(capacity, r);
    var f1 := front + [TakeMask];
    var f2 := f1 + [Discard];
    var f3 := f2 + [BeginServing(NetlinkOrigin)];
    RunOn(capacity, front, TakeMask);
    RunOn(capacity, f1, Discard);
    RunOn(capacity, f2, BeginServing(NetlinkOrigin));
    RunOn(capacity, f3, EndRepair(true));
    RunOn(capacity, f3 + [EndRepair(true)], EndTick);
    LosesOnward(capacity, f2, [BeginServing(NetlinkOrigin)] + [EndRepair(true)] + [EndTick]);
    assert f2[..|f1|] == f1;
    assert all == f2 + ([BeginServing(NetlinkOrigin)] + [EndRepair(true)] + [EndTick]);
  }
}
