/** The watch supervisor: start, refresh and stop run concurrently with each
    other and with the loop thread of every watch. One state machine step is
    one action of one thread; calls take steps only while they hold the lock,
    except for building a silent watch and dropping one. */
module WatchSupervisor {
  import opened Common

  /** `Exiting`: the loop has ended on its own and is about to notify;
      `heard`: it notified after its exit handler was armed. */
  datatype Loop = Idle | Dispatching | Exiting | Done

  datatype Watch = Watch(loop: Loop, attached: bool, armed: bool, heard: bool)

  datatype Kind = Start | Refresh

  /** A call inside the lock; `watch` is the silent watch it built. */
  datatype Holder =
    | Opening(kind: Kind, watch: nat, pc: Pc)
    | Stopping(pc: Pc)

  datatype Pc = Entered | Retiring | Retired | Swapping | Clearing | Arming | Attaching | Publishing

  /** `watch` is the installed watch; `diedFrom` names the watch whose death
      `watchDied` records. */
  datatype Supervisor = Supervisor(
    watches: map<nat, Watch>, watch: Option<nat>, stopped: bool,
    watchDied: bool, diedFrom: Option<nat>,
    holder: Option<Holder>, waiting: map<nat, Kind>, dropped: set<nat>, nextId: nat)

  const FRESH: Supervisor := Supervisor(map[], None, true, false, None, None, map[], {}, 0)

  datatype Action =
    | Build(kind: Kind)
    | Acquire(w: nat)
    | AcquireStop
    | Proceed
    | Discard(w: nat)
    | BeginCallback(w: nat)
    | EndCallback(w: nat)
    | Exit(w: nat)
    | Notify(w: nat)

  /** Destroying a watch joins its loop thread: possible once no callback is
      running and an unsolicited exit has finished notifying. */
  predicate Joinable(s: Supervisor, w: nat) {
    w in s.watches && (s.watches[w].loop.Idle? || s.watches[w].loop.Done?)
  }

  function At(s: Supervisor, pc: Pc): Supervisor
    requires s.holder.Some?
  {
    s.(holder := Some(s.holder.value.(pc := pc)))
  }

  /** Next step of the call that holds the lock. */
  function Advance(s: Supervisor): Supervisor
    requires s.holder.Some?
  {
    var h := s.holder.value;
    match h.pc
    case Entered =>
      if h.Stopping? then At(s, Retiring).(stopped := true)
      else if (h.kind.Start? && s.watch.Some? && !s.watchDied) || (h.kind.Refresh? && s.stopped) then
        s.(holder := None, dropped := s.dropped + {h.watch})
      else At(s, Retiring)
    case Retiring =>
      if s.watch.None? then At(s, Retired)
      else if Joinable(s, s.watch.value) then At(s, Retired).(watches := s.watches - {s.watch.value}, watch := None)
      else s
    case Retired =>
      if h.Stopping? then s.(holder := None)
      else if h.kind.Refresh? then At(s, Swapping)
      else At(s, Clearing)
    case Swapping => At(s, Clearing)
    case Clearing => At(s, Arming).(watchDied := false, diedFrom := None)
    case Arming =>
      if h.Opening? && h.watch in s.watches
      then At(s, Attaching).(watches := s.watches[h.watch := s.watches[h.watch].(armed := true)]) else s
    case Attaching =>
      if h.Opening? && h.watch in s.watches
      then At(s, Publishing).(watches := s.watches[h.watch := s.watches[h.watch].(attached := true)]) else s
    case Publishing =>
      if h.Opening?
      then s.(watch := Some(h.watch), stopped := if h.kind.Start? then false else s.stopped, holder := None) else s
  }

  function Act(s: Supervisor, a: Action): Supervisor {
    match a
    case Build(kind) =>
      s.(watches := s.watches[s.nextId := Watch(Idle, false, false, false)],
      waiting := s.waiting[s.nextId := kind], nextId := s.nextId + 1)
    case Acquire(w) =>
      if s.holder.Some? || w !in s.waiting then s
      else s.(holder := Some(Opening(s.waiting[w], w, Entered)), waiting := s.waiting - {w})
    case AcquireStop =>
      if s.holder.Some? then s else s.(holder := Some(Stopping(Entered)))
    case Proceed =>
      if s.holder.None? then s else Advance(s)
    case Discard(w) =>
      if w in s.dropped && Joinable(s, w) then s.(watches := s.watches - {w}, dropped := s.dropped - {w}) else s
    case BeginCallback(w) =>
      if w in s.watches && s.watches[w].loop.Idle? && s.watches[w].attached
      then s.(watches := s.watches[w := s.watches[w].(loop := Dispatching)]) else s
    case EndCallback(w) =>
      if w in s.watches && s.watches[w].loop.Dispatching?
      then s.(watches := s.watches[w := s.watches[w].(loop := Idle)]) else s
    case Exit(w) =>
      if w in s.watches && s.watches[w].loop.Idle?
      then s.(watches := s.watches[w := s.watches[w].(loop := Exiting)]) else s
    case Notify(w) =>
      if w in s.watches && s.watches[w].loop.Exiting? then
        s.(watches := s.watches[w := s.watches[w].(loop := Done, armed := false, heard := s.watches[w].armed)],
        watchDied := s.watchDied || s.watches[w].armed,
        diedFrom := if s.watches[w].armed then Some(w) else s.diedFrom)
      else s
  }

  function Run(actions: seq<Action>): Supervisor {
    if actions == [] then FRESH else Act(Run(actions[..|actions| - 1]), actions[|actions| - 1])
  }

  // ---------------------------------------------------------------------
  // Invariant
  // ---------------------------------------------------------------------

  /** The call in the lock has built `w` and reached one of the late steps. */
  predicate Installing(s: Supervisor, w: nat, pcs: set<Pc>) {
    s.holder.Some? && s.holder.value.Opening? && s.holder.value.watch == w && s.holder.value.pc in pcs
  }

  predicate Owned(s: Supervisor, w: nat) {
    s.holder.Some? && s.holder.value.Opening? && s.holder.value.watch == w
  }

  /** Every existing watch plays at most one role. */
  predicate RoleOk(s: Supervisor, w: nat) {
    && (w in s.watches ==> w < s.nextId)
    && (w in s.waiting ==> w in s.watches && w !in s.dropped && s.watch != Some(w) && !Owned(s, w))
    && (w in s.dropped ==> w in s.watches && s.watch != Some(w) && !Owned(s, w))
    && (Owned(s, w) ==> w in s.watches && s.watch != Some(w))
    && (s.watch == Some(w) ==> w in s.watches)
  }

  predicate WatchOk(s: Supervisor, w: nat) {
    w in s.watches ==>
      && (s.watches[w].attached ==> s.watch == Some(w) || Installing(s, w, {Publishing}))
      && (s.watches[w].armed ==> s.watch == Some(w) || Installing(s, w, {Attaching, Publishing}))
      && (s.watches[w].loop.Dispatching? ==> s.watches[w].attached)
  }

  predicate HolderOk(s: Supervisor) {
    s.holder.Some? ==>
      var h := s.holder.value;
      && (h.pc in {Retired, Swapping, Clearing, Arming, Attaching, Publishing} ==> s.watch.None?)
      && (h.Stopping? ==> h.pc in {Entered, Retiring, Retired})
      && (h.Stopping? && !h.pc.Entered? ==> s.stopped)
      && (h.Opening? && h.kind.Refresh? && !h.pc.Entered? ==> !s.stopped)
  }

  predicate Draining(s: Supervisor) {
    s.holder.Some? && s.holder.value.Stopping? && s.holder.value.pc.Retiring?
  }

  predicate DeathOk(s: Supervisor) {
    && (s.watchDied && s.watch.Some? ==> s.diedFrom == s.watch)
    && (s.watchDied && s.holder.Some? && s.holder.value.Opening? && s.holder.value.pc in {Arming, Attaching, Publishing}
        ==> s.diedFrom == Some(s.holder.value.watch))
  }

  predicate LockOk(s: Supervisor) {
    HolderOk(s) && (s.stopped && !Draining(s) ==> s.watch.None?)
  }

  ghost predicate Ok(s: Supervisor) {
    (forall w :: RoleOk(s, w) && WatchOk(s, w)) && LockOk(s) && DeathOk(s)
  }

  /** The installed watch and the one being installed. */
  lemma KnownWatches(s: Supervisor)
    requires Ok(s)
    ensures s.watch.Some? ==> RoleOk(s, s.watch.value) && WatchOk(s, s.watch.value)
    ensures s.holder.Some? && s.holder.value.Opening? ==>
              Owned(s, s.holder.value.watch) && RoleOk(s, s.holder.value.watch) && WatchOk(s, s.holder.value.watch)
    ensures RoleOk(s, s.nextId)
  {
  }

  lemma AdvanceKeepsLock(s: Supervisor)
    requires Ok(s) && s.holder.Some?
    ensures LockOk(Advance(s)) && DeathOk(Advance(s))
  {
    KnownWatches(s);
  }

  lemma AdvanceKeepsRole(s: Supervisor, w: nat)
    requires Ok(s) && s.holder.Some?
    ensures RoleOk(Advance(s), w)
  {
    KnownWatches(s);
    assert RoleOk(s, w);
  }

  lemma AdvanceKeepsWatch(s: Supervisor, w: nat)
    requires Ok(s) && s.holder.Some?
    ensures WatchOk(Advance(s), w)
  {
    KnownWatches(s);
    assert WatchOk(s, w);
  }

  lemma OtherKeepsLock(s: Supervisor, a: Action)
    requires Ok(s) && !a.Proceed?
    ensures LockOk(Act(s, a)) && DeathOk(Act(s, a))
  {
    KnownWatches(s);
    if a.Notify? {
      assert WatchOk(s, a.w);
    }
  }

  lemma OtherKeepsWatch(s: Supervisor, a: Action, w: nat)
    requires Ok(s) && !a.Proceed?
    ensures RoleOk(Act(s, a), w) && WatchOk(Act(s, a), w)
  {
    KnownWatches(s);
    assert RoleOk(s, w) && WatchOk(s, w);
  }

  lemma ActKeepsOk(s: Supervisor, a: Action)
    requires Ok(s)
    ensures Ok(Act(s, a))
  {
    if a.Proceed? && s.holder.Some? {
      AdvanceKeepsLock(s);
      forall w ensures RoleOk(Act(s, a), w) && WatchOk(Act(s, a), w) {
        AdvanceKeepsRole(s, w);
        AdvanceKeepsWatch(s, w);
      }
    } else if !a.Proceed? {
      OtherKeepsLock(s, a);
      forall w ensures RoleOk(Act(s, a), w) && WatchOk(Act(s, a), w) {
        OtherKeepsWatch(s, a, w);
      }
    }
  }

  lemma {:induction false} RunKeepsOk(actions: seq<Action>)
    ensures Ok(Run(actions))
  {
    if actions != [] {
      RunKeepsOk(actions[..|actions| - 1]);
      ActKeepsOk(Run(actions[..|actions| - 1]), actions[|actions| - 1]);
    }
  }

  // ---------------------------------------------------------------------
  // Main result
  // ---------------------------------------------------------------------

  predicate SwapHookRunning(s: Supervisor) {
    s.holder.Some? && s.holder.value.pc.Swapping?
  }

  predicate StartAttaches(s: Supervisor, pc: Pc) {
    s.holder.Some? && s.holder.value.Opening? && s.holder.value.kind.Start? && s.holder.value.pc == pc
  }

  /** Stopped, nothing installed, and no `start()` has attached a callback yet. */
  predicate Quiesced(s: Supervisor) {
    s.stopped && s.watch.None? && !StartAttaches(s, Publishing)
  }

  /** In every interleaving: at most one watch has a callback attached; while
      the swap hook runs none has one, so none is executing; after a completed
      stop none executes or can start until the next start; and while a watch
      is installed a recorded death is that watch's own. */
  lemma SingleDispatcher(actions: seq<Action>)
    ensures var s := Run(actions);
            && (forall v, w :: v in s.watches && w in s.watches && s.watches[v].attached && s.watches[w].attached ==> v == w)
            && (SwapHookRunning(s) ==> forall w :: w in s.watches ==> !s.watches[w].attached && !s.watches[w].loop.Dispatching?)
            && (Quiesced(s) ==> forall w :: w in s.watches ==> !s.watches[w].attached && !s.watches[w].loop.Dispatching?)
            && (s.watchDied && s.watch.Some? ==> s.diedFrom == s.watch)
  {
    RunKeepsOk(actions);
    AtMostOneAttached(Run(actions));
    HookRunsAlone(Run(actions));
  }

  lemma AtMostOneAttached(s: Supervisor)
    requires Ok(s)
    ensures forall v, w :: v in s.watches && w in s.watches && s.watches[v].attached && s.watches[w].attached ==> v == w
  {
    forall v, w | v in s.watches && w in s.watches && s.watches[v].attached && s.watches[w].attached ensures v == w {
      assert WatchOk(s, v) && WatchOk(s, w);
    }
  }

  lemma HookRunsAlone(s: Supervisor)
    requires Ok(s)
    ensures SwapHookRunning(s) || Quiesced(s) ==>
              forall w :: w in s.watches ==> !s.watches[w].attached && !s.watches[w].loop.Dispatching?
  {
    if SwapHookRunning(s) || Quiesced(s) {
      forall w | w in s.watches ensures !s.watches[w].attached && !s.watches[w].loop.Dispatching? {
        assert WatchOk(s, w);
      }
    }
  }

  /** `stop()` returns true into a quiesced supervisor, and no action of any
      thread ends that before a `start()` attaches its callback: refreshes that
      were already under way only drop the watch they built. */
  lemma StopHoldsUntilStart(actions: seq<Action>, a: Action)
    ensures var s := Run(actions);
            s.holder == Some(Stopping(Retired)) ==> Quiesced(Act(s, Proceed)) && Act(s, Proceed).holder.None?
    ensures var s := Run(actions);
            Quiesced(s) && !(a.Proceed? && StartAttaches(s, Attaching)) ==> Quiesced(Act(s, a))
  {
    RunKeepsOk(actions);
    KnownWatches(Run(actions));
  }

  // ---------------------------------------------------------------------
  // Deaths that go unnoticed
  // ---------------------------------------------------------------------

  /** A death that was heard is on record, and only such deaths are. */
  predicate HeardOk(s: Supervisor, w: nat) {
    && (w in s.watches && s.watches[w].heard ==>
          && s.watches[w].loop.Done?
          && (s.watch == Some(w) || Installing(s, w, {Attaching, Publishing}))
          && s.watchDied && s.diedFrom == Some(w))
    && (s.diedFrom == Some(w) ==> w < s.nextId && (w in s.watches ==> s.watches[w].heard))
  }

  lemma AdvanceKeepsHeard(s: Supervisor, w: nat)
    requires Ok(s) && s.holder.Some? && HeardOk(s, w)
    ensures HeardOk(Advance(s), w)
  {
    KnownWatches(s);
  }

  lemma OtherKeepsHeard(s: Supervisor, a: Action, w: nat)
    requires Ok(s) && !a.Proceed? && HeardOk(s, w)
    ensures HeardOk(Act(s, a), w)
  {
    assert RoleOk(s, w) && WatchOk(s, w);
    if a.Notify? {
      assert RoleOk(s, a.w) && WatchOk(s, a.w);
    }
  }

  lemma {:induction false} AlwaysHeard(actions: seq<Action>, w: nat)
    ensures HeardOk(Run(actions), w)
  {
    if actions != [] {
      var s, a := Run(actions[..|actions| - 1]), actions[|actions| - 1];
      AlwaysHeard(actions[..|actions| - 1], w);
      RunKeepsOk(actions[..|actions| - 1]);
      if a.Proceed? {
        if s.holder.Some? {
          AdvanceKeepsHeard(s, w);
        }
      } else {
        OtherKeepsHeard(s, a, w);
      }
    }
  }

  /** `isWatchAlive`. */
  predicate ReportsAlive(s: Supervisor) {
    !s.watchDied && s.watch.Some? && !s.stopped
  }

  /** An installed watch whose loop has ended has its death on record if and
      only if it notified after its exit handler was armed; and while the
      supervisor is not stopped it is reported alive exactly until then. */
  lemma DeathRecordedExact(actions: seq<Action>, w: nat)
    requires Run(actions).watch == Some(w)
    ensures var s := Run(actions);
            && w in s.watches
            && (s.watches[w].loop.Done? ==> (s.watchDied <==> s.watches[w].heard))
            && (ReportsAlive(s) <==> !s.stopped && !s.watches[w].heard)
  {
    RunKeepsOk(actions);
    AlwaysHeard(actions, w);
    KnownWatches(Run(actions));
  }

  lemma RunOn(front: seq<Action>, a: Action)
    ensures Run(front + [a]) == Act(Run(front), a)
  {
    assert (front + [a])[..|front|] == front;
  }

  /** Steps of four, to build up a concrete run. */
  lemma RunFour(front: seq<Action>, a: Action, b: Action, c: Action, d: Action)
    ensures Run(front + [a, b, c, d]) == Act(Act(Act(Act(Run(front), a), b), c), d)
  {
    RunOn(front, a);
    RunOn(front + [a], b);
    RunOn(front + [a] + [b], c);
    RunOn(front + [a] + [b] + [c], d);
    assert front + [a, b, c, d] == front + [a] + [b] + [c] + [d];
  }

  /** A watch is built, its loop ends before the exit handler is armed, and a
      `start()` then installs it. */
  const DIES: seq<Action> := [Build(Start), Exit(0), Notify(0), Acquire(0)]

  const PROCEEDS: seq<Action> := [Proceed, Proceed, Proceed, Proceed]

  lemma Dies()
    ensures var s := Run(DIES);
            && s.holder == Some(Opening(Start, 0, Entered)) && s.watch.None? && !s.watchDied
            && s.watches == map[0 := Watch(Done, false, false, false)]
  {
    RunFour([], Build(Start), Exit(0), Notify(0), Acquire(0));
    assert [] + DIES == DIES;
  }

  /** The supervisor takes it for alive. */
  lemma SilentDeathInstalled()
    ensures var s := Run(DIES + PROCEEDS + PROCEEDS);
            s.watch == Some(0) && 0 in s.watches && s.watches[0].loop.Done? && ReportsAlive(s) && s.holder.None?
  {
    Dies();
    RunFour(DIES, Proceed, Proceed, Proceed, Proceed);
    Clears(Run(DIES));
    RunFour(DIES + PROCEEDS, Proceed, Proceed, Proceed, Proceed);
    Installs(Run(DIES + PROCEEDS));
  }

  lemma Clears(s: Supervisor)
    requires s.holder == Some(Opening(Start, 0, Entered)) && s.watch.None?
    ensures Act(Act(Act(Act(s, Proceed), Proceed), Proceed), Proceed) ==
            s.(holder := Some(Opening(Start, 0, Arming)), watchDied := false, diedFrom := None)
  {
  }

  lemma Installs(s: Supervisor)
    requires s.holder == Some(Opening(Start, 0, Arming)) && 0 in s.watches
    ensures var s' := Act(Act(Act(Act(s, Proceed), Proceed), Proceed), Proceed);
            && s'.watch == Some(0) && 0 in s'.watches && s'.watches[0].loop == s.watches[0].loop
            && s'.watchDied == s.watchDied && !s'.stopped && s'.holder.None?
  {
  }

  // ---------------------------------------------------------------------
  // What a call achieves
  // ---------------------------------------------------------------------

  function Proceeds(s: Supervisor, n: nat): Supervisor
    decreases n
  {
    if n == 0 then s else Proceeds(Act(s, Proceed), n - 1)
  }

  predicate Retirable(s: Supervisor) {
    s.watch.Some? ==> Joinable(s, s.watch.value)
  }

  predicate Fails(s: Supervisor, kind: Kind) {
    if kind.Start? then s.watch.Some? && !s.watchDied else s.stopped
  }

  /** In the lock, a call fails at once exactly when it is a start over a live
      watch or a refresh after a stop: its own watch is dropped unattached and
      nothing else changes. Otherwise, as soon as the old watch can be joined,
      it goes through to installing its own, attached and armed, with no death
      on record; a refresh keeps `stopped`, a start clears it. */
  lemma CallOutcome(s: Supervisor, kind: Kind, w: nat)
    requires s.holder == Some(Opening(kind, w, Entered)) && w in s.watches && s.watch != Some(w)
    ensures Fails(s, kind) ==> Act(s, Proceed) == s.(holder := None, dropped := s.dropped + {w})
    ensures !Fails(s, kind) && Retirable(s) ==>
              var s' := Proceeds(s, 8);
              && s'.holder.None? && s'.watch == Some(w) && !s'.watchDied
              && w in s'.watches && s'.watches[w] == s.watches[w].(attached := true, armed := true)
              && (s.watch.Some? ==> s.watch.value !in s'.watches)
              && s'.stopped == (s.stopped && kind.Refresh?)
    ensures !Fails(s, kind) && Retirable(s) && kind.Refresh? ==>
              SwapHookRunning(Proceeds(s, 3)) && Proceeds(s, 3).watch.None?
  {
    if !Fails(s, kind) && Retirable(s) {
      OldWatchRetires(s, kind, w);
      var s1 := Act(s, Proceed);
      assert Proceeds(s, 8) == Proceeds(s1, 7) == Proceeds(Act(s1, Proceed), 6);
      assert Proceeds(s, 3) == Proceeds(s1, 2) == Proceeds(Act(s1, Proceed), 1);
      OpeningGoesThrough(Act(s1, Proceed), kind, w);
    }
  }

  lemma OldWatchRetires(s: Supervisor, kind: Kind, w: nat)
    requires s.holder == Some(Opening(kind, w, Entered)) && w in s.watches && s.watch != Some(w)
    requires !Fails(s, kind) && Retirable(s)
    ensures Act(Act(s, Proceed), Proceed) ==
            s.(holder := Some(Opening(kind, w, Retired)), watch := None,
            watches := if s.watch.Some? then s.watches - {s.watch.value} else s.watches)
  {
    assert Act(s, Proceed) == s.(holder := Some(Opening(kind, w, Retiring)));
  }

  lemma OpeningGoesThrough(s: Supervisor, kind: Kind, w: nat)
    requires s.holder == Some(Opening(kind, w, Retired)) && s.watch.None? && w in s.watches
    ensures var s' := Proceeds(s, 6);
            && s'.holder.None? && s'.watch == Some(w) && !s'.watchDied
            && s'.watches == s.watches[w := s.watches[w].(attached := true, armed := true)]
            && s'.stopped == (s.stopped && kind.Refresh?)
    ensures kind.Refresh? ==> SwapHookRunning(Proceeds(s, 1)) && Proceeds(s, 1).watch.None?
  {
    var s1 := Act(s, Proceed);
    assert Proceeds(s, 1) == Proceeds(s1, 0) == s1 && Proceeds(s, 6) == Proceeds(s1, 5);
    if kind.Refresh? {
      assert s1 == s.(holder := Some(Opening(kind, w, Swapping)));
      var s2 := Act(s1, Proceed);
      assert s2 == s.(holder := Some(Opening(kind, w, Clearing)));
      assert Proceeds(s1, 5) == Proceeds(s2, 4);
      Finishes(s2, kind, w, 4);
    } else {
      assert s1 == s.(holder := Some(Opening(kind, w, Clearing)));
      Finishes(s1, kind, w, 5);
    }
  }

  lemma Finishes(s: Supervisor, kind: Kind, w: nat, n: nat)
    requires s.holder == Some(Opening(kind, w, Clearing)) && s.watch.None? && w in s.watches && 4 <= n <= 5
    ensures var s' := Proceeds(s, n);
            && s'.holder.None? && s'.watch == Some(w) && !s'.watchDied
            && s'.watches == s.watches[w := s.watches[w].(attached := true, armed := true)]
            && s'.stopped == (s.stopped && kind.Refresh?)
  {
    var s1 := Act(s, Proceed);
    assert s1 == s.(holder := Some(Opening(kind, w, Arming)), watchDied := false, diedFrom := None);
    var s2 := Act(s1, Proceed);
    var s3 := Act(s2, Proceed);
    assert s3.holder == Some(Opening(kind, w, Publishing));
    var s4 := Act(s3, Proceed);
    assert Proceeds(s, n) == Proceeds(s1, n - 1) == Proceeds(s2, n - 2) == Proceeds(s3, n - 3) == Proceeds(s4, n - 4);
    assert n == 5 ==> Proceeds(s4, 1) == Proceeds(Act(s4, Proceed), 0);
  }

  /** A stop goes through as soon as the watch can be joined. */
  lemma StopOutcome(s: Supervisor)
    requires s.holder == Some(Stopping(Entered)) && Retirable(s)
    ensures var s' := Proceeds(s, 3); s'.holder.None? && s'.stopped && s'.watch.None?
  {
    var s1 := Act(s, Proceed);
    assert s1 == s.(holder := Some(Stopping(Retiring)), stopped := true);
    var s2 := Act(s1, Proceed);
    assert Proceeds(s, 3) == Proceeds(s1, 2) == Proceeds(s2, 1) == Proceeds(Act(s2, Proceed), 0);
  }
}
