/** The inventory service's refresh loop, with callers of `refresh()` and the
    file watcher running beside it. */
module RefreshLoop {
  import opened Common

  datatype Settings = Settings(minRefreshInterval: Time, reconcileInterval: Time)

  /** Where the loop thread is. `Cycling` is `doRefreshCycle` before its
      throttle test; `Admitted` is past it, with the request flag still to be
      cleared; `Cleared` is about to call `refreshAll`. */
  datatype Pc =
    | Top
    | Polling(wake: Time, sawRequest: bool)
    | Polled(triggered: bool)
    | Cycling(force: bool)
    | Admitted(force: bool, now: Time)
    | Cleared(force: bool, now: Time)
    | Refreshing(force: bool, now: Time)

  datatype Cycle = Cycle(start: Time, forced: bool)

  /** `step` numbers the actions; `lastRequest` is the last call of `refresh()`
      or file change, `lastStart` the last start of a `refreshAll`; `lastNews`
      is the last call or consumed file change, `lastClear` the last time a
      cycle cleared the flag. `cycles` records the cycles that were admitted. */
  datatype Service = Service(
    pc: Pc, clock: Time, requested: bool, fileChanged: bool,
    lastRefresh: Time, nextReconcile: Time,
    step: nat, lastRequest: nat, lastStart: nat, lastNews: nat, lastClear: nat, cycles: seq<Cycle>)

  /** The loop opens with a forced cycle. */
  function Started(now: Time): Service {
    Service(Cycling(true), now, false, false, 0, now, 0, 0, 0, 0, 0, [])
  }

  datatype Action =
    | Request                          // refresh()
    | FileChange
    | Elapse(units: nat)
    | LoopStep(consumeFiles: bool)     // next step of the loop thread; a poll may return at any time

  function Min(a: Time, b: Time): Time {
    if a < b then a else b
  }

  predicate Throttled(cfg: Settings, s: Service, force: bool) {
    force && s.clock - s.lastRefresh < cfg.minRefreshInterval
  }

  function Advance(cfg: Settings, s: Service, consumeFiles: bool): Service {
    match s.pc
    case Top =>
      s.(pc := Polling(if s.requested then Min(s.nextReconcile, s.lastRefresh + cfg.minRefreshInterval) else s.nextReconcile,
                       s.requested))
    case Polling(_, _) =>
      if consumeFiles then
        s.(pc := Polled(s.fileChanged), fileChanged := false, lastNews := if s.fileChanged then s.step else s.lastNews)
      else s.(pc := Polled(false))
    case Polled(triggered) =>
      if s.requested || triggered then s.(pc := Cycling(true))
      else if s.clock >= s.nextReconcile then s.(pc := Cycling(false))
      else s.(pc := Top)
    case Cycling(force) =>
      if Throttled(cfg, s, force) then s.(requested := true, pc := Top)
      else s.(pc := Admitted(force, s.clock), cycles := s.cycles + [Cycle(s.clock, force)])
    case Admitted(force, now) => s.(requested := false, lastClear := s.step, pc := Cleared(force, now))
    case Cleared(force, now) => s.(lastStart := s.step, pc := Refreshing(force, now))
    case Refreshing(_, now) => s.(lastRefresh := now, nextReconcile := now + cfg.reconcileInterval, pc := Top)
  }

  function Act(cfg: Settings, r: Service, a: Action): Service {
    var s := r.(step := r.step + 1);
    match a
    case Request => s.(requested := true, lastRequest := s.step, lastNews := s.step)
    case FileChange => s.(fileChanged := true, lastRequest := s.step)
    case Elapse(units) => s.(clock := s.clock + units)
    case LoopStep(consumeFiles) => Advance(cfg, s, consumeFiles)
  }

  function Run(cfg: Settings, start: Time, actions: seq<Action>): Service {
    if actions == [] then Started(start)
    else Act(cfg, Run(cfg, start, actions[..|actions| - 1]), actions[|actions| - 1])
  }

  // ---------------------------------------------------------------------
  // Requests are never lost
  // ---------------------------------------------------------------------

  /** The loop has seen a request and is on its way to a `refreshAll`. */
  predicate OnTheWay(pc: Pc) {
    pc == Polled(true) || pc == Cycling(true) || pc.Admitted? || pc.Cleared?
  }

  predicate Pending(s: Service) {
    s.requested || s.fileChanged || OnTheWay(s.pc)
  }

  predicate Covered(s: Service) {
    s.lastRequest == 0 || s.lastRequest < s.lastStart || Pending(s)
  }

  predicate CycleRunning(pc: Pc) {
    pc.Admitted? || pc.Cleared? || pc.Refreshing?
  }

  /** Cycles in order: forced ones keep the minimum interval from the previous
      cycle, the others the reconcile interval. */
  ghost predicate Spaced(cfg: Settings, cycles: seq<Cycle>) {
    forall k :: 0 < k < |cycles| ==>
                  cycles[k].start - cycles[k - 1].start >=
                  if cycles[k].forced then cfg.minRefreshInterval else cfg.reconcileInterval
  }

  /** The timestamps belong to the last finished cycle. */
  predicate LastOk(cfg: Settings, s: Service) {
    var n := if CycleRunning(s.pc) then |s.cycles| - 1 else |s.cycles|;
    && (CycleRunning(s.pc) ==> s.cycles != [] && s.cycles[|s.cycles| - 1] == Cycle(s.pc.now, s.pc.force))
    && (n > 0 ==> s.lastRefresh == s.cycles[n - 1].start && s.nextReconcile == s.cycles[n - 1].start + cfg.reconcileInterval)
  }

  /** A poll ends at the next reconcile, or earlier for a pending request. */
  predicate WakeOk(cfg: Settings, s: Service) {
    s.pc.Polling? ==>
      && s.pc.wake <= s.nextReconcile
      && (s.pc.sawRequest ==> s.pc.wake <= s.lastRefresh + cfg.minRefreshInterval)
      && (s.pc.wake == s.nextReconcile || (s.pc.sawRequest && s.pc.wake == s.lastRefresh + cfg.minRefreshInterval))
  }

  ghost predicate Ok(cfg: Settings, s: Service) {
    && s.lastRequest <= s.step && s.lastStart <= s.step
    && Covered(s)
    && Spaced(cfg, s.cycles)
    && LastOk(cfg, s)
    && (s.pc == Cycling(false) ==> s.clock >= s.nextReconcile)
    && WakeOk(cfg, s)
  }

  lemma ActKeepsCovered(cfg: Settings, s: Service, a: Action)
    requires s.lastRequest <= s.step && s.lastStart <= s.step && Covered(s)
    ensures var s' := Act(cfg, s, a); s'.lastRequest <= s'.step && s'.lastStart <= s'.step && Covered(s')
  {
  }

  lemma ActKeepsTimes(cfg: Settings, s: Service, a: Action)
    requires LastOk(cfg, s) && (s.pc == Cycling(false) ==> s.clock >= s.nextReconcile) && WakeOk(cfg, s)
    ensures var s' := Act(cfg, s, a);
            LastOk(cfg, s') && (s'.pc == Cycling(false) ==> s'.clock >= s'.nextReconcile) && WakeOk(cfg, s')
  {
  }

  lemma ActKeepsSpaced(cfg: Settings, s: Service, a: Action)
    requires Spaced(cfg, s.cycles) && LastOk(cfg, s) && (s.pc == Cycling(false) ==> s.clock >= s.nextReconcile)
    ensures Spaced(cfg, Act(cfg, s, a).cycles)
  {
  }

  lemma ActKeepsOk(cfg: Settings, s: Service, a: Action)
    requires Ok(cfg, s)
    ensures Ok(cfg, Act(cfg, s, a))
  {
    ActKeepsCovered(cfg, s, a);
    ActKeepsTimes(cfg, s, a);
    ActKeepsSpaced(cfg, s, a);
  }

  /** While the loop runs, every call of `refresh()` and every file change is
      still pending or followed by a `refreshAll` that started after it; a
      forced cycle begins at least the minimum interval after the previous
      cycle, any other at least the reconcile interval; and a poll wakes at the
      next reconcile, or earlier at the end of the throttle interval exactly
      when it was entered with a request pending. */
  lemma {:induction false} RequestsThrottledNeverLost(cfg: Settings, start: Time, actions: seq<Action>)
    ensures var s := Run(cfg, start, actions);
            && Ok(cfg, s)
            && (s.lastRequest == 0 || s.lastRequest < s.lastStart || Pending(s))
            && Spaced(cfg, s.cycles) && WakeOk(cfg, s)
  {
    if actions != [] {
      RequestsThrottledNeverLost(cfg, start, actions[..|actions| - 1]);
      ActKeepsOk(cfg, Run(cfg, start, actions[..|actions| - 1]), actions[|actions| - 1]);
    }
  }

  // ---------------------------------------------------------------------
  // Requests are served
  // ---------------------------------------------------------------------

  function Go(cfg: Settings, s: Service, actions: seq<Action>): Service {
    if actions == [] then s else Act(cfg, Go(cfg, s, actions[..|actions| - 1]), actions[|actions| - 1])
  }

  function LoopSteps(actions: seq<Action>): nat {
    if actions == [] then 0
    else LoopSteps(actions[..|actions| - 1]) + (if actions[|actions| - 1].LoopStep? then 1 else 0)
  }

  predicate Ripe(cfg: Settings, s: Service) {
    s.clock - s.lastRefresh >= cfg.minRefreshInterval
  }

  /** With a request in hand, a ripe loop is at most `n` of its own steps away
      from the start of a `refreshAll`. */
  predicate Within(s: Service, n: int) {
    match s.pc
    case Top => s.requested && n >= 6
    case Polling(_, _) => s.requested && n >= 5
    case Polled(triggered) => (s.requested || triggered) && n >= 4
    case Cycling(_) => n >= 3
    case Admitted(_, _) => n >= 2
    case Cleared(_, _) => n >= 1
    case Refreshing(_, _) => false
  }

  lemma OneCloser(cfg: Settings, s: Service, a: Action, n: int)
    requires Within(s, n) && Ripe(cfg, s)
    ensures var s' := Act(cfg, s, a);
            || s'.lastStart == s'.step == s.step + 1
            || (Ripe(cfg, s') && Within(s', if a.LoopStep? then n - 1 else n) && s'.lastStart == s.lastStart)
  {
  }

  lemma ServedStep(cfg: Settings, base: nat, s: Service, a: Action, n: int)
    requires base <= s.step && s.lastStart <= s.step
    requires s.lastStart > base || (Ripe(cfg, s) && Within(s, n))
    ensures var s' := Act(cfg, s, a);
            s'.lastStart > base || (Ripe(cfg, s') && Within(s', if a.LoopStep? then n - 1 else n))
    ensures Act(cfg, s, a).step == s.step + 1 && Act(cfg, s, a).lastStart <= s.step + 1
  {
    if s.lastStart <= base {
      OneCloser(cfg, s, a, n);
    }
  }

  /** A pending request is served, whatever happens meanwhile: once the clock is
      the minimum interval past the last cycle, the loop starts a `refreshAll`
      within six of its own steps. */
  lemma {:induction false} PendingRequestServed(cfg: Settings, s: Service, actions: seq<Action>)
    requires s.lastStart <= s.step && Ripe(cfg, s)
    requires s.requested && !s.pc.Refreshing?
    ensures var s' := Go(cfg, s, actions);
            && s'.step == s.step + |actions| && s'.lastStart <= s'.step
            && (s'.lastStart > s.step || (Ripe(cfg, s') && Within(s', 6 - LoopSteps(actions))))
            && (LoopSteps(actions) >= 6 ==> s'.lastStart > s.step)
  {
    if actions != [] {
      var front := actions[..|actions| - 1];
      PendingRequestServed(cfg, s, front);
      ServedStep(cfg, s.step, Go(cfg, s, front), actions[|actions| - 1], 6 - LoopSteps(front));
    }
  }

  /** A noticed file change does the same as a request. */
  lemma FileChangeNoticed(cfg: Settings, s: Service)
    requires s.pc.Polling? && s.fileChanged
    ensures Within(Act(cfg, s, LoopStep(true)), 4) && !Act(cfg, s, LoopStep(true)).fileChanged
  {
  }

  /** A cycle is deferred if and only if it is forced and early; otherwise it
      is admitted, on the record. */
  lemma DeferredIffEarly(cfg: Settings, s: Service, consumeFiles: bool)
    requires s.pc.Cycling? && s.lastStart <= s.step
    ensures var s' := Act(cfg, s, LoopStep(consumeFiles));
            if s.pc.force && s.clock < s.lastRefresh + cfg.minRefreshInterval
            then s'.pc == Top && s'.requested && s'.cycles == s.cycles
            else s'.pc.Admitted? && s'.requested == s.requested && s'.cycles == s.cycles + [Cycle(s.clock, s.pc.force)]
  {
  }

  /** An idle loop whose reconcile is due is `n` steps from its next `refreshAll`. */
  predicate DueWithin(s: Service, n: int) {
    && (CycleRunning(s.pc) || s.pc.Cycling? || (s.clock >= s.nextReconcile && !s.requested))
    && !s.fileChanged
    && match s.pc
       case Top => n >= 6
       case Polling(_, _) => n >= 5
       case Polled(triggered) => !triggered && n >= 4
       case Cycling(force) => !force && n >= 3
       case Admitted(_, _) => n >= 2
       case Cleared(_, _) => n >= 1
       case Refreshing(_, _) => false
  }

  lemma DueCloser(cfg: Settings, s: Service, a: Action, n: int)
    requires DueWithin(s, n) && (a.LoopStep? || a.Elapse?)
    ensures var s' := Act(cfg, s, a);
            || s'.lastStart == s'.step == s.step + 1
            || (DueWithin(s', if a.LoopStep? then n - 1 else n) && s'.lastStart == s.lastStart)
  {
  }

  lemma DueStep(cfg: Settings, base: nat, s: Service, a: Action, n: int)
    requires base <= s.step && s.lastStart <= s.step && (a.LoopStep? || a.Elapse?)
    requires s.lastStart > base || DueWithin(s, n)
    ensures var s' := Act(cfg, s, a); s'.lastStart > base || DueWithin(s', if a.LoopStep? then n - 1 else n)
    ensures Act(cfg, s, a).step == s.step + 1 && Act(cfg, s, a).lastStart <= s.step + 1
  {
    if s.lastStart <= base {
      DueCloser(cfg, s, a, n);
    }
  }

  /** Without requests and file changes, the loop starts a `refreshAll` within
      six of its steps once the reconcile interval since the last cycle is over. */
  lemma {:induction false} ReconcileHappens(cfg: Settings, s: Service, actions: seq<Action>)
    requires s.lastStart <= s.step && DueWithin(s, 6)
    requires forall a :: a in actions ==> a.LoopStep? || a.Elapse?
    ensures var s' := Go(cfg, s, actions);
            && s'.step == s.step + |actions| && s'.lastStart <= s'.step
            && (s'.lastStart > s.step || DueWithin(s', 6 - LoopSteps(actions)))
            && (LoopSteps(actions) >= 6 ==> s'.lastStart > s.step)
  {
    if actions != [] {
      var front := actions[..|actions| - 1];
      ReconcileHappens(cfg, s, front);
      assert actions[|actions| - 1] in actions;
      DueStep(cfg, s.step, Go(cfg, s, front), actions[|actions| - 1], 6 - LoopSteps(front));
    }
  }

  // ---------------------------------------------------------------------
  // Nothing is refreshed without a reason
  // ---------------------------------------------------------------------

  /** The loop has not finished admitting its opening cycle. */
  predicate Opening(s: Service) {
    |s.cycles| == if s.pc.Admitted? then 1 else 0
  }

  /** Whatever still asks for a forced cycle is younger than the last clearing
      of the flag. */
  predicate Reasoned(s: Service) {
    && s.lastNews <= s.step && s.lastClear <= s.step
    && (s.requested || s.pc == Polled(true) || s.pc == Cycling(true) || (s.pc.Admitted? && s.pc.force) ==>
          s.lastNews > s.lastClear || Opening(s))
  }

  lemma ActKeepsReasoned(cfg: Settings, s: Service, a: Action)
    requires Reasoned(s)
    ensures Reasoned(Act(cfg, s, a))
  {
  }

  /** Every forced cycle but the opening one answers a call of `refresh()` or a
      file change consumed since the previous cycle cleared the flag. */
  lemma {:induction false} ForcedForAReason(cfg: Settings, start: Time, actions: seq<Action>)
    ensures var s := Run(cfg, start, actions);
            Reasoned(s) && (s.pc.Admitted? && s.pc.force ==> |s.cycles| == 1 || s.lastNews > s.lastClear)
  {
    if actions != [] {
      ForcedForAReason(cfg, start, actions[..|actions| - 1]);
      ActKeepsReasoned(cfg, Run(cfg, start, actions[..|actions| - 1]), actions[|actions| - 1]);
    }
  }

  /** A request that arrives while a `refreshAll` is running is not swallowed
      by it: its flag is up when the cycle ends, and stays up, whatever else
      happens, until a new cycle is admitted and clears it. */
  lemma RequestDuringRefreshStaysPending(cfg: Settings, s: Service, a: Action)
    requires s.requested && !(s.pc.Admitted? && a.LoopStep?)
    ensures Act(cfg, s, a).requested
  {
  }

  /** What the loop does with a deferred request: no `refreshAll`, the flag up,
      and the next poll set to wake at the end of the throttle interval. */
  lemma DeferredRequestWakes(cfg: Settings, s: Service, consumeFiles: bool, consumeNext: bool)
    requires s.pc == Cycling(true) && Throttled(cfg, s, true)
    ensures var s' := Act(cfg, Act(cfg, s, LoopStep(consumeFiles)), LoopStep(consumeNext));
            s'.requested && s'.lastStart == s.lastStart && s'.pc.Polling? && s'.pc.sawRequest &&
            s'.pc.wake <= s.lastRefresh + cfg.minRefreshInterval
  {
  }
}
