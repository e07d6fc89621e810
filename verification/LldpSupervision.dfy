/** Supervision of the LLDP observer on the tick thread: throttled in-place
    reconnects, escalation to a replacement, throttled re-acquire. */
module LldpSupervision {
  import opened Common

  const SECOND: Time := 1_000_000_000
  const RETRY_INTERVAL: Time := 30 * SECOND
  const PROBE_INTERVAL: Time := 60 * SECOND
  const FAILURE_LIMIT: nat := 5

  datatype Attempt = Attempt(observer: nat, at: Time, ok: bool)

  /** Observers are numbered as they are created; `log` records every
      reconnect that was actually attempted. */
  datatype Supervision = Supervision(
    observer: Option<nat>, created: nat,
    lastAttempt: Time, lastReconnect: Time, lastProbe: Time,
    failures: nat, retries: nat, log: seq<Attempt>)

  /** What the observer and the backend answer during one tick. */
  datatype Tick = Tick(
    now: Time, running: bool, watchAlive: bool, backendAlive: bool,
    refreshOk: bool, startOk: bool, resyncLldp: bool, resyncRefreshOk: bool)

  /** The single entry point for reconnects. A throttled call attempts
      nothing and counts as nothing. */
  function Reconnected(s: Supervision, now: Time, ok: bool): Supervision {
    if s.observer.None? || now - s.lastReconnect < RETRY_INTERVAL then s
    else s.(lastReconnect := now, failures := if ok then 0 else s.failures + 1,
      log := s.log + [Attempt(s.observer.value, now, ok)])
  }

  predicate ReconnectSucceeds(s: Supervision, now: Time, ok: bool) {
    s.observer.Some? && now - s.lastReconnect >= RETRY_INTERVAL && ok
  }

  function Acquired(s: Supervision, t: Tick): Supervision {
    if t.now - s.lastAttempt < RETRY_INTERVAL then s
    else if !t.startOk then s.(lastAttempt := t.now, created := s.created + 1, retries := s.retries + 1)
    else s.(lastAttempt := t.now, observer := Some(s.created), created := s.created + 1,
      retries := 0, failures := 0, lastReconnect := 0)
  }

  function Probed(s: Supervision, t: Tick): Supervision {
    if t.now - s.lastProbe < PROBE_INTERVAL then s
    else if t.backendAlive then s.(lastProbe := t.now)
    else Reconnected(s.(lastProbe := t.now), t.now, t.refreshOk)
  }

  /** The watch is dead and in-place repair has failed too often. */
  predicate Escalates(s: Supervision, t: Tick) {
    s.observer.Some? && t.running && !t.watchAlive && !ReconnectSucceeds(s, t.now, t.refreshOk) &&
    Reconnected(s, t.now, t.refreshOk).failures >= FAILURE_LIMIT
  }

  function Supervised(s: Supervision, t: Tick): Supervision {
    if s.observer.None? then Acquired(s, t)
    else if !t.running then Acquired(s.(observer := None), t)
    else if t.watchAlive then Probed(s, t)
    else
      var r := Reconnected(s, t.now, t.refreshOk);
      if Escalates(s, t) then
        Acquired(r.(observer := None, failures := 0, lastReconnect := 0, lastAttempt := 0), t)
      else r
  }

  function Resynced(s: Supervision, t: Tick): Supervision {
    if t.resyncLldp then Reconnected(s, t.now, t.resyncRefreshOk) else s
  }

  function Ticked(s: Supervision, t: Tick): Supervision {
    Resynced(Supervised(s, t), t)
  }

  /** Right after `start()`; the first observer may have failed to start. */
  function Started(ok: bool): Supervision {
    Supervision(if ok then Some(0) else None, 1, 0, 0, 0, 0, 0, [])
  }

  function Run(ok: bool, ticks: seq<Tick>): Supervision {
    if ticks == [] then Started(ok) else Ticked(Run(ok, ticks[..|ticks| - 1]), ticks[|ticks| - 1])
  }

  // ---------------------------------------------------------------------
  // What the counter counts
  // ---------------------------------------------------------------------

  /** Failed attempts on the observer at the end of the log. */
  function Trailing(log: seq<Attempt>, o: nat): (n: nat)
    ensures n <= |log|
    ensures forall k :: |log| - n <= k < |log| ==> log[k].observer == o && !log[k].ok
  {
    if log == [] || log[|log| - 1].observer != o || log[|log| - 1].ok then 0
    else 1 + Trailing(log[..|log| - 1], o)
  }

  ghost predicate Spaced(log: seq<Attempt>) {
    forall i, j :: 0 <= i < j < |log| && log[i].observer == log[j].observer ==> log[j].at - log[i].at >= RETRY_INTERVAL
  }

  /** When an observer was last asked to reconnect; the clock's epoch if never. */
  function LastAt(log: seq<Attempt>, o: nat): Time {
    if log == [] then 0
    else if log[|log| - 1].observer == o then log[|log| - 1].at
    else LastAt(log[..|log| - 1], o)
  }

  /** The throttle belongs to the installed observer. */
  ghost predicate ThrottleOk(s: Supervision, o: nat) {
    && o < s.created
    && s.lastReconnect == LastAt(s.log, o)
    && s.failures == Trailing(s.log, o)
    && (forall k :: 0 <= k < |s.log| && s.log[k].observer == o ==> s.log[k].at <= s.lastReconnect)
  }

  ghost predicate Ok(s: Supervision) {
    && Spaced(s.log)
    && (forall k :: 0 <= k < |s.log| ==> s.log[k].observer < s.created)
    && (s.observer.Some? ==> ThrottleOk(s, s.observer.value))
  }

  lemma TrailingSnoc(log: seq<Attempt>, a: Attempt, o: nat)
    ensures Trailing(log + [a], o) == if a.observer == o && !a.ok then 1 + Trailing(log, o) else 0
    ensures LastAt(log + [a], o) == if a.observer == o then a.at else LastAt(log, o)
  {
    assert (log + [a])[..|log|] == log;
  }

  lemma ReconnectKeepsOk(s: Supervision, now: Time, ok: bool)
    requires Ok(s)
    ensures Ok(Reconnected(s, now, ok))
  {
    if s.observer.Some? {
      TrailingSnoc(s.log, Attempt(s.observer.value, now, ok), s.observer.value);
    }
  }

  lemma TrailingNone(log: seq<Attempt>, o: nat)
    requires forall k :: 0 <= k < |log| ==> log[k].observer != o
    ensures Trailing(log, o) == 0 && LastAt(log, o) == 0
  {
  }

  lemma AcquireKeepsOk(s: Supervision, t: Tick)
    requires Ok(s) && s.observer.None?
    ensures Ok(Acquired(s, t))
  {
    TrailingNone(s.log, s.created);
  }

  lemma SuperviseKeepsOk(s: Supervision, t: Tick)
    requires Ok(s)
    ensures Ok(Supervised(s, t))
  {
    if s.observer.None? {
      AcquireKeepsOk(s, t);
    } else if !t.running {
      AcquireKeepsOk(s.(observer := None), t);
    } else if t.watchAlive {
      ReconnectKeepsOk(s.(lastProbe := t.now), t.now, t.refreshOk);
    } else {
      var r := Reconnected(s, t.now, t.refreshOk);
      ReconnectKeepsOk(s, t.now, t.refreshOk);
      if Escalates(s, t) {
        AcquireKeepsOk(r.(observer := None, failures := 0, lastReconnect := 0, lastAttempt := 0), t);
      }
    }
  }

  lemma TickKeepsOk(s: Supervision, t: Tick)
    requires Ok(s)
    ensures Ok(Ticked(s, t))
  {
    SuperviseKeepsOk(s, t);
    ReconnectKeepsOk(Supervised(s, t), t.now, t.resyncRefreshOk);
  }

  lemma {:induction false} RunKeepsOk(ok: bool, ticks: seq<Tick>)
    ensures Ok(Run(ok, ticks))
  {
    if ticks != [] {
      RunKeepsOk(ok, ticks[..|ticks| - 1]);
      TickKeepsOk(Run(ok, ticks[..|ticks| - 1]), ticks[|ticks| - 1]);
    }
  }

  /** In every run of ticks, attempts on one observer are at least the retry
      interval apart, and an observer with a dead watch is dropped only after
      five consecutive failed attempts on it: the last entries of the log, the
      first of which lies at least 120 seconds before the last. */
  lemma EscalationEarned(ok: bool, ticks: seq<Tick>, t: Tick)
    ensures Spaced(Run(ok, ticks).log)
    ensures var s := Run(ok, ticks);
            Escalates(s, t) ==>
              var log := Reconnected(s, t.now, t.refreshOk).log;
              && |log| >= 5
              && (forall k :: |log| - 5 <= k < |log| ==> log[k].observer == s.observer.value && !log[k].ok)
              && log[|log| - 1].at - log[|log| - 5].at >= 120 * SECOND
  {
    var s := Run(ok, ticks);
    RunKeepsOk(ok, ticks);
    ReconnectKeepsOk(s, t.now, t.refreshOk);
    if Escalates(s, t) {
      var r := Reconnected(s, t.now, t.refreshOk);
      var n := |r.log|;
      assert Trailing(r.log, s.observer.value) >= 5;
      assert r.log[n - 1].observer == r.log[n - 2].observer == r.log[n - 3].observer == r.log[n - 4].observer == r.log[n - 5].observer;
      assert r.log[n - 4].at - r.log[n - 5].at >= RETRY_INTERVAL && r.log[n - 3].at - r.log[n - 4].at >= RETRY_INTERVAL;
      assert r.log[n - 2].at - r.log[n - 3].at >= RETRY_INTERVAL && r.log[n - 1].at - r.log[n - 2].at >= RETRY_INTERVAL;
    }
  }

  ghost predicate Monotone(ticks: seq<Tick>) {
    forall i, j :: 0 <= i <= j < |ticks| ==> 0 <= ticks[i].now <= ticks[j].now
  }

  lemma {:induction false} LogNotAhead(ok: bool, ticks: seq<Tick>, now: Time)
    requires Monotone(ticks) && (ticks != [] ==> ticks[|ticks| - 1].now <= now)
    ensures forall k :: 0 <= k < |Run(ok, ticks).log| ==> Run(ok, ticks).log[k].at <= now
  {
    if ticks != [] {
      var last := ticks[|ticks| - 1];
      LogNotAhead(ok, ticks[..|ticks| - 1], last.now);
      TickLogs(Run(ok, ticks[..|ticks| - 1]), last);
    }
  }

  lemma TickLogs(s: Supervision, t: Tick)
    requires forall k :: 0 <= k < |s.log| ==> s.log[k].at <= t.now
    ensures forall k :: 0 <= k < |Ticked(s, t).log| ==> Ticked(s, t).log[k].at <= t.now
  {
    assert forall k :: 0 <= k < |Supervised(s, t).log| ==> Supervised(s, t).log[k].at <= t.now;
  }

  /** So a drop never comes earlier than 120 seconds after the first of the
      failed attempts that justify it. */
  lemma EscalationNotEarly(ok: bool, ticks: seq<Tick>, t: Tick)
    requires Monotone(ticks + [t]) && Escalates(Run(ok, ticks), t)
    ensures var log := Reconnected(Run(ok, ticks), t.now, t.refreshOk).log;
            |log| >= 5 && t.now >= log[|log| - 5].at + 120 * SECOND
  {
    EscalationEarned(ok, ticks, t);
    assert forall k :: 0 <= k < |ticks| ==> (ticks + [t])[k] == ticks[k];
    assert (ticks + [t])[|ticks|] == t;
    LogNotAhead(ok, ticks, t.now);
  }

  // ---------------------------------------------------------------------
  // When an attempt and a drop must happen
  // ---------------------------------------------------------------------

  /** The installed observer has not been asked for thirty seconds. */
  predicate Unthrottled(s: Supervision, now: Time) {
    s.observer.Some? && now - LastAt(s.log, s.observer.value) >= 30_000_000_000
  }

  /** A dead watch, or a failed probe, at most one a minute. */
  predicate NeedsRepair(s: Supervision, t: Tick) {
    t.running && (!t.watchAlive || (!t.backendAlive && t.now - s.lastProbe >= 60_000_000_000))
  }

  /** Stopped, or dead with five failures in a row behind it. */
  predicate MustDrop(s: Supervision, t: Tick, log: seq<Attempt>)
    requires s.observer.Some?
  {
    !t.running || (!t.watchAlive && !(Unthrottled(s, t.now) && t.refreshOk) && Trailing(log, s.observer.value) >= 5)
  }

  /** What a supervision tick does, in terms of the log alone: it reconnects
      exactly when repair is needed and not throttled; it drops the observer
      exactly when it must; and it starts a new one exactly when there is none
      left and the last start is thirty seconds past, or forgotten by a drop. */
  lemma TickExact(ok: bool, ticks: seq<Tick>, t: Tick)
    ensures var s := Run(ok, ticks);
            var s' := Supervised(s, t);
            && s'.log == (if NeedsRepair(s, t) && Unthrottled(s, t.now) then s.log + [Attempt(s.observer.value, t.now, t.refreshOk)] else s.log)
            && (s.observer.Some? && !MustDrop(s, t, s'.log) ==>
                  s'.(log := s.log, lastReconnect := s.lastReconnect, failures := s.failures) ==
                  s.(lastProbe := if t.watchAlive && t.now - s.lastProbe >= 60_000_000_000 then t.now else s.lastProbe))
            && (s.observer.None? || MustDrop(s, t, s'.log) ==>
                  var free := if s.observer.Some? && t.running then 0 else s.lastAttempt;
                  var starts := t.now - free >= 30_000_000_000;
                  s'.observer == (if starts && t.startOk then Some(s.created) else None)
                  && s'.created == (if starts then s.created + 1 else s.created)
                  && s'.lastAttempt == (if starts then t.now else free)
                  && s'.retries == (if !starts then s.retries else if t.startOk then 0 else s.retries + 1)
                  && s'.lastProbe == s.lastProbe)
  {
    var s := Run(ok, ticks);
    RunKeepsOk(ok, ticks);
    if s.observer.Some? {
      TrailingSnoc(s.log, Attempt(s.observer.value, t.now, t.refreshOk), s.observer.value);
    }
  }

  /** A resync tick asks the same observer under the same throttle. */
  lemma ResyncExact(ok: bool, ticks: seq<Tick>, t: Tick)
    ensures var s := Supervised(Run(ok, ticks), t);
            Ticked(Run(ok, ticks), t).log ==
            if t.resyncLldp && Unthrottled(s, t.now) then s.log + [Attempt(s.observer.value, t.now, t.resyncRefreshOk)] else s.log
  {
    RunKeepsOk(ok, ticks);
    SuperviseKeepsOk(Run(ok, ticks), t);
  }

  // ---------------------------------------------------------------------
  // The tick thread's own fields
  // ---------------------------------------------------------------------

  class LldpSupervisor {
    var observer: Option<nat>
    var created: nat
    var lastAttempt: Time
    var lastReconnect: Time
    var lastProbe: Time
    var failures: nat
    var retries: nat
    ghost var log: seq<Attempt>

    ghost function State(): Supervision
      reads this
    {
      Supervision(observer, created, lastAttempt, lastReconnect, lastProbe, failures, retries, log)
    }

    constructor (startOk: bool)
      ensures State() == Started(startOk)
    {
      observer := if startOk then Some(0) else None;
      created, lastAttempt, lastReconnect, lastProbe, failures, retries, log := 1, 0, 0, 0, 0, 0, [];
    }

    method ReconnectLldp(now: Time, refreshOk: bool) returns (ok: bool)
      requires observer.Some?
      modifies this`lastReconnect, this`failures, this`log
      ensures State() == Reconnected(old(State()), now, refreshOk)
      ensures ok == ReconnectSucceeds(old(State()), now, refreshOk)
    {
      if now - lastReconnect < RETRY_INTERVAL {
        return false;
      }
      lastReconnect := now;
      log := log + [Attempt(observer.value, now, refreshOk)];
      if !refreshOk {
        failures := failures + 1;
        return false;
      }
      failures := 0;
      return true;
    }

    method Acquire(t: Tick)
      requires observer.None?
      modifies this
      ensures State() == Acquired(old(State()), t)
    {
      if t.now - lastAttempt < RETRY_INTERVAL {
        return;
      }
      lastAttempt := t.now;
      created := created + 1;
      if !t.startOk {
        retries := retries + 1;
        return;
      }
      observer := Some(created - 1);
      retries, failures, lastReconnect := 0, 0, 0;
    }

    method SuperviseLldp(t: Tick)
      modifies this
      ensures State() == Supervised(old(State()), t)
    {
      if observer.Some? && !t.running {
        observer := None;
      }
      if observer.Some? && !t.watchAlive {
        var ok := ReconnectLldp(t.now, t.refreshOk);
        if ok {
          return;
        }
        if failures < FAILURE_LIMIT {
          return;
        }
        observer := None;
        failures, lastReconnect, lastAttempt := 0, 0, 0;
      }
      if observer.Some? {
        if t.now - lastProbe >= PROBE_INTERVAL {
          lastProbe := t.now;
          if !t.backendAlive {
            var _ := ReconnectLldp(t.now, t.refreshOk);
          }
        }
        return;
      }
      Acquire(t);
    }

    /** The LLDP branch of `performResync`: tells whether the bit goes back. */
    method ResyncLldp(t: Tick) returns (reraise: bool)
      modifies this
      ensures State() == Resynced(old(State()), t)
      ensures reraise <==> t.resyncLldp && old(observer).Some? && !ReconnectSucceeds(old(State()), t.now, t.resyncRefreshOk)
    {
      reraise := false;
      if t.resyncLldp && observer.Some? {
        var ok := ReconnectLldp(t.now, t.resyncRefreshOk);
        reraise := !ok;
      }
    }
  }
}
