/** From engine commits to client views, under every interleaving. */
module ClientCoherence {
  import opened Common
  import opened EngineModel
  import opened EngineReports
  import opened LocalState
  import opened Publication
  import LldpIdentity

  // ---------------------------------------------------------------------
  // Clients that re-query on every signal
  // ---------------------------------------------------------------------

  /** `undelivered`: committed, not yet handed to the queue (several threads
      commit, so batches interleave); `queue`: pending publications; `batch`:
      taken by the publication worker, still to be published; `signalled`:
      published, not yet answered by the client. What it read last: `client`
      per MAC, `ifaces` per interface, `macs` and `ips` of the local state.
      `refreshed`: MACs whose data a suppressed keepalive touched since then. */
  datatype System = System(
    engine: Engine, undelivered: multiset<ModelEvent>, queue: PendingPublication, batch: PendingPublication,
    signalled: set<Key>, client: map<string, Candidate>, refreshed: set<string>,
    ifaces: map<string, Iface>, macs: set<string>, ips: set<string>)

  const START: System := System(NEW_ENGINE, multiset{}, map[], map[], {}, map[], {}, map[], {}, {})

  datatype Action =
    | Commit(op: Op)
    | Deliver(event: ModelEvent)
    | Take
    | Publish(key: Key)
    | Query(mac: string)
    | QueryInterface(ifname: string)
    | QueryLocal

  /** The candidate that a keepalive changed, if it changed one. */
  function Touched(before: Engine, after: Engine, op: Op): set<string> {
    if !op.LldpOp? || !op.lldp.keepalive then {}
    else
      var key := LldpIdentity.Resolve(op.lldp.chassisId, op.lldp.portId);
      if At(after, key) == At(before, key) then {} else {key}
  }

  function Act(cfg: Config, s: System, a: Action): System {
    match a
    case Commit(op) =>
      var o := Step(cfg, s.engine, op);
      s.(engine := o.engine,
      undelivered := s.undelivered + multiset(EventsOf(o.pending)),
      refreshed := s.refreshed + Touched(s.engine, o.engine, op))
    case Deliver(event) =>
      if event !in s.undelivered then s
      else s.(undelivered := s.undelivered - multiset{event}, queue := Marked(s.queue, event))
    case Take =>
      if s.batch != map[] then s else s.(batch := s.queue, queue := map[])
    case Publish(key) =>
      if key !in s.batch then s
      else s.(batch := s.batch - {key}, signalled := s.signalled + {key})
    case Query(mac) =>
      var seen := Visible(s.engine, mac);
      s.(client := if seen.Some? then s.client[mac := seen.value] else s.client - {mac},
      signalled := s.signalled - {CandidateKey(mac)}, refreshed := s.refreshed - {mac})
    case QueryInterface(i) =>
      s.(ifaces := if i in s.engine.local.ifaces then s.ifaces[i := s.engine.local.ifaces[i]] else s.ifaces - {i},
      signalled := s.signalled - {InterfaceKey(i)})
    case QueryLocal =>
      s.(macs := s.engine.local.macRefs.Keys, ips := s.engine.local.ipRefs.Keys, signalled := s.signalled - {LocalStateKey})
  }

  function Execute(cfg: Config, actions: seq<Action>): System {
    if actions == [] then START else Act(cfg, Execute(cfg, actions[..|actions| - 1]), actions[|actions| - 1])
  }

  function ClientView(s: System, m: string): Option<Candidate> {
    if m in s.client then Some(s.client[m]) else None
  }

  predicate Undelivered(s: System, key: Key) {
    exists event :: event in s.undelivered && key in KeysOf(event)
  }

  /** News about the key is somewhere on its way. */
  predicate OnItsWay(s: System, key: Key) {
    Undelivered(s, key) || key in s.queue || key in s.batch || key in s.signalled
  }

  /** Steps that neither commit nor query: news does not get lost. */
  lemma NewsTravels(cfg: Config, s: System, a: Action, key: Key)
    requires a.Deliver? || a.Take? || a.Publish?
    ensures OnItsWay(s, key) ==> OnItsWay(Act(cfg, s, a), key)
    ensures OnItsWay(Act(cfg, s, a), key) ==> OnItsWay(s, key)
  {
    var s' := Act(cfg, s, a);
    if a.Deliver? && a.event in s.undelivered {
      MarkedMeaning(s.queue, a.event, key);
      if Undelivered(s, key) {
        var event :| event in s.undelivered && key in KeysOf(event);
        assert event == a.event || event in s'.undelivered;
      }
    }
  }

  predicate Announced(p: Pending, key: Key) {
    exists event :: event in EventsOf(p) && key in KeysOf(event)
  }

  /** A commit puts news about its events on its way, and loses none. */
  lemma CommitSends(cfg: Config, s: System, op: Op, key: Key)
    ensures OnItsWay(Act(cfg, s, Commit(op)), key) <==>
            OnItsWay(s, key) || Announced(Step(cfg, s.engine, op).pending, key)
  {
    var s' := Act(cfg, s, Commit(op));
    assert forall event :: event in s'.undelivered <==>
        event in s.undelivered || event in EventsOf(Step(cfg, s.engine, op).pending);
  }

  predicate Agrees(s: System, m: string) {
    SameFace(ClientView(s, m), Visible(s.engine, m)) &&
    (m !in s.refreshed ==> ClientView(s, m) == Visible(s.engine, m))
  }

  ghost predicate Coherent(s: System) {
    forall m :: OnItsWay(s, CandidateKey(m)) || Agrees(s, m)
  }

  lemma SameFaceTransitive(a: Option<Candidate>, b: Option<Candidate>, c: Option<Candidate>)
    requires SameFace(a, b) && SameFace(b, c)
    ensures SameFace(a, c)
  {
  }

  lemma NamedIsOnItsWay(cfg: Config, s: System, op: Op, m: string)
    requires m in Named(Step(cfg, s.engine, op).pending)
    ensures OnItsWay(Act(cfg, s, Commit(op)), CandidateKey(m))
  {
    var p := Step(cfg, s.engine, op).pending;
    CommitSends(cfg, s, op, CandidateKey(m));
    assert CandidateUpdated(m) in EventsOf(p) || CandidateRemoved(m) in EventsOf(p);
    assert CandidateKey(m) in KeysOf(CandidateUpdated(m)) && CandidateKey(m) in KeysOf(CandidateRemoved(m));
  }

  lemma UnnamedStaysAgreed(cfg: Config, s: System, op: Op, m: string)
    requires m !in Named(Step(cfg, s.engine, op).pending) && Agrees(s, m)
    ensures Agrees(Act(cfg, s, Commit(op)), m)
  {
    UnnamedUnchanged(cfg, s.engine, op, m);
    SameFaceTransitive(ClientView(s, m), Visible(s.engine, m), Visible(Step(cfg, s.engine, op).engine, m));
  }

  lemma CommitKeepsCoherent(cfg: Config, s: System, op: Op)
    requires Coherent(s)
    ensures Coherent(Act(cfg, s, Commit(op)))
  {
    var s' := Act(cfg, s, Commit(op));
    forall m ensures OnItsWay(s', CandidateKey(m)) || Agrees(s', m) {
      assert OnItsWay(s, CandidateKey(m)) || Agrees(s, m);
      if m in Named(Step(cfg, s.engine, op).pending) {
        NamedIsOnItsWay(cfg, s, op, m);
      } else if Agrees(s, m) {
        UnnamedStaysAgreed(cfg, s, op, m);
      } else {
        CommitSends(cfg, s, op, CandidateKey(m));
      }
    }
  }

  lemma SameNews(s: System, s': System, key: Key)
    requires s'.undelivered == s.undelivered && s'.queue == s.queue && s'.batch == s.batch
    ensures OnItsWay(s', key) || key in s.signalled <==> OnItsWay(s, key) || key in s'.signalled
  {
  }

  lemma ActKeepsCoherent(cfg: Config, s: System, a: Action)
    requires Coherent(s)
    ensures Coherent(Act(cfg, s, a))
  {
    if a.Commit? {
      CommitKeepsCoherent(cfg, s, a.op);
    } else {
      var s' := Act(cfg, s, a);
      forall m ensures OnItsWay(s', CandidateKey(m)) || Agrees(s', m) {
        assert OnItsWay(s, CandidateKey(m)) || Agrees(s, m);
        if a.Deliver? || a.Take? || a.Publish? {
          NewsTravels(cfg, s, a, CandidateKey(m));
        } else {
          SameNews(s, s', CandidateKey(m));
        }
      }
    }
  }

  /** In every reachable state of every interleaving: a MAC whose visibility,
      status or classification differs from what the client last read is in an
      undelivered batch, in the pending map, in the batch being published or
      in a signal the client has yet to answer. */
  lemma {:induction false} ClientNeverStale(cfg: Config, actions: seq<Action>)
    ensures Coherent(Execute(cfg, actions))
  {
    if actions == [] {
      forall m ensures Agrees(START, m) {}
    } else {
      ClientNeverStale(cfg, actions[..|actions| - 1]);
      ActKeepsCoherent(cfg, Execute(cfg, actions[..|actions| - 1]), actions[|actions| - 1]);
    }
  }

  predicate Quiet(s: System) {
    s.undelivered == multiset{} && s.queue == map[] && s.batch == map[] && s.signalled == {}
  }

  function Known(s: System): set<Candidate> {
    set m | m in s.client :: s.client[m]
  }

  lemma AgreementIsEquality(s: System)
    requires forall m :: ClientView(s, m) == Visible(s.engine, m)
    ensures Known(s) == RemoteCandidates(s.engine)
  {
    forall c | c in Known(s) ensures c in RemoteCandidates(s.engine) {
      var m :| m in s.client && s.client[m] == c;
      assert ClientView(s, m) == Visible(s.engine, m);
    }
    forall c | c in RemoteCandidates(s.engine) ensures c in Known(s) {
      var m :| m in s.engine.candidates && Publishable(s.engine.candidates[m]) && s.engine.candidates[m] == c;
      assert ClientView(s, m) == Visible(s.engine, m);
    }
  }

  lemma QuietAgrees(s: System, m: string)
    requires Coherent(s) && Quiet(s)
    ensures Agrees(s, m)
  {
    assert OnItsWay(s, CandidateKey(m)) || Agrees(s, m);
  }

  /** Once everything has drained, the client knows exactly the visible MACs,
      with their status and classification; it holds in full each one that no
      keepalive has refreshed since it read it; and if there is no such
      keepalive at all, exactly the engine's `remoteCandidates`. */
  lemma QuietClientIsExact(cfg: Config, actions: seq<Action>)
    requires Quiet(Execute(cfg, actions))
    ensures var s := Execute(cfg, actions);
            && (forall m :: SameFace(ClientView(s, m), Visible(s.engine, m)))
            && (forall m :: m !in s.refreshed ==> ClientView(s, m) == Visible(s.engine, m))
            && (s.refreshed == {} ==> Known(s) == RemoteCandidates(s.engine))
  {
    var s := Execute(cfg, actions);
    ClientNeverStale(cfg, actions);
    forall m
      ensures SameFace(ClientView(s, m), Visible(s.engine, m))
      ensures m !in s.refreshed ==> ClientView(s, m) == Visible(s.engine, m)
    {
      QuietAgrees(s, m);
    }
    if s.refreshed == {} {
      AgreementIsEquality(s);
    }
  }

  // ---------------------------------------------------------------------
  // The same for interfaces and local state
  // ---------------------------------------------------------------------

  function KnownIface(s: System, i: string): Iface {
    if i in s.ifaces then s.ifaces[i] else BLANK
  }

  /** Up to blank entries, as everywhere. */
  predicate IfaceAgrees(s: System, i: string) {
    KnownIface(s, i) == IfaceOf(s.engine.local, i)
  }

  predicate LocalAgrees(s: System) {
    s.macs == s.engine.local.macRefs.Keys && s.ips == s.engine.local.ipRefs.Keys
  }

  ghost predicate LocalCoherent(s: System) {
    && (forall i :: OnItsWay(s, InterfaceKey(i)) || IfaceAgrees(s, i))
    && (OnItsWay(s, LocalStateKey) || LocalAgrees(s))
  }

  /** A restart drops all local state and says nothing about it. */
  ghost predicate DropsSilently(s: System, a: Action) {
    && a == Commit(RestartOp)
    && ((exists i :: !OnItsWay(s, InterfaceKey(i)) && IfaceOf(s.engine.local, i) != BLANK)
        || (!OnItsWay(s, LocalStateKey) && (s.engine.local.macRefs != map[] || s.engine.local.ipRefs != map[])))
  }

  lemma ChangeNoticed(cfg: Config, e: Engine, op: Op, i: string)
    requires !op.RestartOp?
    ensures var o := Step(cfg, e, op);
            && (IfaceOf(o.engine.local, i) != IfaceOf(e.local, i) ==> o.pending.notice.Some? && o.pending.notice.value.ifname == i)
            && (o.engine.local.macRefs != e.local.macRefs || o.engine.local.ipRefs != e.local.ipRefs ==> o.pending.notice.Some?)
  {
    if !op.LinkOp? && !op.AddressOp? {
      assert Step(cfg, e, op).engine.local == e.local;
    }
  }

  lemma NoticeAnnounced(p: Pending)
    requires p.notice.Some?
    ensures Announced(p, InterfaceKey(p.notice.value.ifname)) && Announced(p, LocalStateKey)
  {
    assert ModelEvent.Local(p.notice.value) in EventsOf(p);
  }

  lemma Tells(cfg: Config, e: Engine, op: Op, i: string)
    requires !op.RestartOp?
    ensures var o := Step(cfg, e, op);
            && (IfaceOf(o.engine.local, i) != IfaceOf(e.local, i) ==> Announced(o.pending, InterfaceKey(i)))
            && (o.engine.local.macRefs != e.local.macRefs || o.engine.local.ipRefs != e.local.ipRefs ==>
                  Announced(o.pending, LocalStateKey))
  {
    ChangeNoticed(cfg, e, op, i);
    if Step(cfg, e, op).pending.notice.Some? {
      NoticeAnnounced(Step(cfg, e, op).pending);
    }
  }

  lemma RestartSaysNothing(cfg: Config, e: Engine, key: Key)
    requires !key.CandidateKey?
    ensures !Announced(Step(cfg, e, RestartOp).pending, key)
  {
  }

  lemma RestartTells(cfg: Config, s: System, key: Key)
    requires !key.CandidateKey?
    ensures OnItsWay(Act(cfg, s, Commit(RestartOp)), key) <==> OnItsWay(s, key)
  {
    RestartSaysNothing(cfg, s.engine, key);
    CommitSends(cfg, s, RestartOp, key);
  }

  lemma RestartKeepsIface(cfg: Config, s: System, i: string)
    requires OnItsWay(s, InterfaceKey(i)) || (IfaceAgrees(s, i) && IfaceOf(s.engine.local, i) == BLANK)
    ensures var s' := Act(cfg, s, Commit(RestartOp)); OnItsWay(s', InterfaceKey(i)) || IfaceAgrees(s', i)
  {
    RestartTells(cfg, s, InterfaceKey(i));
  }

  lemma RestartLosesNothing(cfg: Config, s: System)
    requires LocalCoherent(s) && !DropsSilently(s, Commit(RestartOp))
    ensures LocalCoherent(Act(cfg, s, Commit(RestartOp)))
  {
    var s' := Act(cfg, s, Commit(RestartOp));
    RestartTells(cfg, s, LocalStateKey);
    forall i ensures OnItsWay(s', InterfaceKey(i)) || IfaceAgrees(s', i) {
      assert OnItsWay(s, InterfaceKey(i)) || IfaceAgrees(s, i);
      RestartKeepsIface(cfg, s, i);
    }
  }

  lemma RestartLosesSome(cfg: Config, s: System)
    requires LocalCoherent(s) && DropsSilently(s, Commit(RestartOp))
    ensures !LocalCoherent(Act(cfg, s, Commit(RestartOp)))
  {
    var s' := Act(cfg, s, Commit(RestartOp));
    if i :| !OnItsWay(s, InterfaceKey(i)) && IfaceOf(s.engine.local, i) != BLANK {
      RestartTells(cfg, s, InterfaceKey(i));
      assert IfaceAgrees(s, i) && !IfaceAgrees(s', i);
    } else {
      RestartTells(cfg, s, LocalStateKey);
      assert LocalAgrees(s) && !LocalAgrees(s');
    }
  }

  lemma CommitKeepsLocal(cfg: Config, s: System, op: Op)
    requires LocalCoherent(s) && !op.RestartOp?
    ensures LocalCoherent(Act(cfg, s, Commit(op)))
  {
    var s' := Act(cfg, s, Commit(op));
    forall i ensures OnItsWay(s', InterfaceKey(i)) || IfaceAgrees(s', i) {
      assert OnItsWay(s, InterfaceKey(i)) || IfaceAgrees(s, i);
      CommitSends(cfg, s, op, InterfaceKey(i));
      Tells(cfg, s.engine, op, i);
    }
    CommitSends(cfg, s, op, LocalStateKey);
    Tells(cfg, s.engine, op, "");
  }

  /** Every step keeps the client's local view coherent, except exactly a
      restart that drops something silently. */
  lemma LocalStepExact(cfg: Config, s: System, a: Action)
    requires LocalCoherent(s)
    ensures LocalCoherent(Act(cfg, s, a)) <==> !DropsSilently(s, a)
  {
    if a == Commit(RestartOp) {
      if DropsSilently(s, a) {
        RestartLosesSome(cfg, s);
      } else {
        RestartLosesNothing(cfg, s);
      }
    } else if a.Commit? {
      CommitKeepsLocal(cfg, s, a.op);
    } else {
      LocalOtherSteps(cfg, s, a);
    }
  }

  lemma LocalOtherSteps(cfg: Config, s: System, a: Action)
    requires LocalCoherent(s) && !a.Commit?
    ensures LocalCoherent(Act(cfg, s, a))
  {
    var s' := Act(cfg, s, a);
    forall key: Key | !key.CandidateKey?
      ensures OnItsWay(s, key) ==> OnItsWay(s', key) || (a.QueryInterface? && key == InterfaceKey(a.ifname)) || (a.QueryLocal? && key == LocalStateKey)
    {
      if a.Deliver? || a.Take? || a.Publish? {
        NewsTravels(cfg, s, a, key);
      } else {
        SameNews(s, s', key);
      }
    }
    forall i ensures OnItsWay(s', InterfaceKey(i)) || IfaceAgrees(s', i) {
      assert OnItsWay(s, InterfaceKey(i)) || IfaceAgrees(s, i);
    }
  }

  ghost predicate NeverDropsSilently(cfg: Config, actions: seq<Action>) {
    actions != [] ==>
      var front := actions[..|actions| - 1];
      NeverDropsSilently(cfg, front) && !DropsSilently(Execute(cfg, front), actions[|actions| - 1])
  }

  /** Coherent after the run and after each of its prefixes. */
  ghost predicate AlwaysLocalCoherent(cfg: Config, actions: seq<Action>) {
    LocalCoherent(Execute(cfg, actions)) && (actions != [] ==> AlwaysLocalCoherent(cfg, actions[..|actions| - 1]))
  }

  /** In every interleaving, what the client last read of an interface and of
      the local MACs and IPs is current or news about it is on its way, at every
      moment, if and only if no restart drops local state silently. */
  lemma {:induction false} LocalClientExact(cfg: Config, actions: seq<Action>)
    ensures NeverDropsSilently(cfg, actions) <==> AlwaysLocalCoherent(cfg, actions)
  {
    if actions == [] {
      forall i ensures IfaceAgrees(START, i) {}
    } else {
      var front := actions[..|actions| - 1];
      LocalClientExact(cfg, front);
      if LocalCoherent(Execute(cfg, front)) {
        LocalStepExact(cfg, Execute(cfg, front), actions[|actions| - 1]);
      }
    }
  }

  /** Then a drained client has the local state. */
  lemma QuietLocalIsExact(cfg: Config, actions: seq<Action>)
    requires NeverDropsSilently(cfg, actions) && Quiet(Execute(cfg, actions))
    ensures var s := Execute(cfg, actions); (forall i :: IfaceAgrees(s, i)) && LocalAgrees(s)
  {
    var s := Execute(cfg, actions);
    LocalClientExact(cfg, actions);
    forall i ensures IfaceAgrees(s, i) {
      assert OnItsWay(s, InterfaceKey(i)) || IfaceAgrees(s, i);
    }
  }

  // ---------------------------------------------------------------------
  // Clients that only believe the signals
  // ---------------------------------------------------------------------

  /** One engine operation is delivered completely before the next commits;
      `undelivered` is what is left of it. `members` are the keys the client
      takes to exist. */
  datatype Mirror = Mirror(
    engine: Engine, undelivered: set<ModelEvent>, queue: PendingPublication, batch: PendingPublication,
    members: set<Key>)

  const MIRROR_START: Mirror := Mirror(NEW_ENGINE, {}, map[], map[], {})

  function MirrorAct(cfg: Config, s: Mirror, a: Action): Mirror {
    match a
    case Commit(op) =>
      if s.undelivered != {} then s
      else
        var o := Step(cfg, s.engine, op);
        s.(engine := o.engine, undelivered := EventsOf(o.pending))
    case Deliver(event) =>
      if event !in s.undelivered then s
      else s.(undelivered := s.undelivered - {event}, queue := Marked(s.queue, event))
    case Take =>
      if s.batch != map[] then s else s.(batch := s.queue, queue := map[])
    case Publish(key) =>
      if key !in s.batch then s
      else s.(batch := s.batch - {key},
      members := if s.batch[key].Changed? then s.members + {key} else s.members - {key})
    case _ => s
  }

  function MirrorExecute(cfg: Config, actions: seq<Action>): Mirror {
    if actions == [] then MIRROR_START
    else MirrorAct(cfg, MirrorExecute(cfg, actions[..|actions| - 1]), actions[|actions| - 1])
  }

  predicate Told(events: set<ModelEvent>, key: Key, intent: Intent) {
    exists event :: event in events && key in KeysOf(event) && Says(event, key) == intent
  }

  /** What the client will hold for the key once everything has drained: the
      most recent news wins over older news. */
  predicate Belief(s: Mirror, key: Key) {
    if Told(s.undelivered, key, Changed) then true
    else if Told(s.undelivered, key, Intent.Removed) then false
    else if key in s.queue then s.queue[key].Changed?
    else if key in s.batch then s.batch[key].Changed?
    else key in s.members
  }

  /** One batch never says both things about one key. */
  predicate OneVoice(events: set<ModelEvent>, key: Key) {
    !(Told(events, key, Changed) && Told(events, key, Intent.Removed))
  }

  /** Visible MACs and tracked interfaces exist. */
  predicate Exists(e: Engine, key: Key) {
    match key
    case CandidateKey(m) => Visible(e, m).Some?
    case InterfaceKey(i) => i in e.local.ifaces
    case LocalStateKey => true
  }

  ghost predicate Right(s: Mirror, key: Key) {
    OneVoice(s.undelivered, key) && (Belief(s, key) <==> Exists(s.engine, key))
  }

  ghost predicate Mirrors(s: Mirror) {
    forall key: Key :: !key.LocalStateKey? ==> Right(s, key)
  }

  /** The commits that leave such a client wrong: a false removal, a restart
      that drops interfaces, and an address without IP part that creates an
      interface entry. */
  predicate Misleads(cfg: Config, e: Engine, op: Op) {
    || FalseRemoval(cfg, e, op)
    || (op.RestartOp? && e.local.ifaces != map[])
    || (op.AddressOp? && cfg.includeInLocalState(op.addr.ifname) && IpOf(op.addr.cidr) == "" && op.addr.ifname !in e.local.ifaces)
  }

  lemma CandidateNews(p: Pending, m: string)
    ensures Told(EventsOf(p), CandidateKey(m), Changed) <==> m in p.changed
    ensures Told(EventsOf(p), CandidateKey(m), Intent.Removed) <==> m in p.removed
  {
    if m in p.changed {
      assert CandidateUpdated(m) in EventsOf(p) && CandidateKey(m) in KeysOf(CandidateUpdated(m));
    }
    if m in p.removed {
      assert CandidateRemoved(m) in EventsOf(p) && CandidateKey(m) in KeysOf(CandidateRemoved(m));
    }
  }

  lemma InterfaceNews(p: Pending, i: string)
    ensures Told(EventsOf(p), InterfaceKey(i), Changed) <==>
            p.notice.Some? && p.notice.value.ifname == i && !p.notice.value.InterfaceRemoved?
    ensures Told(EventsOf(p), InterfaceKey(i), Intent.Removed) <==>
            p.notice.Some? && p.notice.value.ifname == i && p.notice.value.InterfaceRemoved?
  {
    if p.notice.Some? {
      assert ModelEvent.Local(p.notice.value) in EventsOf(p);
      assert InterfaceKey(i) in KeysOf(ModelEvent.Local(p.notice.value)) <==> p.notice.value.ifname == i;
    }
  }

  /** It changes whether the interface exists without a word about it. */
  predicate QuietlyChanges(cfg: Config, e: Engine, op: Op, i: string) {
    (op.RestartOp? && i in e.local.ifaces) || (op.AddressOp? && op.addr.ifname == i && Misleads(cfg, e, op))
  }

  lemma NoticeTruthful(cfg: Config, e: Engine, op: Op, i: string)
    ensures var o := Step(cfg, e, op);
            if o.pending.notice.Some? && o.pending.notice.value.ifname == i
            then (i in o.engine.local.ifaces <==> !o.pending.notice.value.InterfaceRemoved?) && !QuietlyChanges(cfg, e, op, i)
            else (i in o.engine.local.ifaces <==> i in e.local.ifaces) <==> !QuietlyChanges(cfg, e, op, i)
  {
  }

  lemma InterfaceMirrors(cfg: Config, s: Mirror, op: Op, i: string)
    requires s.undelivered == {} && (Belief(s, InterfaceKey(i)) <==> Exists(s.engine, InterfaceKey(i)))
    ensures var s' := MirrorAct(cfg, s, Commit(op));
            && OneVoice(s'.undelivered, InterfaceKey(i))
            && ((Belief(s', InterfaceKey(i)) <==> Exists(s'.engine, InterfaceKey(i))) <==> !QuietlyChanges(cfg, s.engine, op, i))
  {
    NoticeTruthful(cfg, s.engine, op, i);
    InterfaceNews(Step(cfg, s.engine, op).pending, i);
    assert !Told(s.undelivered, InterfaceKey(i), Changed) && !Told(s.undelivered, InterfaceKey(i), Intent.Removed);
  }

  lemma CandidateMirrors(cfg: Config, s: Mirror, op: Op, m: string)
    requires s.undelivered == {} && (Belief(s, CandidateKey(m)) <==> Exists(s.engine, CandidateKey(m)))
    ensures var s' := MirrorAct(cfg, s, Commit(op));
            && OneVoice(s'.undelivered, CandidateKey(m))
            && ((Belief(s', CandidateKey(m)) <==> Exists(s'.engine, CandidateKey(m))) <==>
                !(m in Step(cfg, s.engine, op).pending.removed && Visible(s'.engine, m).Some?))
  {
    var p := Step(cfg, s.engine, op).pending;
    CandidateNews(p, m);
    BatchTruthful(cfg, s.engine, op);
    assert forall intent :: !Told(s.undelivered, CandidateKey(m), intent);
    if m !in Named(p) {
      UnnamedUnchanged(cfg, s.engine, op, m);
    }
  }

  lemma CommitRight(cfg: Config, s: Mirror, op: Op, key: Key)
    requires Right(s, key) && s.undelivered == {} && !key.LocalStateKey?
    ensures Right(MirrorAct(cfg, s, Commit(op)), key) <==>
            if key.CandidateKey? then !(FalseRemoval(cfg, s.engine, op) && op.link.mac == key.mac)
            else !QuietlyChanges(cfg, s.engine, op, key.ifname)
  {
    if key.CandidateKey? {
      CandidateMirrors(cfg, s, op, key.mac);
      FalseRemovalNames(cfg, s.engine, op, key.mac);
    } else {
      InterfaceMirrors(cfg, s, op, key.ifname);
    }
  }

  lemma FalseRemovalNames(cfg: Config, e: Engine, op: Op, m: string)
    ensures m in Step(cfg, e, op).pending.removed && Visible(Step(cfg, e, op).engine, m).Some? <==>
            FalseRemoval(cfg, e, op) && op.link.mac == m
  {
    BatchTruthful(cfg, e, op);
  }

  /** A commit keeps the mirror exact if and only if it does not mislead. */
  lemma CommitMirrors(cfg: Config, s: Mirror, op: Op)
    requires Mirrors(s) && s.undelivered == {}
    ensures Mirrors(MirrorAct(cfg, s, Commit(op))) <==> !Misleads(cfg, s.engine, op)
  {
    var s' := MirrorAct(cfg, s, Commit(op));
    forall key: Key | !key.LocalStateKey?
      ensures Right(s', key) <==>
              if key.CandidateKey? then !(FalseRemoval(cfg, s.engine, op) && op.link.mac == key.mac)
              else !QuietlyChanges(cfg, s.engine, op, key.ifname)
    {
      assert Right(s, key);
      CommitRight(cfg, s, op, key);
    }
    if FalseRemoval(cfg, s.engine, op) {
      assert !Right(s', CandidateKey(op.link.mac));
    } else if op.RestartOp? && s.engine.local.ifaces != map[] {
      var i :| i in s.engine.local.ifaces;
      assert !Right(s', InterfaceKey(i));
    } else if Misleads(cfg, s.engine, op) {
      assert !Right(s', InterfaceKey(op.addr.ifname));
    }
  }

  lemma DeliverKeepsBelief(cfg: Config, s: Mirror, event: ModelEvent, key: Key)
    requires OneVoice(s.undelivered, key)
    ensures var s' := MirrorAct(cfg, s, Deliver(event));
            OneVoice(s'.undelivered, key) && (Belief(s', key) <==> Belief(s, key))
  {
    var s' := MirrorAct(cfg, s, Deliver(event));
    if event in s.undelivered {
      MarkedMeaning(s.queue, event, key);
      assert forall intent :: Told(s'.undelivered, key, intent) ==> Told(s.undelivered, key, intent);
      if key in KeysOf(event) {
        assert Told(s.undelivered, key, Says(event, key));
      } else {
        forall intent | Told(s.undelivered, key, intent) ensures Told(s'.undelivered, key, intent) {
          var other :| other in s.undelivered && key in KeysOf(other) && Says(other, key) == intent;
          assert other in s'.undelivered;
        }
      }
    }
  }

  lemma DeliverMirrors(cfg: Config, s: Mirror, event: ModelEvent)
    requires Mirrors(s)
    ensures Mirrors(MirrorAct(cfg, s, Deliver(event)))
  {
    var s' := MirrorAct(cfg, s, Deliver(event));
    forall key: Key | !key.LocalStateKey?
      ensures Right(s', key)
    {
      assert Right(s, key);
      DeliverKeepsBelief(cfg, s, event, key);
    }
  }

  predicate Honest(cfg: Config, s: Mirror, a: Action) {
    a.Commit? && s.undelivered == {} ==> !Misleads(cfg, s.engine, a.op)
  }

  /** Every step keeps the mirror exact if and only if it is honest. */
  lemma ActMirrors(cfg: Config, s: Mirror, a: Action)
    requires Mirrors(s)
    ensures Mirrors(MirrorAct(cfg, s, a)) <==> Honest(cfg, s, a)
  {
    match a
    case Commit(op) => if s.undelivered == {} { CommitMirrors(cfg, s, op); }
    case Deliver(event) => DeliverMirrors(cfg, s, event);
    case _ =>
      var s' := MirrorAct(cfg, s, a);
      forall key: Key | !key.LocalStateKey?
        ensures Right(s', key)
      {
        assert Right(s, key);
      }
  }

  ghost predicate AlwaysHonest(cfg: Config, actions: seq<Action>) {
    actions != [] ==>
      var front := actions[..|actions| - 1];
      AlwaysHonest(cfg, front) && Honest(cfg, MirrorExecute(cfg, front), actions[|actions| - 1])
  }

  /** Exact after the run and after each of its prefixes. */
  ghost predicate AlwaysMirrors(cfg: Config, actions: seq<Action>) {
    Mirrors(MirrorExecute(cfg, actions)) && (actions != [] ==> AlwaysMirrors(cfg, actions[..|actions| - 1]))
  }

  lemma {:induction false} MirrorExact(cfg: Config, actions: seq<Action>)
    ensures AlwaysHonest(cfg, actions) <==> AlwaysMirrors(cfg, actions)
  {
    if actions == [] {
      forall key: Key | !key.LocalStateKey? ensures Right(MIRROR_START, key) {}
    } else {
      var front := actions[..|actions| - 1];
      MirrorExact(cfg, front);
      if Mirrors(MirrorExecute(cfg, front)) {
        ActMirrors(cfg, MirrorExecute(cfg, front), actions[|actions| - 1]);
      }
    }
  }

  /** A client that only adds on Changed and deletes on Removed holds exactly
      the visible MACs and the tracked interfaces once the queue has drained,
      however marks and takes interleaved with the commits. */
  lemma DrainedMirrorIsExact(cfg: Config, actions: seq<Action>)
    requires AlwaysHonest(cfg, actions)
    requires var s := MirrorExecute(cfg, actions); s.undelivered == {} && s.queue == map[] && s.batch == map[]
    ensures var s := MirrorExecute(cfg, actions);
            && (forall m :: CandidateKey(m) in s.members <==> Visible(s.engine, m).Some?)
            && (forall i :: InterfaceKey(i) in s.members <==> i in s.engine.local.ifaces)
  {
    var s := MirrorExecute(cfg, actions);
    MirrorExact(cfg, actions);
    forall key: Key | !key.LocalStateKey? ensures key in s.members <==> Exists(s.engine, key) {
      assert Right(s, key);
    }
  }
}
