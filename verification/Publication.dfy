/** The coalescing publication queue between the model and the transports. */
module Publication {
  import opened Common
  import opened EngineModel

  datatype Intent = Changed | Removed

  /** Constructor order is emission order: interfaces, local state, candidates. */
  datatype Key = InterfaceKey(ifname: string) | LocalStateKey | CandidateKey(mac: string)

  type PendingPublication = map<Key, Intent>

  datatype ModelEvent = Local(notice: Notice) | CandidateUpdated(mac: string) | CandidateRemoved(mac: string)

  /** Everything one commit hands to the sink. */
  function EventsOf(p: Pending): set<ModelEvent> {
    (if p.notice.Some? then {Local(p.notice.value)} else {}) +
    (set m | m in p.changed :: CandidateUpdated(m)) +
    (set m | m in p.removed :: CandidateRemoved(m))
  }

  /** What marking an event makes of the pending map; the last writer of a key wins. */
  function Marked(dirty: PendingPublication, event: ModelEvent): PendingPublication {
    match event
    case Local(InterfaceChanged(i)) => dirty[InterfaceKey(i) := Changed][LocalStateKey := Changed]
    case Local(AddressChanged(i)) => dirty[InterfaceKey(i) := Changed][LocalStateKey := Changed]
    case Local(InterfaceRemoved(i)) => dirty[InterfaceKey(i) := Intent.Removed][LocalStateKey := Changed]
    case CandidateUpdated(m) => dirty[CandidateKey(m) := Changed]
    case CandidateRemoved(m) => dirty[CandidateKey(m) := Intent.Removed]
  }

  /** The keys about which an event is news. */
  function KeysOf(event: ModelEvent): set<Key> {
    match event
    case Local(notice) => {InterfaceKey(notice.ifname), LocalStateKey}
    case CandidateUpdated(m) => {CandidateKey(m)}
    case CandidateRemoved(m) => {CandidateKey(m)}
  }

  /** What it says about them: local state and everything that still exists is
      to be queried again, what is gone is to be dropped. */
  function Says(event: ModelEvent, key: Key): Intent {
    if key.LocalStateKey? then Changed
    else if event.CandidateRemoved? || (event.Local? && event.notice.InterfaceRemoved?) then Intent.Removed
    else Changed
  }

  /** Marking records exactly what the event says, over whatever was pending
      about those keys, and nothing else. */
  lemma MarkedMeaning(dirty: PendingPublication, event: ModelEvent, key: Key)
    ensures key in Marked(dirty, event) <==> key in KeysOf(event) || key in dirty
    ensures key in KeysOf(event) ==> Marked(dirty, event)[key] == Says(event, key)
    ensures key !in KeysOf(event) && key in dirty ==> Marked(dirty, event)[key] == dirty[key]
  {
  }

  class PublicationQueue {
    var dirty: PendingPublication
    var closed: bool

    constructor ()
      ensures dirty == map[] && !closed
    {
      dirty, closed := map[], false;
    }

    /** A closed queue discards every mark. */
    method Mark(key: Key, intent: Intent) returns (accepted: bool)
      modifies this`dirty
      ensures accepted == !closed
      ensures dirty == if closed then old(dirty) else old(dirty)[key := intent]
    {
      if closed {
        return false;
      }
      dirty := dirty[key := intent];
      return true;
    }

    /** Take the whole pending set if there is one; also after close. */
    method TryTake() returns (taken: Option<PendingPublication>)
      modifies this`dirty
      ensures taken == if old(dirty) == map[] then None else Some(old(dirty))
      ensures dirty == map[]
    {
      if dirty == map[] {
        return None;
      }
      taken := Some(dirty);
      dirty := map[];
    }

    method Close()
      modifies this`closed
      ensures closed
    {
      closed := true;
    }

    method Reopen()
      modifies this
      ensures dirty == map[] && !closed
    {
      dirty, closed := map[], false;
    }
  }

  class ObservationService {
    const queue: PublicationQueue

    constructor ()
      ensures fresh(queue) && queue.dirty == map[] && !queue.closed
    {
      queue := new PublicationQueue();
    }

    /** The model's sink: marks, never publishes. */
    method OnModelEvent(event: ModelEvent)
      modifies queue
      ensures queue.closed == old(queue.closed)
      ensures queue.dirty == if old(queue.closed) then old(queue.dirty) else Marked(old(queue.dirty), event)
    {
      match event
      case Local(notice) =>
        var intent := if notice.InterfaceRemoved? then Intent.Removed else Changed;
        var _ := queue.Mark(InterfaceKey(notice.ifname), intent);
        var _ := queue.Mark(LocalStateKey, Changed);
      case CandidateUpdated(mac) =>
        var _ := queue.Mark(CandidateKey(mac), Changed);
      case CandidateRemoved(mac) =>
        var _ := queue.Mark(CandidateKey(mac), Intent.Removed);
    }
  }

  // ---------------------------------------------------------------------
  // Emission order
  // ---------------------------------------------------------------------

  predicate TextLess(a: string, b: string) {
    if b == "" then false
    else if a == "" then true
    else a[0] < b[0] || (a[0] == b[0] && TextLess(a[1..], b[1..]))
  }

  predicate KeyLess(a: Key, b: Key) {
    match (a, b)
    case (InterfaceKey(i), InterfaceKey(j)) => TextLess(i, j)
    case (InterfaceKey(_), _) => true
    case (LocalStateKey, CandidateKey(_)) => true
    case (CandidateKey(m), CandidateKey(n)) => TextLess(m, n)
    case _ => false
  }

  lemma {:induction false} TextLessTotal(a: string, b: string)
    ensures TextLess(a, b) || a == b || TextLess(b, a)
  {
    if a != "" && b != "" && a[0] == b[0] {
      TextLessTotal(a[1..], b[1..]);
      if a[1..] == b[1..] {
        assert a == [a[0]] + a[1..] == b;
      }
    }
  }

  lemma {:induction false} TextLessTransitive(a: string, b: string, c: string)
    requires TextLess(a, b) && TextLess(b, c)
    ensures TextLess(a, c)
  {
    if a != "" && a[0] == b[0] == c[0] {
      TextLessTransitive(a[1..], b[1..], c[1..]);
    }
  }

  lemma {:induction false} TextLessStrict(a: string)
    ensures !TextLess(a, a)
  {
    if a != "" {
      TextLessStrict(a[1..]);
    }
  }

  /** Within a kind the order is that of the text. */
  lemma {:induction false} TextLessMeaning(common: string, a: string, b: string)
    requires b != "" && (a == "" || a[0] < b[0])
    ensures TextLess(common + a, common + b)
  {
    if common != "" {
      TextLessMeaning(common[1..], a, b);
      assert (common + a)[1..] == common[1..] + a && (common + b)[1..] == common[1..] + b;
    }
  }

  function Rank(k: Key): nat {
    match k
    case InterfaceKey(_) => 0
    case LocalStateKey => 1
    case CandidateKey(_) => 2
  }

  lemma KeyOrder(a: Key, b: Key, c: Key)
    ensures KeyLess(a, b) || a == b || KeyLess(b, a)
    ensures KeyLess(a, b) && KeyLess(b, c) ==> KeyLess(a, c)
    ensures !KeyLess(a, a) && (Rank(a) < Rank(b) ==> KeyLess(a, b))
  {
    if a.InterfaceKey? {
      TextLessStrict(a.ifname);
    } else if a.CandidateKey? {
      TextLessStrict(a.mac);
    }
    match (a, b) {
      case (InterfaceKey(i), InterfaceKey(j)) => TextLessTotal(i, j);
      case (CandidateKey(m), CandidateKey(n)) => TextLessTotal(m, n);
      case _ =>
    }
    if KeyLess(a, b) && KeyLess(b, c) {
      match (a, b, c) {
        case (InterfaceKey(i), InterfaceKey(j), InterfaceKey(k)) => TextLessTransitive(i, j, k);
        case (CandidateKey(m), CandidateKey(n), CandidateKey(o)) => TextLessTransitive(m, n, o);
        case _ =>
      }
    }
  }

  method LeastKey(keys: set<Key>) returns (least: Key)
    requires keys != {}
    ensures least in keys && forall k :: k in keys && k != least ==> KeyLess(least, k)
  {
    least :| least in keys;
    var todo := keys - {least};
    while todo != {}
      invariant todo <= keys && least in keys
      invariant forall k :: k in keys - todo && k != least ==> KeyLess(least, k)
      decreases todo
    {
      var k :| k in todo;
      KeyOrder(k, least, least);
      if KeyLess(k, least) {
        forall j | j in keys - todo && j != least ensures KeyLess(k, j) {
          KeyOrder(k, least, j);
        }
        least := k;
      }
      todo := todo - {k};
    }
  }

  lemma LessRanked(a: Key, b: Key)
    requires KeyLess(a, b)
    ensures Rank(a) <= Rank(b)
  {
    KeyOrder(a, b, a);
    KeyOrder(b, a, b);
  }

  /** One call per pending key, each with its intent, interfaces first, then
      local state, then candidates, sorted within each kind. */
  method DispatchPublication(pending: PendingPublication) returns (calls: seq<(Key, Intent)>)
    ensures forall i, j :: 0 <= i < j < |calls| ==> KeyLess(calls[i].0, calls[j].0) && Rank(calls[i].0) <= Rank(calls[j].0)
    ensures forall c :: c in calls <==> c.0 in pending && pending[c.0] == c.1
  {
    calls := [];
    var todo := pending.Keys;
    while todo != {}
      invariant todo <= pending.Keys
      invariant forall i, j :: 0 <= i < j < |calls| ==> KeyLess(calls[i].0, calls[j].0)
      invariant forall i, k :: 0 <= i < |calls| && k in todo ==> KeyLess(calls[i].0, k)
      invariant forall c :: c in calls <==> c.0 in pending && c.0 !in todo && pending[c.0] == c.1
      decreases todo
    {
      var k := LeastKey(todo);
      calls := calls + [(k, pending[k])];
      todo := todo - {k};
    }
    forall i, j | 0 <= i < j < |calls| ensures Rank(calls[i].0) <= Rank(calls[j].0) {
      LessRanked(calls[i].0, calls[j].0);
    }
  }
}
