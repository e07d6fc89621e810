/** The per-interface LLDP neighbour cache with its generation counter. */
module LldpCache {
  import opened Common
  import opened Observations
  import opened LldpIdentity

  datatype Entry = Entry(chassisId: Option<string>, portId: Option<string>, systemName: Option<string>)

  /** interface -> resolved identity -> entry */
  type CacheMap = map<string, map<string, Entry>>

  type Pair = (string, string)

  datatype Cache = Cache(byInterface: CacheMap, generation: nat)

  const EMPTY_CACHE: Cache := Cache(map[], 0)

  function Inner(m: CacheMap, ifname: string): map<string, Entry> {
    if ifname in m then m[ifname] else map[]
  }

  function Identity(e: Entry): string {
    Resolve(e.chassisId, e.portId)
  }

  function Applied(c: Cache, obs: LldpObservation): Cache {
    var key := Resolve(obs.chassisId, obs.portId);
    if key == "" then c
    else
      var inner := Inner(c.byInterface, obs.localIfname);
      var inner' :=
        if obs.event.Removed? then inner - {key}
        else inner[key := Entry(obs.chassisId, obs.portId, obs.systemName)];
      Cache(c.byInterface[obs.localIfname := inner'], c.generation + 1)
  }

  function Flushed(c: Cache, ifname: string): Cache {
    if ifname !in c.byInterface then c else Cache(c.byInterface - {ifname}, c.generation + 1)
  }

  function Exchanged(c: Cache, replacement: CacheMap): Cache {
    Cache(replacement, c.generation + 1)
  }

  function Cleared(c: Cache): Cache {
    if c.byInterface == map[] then c else Cache(map[], c.generation + 1)
  }

  function Pairs(m: CacheMap): set<Pair> {
    set i, k | i in m && k in m[i] :: (i, k)
  }

  /** Every entry sits under the identity its own ids resolve to. */
  ghost predicate Keyed(m: CacheMap) {
    forall i, k :: i in m && k in m[i] ==> k != "" && Identity(m[i][k]) == k
  }

  // ---------------------------------------------------------------------
  // Generation
  // ---------------------------------------------------------------------

  datatype CacheOp = ApplyOp(obs: LldpObservation) | FlushOp(ifname: string) | ExchangeOp(replacement: CacheMap) | ClearOp

  function CacheStep(c: Cache, op: CacheOp): Cache {
    match op
    case ApplyOp(obs) => Applied(c, obs)
    case FlushOp(ifname) => Flushed(c, ifname)
    case ExchangeOp(replacement) => Exchanged(c, replacement)
    case ClearOp => Cleared(c)
  }

  function History(c: Cache, ops: seq<CacheOp>): Cache {
    if ops == [] then c else CacheStep(History(c, ops[..|ops| - 1]), ops[|ops| - 1])
  }

  lemma StepMovesGeneration(c: Cache, op: CacheOp)
    ensures CacheStep(c, op) == c || CacheStep(c, op).generation > c.generation
  {
  }

  /** Over any history the generation never falls, and two moments with equal
      generations have equal contents: comparing generations is as good as
      comparing caches. */
  lemma {:induction false} EqualGenerationsEqualContents(c: Cache, ops: seq<CacheOp>, k: nat)
    requires k <= |ops|
    ensures var early, late := History(c, ops[..k]), History(c, ops);
            early.generation <= late.generation && (early.generation == late.generation ==> early == late)
  {
    if k == |ops| {
      assert ops[..k] == ops;
    } else {
      var front := ops[..|ops| - 1];
      EqualGenerationsEqualContents(c, front, k);
      assert front[..k] == ops[..k];
      StepMovesGeneration(History(c, front), ops[|ops| - 1]);
    }
  }

  lemma {:induction false} AlwaysKeyed(ops: seq<CacheOp>)
    requires forall k :: 0 <= k < |ops| && ops[k].ExchangeOp? ==> Keyed(ops[k].replacement)
    ensures Keyed(History(EMPTY_CACHE, ops).byInterface)
  {
    if ops != [] {
      AlwaysKeyed(ops[..|ops| - 1]);
      assert ops[|ops| - 1].ExchangeOp? ==> Keyed(ops[|ops| - 1].replacement);
    }
  }

  // ---------------------------------------------------------------------
  // Contents
  // ---------------------------------------------------------------------

  function EntryAt(m: CacheMap, i: string, k: string): Option<Entry> {
    if i in m && k in m[i] then Some(m[i][k]) else None
  }

  /** The last word of a history on one identity of one interface. */
  function LastWord(start: CacheMap, ops: seq<CacheOp>, i: string, k: string): Option<Entry> {
    if ops == [] then EntryAt(start, i, k)
    else
      match ops[|ops| - 1]
      case ApplyOp(obs) =>
        if obs.localIfname != i || Resolve(obs.chassisId, obs.portId) != k || k == "" then LastWord(start, ops[..|ops| - 1], i, k)
        else if obs.event.Present? then Some(Entry(obs.chassisId, obs.portId, obs.systemName))
        else None
      case FlushOp(ifname) => if ifname == i then None else LastWord(start, ops[..|ops| - 1], i, k)
      case ExchangeOp(replacement) => EntryAt(replacement, i, k)
      case ClearOp => None
  }

  lemma {:induction false} ContentsAreLastWord(c: Cache, ops: seq<CacheOp>, i: string, k: string)
    ensures EntryAt(History(c, ops).byInterface, i, k) == LastWord(c.byInterface, ops, i, k)
  {
    if ops != [] {
      ContentsAreLastWord(c, ops[..|ops| - 1], i, k);
    }
  }

  /** When the generation moves: by one for every cacheable observation and
      every exchange, and for a flush or clear exactly if it changes the contents. */
  lemma GenerationMoves(c: Cache, op: CacheOp)
    ensures var c' := CacheStep(c, op);
            c'.generation == c.generation +
                             (match op
                              case ApplyOp(obs) => if Resolve(obs.chassisId, obs.portId) == "" then 0 else 1
                              case ExchangeOp(_) => 1
                              case _ => if c'.byInterface == c.byInterface then 0 else 1)
  {
    if op.FlushOp? {
      assert op.ifname !in CacheStep(c, op).byInterface;
    }
  }

  // ---------------------------------------------------------------------
  // The reconcile diff
  // ---------------------------------------------------------------------

  predicate ReSeen(current: CacheMap, i: string, k: string) {
    i in current && k in current[i]
  }

  type RemovedEntries = seq<(string, Entry)>

  ghost predicate Distinct(ps: seq<Pair>) {
    forall a, b :: 0 <= a < b < |ps| ==> ps[a] != ps[b]
  }

  ghost predicate LostPair(oldCache: CacheMap, current: CacheMap, p: Pair) {
    p in Pairs(oldCache) && p !in Pairs(current)
  }

  /** `removed` lists the old entries of `pairs`, in that order. */
  ghost predicate Lists(oldCache: CacheMap, removed: RemovedEntries, pairs: seq<Pair>) {
    |pairs| == |removed| &&
    forall n :: 0 <= n < |pairs| ==>
                  pairs[n] in Pairs(oldCache) && removed[n] == (pairs[n].0, oldCache[pairs[n].0][pairs[n].1])
  }

  method DiffRemovedOn(ifname: string, oldCache: CacheMap, current: CacheMap) returns (removed: RemovedEntries, ghost pairs: seq<Pair>)
    requires ifname in oldCache
    ensures Lists(oldCache, removed, pairs) && Distinct(pairs)
    ensures forall p :: p in pairs <==> p.0 == ifname && LostPair(oldCache, current, p)
    ensures forall x :: x in removed ==> x.0 == ifname
  {
    removed, pairs := [], [];
    var neighbors := oldCache[ifname];
    var todo := neighbors.Keys;
    while todo != {}
      invariant todo <= neighbors.Keys
      invariant Lists(oldCache, removed, pairs) && Distinct(pairs)
      invariant forall p :: p in pairs <==> p.0 == ifname && LostPair(oldCache, current, p) && p.1 !in todo
      decreases todo
    {
      var k :| k in todo;
      if !ReSeen(current, ifname, k) {
        removed, pairs := removed + [(ifname, neighbors[k])], pairs + [(ifname, k)];
      }
      todo := todo - {k};
    }
  }

  /** The entry was cached on its interface and has not been seen again. */
  ghost predicate Vanished(oldCache: CacheMap, current: CacheMap, x: (string, Entry)) {
    exists k :: LostPair(oldCache, current, (x.0, k)) && oldCache[x.0][k] == x.1
  }

  lemma {:induction false} DistinctCount(ps: seq<Pair>, all: set<Pair>)
    requires Distinct(ps) && forall p :: p in ps <==> p in all
    ensures |all| == |ps|
  {
    if ps == [] {
      assert all == {};
    } else {
      var front, last := ps[..|ps| - 1], ps[|ps| - 1];
      assert ps == front + [last];
      DistinctCount(front, all - {last});
    }
  }

  /** One entry per lost pair: exactly what vanished, and nothing twice. */
  lemma ListsVanished(oldCache: CacheMap, current: CacheMap, removed: RemovedEntries, pairs: seq<Pair>)
    requires Lists(oldCache, removed, pairs) && Distinct(pairs)
    requires forall p :: p in pairs <==> LostPair(oldCache, current, p)
    ensures forall x :: x in removed <==> Vanished(oldCache, current, x)
    ensures |removed| == |Pairs(oldCache) - Pairs(current)|
  {
    DistinctCount(pairs, Pairs(oldCache) - Pairs(current));
    forall x ensures x in removed <==> Vanished(oldCache, current, x) {
      ListedOnce(oldCache, current, removed, pairs, x);
    }
  }

  lemma ListedOnce(oldCache: CacheMap, current: CacheMap, removed: RemovedEntries, pairs: seq<Pair>, x: (string, Entry))
    requires Lists(oldCache, removed, pairs)
    requires forall p :: p in pairs <==> LostPair(oldCache, current, p)
    ensures x in removed <==> Vanished(oldCache, current, x)
  {
    if Vanished(oldCache, current, x) {
      var k :| LostPair(oldCache, current, (x.0, k)) && oldCache[x.0][k] == x.1;
      var n :| 0 <= n < |pairs| && pairs[n] == (x.0, k);
      assert removed[n] == x;
    }
    if x in removed {
      var n :| 0 <= n < |removed| && removed[n] == x;
      assert pairs[n] in pairs && pairs[n] == (x.0, pairs[n].1);
    }
  }

  lemma ListsJoin(oldCache: CacheMap, r1: RemovedEntries, p1: seq<Pair>, r2: RemovedEntries, p2: seq<Pair>)
    requires Lists(oldCache, r1, p1) && Lists(oldCache, r2, p2) && Distinct(p1) && Distinct(p2)
    requires forall p :: p in p1 ==> p !in p2
    ensures Lists(oldCache, r1 + r2, p1 + p2) && Distinct(p1 + p2)
  {
    var ps := p1 + p2;
    forall a, b | 0 <= a < b < |ps| ensures ps[a] != ps[b] {
      assert a < |p1| ==> ps[a] == p1[a] && ps[a] in p1;
      assert b >= |p1| ==> ps[b] == p2[b - |p1|] && ps[b] in p2;
    }
  }

  /** Each pair of the old cache that the current one does not hold appears
      exactly once, with its old entry; a re-seen neighbour never appears. */
  method DiffRemovedNeighbors(oldCache: CacheMap, current: CacheMap) returns (removed: RemovedEntries, ghost pairs: seq<Pair>)
    ensures Lists(oldCache, removed, pairs) && Distinct(pairs)
    ensures forall p :: p in pairs <==> LostPair(oldCache, current, p)
    ensures forall x :: x in removed <==> Vanished(oldCache, current, x)
    ensures |removed| == |Pairs(oldCache) - Pairs(current)|
  {
    removed, pairs := [], [];
    var todo := oldCache.Keys;
    while todo != {}
      invariant todo <= oldCache.Keys
      invariant Lists(oldCache, removed, pairs) && Distinct(pairs)
      invariant forall p :: p in pairs <==> LostPair(oldCache, current, p) && p.0 !in todo
      decreases todo
    {
      var ifname :| ifname in todo;
      var part, more := DiffRemovedOn(ifname, oldCache, current);
      ListsJoin(oldCache, removed, pairs, part, more);
      removed, pairs := removed + part, pairs + more;
      todo := todo - {ifname};
    }
    ListsVanished(oldCache, current, removed, pairs);
  }

  // ---------------------------------------------------------------------
  // The mutable cache
  // ---------------------------------------------------------------------

  class LldpNeighborCache {
    var byInterface: CacheMap
    var generation: nat

    function State(): Cache
      reads this
    {
      Cache(byInterface, generation)
    }

    constructor ()
      ensures State() == EMPTY_CACHE
    {
      byInterface, generation := map[], 0;
    }

    method Apply(obs: LldpObservation) returns (cacheable: bool)
      modifies this
      ensures State() == Applied(old(State()), obs)
      ensures cacheable <==> Resolve(obs.chassisId, obs.portId) != ""
      ensures old(Keyed(byInterface)) ==> Keyed(byInterface)
    {
      var key := Resolve(obs.chassisId, obs.portId);
      if key == "" {
        return false;
      }
      var inner := if obs.localIfname in byInterface then byInterface[obs.localIfname] else map[];
      if obs.event.Removed? {
        inner := inner - {key};
      } else {
        inner := inner[key := Entry(obs.chassisId, obs.portId, obs.systemName)];
      }
      byInterface := byInterface[obs.localIfname := inner];
      generation := generation + 1;
      return true;
    }

    /** The flushed entries are returned, each once, for the caller to deliver. */
    method FlushInterface(ifname: string) returns (removed: map<string, Entry>)
      modifies this
      ensures State() == Flushed(old(State()), ifname)
      ensures removed == Inner(old(byInterface), ifname)
    {
      if ifname !in byInterface {
        return map[];
      }
      removed := byInterface[ifname];
      byInterface := byInterface - {ifname};
      generation := generation + 1;
    }

    method Exchange(replacement: CacheMap) returns (previous: CacheMap)
      modifies this
      ensures State() == Exchanged(old(State()), replacement) && previous == old(byInterface)
    {
      previous := byInterface;
      byInterface := replacement;
      generation := generation + 1;
    }

    method Clear()
      modifies this
      ensures State() == Cleared(old(State()))
    {
      if byInterface == map[] {
        return;
      }
      byInterface, generation := map[], generation + 1;
    }

    method Snapshot() returns (contents: CacheMap, stamp: nat)
      ensures Cache(contents, stamp) == State()
    {
      contents, stamp := byInterface, generation;
    }
  }
}
