/** Deduplication and MAC aggregation of the raw netlink stream. */
module Netlink {
  import opened Common
  import opened Observations

  type Byte = n: nat | n < 256

  datatype LinkEvent = LinkEvent(
    ifindex: int, ifname: string, mac: string, adminUp: bool, running: bool, operState: Byte,
    masterIfindex: Option<int>, masterIfname: Option<string>, present: bool)

  datatype IpEvent = IpEvent(ifname: string, family: int, address: string, prefixLen: Byte, present: bool)

  datatype FdbEvent = FdbEvent(ifname: string, mac: string, present: bool, isLocal: bool, permanent: bool)

  datatype NeighborEvent = NeighborEvent(
    ifname: string, mac: string, family: nat, ip: string, nudState: nat, present: bool)

  datatype DeviceEvent = DeviceEvent(
    ifname: string, mac: string, ipv4: set<string>, ipv6: set<string>, present: bool)

  datatype AddressKey = AddressKey(ifname: string, family: int, address: string, prefixLen: Byte)

  datatype Aggregate = Aggregate(fdb: Option<FdbEvent>, ipv4: set<string>, ipv6: set<string>)

  const NO_AGGREGATE: Aggregate := Aggregate(None, {}, {})

  datatype Tables = Tables(
    links: map<string, LinkEvent>, addresses: set<AddressKey>,
    fdb: map<string, FdbEvent>, neighbors: map<string, NeighborEvent>,
    aggregates: map<string, Aggregate>, devices: map<string, DeviceEvent>)

  const NO_TABLES: Tables := Tables(map[], {}, map[], map[], map[], map[])

  // ---------------------------------------------------------------------
  // Links and addresses
  // ---------------------------------------------------------------------

  function AddressesOn(addresses: set<AddressKey>, ifname: string): set<AddressKey> {
    set k | k in addresses && k.ifname == ifname
  }

  function LinkUpdated(t: Tables, ev: LinkEvent): Tables {
    if !ev.present then
      t.(links := t.links - {ev.ifname}, addresses := t.addresses - AddressesOn(t.addresses, ev.ifname))
    else t.(links := t.links[ev.ifname := ev])
  }

  predicate LinkPasses(t: Tables, ev: LinkEvent) {
    if !ev.present then ev.ifname in t.links || AddressesOn(t.addresses, ev.ifname) != {}
    else ev.ifname !in t.links || t.links[ev.ifname] != ev
  }

  function KeyOf(ev: IpEvent): AddressKey {
    AddressKey(ev.ifname, ev.family, ev.address, ev.prefixLen)
  }

  function AddressUpdated(t: Tables, ev: IpEvent): Tables {
    t.(addresses := if ev.present then t.addresses + {KeyOf(ev)} else t.addresses - {KeyOf(ev)})
  }

  predicate AddressPasses(t: Tables, ev: IpEvent) {
    ev.present <==> KeyOf(ev) !in t.addresses
  }

  // ---------------------------------------------------------------------
  // FDB, neighbours and the merged device table
  // ---------------------------------------------------------------------

  function NeighborKeyText(ifname: string, mac: string, family: nat, ip: string): string {
    ifname + ['|'] + mac + ['|'] + Decimal(family) + ['|'] + ip
  }

  function TextOf(ev: NeighborEvent): string {
    NeighborKeyText(ev.ifname, ev.mac, ev.family, ev.ip)
  }

  function Merged(mac: string, agg: Aggregate): DeviceEvent {
    DeviceEvent(if agg.fdb.Some? then agg.fdb.value.ifname else "", mac, agg.ipv4, agg.ipv6,
                agg.fdb.Some? && agg.fdb.value.present)
  }

  predicate HasAnyInfo(d: DeviceEvent) {
    d.present || d.ipv4 != {} || d.ipv6 != {} || d.ifname != ""
  }

  function Gone(d: DeviceEvent): DeviceEvent {
    DeviceEvent(d.ifname, d.mac, {}, {}, false)
  }

  /** Recompute one MAC's merged device from its aggregate. */
  function Refreshed(t: Tables, mac: string): (Tables, Option<DeviceEvent>) {
    if mac !in t.aggregates || !HasAnyInfo(Merged(mac, t.aggregates[mac])) then
      (t.(aggregates := t.aggregates - {mac}, devices := t.devices - {mac}),
       if mac in t.devices then Some(Gone(t.devices[mac])) else None)
    else
      var d := Merged(mac, t.aggregates[mac]);
      (t.(devices := t.devices[mac := d]),
       if mac in t.devices && t.devices[mac] == d then None else Some(d))
  }

  function AggregateOf(t: Tables, mac: string): Aggregate {
    if mac in t.aggregates then t.aggregates[mac] else NO_AGGREGATE
  }

  function FdbStored(t: Tables, ev: FdbEvent): Tables {
    t.(fdb := if ev.present then t.fdb[ev.mac := ev] else t.fdb - {ev.mac},
    aggregates := t.aggregates[ev.mac := AggregateOf(t, ev.mac).(fdb := if ev.present then Some(ev) else None)])
  }

  function FdbUpdated(t: Tables, ev: FdbEvent): (Tables, Option<DeviceEvent>) {
    Refreshed(FdbStored(t, ev), ev.mac)
  }

  predicate FdbPasses(t: Tables, ev: FdbEvent) {
    ev.mac !in t.fdb || t.fdb[ev.mac] != ev
  }

  function WithIp(agg: Aggregate, ev: NeighborEvent): Aggregate {
    if ev.family == AF_INET then agg.(ipv4 := if ev.present then agg.ipv4 + {ev.ip} else agg.ipv4 - {ev.ip})
    else if ev.family == AF_INET6 then agg.(ipv6 := if ev.present then agg.ipv6 + {ev.ip} else agg.ipv6 - {ev.ip})
    else agg
  }

  function NeighborStored(t: Tables, ev: NeighborEvent): Tables {
    t.(neighbors := if ev.present then t.neighbors[TextOf(ev) := ev] else t.neighbors - {TextOf(ev)},
    aggregates := t.aggregates[ev.mac := WithIp(AggregateOf(t, ev.mac), ev)])
  }

  function NeighborUpdated(t: Tables, ev: NeighborEvent): (Tables, Option<DeviceEvent>) {
    Refreshed(NeighborStored(t, ev), ev.mac)
  }

  predicate NeighborPasses(t: Tables, ev: NeighborEvent) {
    if ev.present then TextOf(ev) !in t.neighbors || t.neighbors[TextOf(ev)] != ev
    else TextOf(ev) in t.neighbors
  }

  // ---------------------------------------------------------------------
  // The device index agrees with its parts
  // ---------------------------------------------------------------------

  /** A MAC's aggregate as far as it is stored elsewhere. */
  ghost predicate AggregateOk(t: Tables, m: string) {
    && (m in t.fdb <==> m in t.aggregates && t.aggregates[m].fdb.Some?)
    && (m in t.fdb ==> t.aggregates[m].fdb == Some(t.fdb[m]) && t.fdb[m].present && t.fdb[m].mac == m)
  }

  ghost predicate IpsBacked(t: Tables, m: string) {
    m in t.aggregates ==>
      && (forall ip :: ip in t.aggregates[m].ipv4 ==> Backed(t, m, AF_INET, ip))
      && (forall ip :: ip in t.aggregates[m].ipv6 ==> Backed(t, m, AF_INET6, ip))
  }

  ghost predicate Backed(t: Tables, m: string, family: nat, ip: string) {
    exists ifname :: NeighborKeyText(ifname, m, family, ip) in t.neighbors &&
                     SameNeighbor(t.neighbors[NeighborKeyText(ifname, m, family, ip)], ifname, m, family, ip)
  }

  predicate SameNeighbor(ev: NeighborEvent, ifname: string, m: string, family: nat, ip: string) {
    ev.present && ev.ifname == ifname && ev.mac == m && ev.family == family && ev.ip == ip
  }

  ghost predicate DeviceOk(t: Tables, m: string) {
    (m in t.devices <==> m in t.aggregates) &&
    (m in t.aggregates ==> t.devices[m] == Merged(m, t.aggregates[m]) && HasAnyInfo(t.devices[m]))
  }

  ghost predicate IndexOk(t: Tables) {
    forall m :: DeviceOk(t, m) && AggregateOk(t, m) && IpsBacked(t, m)
  }

  /** MACs and IPs are formatted without the key separator. */
  predicate PlainText(ev: NeighborEvent) {
    '|' !in ev.mac && '|' !in ev.ip
  }

  lemma NeighborKeyInjective(i1: string, m1: string, f1: nat, p1: string, i2: string, m2: string, f2: nat, p2: string)
    requires NeighborKeyText(i1, m1, f1, p1) == NeighborKeyText(i2, m2, f2, p2)
    requires '|' !in m1 && '|' !in p1 && '|' !in m2 && '|' !in p2
    ensures i1 == i2 && m1 == m2 && f1 == f2 && p1 == p2
  {
    JoinInjective(i1 + ['|'] + m1 + ['|'] + Decimal(f1), p1, i2 + ['|'] + m2 + ['|'] + Decimal(f2), p2, '|');
    JoinInjective(i1 + ['|'] + m1, Decimal(f1), i2 + ['|'] + m2, Decimal(f2), '|');
    JoinInjective(i1, m1, i2, m2, '|');
    DecimalInjective(f1, f2);
  }

  /** Stored neighbours are plain text too, so their keys cannot clash. */
  ghost predicate NeighborsPlain(t: Tables) {
    forall k :: k in t.neighbors ==> PlainText(t.neighbors[k])
  }

  lemma BackedKept(t: Tables, ev: NeighborEvent, m: string, family: nat, ip: string)
    requires PlainText(ev) && NeighborsPlain(t)
    requires Backed(t, m, family, ip)
    requires ev.present || (m, family, ip) != (ev.mac, ev.family, ev.ip)
    ensures Backed(NeighborStored(t, ev), m, family, ip)
  {
    var ifname :| NeighborKeyText(ifname, m, family, ip) in t.neighbors &&
                  SameNeighbor(t.neighbors[NeighborKeyText(ifname, m, family, ip)], ifname, m, family, ip);
    var k := NeighborKeyText(ifname, m, family, ip);
    assert PlainText(t.neighbors[k]);
    if k == TextOf(ev) {
      NeighborKeyInjective(ifname, m, family, ip, ev.ifname, ev.mac, ev.family, ev.ip);
    }
    assert SameNeighbor(NeighborStored(t, ev).neighbors[k], ifname, m, family, ip);
  }

  lemma NeighborBacks(t: Tables, ev: NeighborEvent, m: string)
    requires PlainText(ev) && NeighborsPlain(t) && IpsBacked(t, m)
    ensures IpsBacked(NeighborStored(t, ev), m)
  {
    var t' := NeighborStored(t, ev);
    if m in t'.aggregates {
      forall ip | ip in t'.aggregates[m].ipv4 ensures Backed(t', m, AF_INET, ip) {
        if m in t.aggregates && ip in t.aggregates[m].ipv4 {
          BackedKept(t, ev, m, AF_INET, ip);
        } else {
          assert SameNeighbor(t'.neighbors[TextOf(ev)], ev.ifname, m, AF_INET, ip);
        }
      }
      forall ip | ip in t'.aggregates[m].ipv6 ensures Backed(t', m, AF_INET6, ip) {
        if m in t.aggregates && ip in t.aggregates[m].ipv6 {
          BackedKept(t, ev, m, AF_INET6, ip);
        } else {
          assert SameNeighbor(t'.neighbors[TextOf(ev)], ev.ifname, m, AF_INET6, ip);
        }
      }
    }
  }

  lemma BackedFrame(t: Tables, t': Tables, m: string)
    requires IpsBacked(t, m) && t'.neighbors == t.neighbors
    requires m in t'.aggregates ==>
               t'.aggregates[m].ipv4 <= AggregateOf(t, m).ipv4 && t'.aggregates[m].ipv6 <= AggregateOf(t, m).ipv6
    ensures IpsBacked(t', m)
  {
    if m in t'.aggregates {
      forall ip | ip in t'.aggregates[m].ipv4 ensures Backed(t', m, AF_INET, ip) {
        assert Backed(t, m, AF_INET, ip);
      }
      forall ip | ip in t'.aggregates[m].ipv6 ensures Backed(t', m, AF_INET6, ip) {
        assert Backed(t, m, AF_INET6, ip);
      }
    }
  }

  /** Replaying emitted device events: an absent device without addresses is erased. */
  function Folded(table: map<string, DeviceEvent>, emitted: Option<DeviceEvent>): map<string, DeviceEvent> {
    if emitted.None? then table
    else if !emitted.value.present && emitted.value.ipv4 == {} && emitted.value.ipv6 == {} then table - {emitted.value.mac}
    else table[emitted.value.mac := emitted.value]
  }

  lemma RefreshRestores(t: Tables, mac: string)
    requires forall m :: AggregateOk(t, m) && IpsBacked(t, m) && (m != mac ==> DeviceOk(t, m))
    requires mac in t.devices ==> t.devices[mac].mac == mac
    ensures IndexOk(Refreshed(t, mac).0)
    ensures Refreshed(t, mac).0.devices == Folded(t.devices, Refreshed(t, mac).1)
    ensures Refreshed(t, mac).0.neighbors == t.neighbors
  {
    var t' := Refreshed(t, mac).0;
    forall m ensures DeviceOk(t', m) && AggregateOk(t', m) && IpsBacked(t', m) {
      assert AggregateOk(t, m) && IpsBacked(t, m) && (m != mac ==> DeviceOk(t, m));
      BackedFrame(t, t', m);
    }
    assert AggregateOk(t, mac);
  }

  lemma FdbKeepsIndex(t: Tables, ev: FdbEvent)
    requires IndexOk(t)
    ensures IndexOk(FdbUpdated(t, ev).0)
    ensures FdbUpdated(t, ev).0.devices == Folded(t.devices, FdbUpdated(t, ev).1)
  {
    var t1 := FdbStored(t, ev);
    forall m ensures AggregateOk(t1, m) && IpsBacked(t1, m) && (m != ev.mac ==> DeviceOk(t1, m)) {
      assert DeviceOk(t, m) && AggregateOk(t, m) && IpsBacked(t, m);
      BackedFrame(t, t1, m);
    }
    assert DeviceOk(t, ev.mac);
    RefreshRestores(t1, ev.mac);
  }

  lemma NeighborKeepsIndex(t: Tables, ev: NeighborEvent)
    requires IndexOk(t) && NeighborsPlain(t) && PlainText(ev)
    ensures IndexOk(NeighborUpdated(t, ev).0) && NeighborsPlain(NeighborUpdated(t, ev).0)
    ensures NeighborUpdated(t, ev).0.devices == Folded(t.devices, NeighborUpdated(t, ev).1)
  {
    var t1 := NeighborStored(t, ev);
    forall m ensures AggregateOk(t1, m) && IpsBacked(t1, m) && (m != ev.mac ==> DeviceOk(t1, m)) {
      assert DeviceOk(t, m) && AggregateOk(t, m) && IpsBacked(t, m);
      NeighborBacks(t, ev, m);
    }
    assert DeviceOk(t, ev.mac);
    RefreshRestores(t1, ev.mac);
  }

  // ---------------------------------------------------------------------
  // Whole runs
  // ---------------------------------------------------------------------

  datatype Raw =
    | RawLink(link: LinkEvent)
    | RawAddress(addr: IpEvent)
    | RawFdb(fdb: FdbEvent)
    | RawNeighbor(neigh: NeighborEvent)
    | RawClear                         // `clear()`, also called by a live redump

  function Update(t: Tables, ev: Raw): (Tables, Option<DeviceEvent>) {
    match ev
    case RawLink(l) => (LinkUpdated(t, l), None)
    case RawAddress(a) => (AddressUpdated(t, a), None)
    case RawFdb(f) => FdbUpdated(t, f)
    case RawNeighbor(n) => NeighborUpdated(t, n)
    case RawClear => (NO_TABLES, None)
  }

  function After(evs: seq<Raw>): Tables {
    if evs == [] then NO_TABLES else Update(After(evs[..|evs| - 1]), evs[|evs| - 1]).0
  }

  /** The device table a listener rebuilds from the emitted events alone. */
  function Rebuilt(evs: seq<Raw>): map<string, DeviceEvent> {
    if evs == [] then map[]
    else Folded(Rebuilt(evs[..|evs| - 1]), Update(After(evs[..|evs| - 1]), evs[|evs| - 1]).1)
  }

  /** A clear that drops listed devices: it emits no events. */
  predicate Forgets(t: Tables, ev: Raw) {
    ev.RawClear? && t.devices != map[]
  }

  /** The step keeps the index; its event accounts for the whole change of the
      device table if and only if it does not forget devices; and it emits
      nothing when there is no change. */
  lemma UpdateKeepsIndex(t: Tables, ev: Raw)
    requires IndexOk(t) && NeighborsPlain(t) && (ev.RawNeighbor? ==> PlainText(ev.neigh))
    ensures IndexOk(Update(t, ev).0) && NeighborsPlain(Update(t, ev).0)
    ensures Update(t, ev).0.devices == Folded(t.devices, Update(t, ev).1) <==> !Forgets(t, ev)
    ensures !ev.RawClear? ==> (Update(t, ev).1.None? <==> Update(t, ev).0.devices == t.devices)
    ensures Update(t, ev).1.Some? ==>
              var d, after := Update(t, ev).1.value, Update(t, ev).0.devices;
              if d.mac in after then d == after[d.mac]
              else d.mac in t.devices && d == DeviceEvent(t.devices[d.mac].ifname, d.mac, {}, {}, false)
  {
    match ev
    case RawFdb(f) => FdbKeepsIndex(t, f);
    case RawNeighbor(n) => NeighborKeepsIndex(t, n);
    case RawClear =>
    case _ =>
      var t' := Update(t, ev).0;
      forall m ensures DeviceOk(t', m) && AggregateOk(t', m) && IpsBacked(t', m) {
        assert DeviceOk(t, m) && AggregateOk(t, m) && IpsBacked(t, m);
        BackedFrame(t, t', m);
      }
  }

  predicate AllPlain(evs: seq<Raw>) {
    forall k :: 0 <= k < |evs| && evs[k].RawNeighbor? ==> PlainText(evs[k].neigh)
  }

  /** No clear of the stream hits a non-empty device table. */
  predicate NeverForgets(evs: seq<Raw>) {
    evs != [] ==> NeverForgets(evs[..|evs| - 1]) && !Forgets(After(evs[..|evs| - 1]), evs[|evs| - 1])
  }

  /** The listener is right after the stream and after each of its prefixes. */
  predicate AlwaysRebuilt(evs: seq<Raw>) {
    Rebuilt(evs) == After(evs).devices && (evs != [] ==> AlwaysRebuilt(evs[..|evs| - 1]))
  }

  lemma {:induction false} DeviceIndexAgrees(evs: seq<Raw>)
    requires AllPlain(evs)
    ensures IndexOk(After(evs)) && NeighborsPlain(After(evs))
    ensures AlwaysRebuilt(evs) <==> NeverForgets(evs)
    ensures (forall k :: 0 <= k < |evs| ==> !evs[k].RawClear?) ==> NeverForgets(evs)
  {
    if evs != [] {
      var front, last := evs[..|evs| - 1], evs[|evs| - 1];
      assert last.RawNeighbor? ==> PlainText(last.neigh);
      DeviceIndexAgrees(front);
      UpdateKeepsIndex(After(front), last);
    }
  }

  /** The last word of the raw stream, since its last clear, on a neighbour's
      address, whichever interface it came from. */
  function LastSaid(evs: seq<Raw>, m: string, family: int, ip: string): bool {
    if evs == [] then false
    else
      var last := evs[|evs| - 1];
      if last.RawNeighbor? && last.neigh.mac == m && last.neigh.family == family && last.neigh.ip == ip
      then last.neigh.present
      else if last.RawClear? then false
      else LastSaid(evs[..|evs| - 1], m, family, ip)
  }

  /** The last word of the raw stream, since its last clear, on a MAC's FDB entry. */
  function LastFdb(evs: seq<Raw>, m: string): (r: Option<FdbEvent>)
    ensures r.Some? ==> r.value.present && r.value.mac == m
  {
    if evs == [] then None
    else
      var last := evs[|evs| - 1];
      if last.RawFdb? && last.fdb.mac == m then (if last.fdb.present then Some(last.fdb) else None)
      else if last.RawClear? then None
      else LastFdb(evs[..|evs| - 1], m)
  }

  /** Refreshing drops an aggregate only when it says nothing. */
  lemma RefreshKeepsAggregates(t: Tables, mac: string, m: string)
    requires AggregateOf(t, mac).fdb.Some? ==> AggregateOf(t, mac).fdb.value.present
    ensures AggregateOf(Refreshed(t, mac).0, m) == AggregateOf(t, m)
  {
  }

  function ToldAggregate(agg: Aggregate, ev: Raw, m: string): Aggregate {
    match ev
    case RawFdb(f) => if f.mac == m then agg.(fdb := if f.present then Some(f) else None) else agg
    case RawNeighbor(n) => if n.mac == m then WithIp(agg, n) else agg
    case RawClear => NO_AGGREGATE
    case _ => agg
  }

  lemma UpdateAggregate(t: Tables, ev: Raw, m: string)
    requires forall x :: AggregateOf(t, x).fdb.Some? ==> AggregateOf(t, x).fdb.value.present
    ensures AggregateOf(Update(t, ev).0, m) == ToldAggregate(AggregateOf(t, m), ev, m)
  {
    match ev
    case RawFdb(f) =>
      assert AggregateOf(t, f.mac).fdb.Some? ==> AggregateOf(t, f.mac).fdb.value.present;
      RefreshKeepsAggregates(FdbStored(t, f), f.mac, m);
    case RawNeighbor(n) =>
      assert AggregateOf(t, n.mac).fdb.Some? ==> AggregateOf(t, n.mac).fdb.value.present;
      RefreshKeepsAggregates(NeighborStored(t, n), n.mac, m);
    case _ =>
  }

  lemma {:induction false} AggregateIsLastWord(evs: seq<Raw>, m: string)
    ensures var agg := AggregateOf(After(evs), m);
            && agg.fdb == LastFdb(evs, m)
            && (forall ip :: ip in agg.ipv4 <==> LastSaid(evs, m, AF_INET, ip))
            && (forall ip :: ip in agg.ipv6 <==> LastSaid(evs, m, AF_INET6, ip))
  {
    if evs != [] {
      var front := evs[..|evs| - 1];
      forall x ensures AggregateOf(After(front), x).fdb.Some? ==> AggregateOf(After(front), x).fdb.value.present {
        AggregateIsLastWord(front, x);
      }
      AggregateIsLastWord(front, m);
      UpdateAggregate(After(front), evs[|evs| - 1], m);
    }
  }

  /** What a listener reads in the device table after any stream: a device is
      present, on that port, exactly when the last FDB word on its MAC says so;
      it has exactly the addresses last announced for it; it is listed exactly
      when one of these holds. */
  lemma DeviceTableMeaning(evs: seq<Raw>, m: string)
    requires AllPlain(evs)
    ensures var devices := After(evs).devices;
            var d := if m in devices then devices[m] else DeviceEvent("", m, {}, {}, false);
            && d.mac == m
            && (d.present <==> LastFdb(evs, m).Some?)
            && d.ifname == (if LastFdb(evs, m).Some? then LastFdb(evs, m).value.ifname else "")
            && (forall ip :: ip in d.ipv4 <==> LastSaid(evs, m, AF_INET, ip))
            && (forall ip :: ip in d.ipv6 <==> LastSaid(evs, m, AF_INET6, ip))
            && (m in devices <==> d.present || d.ipv4 != {} || d.ipv6 != {})
  {
    var t := After(evs);
    DeviceIndexAgrees(evs);
    AggregateIsLastWord(evs, m);
    assert DeviceOk(t, m) && AggregateOk(t, m);
  }

  // ---------------------------------------------------------------------
  // The FDB and neighbour filter
  // ---------------------------------------------------------------------

  /** What is standing for a neighbour key since the last clear. */
  function Standing(evs: seq<Raw>, i: string, m: string, family: nat, ip: string): Option<NeighborEvent> {
    if evs == [] then None
    else
      var last := evs[|evs| - 1];
      if last.RawClear? then None
      else if last.RawNeighbor? && About(last.neigh, i, m, family, ip) then (if last.neigh.present then Some(last.neigh) else None)
      else Standing(evs[..|evs| - 1], i, m, family, ip)
  }

  predicate About(n: NeighborEvent, i: string, m: string, family: nat, ip: string) {
    n.ifname == i && n.mac == m && n.family == family && n.ip == ip
  }

  function Found<K, V>(table: map<K, V>, key: K): Option<V> {
    if key in table then Some(table[key]) else None
  }

  lemma {:induction false} FdbTableStands(evs: seq<Raw>, m: string)
    ensures Found(After(evs).fdb, m) == LastFdb(evs, m)
  {
    if evs != [] {
      FdbTableStands(evs[..|evs| - 1], m);
    }
  }

  lemma NeighborTableStep(t: Tables, n: NeighborEvent, i: string, m: string, family: nat, ip: string)
    requires PlainText(n) && '|' !in m && '|' !in ip
    ensures Found(NeighborUpdated(t, n).0.neighbors, NeighborKeyText(i, m, family, ip)) ==
            if !About(n, i, m, family, ip) then Found(t.neighbors, NeighborKeyText(i, m, family, ip))
            else if n.present then Some(n) else None
  {
    if TextOf(n) == NeighborKeyText(i, m, family, ip) {
      NeighborKeyInjective(n.ifname, n.mac, n.family, n.ip, i, m, family, ip);
    }
  }

  lemma {:induction false} NeighborTableStands(evs: seq<Raw>, i: string, m: string, family: nat, ip: string)
    requires AllPlain(evs) && '|' !in m && '|' !in ip
    ensures Found(After(evs).neighbors, NeighborKeyText(i, m, family, ip)) == Standing(evs, i, m, family, ip)
  {
    if evs != [] {
      var last := evs[|evs| - 1];
      NeighborTableStands(evs[..|evs| - 1], i, m, family, ip);
      if last.RawNeighbor? {
        assert PlainText(last.neigh);
        NeighborTableStep(After(evs[..|evs| - 1]), last.neigh, i, m, family, ip);
      }
    }
  }

  /** The filter's verdicts in terms of the raw stream: an FDB event is blocked
      exactly when the last one on its MAC since the last clear was the same
      announcement, a neighbour announcement likewise for its key, a neighbour
      withdrawal exactly when no announcement is standing. */
  lemma BlockedExactly(evs: seq<Raw>, f: FdbEvent, n: NeighborEvent)
    requires AllPlain(evs) && PlainText(n)
    ensures !FdbPasses(After(evs), f) <==> f.present && LastFdb(evs, f.mac) == Some(f)
    ensures !NeighborPasses(After(evs), n) <==>
            Standing(evs, n.ifname, n.mac, n.family, n.ip) == if n.present then Some(n) else None
  {
    FdbTableStands(evs, f.mac);
    NeighborTableStands(evs, n.ifname, n.mac, n.family, n.ip);
  }

  predicate NewsPasses(t: Tables, ev: Raw) {
    match ev
    case RawFdb(f) => FdbPasses(t, f)
    case RawNeighbor(n) => NeighborPasses(t, n)
    case _ => false
  }

  /** The FDB and neighbour events that reach the engine. */
  function PassedNews(evs: seq<Raw>): seq<Raw> {
    if evs == [] then []
    else if NewsPasses(After(evs[..|evs| - 1]), evs[|evs| - 1]) then PassedNews(evs[..|evs| - 1]) + [evs[|evs| - 1]]
    else PassedNews(evs[..|evs| - 1])
  }

  /** A stream as seen by someone who does not hear of clears. */
  function Unclear(evs: seq<Raw>): seq<Raw> {
    if evs == [] then []
    else if evs[|evs| - 1].RawClear? then Unclear(evs[..|evs| - 1])
    else Unclear(evs[..|evs| - 1]) + [evs[|evs| - 1]]
  }

  lemma Snoc(evs: seq<Raw>, ev: Raw, i: string, m: string, family: nat, ip: string)
    ensures LastFdb(evs + [ev], m) ==
            if ev.RawFdb? && ev.fdb.mac == m then (if ev.fdb.present then Some(ev.fdb) else None)
            else if ev.RawClear? then None else LastFdb(evs, m)
    ensures Standing(evs + [ev], i, m, family, ip) ==
            if ev.RawClear? then None
            else if ev.RawNeighbor? && About(ev.neigh, i, m, family, ip) then (if ev.neigh.present then Some(ev.neigh) else None)
            else Standing(evs, i, m, family, ip)
  {
    assert (evs + [ev])[..|evs|] == evs;
  }

  /** What stands since the last clear stands without the clear, too. */
  lemma {:induction false} StandsUnclear(evs: seq<Raw>, i: string, m: string, family: nat, ip: string)
    ensures LastFdb(evs, m).Some? ==> LastFdb(Unclear(evs), m) == LastFdb(evs, m)
    ensures Standing(evs, i, m, family, ip).Some? ==> Standing(Unclear(evs), i, m, family, ip) == Standing(evs, i, m, family, ip)
  {
    if evs != [] {
      StandsUnclear(evs[..|evs| - 1], i, m, family, ip);
      Snoc(Unclear(evs[..|evs| - 1]), evs[|evs| - 1], i, m, family, ip);
    }
  }

  /** The engine's FDB evidence loses nothing to the filter, clears included:
      the last passed word on a MAC is the last word on it. */
  lemma {:induction false} FdbFilterInvisible(evs: seq<Raw>, m: string)
    ensures LastFdb(PassedNews(evs), m) == LastFdb(Unclear(evs), m)
  {
    if evs != [] {
      var front, last := evs[..|evs| - 1], evs[|evs| - 1];
      FdbFilterInvisible(front, m);
      Snoc(PassedNews(front), last, "", m, 0, "");
      Snoc(Unclear(front), last, "", m, 0, "");
      StandsUnclear(front, "", m, 0, "");
      FdbTableStands(front, m);
    }
  }

  /** The withdrawal of a neighbour that was announced before a clear and not since. */
  predicate HidesWithdrawal(evs: seq<Raw>, ev: Raw) {
    && ev.RawNeighbor? && !ev.neigh.present
    && Standing(evs, ev.neigh.ifname, ev.neigh.mac, ev.neigh.family, ev.neigh.ip).None?
    && Standing(Unclear(evs), ev.neigh.ifname, ev.neigh.mac, ev.neigh.family, ev.neigh.ip).Some?
  }

  predicate NeverHidesWithdrawal(evs: seq<Raw>) {
    evs != [] ==> NeverHidesWithdrawal(evs[..|evs| - 1]) && !HidesWithdrawal(evs[..|evs| - 1], evs[|evs| - 1])
  }

  /** The last passed word on every (plain) neighbour key is the last word on it. */
  ghost predicate NeighborsAgree(evs: seq<Raw>) {
    forall i, m: string, family: nat, ip: string :: '|' !in m && '|' !in ip ==>
      Standing(PassedNews(evs), i, m, family, ip) == Standing(Unclear(evs), i, m, family, ip)
  }

  ghost predicate AlwaysNeighborsAgree(evs: seq<Raw>) {
    NeighborsAgree(evs) && (evs != [] ==> AlwaysNeighborsAgree(evs[..|evs| - 1]))
  }

  lemma NeighborNews(evs: seq<Raw>, ev: Raw, i: string, m: string, family: nat, ip: string)
    requires AllPlain(evs + [ev]) && '|' !in m && '|' !in ip
    requires Standing(PassedNews(evs), i, m, family, ip) == Standing(Unclear(evs), i, m, family, ip)
    ensures Standing(PassedNews(evs + [ev]), i, m, family, ip) == Standing(Unclear(evs + [ev]), i, m, family, ip) <==>
            !(HidesWithdrawal(evs, ev) && About(ev.neigh, i, m, family, ip))
  {
    assert (evs + [ev])[..|evs|] == evs && (evs + [ev])[|evs|] == ev;
    assert AllPlain(evs) by {
      assert forall k :: 0 <= k < |evs| ==> (evs + [ev])[k] == evs[k];
    }
    Snoc(PassedNews(evs), ev, i, m, family, ip);
    Snoc(Unclear(evs), ev, i, m, family, ip);
    StandsUnclear(evs, i, m, family, ip);
    if ev.RawNeighbor? {
      BlockedExactly(evs, FdbEvent("", "", false, false, false), ev.neigh);
    }
  }

  /** So does the engine's neighbour evidence, after every prefix of a stream,
      if and only if no clear makes the filter block a withdrawal. */
  lemma {:induction false} NeighborFilterExact(evs: seq<Raw>)
    requires AllPlain(evs)
    ensures NeverHidesWithdrawal(evs) <==> AlwaysNeighborsAgree(evs)
  {
    if evs != [] {
      var front, last := evs[..|evs| - 1], evs[|evs| - 1];
      assert evs == front + [last];
      NeighborFilterExact(front);
      if NeighborsAgree(front) {
        forall i, m: string, family: nat, ip: string | '|' !in m && '|' !in ip
          ensures Standing(PassedNews(evs), i, m, family, ip) == Standing(Unclear(evs), i, m, family, ip) <==>
                  !(HidesWithdrawal(front, last) && About(last.neigh, i, m, family, ip))
        {
          NeighborNews(front, last, i, m, family, ip);
        }
        if HidesWithdrawal(front, last) {
          assert PlainText(last.neigh) && About(last.neigh, last.neigh.ifname, last.neigh.mac, last.neigh.family, last.neigh.ip);
          assert !NeighborsAgree(evs);
        }
      }
    }
  }
}
