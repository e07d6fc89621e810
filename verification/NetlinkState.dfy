/** The mutable netlink state: six tables changed in place, proved against the
    steps of `Netlink`. The returned event is what passes the filter, the
    device event is what the callback receives. */
module NetlinkTables {
  import opened Common
  import opened Observations
  import opened Netlink

  class NetlinkState {
    var links: map<string, LinkEvent>
    var addresses: set<AddressKey>
    var fdb: map<string, FdbEvent>
    var neighbors: map<string, NeighborEvent>
    var aggregates: map<string, Aggregate>
    var devices: map<string, DeviceEvent>

    ghost function State(): Tables
      reads this
    {
      Tables(links, addresses, fdb, neighbors, aggregates, devices)
    }

    constructor ()
      ensures State() == NO_TABLES
    {
      links, addresses, fdb, neighbors, aggregates, devices := map[], {}, map[], map[], map[], map[];
    }

    method EraseAddresses(ifname: string) returns (removed: nat)
      modifies this`addresses
      ensures addresses == old(addresses) - AddressesOn(old(addresses), ifname)
      ensures removed > 0 <==> AddressesOn(old(addresses), ifname) != {}
    {
      var todo := addresses;
      removed := 0;
      while todo != {}
        invariant todo <= old(addresses)
        invariant addresses == old(addresses) - AddressesOn(old(addresses) - todo, ifname)
        invariant removed > 0 <==> AddressesOn(old(addresses) - todo, ifname) != {}
        decreases todo
      {
        var k :| k in todo;
        if k.ifname == ifname {
          assert k in AddressesOn(old(addresses) - (todo - {k}), ifname);
          addresses := addresses - {k};
          removed := removed + 1;
        } else {
          assert AddressesOn(old(addresses) - (todo - {k}), ifname) == AddressesOn(old(addresses) - todo, ifname);
        }
        todo := todo - {k};
      }
      assert old(addresses) - {} == old(addresses);
    }

    method UpdateLink(ev: LinkEvent) returns (passed: Option<LinkEvent>)
      modifies this
      ensures State() == LinkUpdated(old(State()), ev)
      ensures passed == if LinkPasses(old(State()), ev) then Some(ev) else None
    {
      if !ev.present {
        var hadLink := ev.ifname in links;
        links := links - {ev.ifname};
        var removed := EraseAddresses(ev.ifname);
        return if hadLink || removed > 0 then Some(ev) else None;
      }
      var changed := ev.ifname !in links || links[ev.ifname] != ev;
      links := links[ev.ifname := ev];
      passed := if changed then Some(ev) else None;
    }

    method UpdateAddress(ev: IpEvent) returns (passed: Option<IpEvent>)
      modifies this`addresses
      ensures State() == AddressUpdated(old(State()), ev)
      ensures passed == if AddressPasses(old(State()), ev) then Some(ev) else None
    {
      var key := AddressKey(ev.ifname, ev.family, ev.address, ev.prefixLen);
      var changed := false;
      if !ev.present {
        if key in addresses {
          addresses := addresses - {key};
          changed := true;
        }
      } else {
        changed := key !in addresses;
        addresses := addresses + {key};
      }
      passed := if changed then Some(ev) else None;
    }

    method RefreshMergedDevice(mac: string) returns (emitted: Option<DeviceEvent>)
      modifies this`aggregates, this`devices
      ensures (State(), emitted) == Refreshed(old(State()), mac)
    {
      var merged := Merged(mac, if mac in aggregates then aggregates[mac] else NO_AGGREGATE);
      if mac !in aggregates || !HasAnyInfo(merged) {
        aggregates := aggregates - {mac};
        if mac in devices {
          emitted := Some(DeviceEvent(devices[mac].ifname, devices[mac].mac, {}, {}, false));
          devices := devices - {mac};
        } else {
          emitted := None;
          assert devices - {mac} == devices;
        }
        return;
      }
      var changed := mac !in devices || devices[mac] != merged;
      devices := devices[mac := merged];
      emitted := if changed then Some(merged) else None;
    }

    method UpdateFdb(ev: FdbEvent) returns (passed: Option<FdbEvent>, emitted: Option<DeviceEvent>)
      modifies this`fdb, this`aggregates, this`devices
      ensures (State(), emitted) == FdbUpdated(old(State()), ev)
      ensures passed == if FdbPasses(old(State()), ev) then Some(ev) else None
    {
      var changed := ev.mac !in fdb || fdb[ev.mac] != ev;
      var agg := if ev.mac in aggregates then aggregates[ev.mac] else NO_AGGREGATE;
      if !ev.present {
        fdb := fdb - {ev.mac};
        agg := agg.(fdb := None);
      } else {
        fdb := fdb[ev.mac := ev];
        agg := agg.(fdb := Some(ev));
      }
      aggregates := aggregates[ev.mac := agg];
      passed := if changed then Some(ev) else None;
      emitted := RefreshMergedDevice(ev.mac);
    }

    method UpdateNeighbor(ev: NeighborEvent) returns (passed: Option<NeighborEvent>, emitted: Option<DeviceEvent>)
      modifies this`neighbors, this`aggregates, this`devices
      ensures (State(), emitted) == NeighborUpdated(old(State()), ev)
      ensures passed == if NeighborPasses(old(State()), ev) then Some(ev) else None
    {
      var key := TextOf(ev);
      var changed := false;
      var agg := if ev.mac in aggregates then aggregates[ev.mac] else NO_AGGREGATE;
      if !ev.present {
        changed := key in neighbors;
        neighbors := neighbors - {key};
        if ev.family == AF_INET {
          agg := agg.(ipv4 := agg.ipv4 - {ev.ip});
        } else if ev.family == AF_INET6 {
          agg := agg.(ipv6 := agg.ipv6 - {ev.ip});
        }
      } else {
        changed := key !in neighbors || neighbors[key] != ev;
        neighbors := neighbors[key := ev];
        if ev.family == AF_INET {
          agg := agg.(ipv4 := agg.ipv4 + {ev.ip});
        } else if ev.family == AF_INET6 {
          agg := agg.(ipv6 := agg.ipv6 + {ev.ip});
        }
      }
      aggregates := aggregates[ev.mac := agg];
      passed := if changed then Some(ev) else None;
      emitted := RefreshMergedDevice(ev.mac);
    }

    method Clear()
      modifies this
      ensures State() == NO_TABLES
    {
      links, addresses, fdb, neighbors, aggregates, devices := map[], {}, map[], map[], map[], map[];
    }
  }
}
