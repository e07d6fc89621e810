/** The mutable tracker: maps and sets updated in place, proved against the
    pure steps of `LocalState`. */
module LocalStateTracking {
  import opened Observations
  import opened LocalState

  /** Dropping one reference per held CIDR. */
  function Release(refs: Refs, cidrs: set<string>): Refs {
    map ip | ip in refs && refs[ip] > Held(cidrs, ip) :: refs[ip] - Held(cidrs, ip)
  }

  lemma HeldOne(cidrs: set<string>, c: string, ip: string)
    requires c !in cidrs && ip != ""
    ensures Held(cidrs + {c}, ip) == Held(cidrs, ip) + (if ip == IpOf(c) then 1 else 0)
  {
    if ip == IpOf(c) {
      assert CidrsWith(cidrs + {c}, ip) == CidrsWith(cidrs, ip) + {c};
    } else {
      assert CidrsWith(cidrs + {c}, ip) == CidrsWith(cidrs, ip);
    }
  }

  lemma ReleaseOne(refs: Refs, cidrs: set<string>, c: string)
    requires c !in cidrs && "" !in refs
    ensures Release(refs, cidrs + {c}) ==
            if IpOf(c) == "" then Release(refs, cidrs) else Dec(Release(refs, cidrs), IpOf(c))
  {
    var lhs := Release(refs, cidrs + {c});
    var rhs := if IpOf(c) == "" then Release(refs, cidrs) else Dec(Release(refs, cidrs), IpOf(c));
    forall ip | ip in refs
      ensures ip in lhs <==> ip in rhs
      ensures ip in lhs ==> lhs[ip] == rhs[ip]
    {
      HeldOne(cidrs, c, ip);
    }
    assert lhs.Keys == rhs.Keys;
  }

  lemma ReleaseBoth(refs: Refs, iface: Iface)
    ensures Release(Release(refs, iface.ipv4), iface.ipv6) == DecIps(refs, iface)
  {
    assert Release(Release(refs, iface.ipv4), iface.ipv6).Keys == DecIps(refs, iface).Keys;
  }

  class LocalStateTracker {
    var ifaces: map<string, Iface>
    var localMacs: set<string>
    var localIps: set<string>
    var macRefs: Refs
    var ipRefs: Refs

    /** The lookup sets are exactly the keys with a positive count. */
    ghost predicate Valid()
      reads this
    {
      && localMacs == macRefs.Keys && "" !in macRefs && (forall m :: m in macRefs ==> macRefs[m] > 0)
      && localIps == ipRefs.Keys && "" !in ipRefs && (forall ip :: ip in ipRefs ==> ipRefs[ip] > 0)
    }

    function State(): Local
      reads this
    {
      Local(ifaces, macRefs, ipRefs)
    }

    constructor ()
      ensures Valid() && State() == EMPTY
    {
      ifaces, localMacs, localIps, macRefs, ipRefs := map[], {}, {}, map[], map[];
    }

    method IncrementMac(mac: string)
      requires Valid()
      modifies this`macRefs, this`localMacs
      ensures Valid() && macRefs == IncMac(old(macRefs), mac)
    {
      if mac == "" {
        return;
      }
      macRefs := macRefs[mac := Count(macRefs, mac) + 1];
      if macRefs[mac] == 1 {
        localMacs := localMacs + {mac};
      }
    }

    method DecrementMac(mac: string)
      requires Valid()
      modifies this`macRefs, this`localMacs
      ensures Valid() && macRefs == DecMac(old(macRefs), mac)
    {
      if mac == "" || mac !in macRefs {
        return;
      }
      if macRefs[mac] == 1 {
        macRefs := macRefs - {mac};
        localMacs := localMacs - {mac};
      } else {
        macRefs := macRefs[mac := macRefs[mac] - 1];
      }
    }

    method IncrementIp(ip: string)
      requires Valid() && ip != ""
      modifies this`ipRefs, this`localIps
      ensures Valid() && ipRefs == Inc(old(ipRefs), ip)
    {
      ipRefs := ipRefs[ip := Count(ipRefs, ip) + 1];
      if ipRefs[ip] == 1 {
        localIps := localIps + {ip};
      }
    }

    method DecrementIp(ip: string)
      requires Valid()
      modifies this`ipRefs, this`localIps
      ensures Valid() && ipRefs == Dec(old(ipRefs), ip)
    {
      if ip !in ipRefs {
        return;
      }
      if ipRefs[ip] == 1 {
        ipRefs := ipRefs - {ip};
        localIps := localIps - {ip};
      } else {
        ipRefs := ipRefs[ip := ipRefs[ip] - 1];
      }
    }

    method ReleaseAddresses(cidrs: set<string>)
      requires Valid()
      modifies this`ipRefs, this`localIps
      ensures Valid() && ipRefs == Release(old(ipRefs), cidrs)
    {
      ghost var before := ipRefs;
      ghost var done := {};
      var todo := cidrs;
      assert forall ip :: CidrsWith({}, ip) == {};
      assert ipRefs == Release(before, done);
      while todo != {}
        invariant Valid() && todo !! done && todo + done == cidrs
        invariant ipRefs == Release(before, done)
        decreases todo
      {
        var cidr :| cidr in todo;
        ReleaseOne(before, done, cidr);
        if IpOf(cidr) != "" {
          DecrementIp(IpOf(cidr));
        }
        todo, done := todo - {cidr}, done + {cidr};
      }
      assert done == cidrs;
    }

    method RemoveInterface(ifname: string)
      requires Valid() && ifname in ifaces
      modifies this
      ensures Valid() && ifaces == old(ifaces) - {ifname}
      ensures macRefs == DecMac(old(macRefs), old(ifaces)[ifname].mac)
      ensures ipRefs == DecIps(old(ipRefs), old(ifaces)[ifname])
    {
      var iface := ifaces[ifname];
      DecrementMac(iface.mac);
      ReleaseAddresses(iface.ipv4);
      ReleaseAddresses(iface.ipv6);
      ReleaseBoth(old(ipRefs), iface);
      ifaces := ifaces - {ifname};
    }

    method OnLinkObservation(obs: LinkObservation) returns (changed: bool)
      requires Valid()
      modifies this
      ensures Valid()
      ensures State() == LinkStep(old(State()), obs)
      ensures changed == LinkReportsChange(old(State()), obs)
    {
      if obs.event.Removed? {
        if obs.ifname !in ifaces {
          return false;
        }
        RemoveInterface(obs.ifname);
        return true;
      }
      var iface := IfaceOf(State(), obs.ifname);
      var isNew := iface.ifname == "";
      var oldMac := iface.mac;
      iface := iface.(ifindex := obs.ifindex, ifname := obs.ifname,
      adminUp := obs.adminUp, running := obs.running,
      operstate := obs.operstate, masterIfname := obs.masterIfname);
      if isNew {
        iface := iface.(mac := obs.mac);
        IncrementMac(obs.mac);
      } else if oldMac != obs.mac {
        DecrementMac(oldMac);
        iface := iface.(mac := obs.mac);
        IncrementMac(obs.mac);
      }
      ifaces := ifaces[obs.ifname := iface];
      changed := oldMac != obs.mac;
    }

    method OnAddressObservation(obs: AddressObservation) returns (changed: bool)
      requires Valid()
      modifies this
      ensures Valid()
      ensures State() == AddressStep(old(State()), obs)
      ensures changed == AddressReportsChange(old(State()), obs)
    {
      var iface := IfaceOf(State(), obs.ifname);
      ifaces := ifaces[obs.ifname := iface];
      var ip := IpOf(obs.cidr);
      if ip == "" {
        return false;
      }
      var held := FamilySet(iface, obs.family);
      if obs.event.Present? {
        if obs.cidr !in held {
          ifaces := ifaces[obs.ifname := WithFamilySet(iface, obs.family, held + {obs.cidr})];
          IncrementIp(ip);
          return true;
        }
        assert held + {obs.cidr} == held;
      } else {
        if obs.cidr in held {
          ifaces := ifaces[obs.ifname := WithFamilySet(iface, obs.family, held - {obs.cidr})];
          DecrementIp(ip);
          return true;
        }
        assert held - {obs.cidr} == held;
      }
      return false;
    }

    method IsLocalMac(mac: string) returns (r: bool)
      requires Valid()
      ensures r == (mac in State().macRefs)
    {
      r := mac in localMacs;
    }

    method IsLocalIp(ip: string) returns (r: bool)
      requires Valid()
      ensures r == (ip in State().ipRefs)
    {
      r := ip in localIps;
    }

    method Clear()
      modifies this
      ensures Valid() && State() == EMPTY
    {
      ifaces, localMacs, localIps, macRefs, ipRefs := map[], {}, {}, map[], map[];
    }
  }
}
