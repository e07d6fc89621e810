/** Concrete runs showing that the conditions of the main results are needed. */
module Witnesses {
  import opened Common
  import opened Observations
  import opened LocalState
  import opened LldpIdentity
  import opened EngineModel
  import Netlink
  import Dedup

  const MAC: string := "02:00:00:00:00:01"

  const OPEN: Config := Config(_ => true, _ => true, _ => true, _ => true, _ => true, (_, _) => true, 60, 300)

  lemma MacResolves()
    ensures MacLike(MAC) && Normalized(MAC) == MAC && Resolve(Some(MAC), None) == MAC
  {
    assert |MAC| == 17;
    assert MAC[0] == '0' && MAC[1] == '2' && MAC[2] == ':' && MAC[3] == '0' && MAC[4] == '0' && MAC[5] == ':';
    assert MAC[6] == '0' && MAC[7] == '0' && MAC[8] == ':' && MAC[9] == '0' && MAC[10] == '0' && MAC[11] == ':';
    assert MAC[12] == '0' && MAC[13] == '0' && MAC[14] == ':' && MAC[15] == '0' && MAC[16] == '1';
    forall i | 0 <= i < |MAC| ensures MacCharOk(MAC, i) && Lower(MAC[i]) == MAC[i] {}
  }

  const ANNOUNCED: LldpObservation := LldpObservation("eth1", Present, Some(MAC), None, None, false, 1)

  /** An LLDP announcement that names a local MAC makes that MAC visible. */
  lemma LldpSurfacesLocalMac()
    ensures var up := LinkObservation(2, "eth0", MAC, true, true, "6", None, Present);
            var e := Step(OPEN, NEW_ENGINE, LinkOp(up)).engine;
            var live := Step(OPEN, e, MarkLiveOp).engine;
            var after := Step(OPEN, live, LldpOp(ANNOUNCED, 1)).engine;
            MAC in after.local.macRefs && Visible(after, MAC).Some?
  {
    MacResolves();
    var up := LinkObservation(2, "eth0", MAC, true, true, "6", None, Present);
    var e := Step(OPEN, NEW_ENGINE, LinkOp(up)).engine;
    assert MAC in e.local.macRefs && MAC !in e.candidates;
  }

  /** A link removal that carries the MAC of a visible neighbour reports that
      neighbour as removed although it stays visible. */
  lemma RemovedLinkReportsVisibleNeighbour()
    ensures var live := Step(OPEN, NEW_ENGINE, MarkLiveOp).engine;
            var seen := Step(OPEN, live, FdbOp(FdbObservation("eth1", Present, MAC, FdbDynamic, 1), 1)).engine;
            var up := LinkObservation(2, "eth0", "02:00:00:00:00:02", true, true, "6", None, Present);
            var e := Step(OPEN, seen, LinkOp(up)).engine;
            var o := Step(OPEN, e, LinkOp(up.(mac := MAC, event := Event.Removed)));
            MAC in o.pending.removed && Visible(o.engine, MAC).Some?
  {
    var live := Step(OPEN, NEW_ENGINE, MarkLiveOp).engine;
    var seen := Step(OPEN, live, FdbOp(FdbObservation("eth1", Present, MAC, FdbDynamic, 1), 1)).engine;
    assert FdbKey("eth1", MAC) in seen.candidates[MAC].fdbEvidence;
    var up := LinkObservation(2, "eth0", "02:00:00:00:00:02", true, true, "6", None, Present);
    var e := Step(OPEN, seen, LinkOp(up)).engine;
    assert up.mac[16] != MAC[16];
    assert e.candidates == seen.candidates && "eth0" in e.local.ifaces && MAC !in e.local.macRefs;
  }

  /** A keepalive during initialization resurrects an identity that a restart
      carried over and a new engine does not know. */
  lemma EarlyKeepaliveResurrects(e: Engine)
    requires MAC in e.candidates && e.candidates[MAC].mac == MAC
    ensures var keepalive := LldpOp(ANNOUNCED.(keepalive := true), 2);
            var restarted := Step(OPEN, Step(OPEN, RestartOn(e).engine, keepalive).engine, MarkLiveOp).engine;
            var brandNew := Step(OPEN, Step(OPEN, NEW_ENGINE, keepalive).engine, MarkLiveOp).engine;
            Visible(restarted, MAC).Some? && Visible(brandNew, MAC).None?
  {
    MacResolves();
  }

  /** With a third address family the filter is not invisible: two keys share
      one CIDR, and re-announcing the address reaches only an unfiltered tracker. */
  lemma ThirdFamilyDiverges(address: string)
    requires address != "" && '/' !in address
    ensures var six := Netlink.IpEvent("eth0", AF_INET6, address, 64, true);
            var other := six.(family := 7);
            var t := Netlink.AddressUpdated(Netlink.AddressUpdated(Netlink.AddressUpdated(Netlink.NO_TABLES, six), other), other.(present := false));
            var l := AddressStep(AddressStep(AddressStep(EMPTY, Dedup.ToAddressObservation(six)), Dedup.ToAddressObservation(other)),
                                 Dedup.ToAddressObservation(other.(present := false)));
            !Netlink.AddressPasses(t, six) && address !in l.ipRefs &&
            address in AddressStep(l, Dedup.ToAddressObservation(six)).ipRefs
  {
    IpOfMeaning(address, Decimal(64));
  }
}
