/** Local interface and address state. The interfaces are the source of
    truth; per-MAC and per-IP reference counts are kept beside them so that
    "is this MAC/IP ours?" stays a lookup. */
module LocalState {
  import opened Common
  import opened Observations

  datatype Iface = Iface(
    ifindex: int, ifname: string, mac: string, adminUp: bool, running: bool,
    operstate: string, masterIfname: Option<string>, ipv4: set<string>, ipv6: set<string>)

  /** A default-constructed entry; an address observation can leave one behind. */
  const BLANK: Iface := Iface(0, "", "", false, false, "", None, {}, {})

  type Refs = map<string, int>

  datatype Local = Local(ifaces: map<string, Iface>, macRefs: Refs, ipRefs: Refs)

  const EMPTY: Local := Local(map[], map[], map[])

  // ---------------------------------------------------------------------
  // Pure parts
  // ---------------------------------------------------------------------

  function SlashIndex(s: string): (i: nat)
    ensures i <= |s|
    ensures forall j :: 0 <= j < i ==> s[j] != '/'
    ensures i < |s| ==> s[i] == '/'
  {
    if s == "" || s[0] == '/' then 0 else 1 + SlashIndex(s[1..])
  }

  /** The address part of `address/prefix`; empty when there is no slash. */
  function IpOf(cidr: string): string {
    if SlashIndex(cidr) == |cidr| then "" else cidr[..SlashIndex(cidr)]
  }

  function Count(refs: Refs, k: string): int {
    if k in refs then refs[k] else 0
  }

  function Inc(refs: Refs, k: string): Refs {
    refs[k := Count(refs, k) + 1]
  }

  function Dec(refs: Refs, k: string): Refs {
    if k !in refs then refs
    else if refs[k] == 1 then refs - {k}
    else refs[k := refs[k] - 1]
  }

  /** An empty MAC is never counted. */
  function IncMac(refs: Refs, mac: string): Refs {
    if mac == "" then refs else Inc(refs, mac)
  }

  function DecMac(refs: Refs, mac: string): Refs {
    if mac == "" then refs else Dec(refs, mac)
  }

  function CidrsWith(cidrs: set<string>, ip: string): set<string> {
    set c | c in cidrs && IpOf(c) == ip
  }

  function Held(cidrs: set<string>, ip: string): nat {
    if ip == "" then 0 else |CidrsWith(cidrs, ip)|
  }

  /** How often an interface holds an IP, over both family sets. */
  function Uses(iface: Iface, ip: string): nat {
    Held(iface.ipv4, ip) + Held(iface.ipv6, ip)
  }

  function DecIps(refs: Refs, iface: Iface): Refs {
    map ip | ip in refs && refs[ip] > Uses(iface, ip) :: refs[ip] - Uses(iface, ip)
  }

  function IfaceOf(l: Local, ifname: string): Iface {
    if ifname in l.ifaces then l.ifaces[ifname] else BLANK
  }

  function LinkStep(l: Local, obs: LinkObservation): Local {
    if obs.event.Removed? then
      if obs.ifname !in l.ifaces then l
      else
        var iface := l.ifaces[obs.ifname];
        Local(l.ifaces - {obs.ifname}, DecMac(l.macRefs, iface.mac), DecIps(l.ipRefs, iface))
    else
      var prev := IfaceOf(l, obs.ifname);
      var iface := prev.(ifindex := obs.ifindex, ifname := obs.ifname, mac := obs.mac,
      adminUp := obs.adminUp, running := obs.running,
      operstate := obs.operstate, masterIfname := obs.masterIfname);
      var macRefs :=
        if prev.ifname == "" then IncMac(l.macRefs, obs.mac)
        else if prev.mac != obs.mac then IncMac(DecMac(l.macRefs, prev.mac), obs.mac)
        else l.macRefs;
      Local(l.ifaces[obs.ifname := iface], macRefs, l.ipRefs)
  }

  /** The tracker's return value: did this observation move a MAC? */
  predicate LinkReportsChange(l: Local, obs: LinkObservation) {
    if obs.event.Removed? then obs.ifname in l.ifaces
    else IfaceOf(l, obs.ifname).mac != obs.mac
  }

  function FamilySet(iface: Iface, family: int): set<string> {
    if family == AF_INET then iface.ipv4 else iface.ipv6
  }

  function WithFamilySet(iface: Iface, family: int, s: set<string>): Iface {
    if family == AF_INET then iface.(ipv4 := s) else iface.(ipv6 := s)
  }

  function AddressStep(l: Local, obs: AddressObservation): Local {
    var ip := IpOf(obs.cidr);
    var iface := IfaceOf(l, obs.ifname);
    var held := FamilySet(iface, obs.family);
    if ip == "" then l.(ifaces := l.ifaces[obs.ifname := iface])
    else if obs.event.Present? then
      Local(l.ifaces[obs.ifname := WithFamilySet(iface, obs.family, held + {obs.cidr})], l.macRefs,
            if obs.cidr in held then l.ipRefs else Inc(l.ipRefs, ip))
    else
      Local(l.ifaces[obs.ifname := WithFamilySet(iface, obs.family, held - {obs.cidr})], l.macRefs,
            if obs.cidr in held then Dec(l.ipRefs, ip) else l.ipRefs)
  }

  predicate AddressReportsChange(l: Local, obs: AddressObservation) {
    IpOf(obs.cidr) != "" &&
    (obs.event.Present? <==> obs.cidr !in FamilySet(IfaceOf(l, obs.ifname), obs.family))
  }

  // ---------------------------------------------------------------------
  // What the counts count
  // ---------------------------------------------------------------------

  ghost function MacHolders(ifaces: map<string, Iface>, mac: string): set<string> {
    set i | i in ifaces && ifaces[i].mac == mac
  }

  ghost function Tagged(i: string, v4: bool, cidrs: set<string>): set<(string, bool, string)> {
    set c | c in cidrs :: (i, v4, c)
  }

  /** The (interface, family set, CIDR) entries of one interface with a given IP part. */
  ghost function Slice(ifaces: map<string, Iface>, i: string, ip: string): set<(string, bool, string)>
    requires i in ifaces
  {
    Tagged(i, true, CidrsWith(ifaces[i].ipv4, ip)) + Tagged(i, false, CidrsWith(ifaces[i].ipv6, ip))
  }

  ghost function IpEntries(ifaces: map<string, Iface>, ip: string): set<(string, bool, string)> {
    set i, e | i in ifaces && e in Slice(ifaces, i, ip) :: e
  }

  /** Over-count of a MAC: how far its reference count exceeds the number of
      interfaces that hold it. */
  ghost function Excess(l: Local, mac: string): int {
    Count(l.macRefs, mac) - |MacHolders(l.ifaces, mac)|
  }

  ghost predicate IpExact(l: Local) {
    && "" !in l.ipRefs
    && (forall ip :: ip in l.ipRefs ==> l.ipRefs[ip] > 0)
    && (forall ip :: ip != "" ==> Count(l.ipRefs, ip) == |IpEntries(l.ifaces, ip)|)
  }

  /** Holds in every state the tracker can reach. */
  ghost predicate Sound(l: Local) {
    && IpExact(l)
    && "" !in l.macRefs
    && (forall mac :: mac in l.macRefs ==> l.macRefs[mac] > 0)
    && (forall mac :: mac != "" ==> Excess(l, mac) >= 0)
  }

  /** Every count is exact. */
  ghost predicate Exact(l: Local) {
    Sound(l) && forall mac :: mac != "" ==> Excess(l, mac) == 0
  }

  /** The one observation that miscounts: a nameless interface that already
      holds a MAC looks new each time it is announced. */
  predicate DoubleCounts(l: Local, obs: LinkObservation) {
    obs.event.Present? && IfaceOf(l, obs.ifname).ifname == "" && IfaceOf(l, obs.ifname).mac != ""
  }

  lemma HoldersUpdate(ifaces: map<string, Iface>, i: string, x: Iface, mac: string)
    ensures |MacHolders(ifaces[i := x], mac)| ==
            |MacHolders(ifaces, mac)|
            - (if i in ifaces && ifaces[i].mac == mac then 1 else 0)
            + (if x.mac == mac then 1 else 0)
  {
    var h, h' := MacHolders(ifaces, mac), MacHolders(ifaces[i := x], mac);
    assert h' - {i} == h - {i};
    assert i in h' <==> x.mac == mac;
    assert i in h <==> i in ifaces && ifaces[i].mac == mac;
    assert |h| == |h - {i}| + (if i in h then 1 else 0);
    assert |h'| == |h' - {i}| + (if i in h' then 1 else 0);
  }

  lemma HoldersRemove(ifaces: map<string, Iface>, i: string, mac: string)
    ensures |MacHolders(ifaces - {i}, mac)| ==
            |MacHolders(ifaces, mac)| - (if i in ifaces && ifaces[i].mac == mac then 1 else 0)
  {
    assert MacHolders(ifaces - {i}, mac) == MacHolders(ifaces, mac) - {i};
  }

  lemma {:induction false} TaggedSize(i: string, v4: bool, cidrs: set<string>)
    ensures |Tagged(i, v4, cidrs)| == |cidrs|
    decreases cidrs
  {
    if cidrs == {} {
      assert Tagged(i, v4, cidrs) == {};
    } else {
      var c :| c in cidrs;
      TaggedSize(i, v4, cidrs - {c});
      assert Tagged(i, v4, cidrs) == Tagged(i, v4, cidrs - {c}) + {(i, v4, c)};
    }
  }

  lemma SliceSize(ifaces: map<string, Iface>, i: string, ip: string)
    requires i in ifaces && ip != ""
    ensures |Slice(ifaces, i, ip)| == Uses(ifaces[i], ip)
  {
    var a := Tagged(i, true, CidrsWith(ifaces[i].ipv4, ip));
    var b := Tagged(i, false, CidrsWith(ifaces[i].ipv6, ip));
    TaggedSize(i, true, CidrsWith(ifaces[i].ipv4, ip));
    TaggedSize(i, false, CidrsWith(ifaces[i].ipv6, ip));
    assert a !! b;
  }

  lemma EntriesRemove(ifaces: map<string, Iface>, i: string, ip: string)
    requires i in ifaces && ip != ""
    ensures |IpEntries(ifaces - {i}, ip)| == |IpEntries(ifaces, ip)| - Uses(ifaces[i], ip)
  {
    var rest := IpEntries(ifaces - {i}, ip);
    var slice := Slice(ifaces, i, ip);
    forall e ensures e in IpEntries(ifaces, ip) <==> e in rest + slice {
      if e in IpEntries(ifaces, ip) {
        var j :| j in ifaces && e in Slice(ifaces, j, ip);
        assert j != i ==> j in ifaces - {i} && e in Slice(ifaces - {i}, j, ip);
      }
      if e in rest {
        var j :| j in ifaces - {i} && e in Slice(ifaces - {i}, j, ip);
        assert e in Slice(ifaces, j, ip);
      }
    }
    assert IpEntries(ifaces, ip) == rest + slice;
    assert rest !! slice;
    SliceSize(ifaces, i, ip);
  }

  lemma EntriesUpdate(ifaces: map<string, Iface>, i: string, x: Iface, ip: string)
    requires ip != ""
    ensures |IpEntries(ifaces[i := x], ip)| ==
            |IpEntries(ifaces, ip)| - (if i in ifaces then Uses(ifaces[i], ip) else 0) + Uses(x, ip)
  {
    var ifaces' := ifaces[i := x];
    EntriesRemove(ifaces', i, ip);
    assert ifaces' - {i} == ifaces - {i};
    if i in ifaces {
      EntriesRemove(ifaces, i, ip);
    } else {
      assert ifaces - {i} == ifaces;
    }
  }

  // ---------------------------------------------------------------------
  // Steps keep the counts
  // ---------------------------------------------------------------------

  /** Exact accounting: a link step changes the over-count of exactly one MAC,
      and only when it double-counts. */
  lemma LinkExcess(l: Local, obs: LinkObservation, mac: string)
    requires Sound(l) && mac != ""
    ensures Excess(LinkStep(l, obs), mac) ==
            Excess(l, mac) + (if DoubleCounts(l, obs) && mac == IfaceOf(l, obs.ifname).mac then 1 else 0)
  {
    var l' := LinkStep(l, obs);
    var prev := IfaceOf(l, obs.ifname);
    assert Excess(l, mac) >= 0;
    if prev.mac != "" {
      assert Excess(l, prev.mac) >= 0;
      assert obs.ifname in MacHolders(l.ifaces, prev.mac);
    }
    if obs.event.Removed? {
      HoldersRemove(l.ifaces, obs.ifname, mac);
    } else {
      HoldersUpdate(l.ifaces, obs.ifname, l'.ifaces[obs.ifname], mac);
    }
  }

  lemma LinkIps(l: Local, obs: LinkObservation)
    requires Sound(l)
    ensures IpExact(LinkStep(l, obs))
  {
    var l' := LinkStep(l, obs);
    forall ip | ip != "" ensures Count(l'.ipRefs, ip) == |IpEntries(l'.ifaces, ip)| {
      assert Count(l.ipRefs, ip) == |IpEntries(l.ifaces, ip)|;
      if obs.event.Present? {
        EntriesUpdate(l.ifaces, obs.ifname, l'.ifaces[obs.ifname], ip);
        assert Uses(l'.ifaces[obs.ifname], ip) == Uses(IfaceOf(l, obs.ifname), ip);
        assert CidrsWith({}, ip) == {};
      } else if obs.ifname in l.ifaces {
        EntriesRemove(l.ifaces, obs.ifname, ip);
      }
    }
  }

  lemma LinkKeepsSound(l: Local, obs: LinkObservation)
    requires Sound(l)
    ensures Sound(LinkStep(l, obs))
    ensures Exact(l) ==> (Exact(LinkStep(l, obs)) <==> !DoubleCounts(l, obs))
  {
    var l' := LinkStep(l, obs);
    LinkIps(l, obs);
    forall mac | mac != ""
      ensures Excess(l', mac) == Excess(l, mac) + (if DoubleCounts(l, obs) && mac == IfaceOf(l, obs.ifname).mac then 1 else 0)
    {
      LinkExcess(l, obs, mac);
    }
    if DoubleCounts(l, obs) {
      assert Excess(l', IfaceOf(l, obs.ifname).mac) == Excess(l, IfaceOf(l, obs.ifname).mac) + 1;
    }
  }

  lemma HeldAfter(held: set<string>, cidr: string, add: bool, ip: string)
    requires ip != ""
    ensures Held(if add then held + {cidr} else held - {cidr}, ip) ==
            Held(held, ip) + (if ip != IpOf(cidr) || (cidr in held <==> add) then 0 else if add then 1 else -1)
  {
    var before, after := CidrsWith(held, ip), CidrsWith(if add then held + {cidr} else held - {cidr}, ip);
    if ip != IpOf(cidr) || (cidr in held <==> add) {
      assert after == before;
    } else if add {
      assert after == before + {cidr};
    } else {
      assert before == after + {cidr};
    }
  }

  lemma AddressUses(iface: Iface, family: int, cidr: string, add: bool, ip: string)
    requires ip != ""
    ensures var held := FamilySet(iface, family);
            var iface' := WithFamilySet(iface, family, if add then held + {cidr} else held - {cidr});
            Uses(iface', ip) == Uses(iface, ip) +
                                (if ip != IpOf(cidr) || (cidr in held <==> add) then 0 else if add then 1 else -1)
  {
    HeldAfter(FamilySet(iface, family), cidr, add, ip);
  }

  lemma AddressCount(l: Local, obs: AddressObservation, ip: string)
    requires Sound(l) && ip != ""
    ensures Count(AddressStep(l, obs).ipRefs, ip) == |IpEntries(AddressStep(l, obs).ifaces, ip)|
  {
    var iface := IfaceOf(l, obs.ifname);
    var iface' := AddressStep(l, obs).ifaces[obs.ifname];
    assert Count(l.ipRefs, ip) == |IpEntries(l.ifaces, ip)|;
    EntriesUpdate(l.ifaces, obs.ifname, iface', ip);
    assert CidrsWith({}, ip) == {};
    if IpOf(obs.cidr) != "" {
      AddressUses(iface, obs.family, obs.cidr, obs.event.Present?, ip);
    }
  }

  lemma AddressExcess(l: Local, obs: AddressObservation, mac: string)
    requires mac != ""
    ensures Excess(AddressStep(l, obs), mac) == Excess(l, mac)
  {
    var iface' := AddressStep(l, obs).ifaces[obs.ifname];
    assert AddressStep(l, obs).ifaces == l.ifaces[obs.ifname := iface'] && AddressStep(l, obs).macRefs == l.macRefs;
    assert iface'.mac == IfaceOf(l, obs.ifname).mac;
    HoldersUpdate(l.ifaces, obs.ifname, iface', mac);
  }

  lemma AddressIps(l: Local, obs: AddressObservation)
    requires Sound(l)
    ensures IpExact(AddressStep(l, obs))
  {
    forall ip | ip != ""
      ensures Count(AddressStep(l, obs).ipRefs, ip) == |IpEntries(AddressStep(l, obs).ifaces, ip)|
    {
      AddressCount(l, obs, ip);
    }
  }

  lemma AddressKeepsSound(l: Local, obs: AddressObservation)
    requires Sound(l)
    ensures Sound(AddressStep(l, obs))
    ensures Exact(l) ==> Exact(AddressStep(l, obs))
  {
    AddressIps(l, obs);
    assert AddressStep(l, obs).macRefs == l.macRefs;
    forall mac | mac != "" ensures Excess(AddressStep(l, obs), mac) == Excess(l, mac) {
      AddressExcess(l, obs, mac);
    }
  }

  lemma EmptyExact()
    ensures Exact(EMPTY)
  {
    forall mac ensures Excess(EMPTY, mac) == 0 {
      assert MacHolders(EMPTY.ifaces, mac) == {};
    }
    forall ip ensures IpEntries(EMPTY.ifaces, ip) == {} {}
  }

  // ---------------------------------------------------------------------
  // Whole runs
  // ---------------------------------------------------------------------

  datatype Input = LinkInput(link: LinkObservation) | AddressInput(addr: AddressObservation) | ClearInput

  function InputStep(l: Local, x: Input): Local {
    match x
    case LinkInput(obs) => LinkStep(l, obs)
    case AddressInput(obs) => AddressStep(l, obs)
    case ClearInput => EMPTY
  }

  function Track(l: Local, xs: seq<Input>): Local {
    if xs == [] then l else InputStep(Track(l, xs[..|xs| - 1]), xs[|xs| - 1])
  }

  lemma InputKeepsSound(l: Local, x: Input)
    requires Sound(l)
    ensures Sound(InputStep(l, x))
    ensures Exact(l) && (x.LinkInput? ==> !DoubleCounts(l, x.link)) ==> Exact(InputStep(l, x))
  {
    match x
    case LinkInput(obs) => LinkKeepsSound(l, obs);
    case AddressInput(obs) => AddressKeepsSound(l, obs);
    case ClearInput => EmptyExact();
  }

  ghost predicate NamedLinks(xs: seq<Input>) {
    forall k :: 0 <= k < |xs| && xs[k].LinkInput? ==> xs[k].link.ifname != ""
  }

  /** No nameless entry ever holds a MAC when link observations are named. */
  ghost predicate MacsNamed(l: Local) {
    forall i :: i in l.ifaces && l.ifaces[i].mac != "" ==> l.ifaces[i].ifname != ""
  }

  /** After any run the counts never under-count, the IP counts are exact, and
      when every link observation names its interface the MAC counts are too. */
  lemma {:induction false} CountsExact(xs: seq<Input>)
    ensures Sound(Track(EMPTY, xs))
    ensures NamedLinks(xs) ==> Exact(Track(EMPTY, xs))
  {
    if xs == [] {
      EmptyExact();
    } else {
      var front, last := xs[..|xs| - 1], xs[|xs| - 1];
      CountsExact(front);
      InputKeepsSound(Track(EMPTY, front), last);
      if NamedLinks(xs) {
        assert last.LinkInput? ==> last.link.ifname != "";
        assert NamedLinks(front);
        NamesKept(front);
      }
    }
  }

  lemma {:induction false} NamesKept(xs: seq<Input>)
    requires NamedLinks(xs)
    ensures MacsNamed(Track(EMPTY, xs))
  {
    if xs != [] {
      var front, last := xs[..|xs| - 1], xs[|xs| - 1];
      assert last.LinkInput? ==> last.link.ifname != "";
      assert NamedLinks(front);
      NamesKept(front);
    }
  }

  /** What exact counts mean to a reader: a MAC or IP is local exactly when
      some tracked interface holds it. */
  lemma LocalMeansHeld(l: Local, key: string)
    requires Exact(l) && key != ""
    ensures key in l.macRefs <==> exists i :: i in l.ifaces && l.ifaces[i].mac == key
    ensures key in l.ipRefs <==>
            exists i, c :: i in l.ifaces && c in l.ifaces[i].ipv4 + l.ifaces[i].ipv6 && IpOf(c) == key
  {
    assert Excess(l, key) == 0;
    assert key in l.macRefs <==> MacHolders(l.ifaces, key) != {};
    if i :| i in l.ifaces && l.ifaces[i].mac == key {
      assert i in MacHolders(l.ifaces, key);
    }
    assert Count(l.ipRefs, key) == |IpEntries(l.ifaces, key)|;
    assert key in l.ipRefs <==> IpEntries(l.ifaces, key) != {};
    if e :| e in IpEntries(l.ifaces, key) {
      var i :| i in l.ifaces && e in Slice(l.ifaces, i, key);
      assert e.2 in l.ifaces[i].ipv4 + l.ifaces[i].ipv6;
    }
    if i, c :| i in l.ifaces && c in l.ifaces[i].ipv4 + l.ifaces[i].ipv6 && IpOf(c) == key {
      assert (i, c in l.ifaces[i].ipv4, c) in Slice(l.ifaces, i, key);
      assert (i, c in l.ifaces[i].ipv4, c) in IpEntries(l.ifaces, key);
    }
  }

  /** An interface entry disappeared, or its MAC is another one now. */
  predicate Moved(before: Local, after: Local, ifname: string) {
    (ifname in before.ifaces && ifname !in after.ifaces) || IfaceOf(before, ifname).mac != IfaceOf(after, ifname).mac
  }

  /** What the tracker's return values mean: a link observation is reported
      exactly when it moved an entry, an address observation exactly when it
      changed a count. */
  lemma ReportsMeanChange(l: Local, link: LinkObservation, addr: AddressObservation)
    requires Sound(l)
    ensures LinkReportsChange(l, link) <==> Moved(l, LinkStep(l, link), link.ifname)
    ensures AddressReportsChange(l, addr) <==> AddressStep(l, addr).ipRefs != l.ipRefs
  {
    var ip := IpOf(addr.cidr);
    var l' := AddressStep(l, addr);
    if ip != "" {
      AddressUses(IfaceOf(l, addr.ifname), addr.family, addr.cidr, addr.event.Present?, ip);
      AddressCount(l, addr, ip);
      assert Count(l.ipRefs, ip) == |IpEntries(l.ifaces, ip)|;
      EntriesUpdate(l.ifaces, addr.ifname, l'.ifaces[addr.ifname], ip);
      assert AddressReportsChange(l, addr) ==> Count(l'.ipRefs, ip) != Count(l.ipRefs, ip) by {
        assert CidrsWith({}, ip) == {};
      }
    }
  }

  /** The address part is what stands before the first slash, if there is one. */
  lemma IpOfMeaning(address: string, rest: string)
    requires '/' !in address
    ensures IpOf(address + ['/'] + rest) == address && IpOf(address) == ""
  {
    var s := address + ['/'] + rest;
    assert s[|address|] == '/';
    assert forall j :: 0 <= j < |address| ==> s[j] == address[j];
    assert s[..|address|] == address;
  }

  /** A nameless interface announced twice leaves its MAC local for ever. */
  lemma NamelessLinkLeaks()
    ensures var up := LinkObservation(1, "", "02:00:00:00:00:01", true, true, "6", None, Present);
            var run := [LinkInput(up), LinkInput(up), LinkInput(up.(event := Removed))];
            var l := Track(EMPTY, run);
            l.ifaces == map[] && "02:00:00:00:00:01" in l.macRefs
  {
    var up := LinkObservation(1, "", "02:00:00:00:00:01", true, true, "6", None, Present);
    var run := [LinkInput(up), LinkInput(up), LinkInput(up.(event := Removed))];
    assert run[..2] == [LinkInput(up), LinkInput(up)];
    assert run[..2][..1] == [LinkInput(up)];
    assert Track(EMPTY, []) == EMPTY;
    var one := Track(EMPTY, [LinkInput(up)]);
    assert [LinkInput(up)][..0] == [];
    assert one == LinkStep(EMPTY, up);
    var two := Track(EMPTY, run[..2]);
    assert two == LinkStep(one, up) && two.macRefs == map[up.mac := 2];
    assert Track(EMPTY, run) == LinkStep(two, up.(event := Removed));
    assert two.ifaces.Keys == {""};
  }
}
