/** The netlink filter is invisible to the local-state tracker behind it. */
module Dedup {
  import opened Common
  import opened Observations
  import opened LocalState
  import opened Netlink

  function ToEvent(present: bool): Event {
    if present then Present else Removed
  }

  function ToLinkObservation(e: LinkEvent): LinkObservation {
    LinkObservation(e.ifindex, e.ifname, e.mac, e.adminUp, e.running, Decimal(e.operState), e.masterIfname,
                    ToEvent(e.present))
  }

  function Cidr(address: string, prefixLen: Byte): string {
    address + ['/'] + Decimal(prefixLen)
  }

  function ToAddressObservation(e: IpEvent): AddressObservation {
    AddressObservation(e.ifname, ToEvent(e.present), e.family, Cidr(e.address, e.prefixLen))
  }

  /** The part of the raw stream that concerns the tracker, and the filter's
      own `clear()`, which a live redump calls without telling the tracker. */
  datatype Message = LinkMessage(link: LinkEvent) | AddressMessage(addr: IpEvent) | ClearMessage

  function Observed(m: Message): seq<Input> {
    match m
    case LinkMessage(l) => [LinkInput(ToLinkObservation(l))]
    case AddressMessage(a) => [AddressInput(ToAddressObservation(a))]
    case ClearMessage => []
  }

  function Filtered(t: Tables, m: Message): Tables {
    match m
    case LinkMessage(l) => LinkUpdated(t, l)
    case AddressMessage(a) => AddressUpdated(t, a)
    case ClearMessage => NO_TABLES
  }

  predicate Passes(t: Tables, m: Message) {
    match m
    case LinkMessage(l) => LinkPasses(t, l)
    case AddressMessage(a) => AddressPasses(t, a)
    case ClearMessage => false
  }

  function Tabled(ms: seq<Message>): Tables {
    if ms == [] then NO_TABLES else Filtered(Tabled(ms[..|ms| - 1]), ms[|ms| - 1])
  }

  /** The tables of a filter that is never cleared. */
  function Lasting(ms: seq<Message>): Tables {
    if ms == [] then NO_TABLES
    else if ms[|ms| - 1].ClearMessage? then Lasting(ms[..|ms| - 1])
    else Filtered(Lasting(ms[..|ms| - 1]), ms[|ms| - 1])
  }

  function AllInputs(ms: seq<Message>): seq<Input> {
    if ms == [] then [] else AllInputs(ms[..|ms| - 1]) + Observed(ms[|ms| - 1])
  }

  function PassedInputs(ms: seq<Message>): seq<Input> {
    if ms == [] then []
    else if Passes(Tabled(ms[..|ms| - 1]), ms[|ms| - 1])
    then PassedInputs(ms[..|ms| - 1]) + Observed(ms[|ms| - 1])
    else PassedInputs(ms[..|ms| - 1])
  }

  /** What the kernel sends: named links, IPv4 or IPv6 addresses. */
  predicate WellFormed(m: Message) {
    match m
    case LinkMessage(l) => l.ifname != ""
    case AddressMessage(a) => a.family == AF_INET || a.family == AF_INET6
    case ClearMessage => true
  }

  // ---------------------------------------------------------------------
  // The tables determine the tracked interface
  // ---------------------------------------------------------------------

  ghost function Cidrs(addresses: set<AddressKey>, ifname: string, v4: bool): set<string> {
    set k | k in addresses && k.ifname == ifname && (k.family == AF_INET) == v4 && IpOf(Cidr(k.address, k.prefixLen)) != ""
    :: Cidr(k.address, k.prefixLen)
  }

  ghost function Expected(t: Tables, i: string): Iface {
    var base :=
      if i in t.links then
        var l := t.links[i];
        BLANK.(ifindex := l.ifindex, ifname := l.ifname, mac := l.mac, adminUp := l.adminUp, running := l.running,
        operstate := Decimal(l.operState), masterIfname := l.masterIfname)
      else BLANK;
    base.(ipv4 := Cidrs(t.addresses, i, true), ipv6 := Cidrs(t.addresses, i, false))
  }

  ghost predicate TablesOk(t: Tables) {
    && (forall i :: i in t.links ==> t.links[i].ifname == i && i != "")
    && (forall k :: k in t.addresses ==> k.family == AF_INET || k.family == AF_INET6)
  }

  /** A missing entry reads as a blank one, so this ignores exactly the
      entries with neither link data nor addresses. */
  ghost predicate Follows(t: Tables, l: Local) {
    forall i :: IfaceOf(l, i) == Expected(t, i)
  }

  lemma CidrInjective(a: AddressKey, b: AddressKey)
    requires Cidr(a.address, a.prefixLen) == Cidr(b.address, b.prefixLen)
    ensures a.address == b.address && a.prefixLen == b.prefixLen
  {
    JoinInjective(a.address, Decimal(a.prefixLen), b.address, Decimal(b.prefixLen), '/');
    DecimalInjective(a.prefixLen, b.prefixLen);
  }

  /** The text is address, slash, decimal prefix length. */
  lemma CidrMeaning(address: string, prefixLen: Byte)
    requires '/' !in address
    ensures var s := Cidr(address, prefixLen);
            IpOf(s) == address && |address| < |s| && s[|address|] == '/' && Value(s[|address| + 1..]) == prefixLen
  {
    IpOfMeaning(address, Decimal(prefixLen));
    DecimalMeaning(prefixLen);
    assert Cidr(address, prefixLen)[|address| + 1..] == Decimal(prefixLen);
  }

  lemma CidrsAdded(addresses: set<AddressKey>, k: AddressKey, i: string, v4: bool)
    ensures Cidrs(addresses + {k}, i, v4) ==
            Cidrs(addresses, i, v4) +
            (if k.ifname == i && (k.family == AF_INET) == v4 && IpOf(Cidr(k.address, k.prefixLen)) != ""
             then {Cidr(k.address, k.prefixLen)} else {})
  {
  }

  lemma CidrsRemoved(addresses: set<AddressKey>, k: AddressKey, i: string, v4: bool)
    requires forall j :: j in addresses ==> j.family == AF_INET || j.family == AF_INET6
    requires k.family == AF_INET || k.family == AF_INET6
    ensures Cidrs(addresses - {k}, i, v4) ==
            Cidrs(addresses, i, v4) -
            (if k.ifname == i && (k.family == AF_INET) == v4 then {Cidr(k.address, k.prefixLen)} else {})
  {
    if k.ifname == i && (k.family == AF_INET) == v4 {
      forall j | j in addresses && j.ifname == i && (j.family == AF_INET) == v4
                 && Cidr(j.address, j.prefixLen) == Cidr(k.address, k.prefixLen)
        ensures j == k
      {
        CidrInjective(j, k);
      }
    }
  }

  lemma LinkFollows(t: Tables, l: Local, ev: LinkEvent)
    requires TablesOk(t) && Follows(t, l) && ev.ifname != ""
    ensures TablesOk(LinkUpdated(t, ev)) && Follows(LinkUpdated(t, ev), LinkStep(l, ToLinkObservation(ev)))
  {
    var t', l' := LinkUpdated(t, ev), LinkStep(l, ToLinkObservation(ev));
    forall i ensures IfaceOf(l', i) == Expected(t', i) {
      assert IfaceOf(l, i) == Expected(t, i);
      if !ev.present {
        if i == ev.ifname {
          assert Cidrs(t'.addresses, i, true) == {} && Cidrs(t'.addresses, i, false) == {};
        } else {
          assert Cidrs(t'.addresses, i, true) == Cidrs(t.addresses, i, true);
          assert Cidrs(t'.addresses, i, false) == Cidrs(t.addresses, i, false);
        }
      }
    }
  }

  lemma AddressIface(l: Local, obs: AddressObservation, i: string)
    ensures IfaceOf(AddressStep(l, obs), i) ==
            var iface := IfaceOf(l, i);
            var held := FamilySet(iface, obs.family);
            if i != obs.ifname || IpOf(obs.cidr) == "" then iface
            else WithFamilySet(iface, obs.family, if obs.event.Present? then held + {obs.cidr} else held - {obs.cidr})
  {
  }

  lemma AddressFollowsAt(t: Tables, l: Local, ev: IpEvent, i: string)
    requires TablesOk(t) && IfaceOf(l, i) == Expected(t, i) && (ev.family == AF_INET || ev.family == AF_INET6)
    ensures IfaceOf(AddressStep(l, ToAddressObservation(ev)), i) == Expected(AddressUpdated(t, ev), i)
  {
    AddressIface(l, ToAddressObservation(ev), i);
    var cidr := Cidr(ev.address, ev.prefixLen);
    forall v4
      ensures Cidrs(AddressUpdated(t, ev).addresses, i, v4) ==
              if i != ev.ifname || IpOf(cidr) == "" || (ev.family == AF_INET) != v4 then Cidrs(t.addresses, i, v4)
              else if ev.present then Cidrs(t.addresses, i, v4) + {cidr}
              else Cidrs(t.addresses, i, v4) - {cidr}
    {
      if ev.present {
        CidrsAdded(t.addresses, KeyOf(ev), i, v4);
      } else {
        CidrsRemoved(t.addresses, KeyOf(ev), i, v4);
        assert forall c :: c in Cidrs(t.addresses, i, v4) ==> IpOf(c) != "";
      }
    }
  }

  lemma AddressFollows(t: Tables, l: Local, ev: IpEvent)
    requires TablesOk(t) && Follows(t, l) && (ev.family == AF_INET || ev.family == AF_INET6)
    ensures TablesOk(AddressUpdated(t, ev)) && Follows(AddressUpdated(t, ev), AddressStep(l, ToAddressObservation(ev)))
  {
    forall i ensures IfaceOf(AddressStep(l, ToAddressObservation(ev)), i) == Expected(AddressUpdated(t, ev), i) {
      AddressFollowsAt(t, l, ev, i);
    }
  }

  /** A link or address message passes exactly when it changes the tables. */
  lemma PassesMeansChange(t: Tables, m: Message)
    requires !m.ClearMessage?
    ensures Passes(t, m) <==> Filtered(t, m) != t
  {
    if m.LinkMessage? && !m.link.present && AddressesOn(t.addresses, m.link.ifname) != {} {
      var k :| k in AddressesOn(t.addresses, m.link.ifname);
      assert k in t.addresses && k !in Filtered(t, m).addresses;
    }
  }

  /** Applying a message keeps a tracker in step with tables that record it too. */
  lemma MessageFollows(t: Tables, l: Local, m: Message)
    requires TablesOk(t) && Follows(t, l) && WellFormed(m) && !m.ClearMessage?
    ensures TablesOk(Filtered(t, m)) && Follows(Filtered(t, m), InputStep(l, Observed(m)[0]))
  {
    match m
    case LinkMessage(ev) => LinkFollows(t, l, ev);
    case AddressMessage(ev) => AddressFollows(t, l, ev);
  }

  // ---------------------------------------------------------------------
  // A filter that forgets
  // ---------------------------------------------------------------------

  ghost predicate HasIpOn(addresses: set<AddressKey>, ifname: string) {
    exists k :: k in addresses && k.ifname == ifname && IpOf(Cidr(k.address, k.prefixLen)) != ""
  }

  /** A removal of a link or address that was announced, by `u`, but that the
      filter's tables `t` have forgotten since. */
  ghost predicate HidesRemoval(t: Tables, u: Tables, m: Message) {
    && !Passes(t, m)
    && match m
       case LinkMessage(l) => !l.present && (l.ifname in u.links || HasIpOn(u.addresses, l.ifname))
       case AddressMessage(a) => !a.present && KeyOf(a) in u.addresses && IpOf(Cidr(a.address, a.prefixLen)) != ""
       case ClearMessage => false
  }

  /** The filter knows nothing that was not announced. */
  ghost predicate Within(t: Tables, u: Tables) {
    && (forall i :: i in t.links ==> i in u.links && u.links[i] == t.links[i])
    && t.addresses <= u.addresses
  }

  lemma LinkWithin(t: Tables, u: Tables, l: LinkEvent)
    requires Within(t, u)
    ensures Within(LinkUpdated(t, l), LinkUpdated(u, l))
  {
    forall k | k in LinkUpdated(t, l).addresses ensures k in LinkUpdated(u, l).addresses {
      assert k in t.addresses && k in u.addresses;
      assert !l.present ==> k.ifname != l.ifname;
    }
  }

  lemma WithinStep(t: Tables, u: Tables, m: Message)
    requires Within(t, u)
    ensures Within(Filtered(t, m), if m.ClearMessage? then u else Filtered(u, m))
  {
    if m.LinkMessage? {
      LinkWithin(t, u, m.link);
    }
  }

  /** A blocked message says nothing new, unless it is a hidden removal. */
  lemma BlockedLinkIsOldNews(t: Tables, u: Tables, l: LinkEvent, i: string)
    requires Within(t, u) && !LinkPasses(t, l) && !HidesRemoval(t, u, LinkMessage(l))
    ensures Expected(LinkUpdated(u, l), i) == Expected(u, i)
  {
    var u' := LinkUpdated(u, l);
    if l.present {
      assert u'.links == u.links;
    } else {
      assert forall k :: k in u.addresses && k.ifname == l.ifname ==> IpOf(Cidr(k.address, k.prefixLen)) == "";
      forall v4 ensures Cidrs(u'.addresses, i, v4) == Cidrs(u.addresses, i, v4) {
        if i != l.ifname {
          assert forall k: AddressKey :: k.ifname == i ==> (k in u'.addresses <==> k in u.addresses);
        }
      }
    }
  }

  lemma BlockedAddressIsOldNews(t: Tables, u: Tables, a: IpEvent, i: string)
    requires TablesOk(u) && Within(t, u) && (a.family == AF_INET || a.family == AF_INET6)
    requires !AddressPasses(t, a) && !HidesRemoval(t, u, AddressMessage(a))
    ensures Expected(AddressUpdated(u, a), i) == Expected(u, i)
  {
    var u' := AddressUpdated(u, a);
    if a.present || KeyOf(a) !in u.addresses {
      assert u'.addresses == u.addresses;
    } else {
      forall v4 ensures Cidrs(u'.addresses, i, v4) == Cidrs(u.addresses, i, v4) {
        CidrsRemoved(u.addresses, KeyOf(a), i, v4);
      }
    }
  }

  lemma BlockedIsOldNews(t: Tables, u: Tables, m: Message, i: string)
    requires TablesOk(u) && Within(t, u) && WellFormed(m) && !m.ClearMessage?
    requires !Passes(t, m) && !HidesRemoval(t, u, m)
    ensures Expected(Filtered(u, m), i) == Expected(u, i)
  {
    match m
    case LinkMessage(l) => BlockedLinkIsOldNews(t, u, l, i);
    case AddressMessage(a) => BlockedAddressIsOldNews(t, u, a, i);
  }

  lemma HiddenIsNews(t: Tables, u: Tables, m: Message)
    requires TablesOk(u) && WellFormed(m) && HidesRemoval(t, u, m)
    ensures exists i :: Expected(Filtered(u, m), i) != Expected(u, i)
  {
    match m
    case LinkMessage(l) =>
      if l.ifname !in u.links {
        var k :| k in u.addresses && k.ifname == l.ifname && IpOf(Cidr(k.address, k.prefixLen)) != "";
        var v4 := k.family == AF_INET;
        assert Cidr(k.address, k.prefixLen) in Cidrs(u.addresses, l.ifname, v4);
        assert Cidrs(Filtered(u, m).addresses, l.ifname, v4) == {};
      }
      assert Expected(Filtered(u, m), l.ifname) != Expected(u, l.ifname);
    case AddressMessage(a) =>
      var cidr, v4 := Cidr(a.address, a.prefixLen), a.family == AF_INET;
      CidrsRemoved(u.addresses, KeyOf(a), a.ifname, v4);
      assert cidr in Cidrs(u.addresses, a.ifname, v4) && cidr !in Cidrs(Filtered(u, m).addresses, a.ifname, v4);
      assert Expected(Filtered(u, m), a.ifname) != Expected(u, a.ifname);
  }

  // ---------------------------------------------------------------------
  // Main result
  // ---------------------------------------------------------------------

  lemma SameHolders(a: Local, b: Local, key: string)
    requires Exact(a) && Exact(b) && key != ""
    requires forall i :: IfaceOf(a, i) == IfaceOf(b, i)
    ensures Count(a.macRefs, key) == Count(b.macRefs, key) && Count(a.ipRefs, key) == Count(b.ipRefs, key)
  {
    assert Excess(a, key) == 0 && Excess(b, key) == 0;
    forall i ensures i in MacHolders(a.ifaces, key) <==> i in MacHolders(b.ifaces, key) {
      assert IfaceOf(a, i) == IfaceOf(b, i);
    }
    assert MacHolders(a.ifaces, key) == MacHolders(b.ifaces, key);
    EntriesWithin(a, b, key);
    EntriesWithin(b, a, key);
    assert IpEntries(a.ifaces, key) == IpEntries(b.ifaces, key);
    assert Count(a.ipRefs, key) == |IpEntries(a.ifaces, key)|;
    assert Count(b.ipRefs, key) == |IpEntries(b.ifaces, key)|;
  }

  lemma EntriesWithin(a: Local, b: Local, ip: string)
    requires forall i :: IfaceOf(a, i) == IfaceOf(b, i)
    ensures IpEntries(a.ifaces, ip) <= IpEntries(b.ifaces, ip)
  {
    forall x | x in IpEntries(a.ifaces, ip) ensures x in IpEntries(b.ifaces, ip) {
      var i :| i in a.ifaces && x in Slice(a.ifaces, i, ip);
      assert IfaceOf(a, i) == IfaceOf(b, i) && i in b.ifaces;
      assert x in Slice(b.ifaces, i, ip);
    }
  }

  lemma SameRefs(a: Local, b: Local)
    requires Exact(a) && Exact(b)
    requires forall i :: IfaceOf(a, i) == IfaceOf(b, i)
    ensures a.macRefs == b.macRefs && a.ipRefs == b.ipRefs
  {
    forall key | key != ""
      ensures key in a.macRefs <==> key in b.macRefs
      ensures key in a.macRefs ==> a.macRefs[key] == b.macRefs[key]
      ensures key in a.ipRefs <==> key in b.ipRefs
      ensures key in a.ipRefs ==> a.ipRefs[key] == b.ipRefs[key]
    {
      SameHolders(a, b, key);
    }
    assert a.macRefs.Keys == b.macRefs.Keys && a.ipRefs.Keys == b.ipRefs.Keys;
  }

  lemma TrackSnoc(xs: seq<Input>, x: Input)
    ensures Track(EMPTY, xs + [x]) == InputStep(Track(EMPTY, xs), x)
  {
    assert (xs + [x])[..|xs|] == xs;
  }

  lemma TrackMessage(xs: seq<Input>, m: Message)
    ensures Track(EMPTY, xs + Observed(m)) ==
            if m.ClearMessage? then Track(EMPTY, xs) else InputStep(Track(EMPTY, xs), Observed(m)[0])
  {
    if m.ClearMessage? {
      assert xs + Observed(m) == xs;
    } else {
      TrackSnoc(xs, Observed(m)[0]);
    }
  }

  function Raw(ms: seq<Message>): Local {
    Track(EMPTY, AllInputs(ms))
  }

  function Passed(ms: seq<Message>): Local {
    Track(EMPTY, PassedInputs(ms))
  }

  ghost predicate AllWellFormed(ms: seq<Message>) {
    forall k :: 0 <= k < |ms| ==> WellFormed(ms[k])
  }

  /** Same interface states, up to blank entries. */
  ghost predicate Agree(a: Local, b: Local) {
    forall i :: IfaceOf(a, i) == IfaceOf(b, i)
  }

  ghost predicate NeverHides(ms: seq<Message>) {
    ms != [] ==>
      var front := ms[..|ms| - 1];
      NeverHides(front) && !HidesRemoval(Tabled(front), Lasting(front), ms[|ms| - 1])
  }

  lemma EmptyFollows()
    ensures TablesOk(NO_TABLES) && Follows(NO_TABLES, EMPTY)
  {
    forall i ensures IfaceOf(EMPTY, i) == Expected(NO_TABLES, i) {
      assert Cidrs({}, i, true) == {} && Cidrs({}, i, false) == {};
    }
  }

  lemma {:induction false} LinksNamed(ms: seq<Message>)
    requires AllWellFormed(ms)
    ensures NamedLinks(AllInputs(ms)) && NamedLinks(PassedInputs(ms))
  {
    if ms != [] {
      LinksNamed(ms[..|ms| - 1]);
      assert WellFormed(ms[|ms| - 1]);
    }
  }

  /** The tracker behind no filter follows the tables that last. */
  lemma {:induction false} RawFollows(ms: seq<Message>)
    requires AllWellFormed(ms)
    ensures TablesOk(Lasting(ms)) && Follows(Lasting(ms), Raw(ms)) && Within(Tabled(ms), Lasting(ms))
  {
    if ms == [] {
      EmptyFollows();
    } else {
      var front, last := ms[..|ms| - 1], ms[|ms| - 1];
      RawFollows(front);
      TrackMessage(AllInputs(front), last);
      WithinStep(Tabled(front), Lasting(front), last);
      if !last.ClearMessage? {
        MessageFollows(Lasting(front), Raw(front), last);
      }
    }
  }

  /** One message, from agreement: the trackers still agree afterwards if and
      only if it is not a hidden removal. */
  lemma MessageExact(ms: seq<Message>, m: Message)
    requires AllWellFormed(ms + [m]) && Follows(Lasting(ms), Passed(ms))
    ensures Agree(Raw(ms + [m]), Passed(ms + [m])) <==> !HidesRemoval(Tabled(ms), Lasting(ms), m)
    ensures !HidesRemoval(Tabled(ms), Lasting(ms), m) ==> Follows(Lasting(ms + [m]), Passed(ms + [m]))
  {
    var t, u := Tabled(ms), Lasting(ms);
    assert (ms + [m])[..|ms|] == ms;
    RawFollows(ms + [m]);
    RawFollows(ms) by { assert forall k :: 0 <= k < |ms| ==> (ms + [m])[k] == ms[k]; }
    if Passes(t, m) {
      TrackMessage(PassedInputs(ms), m);
      MessageFollows(u, Passed(ms), m);
    } else if HidesRemoval(t, u, m) {
      HiddenIsNews(t, u, m);
      var i :| Expected(Filtered(u, m), i) != Expected(u, i);
      assert IfaceOf(Raw(ms + [m]), i) == Expected(Lasting(ms + [m]), i);
      assert IfaceOf(Passed(ms + [m]), i) == Expected(u, i);
    } else {
      forall i ensures Expected(Lasting(ms + [m]), i) == Expected(u, i) {
        if !m.ClearMessage? {
          BlockedIsOldNews(t, u, m, i);
        }
      }
    }
  }

  lemma {:induction false} PassedFollows(ms: seq<Message>)
    requires AllWellFormed(ms) && NeverHides(ms)
    ensures Follows(Lasting(ms), Passed(ms))
  {
    if ms == [] {
      EmptyFollows();
    } else {
      var front, last := ms[..|ms| - 1], ms[|ms| - 1];
      assert ms == front + [last];
      PassedFollows(front);
      MessageExact(front, last);
    }
  }

  /** For every stream, clears included, that hides no removal: the tracker fed
      only what the filter lets through and the tracker fed everything hold the
      same local MACs and IPs, with the same counts, and the same interface
      states up to blank entries. */
  lemma DedupInvisible(ms: seq<Message>)
    requires AllWellFormed(ms) && NeverHides(ms)
    ensures Raw(ms).macRefs == Passed(ms).macRefs && Raw(ms).ipRefs == Passed(ms).ipRefs
    ensures Agree(Raw(ms), Passed(ms))
  {
    RawFollows(ms);
    PassedFollows(ms);
    forall i ensures IfaceOf(Raw(ms), i) == IfaceOf(Passed(ms), i) {
      assert IfaceOf(Raw(ms), i) == Expected(Lasting(ms), i) == IfaceOf(Passed(ms), i);
    }
    LinksNamed(ms);
    CountsExact(AllInputs(ms));
    CountsExact(PassedInputs(ms));
    SameRefs(Raw(ms), Passed(ms));
  }

  lemma NothingForgotten(t: Tables, m: Message)
    ensures !HidesRemoval(t, t, m)
  {
    if m.LinkMessage? && !Passes(t, m) {
      assert forall k :: k in t.addresses && k.ifname == m.link.ifname ==> k in AddressesOn(t.addresses, m.link.ifname);
    }
  }

  /** A filter that is not cleared hides nothing, whatever the stream. */
  lemma {:induction false} UnclearedNeverHides(ms: seq<Message>)
    requires AllWellFormed(ms) && forall k :: 0 <= k < |ms| ==> !ms[k].ClearMessage?
    ensures NeverHides(ms) && Tabled(ms) == Lasting(ms)
  {
    if ms != [] {
      UnclearedNeverHides(ms[..|ms| - 1]);
      NothingForgotten(Tabled(ms[..|ms| - 1]), ms[|ms| - 1]);
    }
  }

  /** The trackers agree after the stream and after each of its prefixes. */
  ghost predicate AlwaysAgree(ms: seq<Message>) {
    Agree(Raw(ms), Passed(ms)) && (ms != [] ==> AlwaysAgree(ms[..|ms| - 1]))
  }

  /** The hypothesis is exact: the trackers agree after every prefix of the
      stream if and only if it hides no removal. */
  lemma {:induction false} DedupExact(ms: seq<Message>)
    requires AllWellFormed(ms)
    ensures NeverHides(ms) <==> AlwaysAgree(ms)
  {
    if ms != [] {
      var front, last := ms[..|ms| - 1], ms[|ms| - 1];
      assert ms == front + [last];
      DedupExact(front);
      if NeverHides(front) {
        PassedFollows(front);
        MessageExact(front, last);
      }
    }
  }

  lemma OneMore(ms: seq<Message>, m: Message)
    ensures Tabled(ms + [m]) == Filtered(Tabled(ms), m)
    ensures Lasting(ms + [m]) == if m.ClearMessage? then Lasting(ms) else Filtered(Lasting(ms), m)
    ensures Raw(ms + [m]) == if m.ClearMessage? then Raw(ms) else InputStep(Raw(ms), Observed(m)[0])
    ensures Passed(ms + [m]) == if Passes(Tabled(ms), m) then InputStep(Passed(ms), Observed(m)[0]) else Passed(ms)
    ensures NeverHides(ms + [m]) ==> !HidesRemoval(Tabled(ms), Lasting(ms), m)
  {
    assert (ms + [m])[..|ms|] == ms;
    TrackMessage(AllInputs(ms), m);
    TrackMessage(PassedInputs(ms), m);
  }

  /** An interface that vanishes around a live redump: its removal comes after
      the clear, is blocked, and the tracker keeps the interface. */
  lemma ClearHidesRemoval(l: LinkEvent)
    requires l.present && l.ifname != ""
    ensures var ms := [] + [LinkMessage(l)] + [ClearMessage] + [LinkMessage(l.(present := false))];
            !NeverHides(ms) && l.ifname !in Raw(ms).ifaces && l.ifname in Passed(ms).ifaces
  {
    var up, gone := LinkMessage(l), LinkMessage(l.(present := false));
    OneMore([], up);
    OneMore([] + [up], ClearMessage);
    OneMore([] + [up] + [ClearMessage], gone);
    assert Raw([]) == Passed([]) == EMPTY;
    assert !Passes(NO_TABLES, gone);
  }
}
