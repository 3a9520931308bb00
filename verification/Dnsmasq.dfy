/** The dnsmasq spec types and their normal form: internal/dnsmasq/spec.go. */
module Dnsmasq {
  import opened Kube
  import opened Ordering

  datatype DnsHostEntry = DnsHostEntry(ip: string, hostnames: seq<string>)

  datatype DnsHostsSpec = DnsHostsSpec(controller: string, hosts: seq<DnsHostEntry>)

  datatype DhcpHostEntry =
    DhcpHostEntry(macs: seq<string>, ip: string, hostname: string, setTags: seq<string>, leaseTime: string)

  datatype DhcpHostsSpec = DhcpHostsSpec(controller: string, hosts: seq<DhcpHostEntry>)

  datatype DhcpOption = DhcpOption(key: string, values: seq<string>, tags: seq<string>)

  datatype DhcpOptionsSpec = DhcpOptionsSpec(controller: string, options: seq<DhcpOption>)

  const LEASE_TIME_INFINITE := "infinite"

  /** A parsed IP address. */
  datatype Addr = Addr(bits: nat, value: nat, zone: string)

  function CompareAddr(a: Addr, b: Addr): int {
    if a.bits != b.bits then a.bits - b.bits
    else if a.value != b.value then a.value - b.value
    else CompareStrings(a.zone, b.zone)
  }

  type Parser = string -> Option<Addr>

  /** The two library calls whose bodies are outside the operator: address parsing and the sort of host
      entries, which is some function meeting the contract of `slices.SortFunc`. */
  datatype Lib = Lib(parse: Parser, sortHosts: seq<DnsHostEntry> -> seq<DnsHostEntry>)
  {
    function CompareHosts(a: DnsHostEntry, b: DnsHostEntry): int {
      CompareIP(parse, a.ip, b.ip)
    }

    ghost predicate HostOrder(s: seq<DnsHostEntry>) {
      PreorderOn(CompareHosts, s)
    }

    ghost predicate HostsSorted(s: seq<DnsHostEntry>) {
      Sorted(CompareHosts, s)
    }

    /** A sort returns an arrangement of its input, sorted whenever the comparison is a total preorder
        on it. */
    ghost predicate Valid() {
      forall s :: multiset(sortHosts(s)) == multiset(s)
                  && (HostOrder(s) ==> HostsSorted(sortHosts(s)))
    }

    /** It leaves an already sorted input alone: true of the implementation, but not promised by its
        documentation. Only idempotence relies on it, and only for hosts that compare equal. */
    ghost predicate KeepsSorted() {
      forall s :: HostsSorted(s) ==> sortHosts(s) == s
    }
  }

  /** There are such libraries, whatever the parser. */
  lemma InsertionSortQualifies(parse: Parser) returns (lib: Lib)
    ensures lib.parse == parse && lib.Valid() && lib.KeepsSorted()
  {
    var cmp := (a: DnsHostEntry, b: DnsHostEntry) => CompareIP(parse, a.ip, b.ip);
    lib := Lib(parse, s => InsertionSort(cmp, s));
    forall s ensures multiset(lib.sortHosts(s)) == multiset(s)
      ensures lib.HostOrder(s) ==> lib.HostsSorted(lib.sortHosts(s))
      ensures lib.HostsSorted(s) ==> lib.sortHosts(s) == s
    {
      assert forall a, b :: cmp(a, b) == lib.CompareHosts(a, b);
      if lib.HostOrder(s) {
        assert PreorderOn(cmp, s);
        InsertionSortSorted(cmp, s);
      }
      if lib.HostsSorted(s) {
        assert Sorted(cmp, s);
        InsertionSortFixed(cmp, s);
      }
    }
  }

  /** Numeric order when both addresses parse, text order otherwise. */
  function CompareIP(parse: Parser, a: string, b: string): int {
    if parse(a).Some? && parse(b).Some? then CompareAddr(parse(a).value, parse(b).value)
    else CompareStrings(a, b)
  }

  /** `a` comes no later than `b`: parsed addresses by width, then value, then zone, others as text. */
  ghost predicate NoLater(parse: Parser, a: string, b: string) {
    match (parse(a), parse(b))
    case (Some(x), Some(y)) =>
      || x.bits < y.bits
      || (x.bits == y.bits && x.value < y.value)
      || (x.bits == y.bits && x.value == y.value && (x.zone == y.zone || Before(x.zone, y.zone)))
    case _ => a == b || Before(a, b)
  }

  lemma CompareIPMeaning(parse: Parser, a: string, b: string)
    ensures CompareIP(parse, a, b) <= 0 <==> NoLater(parse, a, b)
  {
    CompareStringsZero(a, b);
    if parse(a).Some? && parse(b).Some? {
      CompareStringsZero(parse(a).value.zone, parse(b).value.zone);
    }
  }

  lemma CompareAddrTransitive(a: Addr, b: Addr, c: Addr)
    requires CompareAddr(a, b) <= 0 && CompareAddr(b, c) <= 0
    ensures CompareAddr(a, c) <= 0
  {
    if a.bits == b.bits == c.bits && a.value == b.value == c.value {
      CompareStringsTransitive(a.zone, b.zone, c.zone);
    }
  }

  lemma CompareIPTotal(parse: Parser, a: string, b: string)
    ensures CompareIP(parse, a, b) == -CompareIP(parse, b, a)
  {
    CompareStringsFlips(a, b);
    if parse(a).Some? && parse(b).Some? {
      CompareStringsFlips(parse(a).value.zone, parse(b).value.zone);
    }
  }

  /** An address that does not parse and lies, as text, between two that do and whose numeric order is
      not the text order. */
  ghost predicate Straddles(parse: Parser, p: string, u: string, q: string) {
    && parse(p).Some? && parse(q).Some? && parse(u).None?
    && Before(q, u) && Before(u, p) && NoLater(parse, p, q)
  }

  ghost predicate Straddled(parse: Parser, ips: seq<string>) {
    exists p, u, q :: p in ips && u in ips && q in ips && Straddles(parse, p, u, q)
  }

  ghost predicate AllOrNoneParse(parse: Parser, ips: seq<string>) {
    (forall ip :: ip in ips ==> parse(ip).Some?) || (forall ip :: ip in ips ==> parse(ip).None?)
  }

  lemma CompareIPStep(parse: Parser, a: string, b: string, c: string)
    requires CompareIP(parse, a, b) <= 0 && CompareIP(parse, b, c) <= 0
    requires !Straddles(parse, a, b, c) && !Straddles(parse, b, c, a) && !Straddles(parse, c, a, b)
    requires !Straddles(parse, c, b, a) && !Straddles(parse, a, c, b) && !Straddles(parse, b, a, c)
    ensures CompareIP(parse, a, c) <= 0
  {
    CompareIPTotal(parse, a, c);
    CompareIPMeaning(parse, a, b);
    CompareIPMeaning(parse, b, c);
    CompareIPMeaning(parse, c, a);
    CompareStringsZero(a, b);
    CompareStringsZero(b, c);
    CompareStringsZero(a, c);
    CompareStringsFlips(a, b);
    CompareStringsFlips(b, c);
    CompareStringsFlips(a, c);
    if parse(a).Some? && parse(b).Some? && parse(c).Some? {
      CompareAddrTransitive(parse(a).value, parse(b).value, parse(c).value);
    } else if CompareStrings(a, b) <= 0 && CompareStrings(b, c) <= 0 {
      CompareStringsTransitive(a, b, c);
    } else if CompareStrings(b, c) <= 0 && CompareStrings(c, a) <= 0 {
      CompareStringsTransitive(b, c, a);
    } else if CompareStrings(c, a) <= 0 && CompareStrings(a, b) <= 0 {
      CompareStringsTransitive(c, a, b);
    }
  }

  /** `compareIP` is a total preorder on a list of addresses exactly when no unparseable address of the
      list lies, as text, between two parseable ones that are numerically the other way round. */
  lemma CompareIPPreorderIff(parse: Parser, ips: seq<string>)
    ensures TotalOn((a, b) => CompareIP(parse, a, b), ips)
    ensures TransitiveOn((a, b) => CompareIP(parse, a, b), ips) <==> !Straddled(parse, ips)
    ensures AllOrNoneParse(parse, ips) ==> !Straddled(parse, ips)
  {
    forall x, y ensures CompareIP(parse, x, y) <= 0 || CompareIP(parse, y, x) <= 0 {
      CompareIPTotal(parse, x, y);
    }
    if Straddled(parse, ips) {
      var p, u, q :| p in ips && u in ips && q in ips && Straddles(parse, p, u, q);
      CompareStringsFlips(u, p);
      var cmp := (a, b) => CompareIP(parse, a, b);
      CompareIPMeaning(parse, p, q);
      assert cmp(p, q) <= 0 && cmp(q, u) <= 0 && cmp(p, u) > 0;
    } else {
      forall x, y, z | x in ips && y in ips && z in ips && CompareIP(parse, x, y) <= 0 && CompareIP(parse, y, z) <= 0
        ensures CompareIP(parse, x, z) <= 0
      {
        CompareIPStep(parse, x, y, z);
      }
    }
  }

  /** The three addresses that make `compareIP` run in a circle. */
  lemma CompareIPCycle(parse: Parser)
    requires parse("10.0.0.9") == Some(Addr(32, 167772169, ""))
    requires parse("10.0.0.10") == Some(Addr(32, 167772170, ""))
    requires parse("10.0.0.5x") == None
    ensures CompareIP(parse, "10.0.0.9", "10.0.0.10") < 0
    ensures CompareIP(parse, "10.0.0.10", "10.0.0.5x") < 0
    ensures CompareIP(parse, "10.0.0.5x", "10.0.0.9") < 0
    ensures Straddled(parse, ["10.0.0.9", "10.0.0.10", "10.0.0.5x"])
  {
    TextOrder();
    var ips := ["10.0.0.9", "10.0.0.10", "10.0.0.5x"];
    assert ips[0] in ips && ips[1] in ips && ips[2] in ips;
    assert Straddles(parse, ips[0], ips[2], ips[1]);
  }

  lemma TextOrder()
    ensures Before("10.0.0.10", "10.0.0.5x") && Before("10.0.0.5x", "10.0.0.9")
  {
    var stem := "10.0.0.";
    SharedPrefix(stem, "10", "5x");
    SharedPrefix(stem, "5x", "9");
    assert stem + "10" == "10.0.0.10" && stem + "5x" == "10.0.0.5x" && stem + "9" == "10.0.0.9";
  }

  lemma {:induction false} SharedPrefix(stem: string, a: string, b: string)
    ensures CompareStrings(stem + a, stem + b) == CompareStrings(a, b)
  {
    if stem == [] {
      assert stem + a == a && stem + b == b;
    } else {
      assert (stem + a)[1..] == stem[1..] + a && (stem + b)[1..] == stem[1..] + b;
      SharedPrefix(stem[1..], a, b);
    }
  }

  function NormalEntry(e: DnsHostEntry): DnsHostEntry {
    DnsHostEntry(e.ip, SortedSet(e.hostnames))
  }

  function NormalEntries(hosts: seq<DnsHostEntry>): (r: seq<DnsHostEntry>)
    ensures |r| == |hosts|
    ensures forall i :: 0 <= i < |hosts| ==> r[i] == NormalEntry(hosts[i])
  {
    seq(|hosts|, i requires 0 <= i < |hosts| => NormalEntry(hosts[i]))
  }

  function NormalHosts(lib: Lib, hosts: seq<DnsHostEntry>): seq<DnsHostEntry> {
    lib.sortHosts(NormalEntries(hosts))
  }

  /** Sorts and compacts the hostnames of every entry, then sorts the entries by address, in place. */
  method NormalizeDnsHosts(lib: Lib, hosts: array<DnsHostEntry>)
    requires lib.Valid()
    modifies hosts
    ensures hosts[..] == NormalHosts(lib, old(hosts[..]))
  {
    ghost var before := hosts[..];
    for i := 0 to hosts.Length
      invariant forall j :: 0 <= j < i ==> hosts[j] == NormalEntry(before[j])
      invariant forall j :: i <= j < hosts.Length ==> hosts[j] == before[j]
    {
      var names := SortCompact(hosts[i].hostnames);
      hosts[i] := hosts[i].(hostnames := names);
    }
    assert hosts[..] == NormalEntries(before);
    var sorted := lib.sortHosts(hosts[..]);
    SameMembers(sorted, hosts[..]);
    forall i | 0 <= i < hosts.Length {
      hosts[i] := sorted[i];
    }
    assert hosts[..] == sorted;
  }

  function Ips(hosts: seq<DnsHostEntry>): (r: seq<string>)
    ensures |r| == |hosts|
    ensures forall i :: 0 <= i < |hosts| ==> r[i] == hosts[i].ip
  {
    seq(|hosts|, i requires 0 <= i < |hosts| => hosts[i].ip)
  }

  lemma IpsMembers(hosts: seq<DnsHostEntry>)
    ensures forall ip :: ip in Ips(hosts) <==> exists h :: h in hosts && h.ip == ip
  {
    forall ip | ip in Ips(hosts) ensures exists h :: h in hosts && h.ip == ip {
      var i :| 0 <= i < |hosts| && Ips(hosts)[i] == ip;
      assert hosts[i] in hosts;
    }
    forall h | h in hosts ensures h.ip in Ips(hosts) {
      var i :| 0 <= i < |hosts| && hosts[i] == h;
      assert Ips(hosts)[i] == h.ip;
    }
  }

  lemma HostOrderHolds(lib: Lib, hosts: seq<DnsHostEntry>)
    requires !Straddled(lib.parse, Ips(hosts))
    ensures lib.HostOrder(hosts)
  {
    var ips := Ips(hosts);
    var cmp := (a, b) => CompareIP(lib.parse, a, b);
    CompareIPPreorderIff(lib.parse, ips);
    IpsMembers(hosts);
    forall x, y | x in hosts && y in hosts ensures lib.CompareHosts(x, y) <= 0 || lib.CompareHosts(y, x) <= 0 {
      assert x.ip in ips && y.ip in ips;
      assert cmp(x.ip, y.ip) <= 0 || cmp(y.ip, x.ip) <= 0;
    }
    forall x, y, z | x in hosts && y in hosts && z in hosts
                     && lib.CompareHosts(x, y) <= 0 && lib.CompareHosts(y, z) <= 0
      ensures lib.CompareHosts(x, z) <= 0
    {
      assert x.ip in ips && y.ip in ips && z.ip in ips;
      assert cmp(x.ip, y.ip) <= 0 && cmp(y.ip, z.ip) <= 0;
    }
  }

  /** The normal form keeps every entry with its set of hostnames, makes the hostnames strictly
      increasing, and sorts the entries whenever `compareIP` orders the addresses at all. */
  lemma NormalHostsMeaning(lib: Lib, hosts: seq<DnsHostEntry>)
    requires lib.Valid()
    ensures var r := NormalHosts(lib, hosts);
            && multiset(r) == multiset(NormalEntries(hosts))
            && (forall e :: e in r ==> StrictlySorted(e.hostnames))
            && (!Straddled(lib.parse, Ips(hosts)) ==>
                  lib.HostsSorted(r) && forall i, j :: 0 <= i < j < |r| ==> NoLater(lib.parse, r[i].ip, r[j].ip))
  {
    var normal := NormalEntries(hosts);
    var r := NormalHosts(lib, hosts);
    assert multiset(r) == multiset(normal);
    SameMembers(r, normal);
    forall e | e in r ensures StrictlySorted(e.hostnames) {
      var i :| 0 <= i < |normal| && normal[i] == e;
      SortedSetSorted(hosts[i].hostnames);
    }
    assert Ips(normal) == Ips(hosts);
    if !Straddled(lib.parse, Ips(hosts)) {
      HostOrderHolds(lib, normal);
      forall i, j | 0 <= i < j < |r| ensures NoLater(lib.parse, r[i].ip, r[j].ip) {
        assert lib.CompareHosts(r[i], r[j]) <= 0;
        CompareIPMeaning(lib.parse, r[i].ip, r[j].ip);
      }
    }
  }

  /** No two entries have addresses that compare equal. */
  ghost predicate ApartUnder(parse: Parser, hosts: seq<DnsHostEntry>) {
    forall i, j :: 0 <= i < |hosts| && 0 <= j < |hosts| && CompareIP(parse, hosts[i].ip, hosts[j].ip) == 0 ==> i == j
  }

  /** Normalising an already normal list changes nothing: because the sort leaves it alone, or because there is
      only one sorted arrangement. */
  lemma NormalHostsIdempotent(lib: Lib, hosts: seq<DnsHostEntry>)
    requires lib.Valid() && !Straddled(lib.parse, Ips(hosts))
    requires lib.KeepsSorted() || ApartUnder(lib.parse, hosts)
    ensures NormalHosts(lib, NormalHosts(lib, hosts)) == NormalHosts(lib, hosts)
  {
    var r := NormalHosts(lib, hosts);
    NormalHostsMeaning(lib, hosts);
    forall i | 0 <= i < |r| ensures NormalEntry(r[i]) == r[i] {
      assert r[i] in r;
      SortedSetSorted(r[i].hostnames);
      StrictlySortedUnique(SortedSet(r[i].hostnames), r[i].hostnames);
    }
    assert NormalEntries(r) == r;
    if ApartUnder(lib.parse, hosts) {
      NormalHostsCanonical(lib, hosts, r);
    }
  }

  /** With addresses that are pairwise distinct under `compareIP`, rearranging the entries, or their
      hostnames, or repeating a hostname, does not change the normal form. */
  lemma NormalHostsCanonical(lib: Lib, a: seq<DnsHostEntry>, b: seq<DnsHostEntry>)
    requires lib.Valid() && multiset(NormalEntries(a)) == multiset(NormalEntries(b))
    requires !Straddled(lib.parse, Ips(a))
    requires ApartUnder(lib.parse, a)
    ensures NormalHosts(lib, a) == NormalHosts(lib, b)
  {
    var x, y := NormalHosts(lib, a), NormalHosts(lib, b);
    NormalHostsMeaning(lib, a);
    NormalHostsMeaning(lib, b);
    assert lib.HostsSorted(y) by {
      SameMembers(NormalEntries(a), NormalEntries(b));
      SameIps(a, b);
    }
    DistinctAddresses(lib, a);
    SameMembers(x, NormalEntries(a));
    SortedUnique(lib.CompareHosts, x, y);
  }

  lemma DistinctAddresses(lib: Lib, a: seq<DnsHostEntry>)
    requires ApartUnder(lib.parse, a)
    ensures AntisymmetricOn(lib.CompareHosts, NormalEntries(a))
  {
    var na := NormalEntries(a);
    forall p, q | p in na && q in na && lib.CompareHosts(p, q) <= 0 && lib.CompareHosts(q, p) <= 0 ensures p == q {
      var i :| 0 <= i < |na| && na[i] == p;
      var j :| 0 <= j < |na| && na[j] == q;
      CompareIPTotal(lib.parse, p.ip, q.ip);
      assert i == j;
    }
  }

  lemma SameIps(a: seq<DnsHostEntry>, b: seq<DnsHostEntry>)
    requires multiset(NormalEntries(a)) == multiset(NormalEntries(b))
    ensures forall ip :: ip in Ips(b) <==> ip in Ips(a)
  {
    assert Ips(NormalEntries(a)) == Ips(a) && Ips(NormalEntries(b)) == Ips(b);
    SameMembers(NormalEntries(a), NormalEntries(b));
    IpsMembers(NormalEntries(a));
    IpsMembers(NormalEntries(b));
  }
}
