/** The nmap XML report after ElementTree has turned it into a tree of
    elements, and the host records that parse_nmap_xml extracts from it. */
module NmapXml {
  import opened Wrappers

  /** An XML element: its tag, its attributes and its child elements in
      document order. */
  datatype Element = Element(tag: string, attrib: map<string, string>, children: seq<Element>)

  /** One host as parse_nmap_xml yields it; every field may be None. */
  datatype HostRecord = HostRecord(
    mac: Option<string>,
    ip: Option<string>,
    hostname: Option<string>,
    vendor: Option<string>,
    status: Option<string>)

  /** `e.get(key)`: the attribute's value, or None when it is absent. */
  function Attr(e: Element, key: string): (r: Option<string>)
    ensures r.Some? <==> key in e.attrib
    ensures r.Some? ==> r.value == e.attrib[key]
  {
    if key in e.attrib then Some(e.attrib[key]) else None
  }

  /** The attribute `key` of `s[k]` when `at` is `Some(k)`, and None otherwise. */
  function AttrOf(s: seq<Element>, at: Option<nat>, key: string): Option<string>
    requires at.Some? ==> at.value < |s|
  {
    match at
    case None => None
    case Some(k) => Attr(s[k], key)
  }

  /** `findall(tag)`: the children with that tag, in document order. */
  function FindAll(s: seq<Element>, tag: string): (r: seq<Element>)
    ensures |r| <= |s|
    ensures forall i | 0 <= i < |r| :: r[i].tag == tag
    decreases |s|
  {
    if |s| == 0 then []
    else FindAll(s[..|s| - 1], tag) + (if s[|s| - 1].tag == tag then [s[|s| - 1]] else [])
  }

  /** `findall` keeps exactly the children that carry the tag. */
  lemma {:induction false} FindAllMembers(s: seq<Element>, tag: string)
    ensures forall e | e in FindAll(s, tag) :: e in s && e.tag == tag
    ensures forall e | e in s && e.tag == tag :: e in FindAll(s, tag)
    decreases |s|
  {
    if |s| > 0 {
      var init := s[..|s| - 1];
      assert s == init + [s[|s| - 1]];
      FindAllMembers(init, tag);
    }
  }

  /** `find(tag)`: the index of the first child with that tag. */
  function FirstWithTag(s: seq<Element>, tag: string): (r: Option<nat>)
    ensures r.Some? ==> r.value < |s| && s[r.value].tag == tag
    ensures r.Some? ==> forall j | 0 <= j < r.value :: s[j].tag != tag
    ensures r.None? ==> forall j | 0 <= j < |s| :: s[j].tag != tag
  {
    if |s| == 0 then None
    else if s[0].tag == tag then Some(0)
    else
      match FirstWithTag(s[1..], tag)
      case None => None
      case Some(k) => Some(k + 1)
  }

  /** `find(outer + "/" + inner)`: the child `(i, k)` such that `s[i]` is the
      first element tagged `outer` that has a child tagged `inner`, and `k`
      is the index of the first such child of `s[i]`. */
  function FirstNested(s: seq<Element>, outer: string, inner: string): (r: Option<(nat, nat)>)
    ensures r.Some? ==> r.value.0 < |s| && s[r.value.0].tag == outer
    ensures r.Some? ==> FirstWithTag(s[r.value.0].children, inner) == Some(r.value.1)
    ensures r.Some? ==> forall j | 0 <= j < r.value.0 && s[j].tag == outer ::
                          FirstWithTag(s[j].children, inner).None?
    ensures r.None? ==> forall j | 0 <= j < |s| && s[j].tag == outer ::
                          FirstWithTag(s[j].children, inner).None?
  {
    if |s| == 0 then None
    else if s[0].tag == outer && FirstWithTag(s[0].children, inner).Some? then
      Some((0, FirstWithTag(s[0].children, inner).value))
    else
      match FirstNested(s[1..], outer, inner)
      case None => None
      case Some((i, k)) => Some((i + 1, k))
  }

  /** The index of the last address element whose `addrtype` is `addrType`. */
  function LastOfAddrType(addrs: seq<Element>, addrType: string): (r: Option<nat>)
    ensures r.Some? ==> r.value < |addrs| && Attr(addrs[r.value], "addrtype") == Some(addrType)
    ensures r.Some? ==> forall j | r.value < j < |addrs| :: Attr(addrs[j], "addrtype") != Some(addrType)
    ensures r.None? ==> forall j | 0 <= j < |addrs| :: Attr(addrs[j], "addrtype") != Some(addrType)
    decreases |addrs|
  {
    if |addrs| == 0 then None
    else if Attr(addrs[|addrs| - 1], "addrtype") == Some(addrType) then Some(|addrs| - 1)
    else LastOfAddrType(addrs[..|addrs| - 1], addrType)
  }

  /** The record the extraction rules assign to one `host` element:
      status from the first `status` child (`'unknown'` without one),
      ip from the last ipv4 address, mac and vendor from the last mac
      address, hostname from the first `hostnames/hostname`. Every value
      it holds was read from an element of that host: an ipv4 address,
      one mac address for both mac and vendor, a status element, or a
      hostname under a hostnames element. */
  function HostRecordOf(host: Element): (r: HostRecord)
    ensures (forall c | c in host.children :: c.tag != "status") ==> r.status == Some("unknown")
    ensures (exists c | c in host.children :: c.tag == "status") ==>
              exists c | c in host.children :: c.tag == "status" && Attr(c, "state") == r.status
    ensures r.ip.Some? ==>
              exists a | a in host.children :: a.tag == "address" && Attr(a, "addrtype") == Some("ipv4") && Attr(a, "addr") == r.ip
    ensures r.mac.Some? || r.vendor.Some? ==>
              exists a | a in host.children ::
                a.tag == "address" && Attr(a, "addrtype") == Some("mac") && Attr(a, "addr") == r.mac && Attr(a, "vendor") == r.vendor
    ensures r.hostname.Some? ==>
              exists h | h in host.children :: h.tag == "hostnames" &&
                exists n | n in h.children :: n.tag == "hostname" && Attr(n, "name") == r.hostname
  {
    FindAllMembers(host.children, "address");
    var statusAt := FirstWithTag(host.children, "status");
    var addrs := FindAll(host.children, "address");
    var ipAt := LastOfAddrType(addrs, "ipv4");
    var macAt := LastOfAddrType(addrs, "mac");
    var nameAt := FirstNested(host.children, "hostnames", "hostname");
    HostRecord(
      mac := AttrOf(addrs, macAt, "addr"),
      ip := AttrOf(addrs, ipAt, "addr"),
      hostname := match nameAt
                  case None => None
                  case Some((i, k)) => Attr(host.children[i].children[k], "name"),
      vendor := AttrOf(addrs, macAt, "vendor"),
      status := if statusAt.None? then Some("unknown")
                else Attr(host.children[statusAt.value], "state"))
  }

  /** Taking one more address into account: the last index of a type is
      the new one when it has that type, and the old one otherwise. */
  lemma LastOfAddrTypeStep(addrs: seq<Element>, i: nat, addrType: string, key: string)
    requires i < |addrs|
    ensures LastOfAddrType(addrs[..i + 1], addrType)
            == if Attr(addrs[i], "addrtype") == Some(addrType) then Some(i)
               else LastOfAddrType(addrs[..i], addrType)
    ensures AttrOf(addrs[..i + 1], LastOfAddrType(addrs[..i + 1], addrType), key)
            == if Attr(addrs[i], "addrtype") == Some(addrType) then Attr(addrs[i], key)
               else AttrOf(addrs[..i], LastOfAddrType(addrs[..i], addrType), key)
  {
    assert addrs[..i + 1][..i] == addrs[..i];
  }

  /** The loop over `host.findall('address')`: an ipv4 address sets ip, a
      mac address sets mac and vendor together, and any other addrtype is
      passed over. */
  method ScanAddresses(addrs: seq<Element>) returns (ip: Option<string>, mac: Option<string>, vendor: Option<string>)
    ensures ip == AttrOf(addrs, LastOfAddrType(addrs, "ipv4"), "addr")
    ensures mac == AttrOf(addrs, LastOfAddrType(addrs, "mac"), "addr")
    ensures vendor == AttrOf(addrs, LastOfAddrType(addrs, "mac"), "vendor")
  {
    ip, mac, vendor := None, None, None;
    for i := 0 to |addrs|
      invariant ip == AttrOf(addrs[..i], LastOfAddrType(addrs[..i], "ipv4"), "addr")
      invariant mac == AttrOf(addrs[..i], LastOfAddrType(addrs[..i], "mac"), "addr")
      invariant vendor == AttrOf(addrs[..i], LastOfAddrType(addrs[..i], "mac"), "vendor")
    {
      LastOfAddrTypeStep(addrs, i, "ipv4", "addr");
      LastOfAddrTypeStep(addrs, i, "mac", "addr");
      LastOfAddrTypeStep(addrs, i, "mac", "vendor");
      var addrType := Attr(addrs[i], "addrtype");
      if addrType == Some("ipv4") {
        ip := Attr(addrs[i], "addr");
      } else if addrType == Some("mac") {
        mac := Attr(addrs[i], "addr");
        vendor := Attr(addrs[i], "vendor");
      }
    }
    assert addrs[..|addrs|] == addrs;
  }

  /** The body of the loop over `root.findall('host')`: one host's record. */
  method ParseHost(host: Element) returns (rec: HostRecord)
    ensures rec == HostRecordOf(host)
  {
    var statusAt := FirstWithTag(host.children, "status");
    var status := if statusAt.Some? then Attr(host.children[statusAt.value], "state")
                  else Some("unknown");

    var ip, mac, vendor := ScanAddresses(FindAll(host.children, "address"));

    var nameAt := FirstNested(host.children, "hostnames", "hostname");
    var hostname := if nameAt.Some? then Attr(host.children[nameAt.value.0].children[nameAt.value.1], "name")
                    else None;

    rec := HostRecord(mac, ip, hostname, vendor, status);
  }

  /** parse_nmap_xml on the parsed tree: one record per `host` child of the
      root, in document order. */
  method ParseNmapXml(root: Element) returns (hosts: seq<HostRecord>)
    ensures |hosts| == |FindAll(root.children, "host")|
    ensures forall i | 0 <= i < |hosts| :: hosts[i] == HostRecordOf(FindAll(root.children, "host")[i])
  {
    var hostElements := FindAll(root.children, "host");
    hosts := [];
    for i := 0 to |hostElements|
      invariant |hosts| == i
      invariant forall j | 0 <= j < i :: hosts[j] == HostRecordOf(hostElements[j])
    {
      var rec := ParseHost(hostElements[i]);
      hosts := hosts + [rec];
    }
  }

  lemma {:induction false} FindAllAppend(s: seq<Element>, e: Element, tag: string)
    ensures FindAll(s + [e], tag) == FindAll(s, tag) + (if e.tag == tag then [e] else [])
  {
    assert (s + [e])[..|s|] == s;
  }

  /** `findall` keeps document order: the matches in the first part of the
      children all come before the matches in the rest. */
  lemma {:induction false} FindAllConcat(a: seq<Element>, b: seq<Element>, tag: string)
    ensures FindAll(a + b, tag) == FindAll(a, tag) + FindAll(b, tag)
    decreases |b|
  {
    if |b| == 0 {
      assert a + b == a;
    } else {
      var init := b[..|b| - 1];
      var e := b[|b| - 1];
      assert b == init + [e];
      assert a + b == (a + init) + [e];
      FindAllConcat(a, init, tag);
      FindAllAppend(a + init, e, tag);
      FindAllAppend(init, e, tag);
    }
  }

  lemma {:induction false} FirstWithTagAppend(s: seq<Element>, e: Element, tag: string)
    requires e.tag != tag
    ensures FirstWithTag(s + [e], tag) == FirstWithTag(s, tag)
  {
    if |s| > 0 {
      assert (s + [e])[1..] == s[1..] + [e];
      FirstWithTagAppend(s[1..], e, tag);
    }
  }

  lemma {:induction false} FirstNestedAppend(s: seq<Element>, e: Element, outer: string, inner: string)
    requires e.tag != outer
    ensures FirstNested(s + [e], outer, inner) == FirstNested(s, outer, inner)
  {
    if |s| > 0 {
      assert (s + [e])[1..] == s[1..] + [e];
      FirstNestedAppend(s[1..], e, outer, inner);
    }
  }

  /** Address elements whose addrtype is neither ipv4 nor mac are ignored:
      appending one to a host leaves its record unchanged. */
  lemma {:induction false} OtherAddrTypesIgnored(host: Element, e: Element)
    requires e.tag == "address"
    requires Attr(e, "addrtype") != Some("ipv4") && Attr(e, "addrtype") != Some("mac")
    ensures HostRecordOf(Element(host.tag, host.attrib, host.children + [e])) == HostRecordOf(host)
  {
    var s := host.children;
    var addrs := FindAll(s, "address");
    FindAllAppend(s, e, "address");
    assert FindAll(s + [e], "address") == addrs + [e];
    assert (addrs + [e])[..|addrs|] == addrs;
    assert LastOfAddrType(addrs + [e], "ipv4") == LastOfAddrType(addrs, "ipv4");
    assert LastOfAddrType(addrs + [e], "mac") == LastOfAddrType(addrs, "mac");
    FirstWithTagAppend(s, e, "status");
    FirstNestedAppend(s, e, "hostnames", "hostname");
  }
}
