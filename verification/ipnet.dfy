/**
 * The slice of Go's net package the trusted-subnet guards use: an IP address as its
 * bytes (4 for IPv4, 16 for IPv6 and for IPv4 in its IPv4-mapped form), a network as
 * its address and mask, and IPNet.Contains, which compares the masked bytes (the prefix
 * match of section 3.1 of RFC 4632). Parsing text (net.ParseIP, net.ParseCIDR) is not
 * modelled: the guards take those parsers as parameters.
 */
module IpNet {
  import opened Wrappers

  type IP = seq<bv8>

  datatype IPNet = IPNet(ip: IP, mask: seq<bv8>)

  /** The twelve-byte prefix of an IPv4-mapped IPv6 address (::ffff:0:0/96). */
  const V4InV6Prefix: seq<bv8> := [0, 0, 0, 0, 0, 0, 0, 0, 0, 0, 0xff, 0xff]

  /** IP.To4: the four-byte form of an IPv4 address, None for anything else. */
  function To4(ip: IP): (r: Option<IP>)
    ensures r.Some? ==> |r.value| == 4
    ensures |ip| == 4 ==> r == Some(ip)
  {
    if |ip| == 4 then Some(ip)
    else if |ip| == 16 && ip[..12] == V4InV6Prefix then Some(ip[12..])
    else None
  }

  /** networkNumberAndMask: the network's bytes and a mask of the same length, if they fit. */
  function NetworkNumberAndMask(n: IPNet): (r: Option<(IP, seq<bv8>)>)
    ensures r.Some? ==> |r.value.0| == |r.value.1| && (|r.value.0| == 4 || |r.value.0| == 16)
  {
    var ip := if To4(n.ip).Some? then To4(n.ip).value else n.ip;
    if |ip| != 4 && |ip| != 16 then None
    else if |n.mask| == 4 then (if |ip| != 4 then None else Some((ip, n.mask)))
    else if |n.mask| == 16 then (if |ip| == 4 then Some((ip, n.mask[12..])) else Some((ip, n.mask)))
    else None
  }

  /** IPNet.Contains: same length after To4, and equal bytes under the mask. */
  function Contains(n: IPNet, ip: IP): (ok: bool)
    ensures ok ==> NetworkNumberAndMask(n).Some?
  {
    match NetworkNumberAndMask(n)
    case None => false
    case Some((nn, m)) =>
      var x := if To4(ip).Some? then To4(ip).value else ip;
      |x| == |nn| && forall i :: 0 <= i < |x| ==> nn[i] & m[i] == x[i] & m[i]
  }

  /** An IPv4 address and its IPv4-mapped form are in the same networks. */
  lemma ContainsMappedForm(n: IPNet, v4: IP)
    requires |v4| == 4
    ensures Contains(n, V4InV6Prefix + v4) == Contains(n, v4)
  {
    var mapped := V4InV6Prefix + v4;
    assert mapped[..12] == V4InV6Prefix;
    assert mapped[12..] == v4;
  }

  /** A single-host network (all mask bits set) holds exactly its own address. */
  lemma HostNetwork(a: IP, ip: IP)
    requires |a| == 4 && |ip| == 4
    ensures Contains(IPNet(a, [0xff, 0xff, 0xff, 0xff]), ip) <==> ip == a
  {
    var n := IPNet(a, [0xff, 0xff, 0xff, 0xff]);
    if Contains(n, ip) {
      forall i | 0 <= i < 4 ensures ip[i] == a[i] {
        assert a[i] & 0xff == ip[i] & 0xff;
        assert a[i] & 0xff == a[i] && ip[i] & 0xff == ip[i];
      }
    }
  }

  /** The zero mask (0.0.0.0/0) admits every IPv4 address. */
  lemma AnyNetwork(a: IP, ip: IP)
    requires |a| == 4 && |ip| == 4
    ensures Contains(IPNet(a, [0, 0, 0, 0]), ip)
  {
    var m: seq<bv8> := [0, 0, 0, 0];
    forall i | 0 <= i < 4 ensures a[i] & m[i] == ip[i] & m[i] {
      assert a[i] & 0 == 0 && ip[i] & 0 == 0;
    }
  }

  /** An IPv6 address is never in an IPv4 network. */
  lemma FamiliesDoNotMix(n: IPNet, ip: IP)
    requires |n.ip| == 4 && |ip| == 16 && ip[..12] != V4InV6Prefix
    ensures !Contains(n, ip)
  {
  }
}
