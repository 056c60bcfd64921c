/**
 IP addresses, prefixes and the host-attachment test: internal/networkprobe/attachment.go, the parts of Go's `netip`
 it is built on, and the gateway address rendered by internal/reconcilers/coredhcp_config.go. Addresses and prefix
 lengths are bit-vectors, as in the source, so that shifts and masks mean what they mean there.
 */
module Addresses {
  import opened Options
  import Bits

  datatype Addr = V4(v4: bv32) | V6(v6: bv128)

  /** IPv4-mapped IPv6 addresses are classified by the IPv4 address they carry. */
  predicate Is4In6(a: Addr) { a.V6? && a.v6 >> 32 == 0xFFFF }

  function Unmap(a: Addr): Addr { if Is4In6(a) then V4((a.v6 & 0xFFFF_FFFF) as bv32) else a }

  predicate IsLoopback(a: Addr) {
    match Unmap(a)
    case V4(v) => v >> 24 == 127
    case V6(v) => v == 1
  }

  predicate IsMulticast(a: Addr) {
    match Unmap(a)
    case V4(v) => v >> 28 == 0xE
    case V6(v) => v >> 120 == 0xFF
  }

  predicate IsLinkLocalUnicast(a: Addr) {
    match Unmap(a)
    case V4(v) => v >> 16 == 0xA9FE
    case V6(v) => v >> 118 == 0x3FA
  }

  predicate IsGlobalUnicast(a: Addr) {
    && Unmap(a) != V4(0) && Unmap(a) != V4(0xFFFF_FFFF) && a != V6(0)
    && !IsLoopback(a) && !IsMulticast(a) && !IsLinkLocalUnicast(a)
  }

  datatype Prefix = Prefix(addr: Addr, bits: bv8) {
    predicate Valid() { bits <= if addr.V4? then 32 else 128 }

    /** Clears the host bits. */
    function Masked(): (p: Prefix)
      requires Valid()
      ensures p.Valid() && p.bits == bits && p.addr.V4? == addr.V4?
    {
      match addr
      case V4(v) => Prefix(V4(Bits.Network(Bits.HostMask(bits), v)), bits)
      case V6(v) => Prefix(V6(Network6(HostMask6(bits), v)), bits)
    }

    /** Addresses of the other family never match. */
    predicate Contains(a: Addr)
      requires Valid()
    {
      match (addr, a)
      case (V4(p), V4(v)) => Bits.SameBlock(Bits.HostMask(bits), p, v)
      case (V6(p), V6(v)) => SameBlock6(HostMask6(bits), p, v)
      case _ => false
    }
  }

  function HostMask6(bits: bv8): bv128
    requires bits <= 128
  {
    ((1 as bv128) << (128 - bits)) - 1
  }

  function Network6(m: bv128, p: bv128): bv128 { p & !m }

  predicate SameBlock6(m: bv128, p: bv128, v: bv128) { (v ^ p) & !m == 0 }

  // ----- what the classes are -----

  /** The special-purpose blocks in dotted and colon notation: 127/8, 224/4, 169.254/16, ff00::/8, fe80::/10, ::1. */
  lemma Classes(v: bv32, w: bv128)
    ensures IsLoopback(V4(v)) <==> 0x7F00_0000 <= v <= 0x7FFF_FFFF
    ensures IsMulticast(V4(v)) <==> 0xE000_0000 <= v <= 0xEFFF_FFFF
    ensures IsLinkLocalUnicast(V4(v)) <==> 0xA9FE_0000 <= v <= 0xA9FE_FFFF
    ensures Is4In6(V6(w)) <==> 0xFFFF_0000_0000 <= w <= 0xFFFF_FFFF_FFFF
    ensures !Is4In6(V6(w)) ==>
      && (IsLoopback(V6(w)) <==> w == 1)
      && (IsMulticast(V6(w)) <==> 0xFF00_0000_0000_0000_0000_0000_0000_0000 <= w)
      && (IsLinkLocalUnicast(V6(w)) <==>
            0xFE80_0000_0000_0000_0000_0000_0000_0000 <= w <= 0xFEBF_FFFF_FFFF_FFFF_FFFF_FFFF_FFFF_FFFF)
  {
  }

  /** Global unicast is everything else but the unspecified addresses and the IPv4 broadcast address. */
  lemma GlobalUnicastIff(v: bv32, w: bv128)
    ensures IsGlobalUnicast(V4(v)) <==>
      v != 0 && v != 0xFFFF_FFFF && !IsLoopback(V4(v)) && !IsMulticast(V4(v)) && !IsLinkLocalUnicast(V4(v))
    ensures !Is4In6(V6(w)) ==>
      (IsGlobalUnicast(V6(w)) <==> 1 < w && !IsMulticast(V6(w)) && !IsLinkLocalUnicast(V6(w)))
  {
    Classes(v, w);
    assert w != 0 && w != 1 <==> 1 < w;
    hide IsMulticast, IsLinkLocalUnicast;
  }

  /** An IPv4 address inside an IPv6 one is classified as itself. */
  lemma MappedIsItself(v: bv32)
    ensures Unmap(V6(0xFFFF_0000_0000 | v as bv128)) == V4(v)
  {
  }

  // ----- attachment.go -----

  datatype Address = Address(ip: Addr, unusable: bool)

  datatype Interface = Interface(up: bool, loopback: bool, addresses: seq<Address>)

  /**
   Networks wider than /31 reserve their lowest and highest addresses (section 2.1 of RFC 3021 lifts this for /31).
   */
  predicate UsableIPv4(target: Prefix, ip: Addr)
    requires target.Valid()
    requires ip.V4? ==> target.addr.V4?
  {
    if !ip.V4? || target.bits >= 31 then true
    else if ip == target.Masked().addr then false
    else
      !Bits.AllHostBitsSet(Bits.HostMask(target.bits), ip.v4)
  }

  predicate AddressAttaches(target: Prefix, a: Address)
    requires target.Valid()
  {
    !a.unusable && IsGlobalUnicast(a.ip) && !IsLoopback(a.ip) && target.Contains(a.ip) && UsableIPv4(target, a.ip)
  }

  /** The nested search of the source, interface by interface and address by address. */
  predicate Attached(target: Prefix, interfaces: seq<Interface>)
    requires target.Valid()
  {
    interfaces != [] &&
    ((interfaces[0].up && !interfaces[0].loopback && AnyAttaches(target, interfaces[0].addresses))
     || Attached(target, interfaces[1..]))
  }

  predicate AnyAttaches(target: Prefix, addresses: seq<Address>)
    requires target.Valid()
  {
    addresses != [] && (AddressAttaches(target, addresses[0]) || AnyAttaches(target, addresses[1..]))
  }

  /** What attachment means: the address is a member of the block and, for IPv4 wider than /31, strictly inside it. */
  predicate Inside(target: Prefix, ip: Addr)
    requires target.Valid()
  {
    match ip
    case V4(v) =>
      target.addr.V4? &&
      var m := Bits.HostMask(target.bits);
      if target.bits < 31 then Bits.StrictlyInRange(m, target.addr.v4, v) else Bits.InRange(m, target.addr.v4, v)
    case V6(_) => target.Contains(ip)
  }

  /** The mask test on the value of an IPv4 address is membership in the open, or for /31 and /32 closed, range. */
  lemma MaskTestIsRange(target: Prefix, v: bv32)
    requires target.Valid() && target.addr.V4?
    ensures target.Contains(V4(v)) && UsableIPv4(target, V4(v)) <==> Inside(target, V4(v))
  {
    hide Bits.HostMask, Bits.Network, Bits.SameBlock, Bits.AllHostBitsSet, Bits.InRange, Bits.StrictlyInRange;
    var p := target.addr.v4;
    Bits.PrefixIsRange(target.bits, p, v);
    if target.Contains(V4(v)) {
      Bits.UsableIsInterior(target.bits, p, v);
    } else if Bits.StrictlyInRange(Bits.HostMask(target.bits), p, v) {
      Bits.StrictIsRange(target.bits, p, v);
    }
  }

  lemma AddressAttachesIffInside(target: Prefix, a: Address)
    requires target.Valid()
    ensures AddressAttaches(target, a) <==> !a.unusable && IsGlobalUnicast(a.ip) && Inside(target, a.ip)
  {
    if a.ip.V4? && target.addr.V4? {
      hide Inside, UsableIPv4, IsLoopback, IsMulticast, IsLinkLocalUnicast, Unmap;
      MaskTestIsRange(target, a.ip.v4);
    } else {
      hide IsLoopback, IsMulticast, IsLinkLocalUnicast, Unmap;
    }
  }

  lemma {:induction false} AnyAttachesIffExists(target: Prefix, addresses: seq<Address>)
    requires target.Valid()
    ensures AnyAttaches(target, addresses) <==> exists a :: a in addresses && AddressAttaches(target, a)
  {
    if addresses != [] {
      AnyAttachesIffExists(target, addresses[1..]);
      assert forall a :: a in addresses <==> a == addresses[0] || a in addresses[1..];
    }
  }

  predicate Serves(target: Prefix, i: Interface, a: Address)
    requires target.Valid()
  {
    i.up && !i.loopback && a in i.addresses && !a.unusable && IsGlobalUnicast(a.ip) && Inside(target, a.ip)
  }

  /**
   A host is attached exactly when an up, non-loopback interface carries a usable unicast address inside the block.
   */
  lemma {:induction false} AttachedIff(target: Prefix, interfaces: seq<Interface>)
    requires target.Valid()
    ensures Attached(target, interfaces) <==> exists i, a :: i in interfaces && Serves(target, i, a)
  {
    hide AddressAttaches, IsGlobalUnicast, Inside;
    if interfaces != [] {
      var first := interfaces[0];
      AttachedIff(target, interfaces[1..]);
      assert forall i :: i in interfaces <==> i == first || i in interfaces[1..];
      AnyAttachesIffExists(target, first.addresses);
      forall a ensures AddressAttaches(target, a) <==> !a.unusable && IsGlobalUnicast(a.ip) && Inside(target, a.ip) {
        AddressAttachesIffInside(target, a);
      }
      if AnyAttaches(target, first.addresses) && first.up && !first.loopback {
        var a :| a in first.addresses && AddressAttaches(target, a);
        assert Serves(target, first, a);
      }
      assert (exists i, a :: i in interfaces && Serves(target, i, a)) <==>
        (exists a :: Serves(target, first, a)) || (exists i, a :: i in interfaces[1..] && Serves(target, i, a));
    }
  }

  lemma MaskDoubles6(bits: bv8)
    requires 0 < bits <= 128
    ensures HostMask6(128) == 0 && HostMask6(bits - 1) == (HostMask6(bits) << 1) + 1
  {
  }

  lemma EqualOutside6(m: bv128, p: bv128, v: bv128)
    requires p & !m == v & !m
    ensures (v ^ p) & !m == 0
  {
  }

  lemma OutsideEqual6(m: bv128, p: bv128, v: bv128)
    requires (v ^ p) & !m == 0
    ensures p & !m == v & !m
  {
  }

  lemma SameNetwork6(m: bv128, p: bv128, v: bv128)
    ensures Network6(m, p) == Network6(m, v) <==> SameBlock6(m, p, v)
  {
    if SameBlock6(m, p, v) {
      OutsideEqual6(m, p, v);
    } else if Network6(m, p) == Network6(m, v) {
      EqualOutside6(m, p, v);
    }
  }

  lemma NetworkOnce6(m: bv128, p: bv128)
    ensures Network6(m, Network6(m, p)) == Network6(m, p)
  {
  }

  lemma BlockOfNetwork6(m: bv128, p: bv128, v: bv128)
    ensures SameBlock6(m, Network6(m, p), v) <==> SameBlock6(m, p, v)
  {
    NetworkOnce6(m, p);
    hide *;
    SameNetwork6(m, Network6(m, p), v);
    SameNetwork6(m, p, v);
  }

  /** Masked prefixes are equal exactly when the prefixes are the same block: equally long, and one holds the other. */
  lemma MaskedIff(p: Prefix, q: Prefix)
    requires p.Valid() && q.Valid()
    ensures p.Masked() == q.Masked() <==> p.bits == q.bits && p.Contains(q.addr)
  {
    hide Bits.HostMask, Bits.Network, Bits.SameBlock, HostMask6, Network6, SameBlock6;
    if p.bits == q.bits {
      match (p.addr, q.addr)
      case (V4(a), V4(b)) => Bits.SameNetwork(Bits.HostMask(p.bits), a, b);
      case (V6(a), V6(b)) => SameNetwork6(HostMask6(p.bits), a, b);
      case _ =>
    }
  }

  /** Masking changes nothing about who is inside. */
  lemma InsideMasked(p: Prefix, ip: Addr)
    requires p.Valid()
    ensures Inside(p.Masked(), ip) <==> Inside(p, ip)
  {
    hide Bits.HostMask, Bits.Network, Bits.InRange, Bits.StrictlyInRange, HostMask6, Network6, SameBlock6;
    match (p.addr, ip)
    case (V4(a), V4(v)) => Bits.RangeOfNetwork(Bits.HostMask(p.bits), a, v);
    case (V6(a), V6(v)) => BlockOfNetwork6(HostMask6(p.bits), a, v);
    case _ =>
  }

  // ----- coredhcp_config.go -----

  function Value(b: seq<bv8>): bv32
    requires |b| == 4
  {
    Bits.Value(b[0], b[1], b[2], b[3])
  }

  /** The last byte is incremented on its own, wrapping at 256. */
  function NextHost(ip: seq<bv8>): seq<bv8>
    requires |ip| == 4
  {
    ip[3 := ip[3] + 1]
  }

  /** `net.IP.To4`: four bytes as they are, or the last four of an IPv4-mapped sixteen. */
  function To4(ip: seq<bv8>): (r: Option<seq<bv8>>)
    ensures r.Some? ==> |r.value| == 4
  {
    if |ip| == 4 then Some(ip)
    else if |ip| == 16 && (forall i :: 0 <= i < 10 ==> ip[i] == 0) && ip[10] == 0xFF
        && ip[11] == 0xFF then Some(ip[12..])
    else None
  }

  /** Four bytes, on their own or behind the prefix ::ffff:0:0/96. */
  lemma To4Iff(ip: seq<bv8>, four: seq<bv8>)
    ensures To4(ip) == Some(four) <==>
      |four| == 4 && (ip == four || ip == [0, 0, 0, 0, 0, 0, 0, 0, 0, 0, 0xFF, 0xFF] + four)
  {
    if |ip| == 16 {
      assert ip == ip[..12] + ip[12..];
      assert To4(ip).Some? <==> ip[..12] == [0, 0, 0, 0, 0, 0, 0, 0, 0, 0, 0xFF, 0xFF];
    }
  }

  /**
   The gateway of a generated CoreDHCP config; null for other than IPv4 networks and for blocks without a host range.
   */
  method FirstUsableIPv4(ip: array<bv8>, ones: nat, bits: nat) returns (out: array?<bv8>)
    ensures out == null <==> To4(ip[..]).None? || bits != 32 || ones >= 31
    ensures out != null ==> fresh(out) && out[..] == NextHost(To4(ip[..]).value)
  {
    var four := To4(ip[..]);
    if four.None? || bits != 32 || ones >= 31 {
      return null;
    }
    out := new bv8[4];
    for i := 0 to 4
      invariant forall k :: 0 <= k < i ==> out[k] == four.value[k]
    {
      out[i] := four.value[i];
    }
    out[3] := out[3] + 1;
  }

  /**
   `net.ParseCIDR` has already masked the network address, so for every IPv4 block with host addresses the gateway is
   the network address plus one, with no carry lost, and the probe's own test accepts it as a usable member.
   */
  lemma GatewayIsFirstHost(ip: seq<bv8>, ones: bv8)
    requires |ip| == 4 && ones < 31
    requires Prefix(V4(Value(ip)), ones).Masked() == Prefix(V4(Value(ip)), ones)
    ensures Value(NextHost(ip)) == Value(ip) + 1
    ensures Prefix(V4(Value(ip)), ones).Contains(V4(Value(NextHost(ip))))
    ensures UsableIPv4(Prefix(V4(Value(ip)), ones), V4(Value(NextHost(ip))))
  {
    hide Bits.HostMask, Bits.Network, Bits.SameBlock, Bits.AllHostBitsSet, Bits.Value;
    Bits.FirstHost(ones, ip[0], ip[1], ip[2], ip[3]);
  }
}
