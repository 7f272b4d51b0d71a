/** How a page is reached, by its host: the address ranges that are this Mac's
    own, or its local network's, tested by masks. */
module Routes {
  import opened Wrappers
  import opened Bytes
  import opened Address

  datatype Route = Syndeo | Direct | Local

  /** A range of addresses: those that share the network's first `length` bits. */
  datatype Range = Range(network: nat, length: nat)

  // ------------------------------------------------------------- words of `width` bits

  /** Bit by bit. */
  function And(a: nat, b: nat): nat {
    if a == 0 || b == 0 then 0 else 2 * And(a / 2, b / 2) + (if a % 2 == 1 && b % 2 == 1 then 1 else 0)
  }

  /** A word's bits moved up, those past its top lost. */
  function Shl(word: nat, shift: nat, width: nat): nat {
    if shift == 0 then word
    else
      var moved := 2 * Shl(word, shift - 1, width);
      if moved < Power2(width) then moved else moved - Power2(width)
  }

  /** Shifted, if by fewer bits than a word has. */
  function CheckedShl(word: nat, shift: nat, width: nat): Option<nat> {
    if shift < width then Some(Shl(word, shift, width)) else None
  }

  lemma {:induction false} PowerPositive(a: nat)
    ensures Power2(a) > 0
  {
    if a > 0 {
      PowerPositive(a - 1);
    }
  }

  lemma {:induction false} PowerGrows(a: nat, b: nat)
    requires a <= b
    ensures Power2(a) <= Power2(b)
  {
    if a < b {
      PowerGrows(a, b - 1);
    }
  }

  function Mask(length: nat, width: nat): nat
    requires length <= width
  {
    PowerPositive(width);
    var shifted := CheckedShl(Power2(width) - 1, width - length, width);
    if shifted.Some? then shifted.value else 0
  }

  /** Whether `ip` is in a range, as a mask tells. */
  predicate InRange(ip: nat, range: Range, width: nat)
    requires range.length <= width
  {
    And(ip, Mask(range.length, width)) == And(range.network, Mask(range.length, width))
  }

  // ------------------------------------------------------------- masks are intervals

  /** `a` with its last `low` bits cleared. */
  function Cleared(a: nat, low: nat): nat {
    if low == 0 then a else 2 * Cleared(a / 2, low - 1)
  }

  lemma {:induction false} ShiftedMax(shift: nat, width: nat)
    requires shift <= width
    ensures Power2(width) > 0 && Power2(shift) <= Power2(width)
    ensures Shl(Power2(width) - 1, shift, width) == Power2(width) - Power2(shift)
  {
    PowerPositive(width);
    PowerGrows(shift, width);
    if shift > 0 {
      ShiftedMax(shift - 1, width);
    }
  }

  lemma Odd(half: nat)
    ensures (2 * half + 1) / 2 == half && (2 * half + 1) % 2 == 1
  {
  }

  lemma {:induction false} AndOnes(a: nat, width: nat)
    requires a < Power2(width)
    ensures Power2(width) > 0 && And(a, Power2(width) - 1) == a
  {
    PowerPositive(width);
    if width > 0 && a > 0 {
      var ones := Power2(width - 1) - 1;
      PowerPositive(width - 1);
      AndOnes(a / 2, width - 1);
      Odd(ones);
      assert And(a, 2 * ones + 1) == 2 * And(a / 2, ones) + a % 2;
    }
  }

  lemma {:induction false} SmallCleared(a: nat, low: nat)
    requires a < Power2(low)
    ensures Cleared(a, low) == 0
  {
    if low > 0 {
      SmallCleared(a / 2, low - 1);
    }
  }

  lemma {:induction false} AndClears(a: nat, low: nat, width: nat)
    requires low <= width && a < Power2(width)
    ensures Power2(low) <= Power2(width) && And(a, Power2(width) - Power2(low)) == Cleared(a, low)
    decreases width
  {
    PowerGrows(low, width);
    if low == 0 {
      AndOnes(a, width);
    } else {
      AndClears(a / 2, low - 1, width - 1);
      var mask := Power2(width) - Power2(low);
      assert mask / 2 == Power2(width - 1) - Power2(low - 1) && mask % 2 == 0;
    }
  }

  lemma MaskClears(a: nat, length: nat, width: nat)
    requires length <= width && a < Power2(width)
    ensures And(a, Mask(length, width)) == Cleared(a, width - length)
  {
    ShiftedMax(width - length, width);
    if length == 0 {
      SmallCleared(a, width);
    } else {
      AndClears(a, width - length, width);
    }
  }

  lemma {:induction false} ClearedIs(a: nat, b: nat, low: nat)
    ensures Cleared(a, low) == Cleared(b, low) <==> Cleared(b, low) <= a < Cleared(b, low) + Power2(low)
  {
    if low > 0 {
      ClearedIs(a / 2, b / 2, low - 1);
    }
  }

  /** For every prefix length, none and all included, the mask tells exactly the
      addresses from the network's first to its last. */
  lemma RangeIsInterval(ip: nat, range: Range, width: nat)
    requires range.length <= width && ip < Power2(width) && range.network < Power2(width)
    ensures var low := width - range.length;
            InRange(ip, range, width) <==>
            Cleared(range.network, low) <= ip < Cleared(range.network, low) + Power2(low)
  {
    MaskClears(ip, range.length, width);
    MaskClears(range.network, range.length, width);
    ClearedIs(ip, range.network, width - range.length);
  }

  // ------------------------------------------------------------- networks written as addresses

  /** `top`, then `low` bits of zeros. */
  function Shifted(top: nat, low: nat): nat {
    if low == 0 then top else 2 * Shifted(top, low - 1)
  }

  lemma {:induction false} ShiftedCleared(top: nat, low: nat)
    ensures Cleared(Shifted(top, low), low) == Shifted(top, low)
  {
    if low > 0 {
      ShiftedCleared(top, low - 1);
    }
  }

  lemma {:induction false} ShiftedNext(top: nat, low: nat)
    ensures Shifted(top + 1, low) == Shifted(top, low) + Power2(low)
  {
    if low > 0 {
      ShiftedNext(top, low - 1);
    }
  }

  lemma {:induction false} ShiftedTwice(top: nat, a: nat, b: nat)
    ensures Shifted(Shifted(top, a), b) == Shifted(top, a + b)
  {
    if b > 0 {
      ShiftedTwice(top, a, b - 1);
    }
  }

  lemma {:induction false} ShiftedGrows(a: nat, b: nat, low: nat)
    requires a <= b
    ensures Shifted(a, low) <= Shifted(b, low)
    ensures a < b ==> Shifted(a, low) < Shifted(b, low)
  {
    if low > 0 {
      ShiftedGrows(a, b, low - 1);
    }
  }

  lemma {:induction false} ShiftedOne(low: nat)
    ensures Shifted(1, low) == Power2(low)
  {
    if low > 0 {
      ShiftedOne(low - 1);
    }
  }

  lemma ByteUp(top: nat)
    ensures Shifted(top, 4) == 16 * top && Shifted(top, 6) == 64 * top && Shifted(top, 8) == 256 * top
  {
    assert Shifted(top, 1) == 2 * top;
    assert Shifted(top, 2) == 4 * top;
    assert Shifted(top, 3) == 8 * top;
    assert Shifted(top, 4) == 16 * top;
    assert Shifted(top, 5) == 32 * top;
    assert Shifted(top, 6) == 64 * top;
    assert Shifted(top, 7) == 128 * top;
  }

  lemma LowBits(top: nat)
    ensures Shifted(top, 16) == 65536 * top && Shifted(top, 20) == 1048576 * top
    ensures Shifted(top, 22) == 4194304 * top && Shifted(top, 24) == 16777216 * top
  {
    ByteUp(top);
    ByteUp(256 * top);
    ByteUp(65536 * top);
    ShiftedTwice(top, 8, 8);
    ShiftedTwice(top, 16, 4);
    ShiftedTwice(top, 16, 6);
    ShiftedTwice(top, 16, 8);
  }

  lemma Words()
    ensures Power2(32) == 0x1_0000_0000 && Power2(128) == Shifted(65536, 112)
  {
    ShiftedOne(32);
    LowBits(1);
    LowBits(65536);
    ShiftedTwice(1, 16, 16);
    ShiftedOne(128);
    ShiftedTwice(1, 16, 112);
  }

  /** A network whose bits after its length are zeros: from it, up to the next. */
  lemma NetworkIsInterval(ip: nat, top: nat, low: nat, width: nat)
    requires low <= width && ip < Power2(width) && Shifted(top, low) < Power2(width)
    ensures InRange(ip, Range(Shifted(top, low), width - low), width) <==> Shifted(top, low) <= ip < Shifted(top + 1, low)
  {
    RangeIsInterval(ip, Range(Shifted(top, low), width - low), width);
    ShiftedCleared(top, low);
    ShiftedNext(top, low);
  }

  // ------------------------------------------------------------- the tables

  function Ipv4(a: nat, b: nat, c: nat, d: nat): nat {
    ((a * 256 + b) * 256 + c) * 256 + d
  }

  /** An IPv6 address whose groups but the first are zeros. */
  function Ipv6(first: nat): nat {
    Shifted(first, 112)
  }

  const DIRECT_V4 := Range(Ipv4(127, 0, 0, 0), 8)
  const DIRECT_V6 := Range(1, 128)

  const LOCAL_V4: seq<Range> := [
    Range(Ipv4(10, 0, 0, 0), 8), Range(Ipv4(172, 16, 0, 0), 12), Range(Ipv4(192, 168, 0, 0), 16),
    Range(Ipv4(169, 254, 0, 0), 16), Range(Ipv4(100, 64, 0, 0), 10)]

  const LOCAL_V6: seq<Range> := [Range(Ipv6(0xfc00), 7), Range(Ipv6(0xfe80), 10)]

  predicate InAny(ip: nat, ranges: seq<Range>, width: nat)
    requires forall i | 0 <= i < |ranges| :: ranges[i].length <= width
  {
    exists i | 0 <= i < |ranges| :: InRange(ip, ranges[i], width)
  }

  const MAPPED: nat := 0xFFFF_0000_0000

  /** The IPv4 address an IPv6 address carries, if it does. */
  function MappedV4(ip: nat): Option<nat> {
    if MAPPED <= ip < MAPPED + 0x1_0000_0000 then Some(ip - MAPPED) else None
  }

  function RouteV4(ip: nat): Route {
    if InRange(ip, DIRECT_V4, 32) then Direct
    else if InAny(ip, LOCAL_V4, 32) then Local
    else Syndeo
  }

  function RouteV6(ip: nat): Route {
    if InRange(ip, DIRECT_V6, 128) then Direct
    else if InAny(ip, LOCAL_V6, 128) then Local
    else Syndeo
  }

  function RouteTo(host: Host): Route {
    match host
    case Domain(name) => if name == "localhost" || name == "localhost." then Direct else Syndeo
    case V4(ip) => RouteV4(ip)
    case V6(ip) => if MappedV4(ip).Some? then RouteV4(MappedV4(ip).value) else RouteV6(ip)
  }

  function RouteOf(url: Url): Option<Route> {
    if IsWeb(url.scheme) && url.host.Some? then Some(RouteTo(url.host.value)) else None
  }

  /** A page named localhost, with a dot after it or without, is this Mac's; any
      other name goes through Syndeo, whatever it stands for; and what is not the
      web's has no route. */
  lemma NamesRoute(url: Url)
    requires url.host.Some? && url.host.value.Domain?
    ensures var name := url.host.value.name;
            && (RouteOf(url) == None <==> url.scheme != "http" && url.scheme != "https")
            && (RouteOf(url) == Some(Direct) <==> RouteOf(url).Some? && (name == "localhost" || name == "localhost."))
            && RouteOf(url) != Some(Local)
  {
  }

  /** The numbers that addresses are. */
  lemma Numbers()
    ensures Ipv4(127, 0, 0, 0) == 2130706432 && Ipv4(127, 255, 255, 255) == 2147483647
    ensures Ipv4(10, 0, 0, 0) == 167772160 && Ipv4(100, 64, 0, 0) == 1681915904
    ensures MAPPED == 281470681743360
  {
  }

  lemma InV4(ip: nat, range: Range, top: nat, low: nat, unit: nat, width: nat)
    requires width == 32 && low in {16, 20, 22, 24} && ip < 0x1_0000_0000
    requires unit == (if low == 16 then 65536 else if low == 20 then 1048576 else if low == 22 then 4194304 else 16777216)
    requires unit * top < 0x1_0000_0000 && range == Range(unit * top, width - low)
    ensures InRange(ip, range, width) <==> unit * top <= ip < unit * top + unit
  {
    Words();
    LowBits(top);
    LowBits(top + 1);
    NetworkIsInterval(ip, top, low, width);
  }

  /** The addresses a range of the IPv4 tables holds. */
  predicate Between(ip: nat, first: nat, last: nat) {
    first <= ip <= last
  }

  lemma Loopback(ip: nat)
    requires ip < 0x1_0000_0000
    ensures InRange(ip, DIRECT_V4, 32) <==> Between(ip, Ipv4(127, 0, 0, 0), Ipv4(127, 255, 255, 255))
  {
    InV4(ip, DIRECT_V4, 127, 24, 16777216, 32);
  }

  lemma LocalTen(ip: nat)
    requires ip < 0x1_0000_0000
    ensures InRange(ip, LOCAL_V4[0], 32) <==> Between(ip, Ipv4(10, 0, 0, 0), Ipv4(10, 255, 255, 255))
  {
    InV4(ip, LOCAL_V4[0], 10, 24, 16777216, 32);
  }

  lemma LocalSeventeen(ip: nat)
    requires ip < 0x1_0000_0000
    ensures InRange(ip, LOCAL_V4[1], 32) <==> Between(ip, Ipv4(172, 16, 0, 0), Ipv4(172, 31, 255, 255))
  {
    InV4(ip, LOCAL_V4[1], 2753, 20, 1048576, 32);
  }

  lemma LocalNineteen(ip: nat)
    requires ip < 0x1_0000_0000
    ensures InRange(ip, LOCAL_V4[2], 32) <==> Between(ip, Ipv4(192, 168, 0, 0), Ipv4(192, 168, 255, 255))
  {
    InV4(ip, LOCAL_V4[2], 49320, 16, 65536, 32);
  }

  lemma LinkLocal(ip: nat)
    requires ip < 0x1_0000_0000
    ensures InRange(ip, LOCAL_V4[3], 32) <==> Between(ip, Ipv4(169, 254, 0, 0), Ipv4(169, 254, 255, 255))
  {
    InV4(ip, LOCAL_V4[3], 43518, 16, 65536, 32);
  }

  lemma SharedRange(ip: nat)
    requires ip < 0x1_0000_0000
    ensures InRange(ip, LOCAL_V4[4], 32) <==> Between(ip, Ipv4(100, 64, 0, 0), Ipv4(100, 127, 255, 255))
  {
    InV4(ip, LOCAL_V4[4], 401, 22, 4194304, 32);
  }

  lemma AnyOfFive(ip: nat, ranges: seq<Range>, width: nat)
    requires |ranges| == 5 && forall i | 0 <= i < 5 :: ranges[i].length <= width
    ensures InAny(ip, ranges, width) <==>
            || InRange(ip, ranges[0], width) || InRange(ip, ranges[1], width) || InRange(ip, ranges[2], width)
            || InRange(ip, ranges[3], width) || InRange(ip, ranges[4], width)
  {
  }

  lemma AnyOfTwo(ip: nat, ranges: seq<Range>, width: nat)
    requires |ranges| == 2 && forall i | 0 <= i < 2 :: ranges[i].length <= width
    ensures InAny(ip, ranges, width) <==> InRange(ip, ranges[0], width) || InRange(ip, ranges[1], width)
  {
  }

  predicate IsLocalV4(ip: nat) {
    || Between(ip, Ipv4(10, 0, 0, 0), Ipv4(10, 255, 255, 255))
    || Between(ip, Ipv4(172, 16, 0, 0), Ipv4(172, 31, 255, 255))
    || Between(ip, Ipv4(192, 168, 0, 0), Ipv4(192, 168, 255, 255))
    || Between(ip, Ipv4(169, 254, 0, 0), Ipv4(169, 254, 255, 255))
    || Between(ip, Ipv4(100, 64, 0, 0), Ipv4(100, 127, 255, 255))
  }

  /** The IPv4 tables' masks are the addresses their comments name. */
  lemma LocalV4Is(ip: nat)
    requires ip < 0x1_0000_0000
    ensures InAny(ip, LOCAL_V4, 32) <==> IsLocalV4(ip)
  {
    AnyOfFive(ip, LOCAL_V4, 32);
    LocalTen(ip);
    LocalSeventeen(ip);
    LocalNineteen(ip);
    LinkLocal(ip);
    SharedRange(ip);
  }

  /** The first and last addresses of the local table's range `i`. */
  function Ends(i: nat): (nat, nat)
    requires i < 5
  {
    if i == 0 then (Ipv4(10, 0, 0, 0), Ipv4(10, 255, 255, 255))
    else if i == 1 then (Ipv4(172, 16, 0, 0), Ipv4(172, 31, 255, 255))
    else if i == 2 then (Ipv4(192, 168, 0, 0), Ipv4(192, 168, 255, 255))
    else if i == 3 then (Ipv4(169, 254, 0, 0), Ipv4(169, 254, 255, 255))
    else (Ipv4(100, 64, 0, 0), Ipv4(100, 127, 255, 255))
  }

  lemma LocalRow(ip: nat, i: nat)
    requires ip < 0x1_0000_0000 && i < 5
    ensures InRange(ip, LOCAL_V4[i], 32) <==> Between(ip, Ends(i).0, Ends(i).1)
  {
    if i == 0 {
      LocalTen(ip);
    } else if i == 1 {
      LocalSeventeen(ip);
    } else if i == 2 {
      LocalNineteen(ip);
    } else if i == 3 {
      LinkLocal(ip);
    } else {
      SharedRange(ip);
    }
  }

  lemma EndsApart(ip: nat, i: nat, j: nat)
    requires i < 5 && j < 5
    ensures i != j ==> !(Between(ip, Ends(i).0, Ends(i).1) && Between(ip, Ends(j).0, Ends(j).1))
    ensures !(Between(ip, Ends(i).0, Ends(i).1) && Between(ip, Ipv4(127, 0, 0, 0), Ipv4(127, 255, 255, 255)))
  {
  }

  /** No address is in two of the IPv4 tables' ranges. */
  lemma V4Disjoint(ip: nat, i: nat, j: nat)
    requires ip < 0x1_0000_0000 && i < 5 && j < 5
    ensures i != j ==> !(InRange(ip, LOCAL_V4[i], 32) && InRange(ip, LOCAL_V4[j], 32))
    ensures !(InRange(ip, LOCAL_V4[i], 32) && InRange(ip, DIRECT_V4, 32))
  {
    Loopback(ip);
    LocalRow(ip, i);
    LocalRow(ip, j);
    EndsApart(ip, i, j);
  }

  /** The route to every IPv4 address; and it is the same in whichever order the
      tables are tried. */
  lemma RouteV4Is(ip: nat)
    requires ip < 0x1_0000_0000
    ensures RouteV4(ip) == Direct <==> Between(ip, Ipv4(127, 0, 0, 0), Ipv4(127, 255, 255, 255))
    ensures RouteV4(ip) == Local <==> IsLocalV4(ip)
    ensures RouteV4(ip) == if InAny(ip, LOCAL_V4, 32) then Local else if InRange(ip, DIRECT_V4, 32) then Direct else Syndeo
  {
    Loopback(ip);
    LocalV4Is(ip);
  }

  // ------------------------------------------------------------- IPv6

  lemma GroupsUp(top: nat, bits: nat)
    requires bits == 9 || bits == 6
    ensures Shifted(top, 112 + bits) == Ipv6(if bits == 9 then 512 * top else 64 * top)
  {
    ByteUp(top);
    assert bits == 9 ==> Shifted(top, 9) == 512 * top;
    ShiftedTwice(top, bits, 112);
  }

  lemma InV6(ip: nat, range: Range, top: nat, bits: nat, first: nat, next: nat, width: nat)
    requires width == 128 && ip < Power2(128) && (bits == 9 || bits == 6)
    requires first == (if bits == 9 then 512 * top else 64 * top) < 65536 && next == first + if bits == 9 then 512 else 64
    requires range == Range(Ipv6(first), 16 - bits)
    ensures InRange(ip, range, width) <==> Ipv6(first) <= ip < Ipv6(next)
  {
    var low, network := 112 + bits, Ipv6(first);
    GroupsUp(top, bits);
    GroupsUp(top + 1, bits);
    BelowTop(first);
    assert Shifted(top, low) == network && Shifted(top + 1, low) == Ipv6(next);
    NetworkIsInterval(ip, top, low, width);
  }

  lemma BelowTop(first: nat)
    requires first < 65536
    ensures Ipv6(first) < Power2(128)
  {
    Words();
    ShiftedGrows(first, 65536, 112);
  }

  lemma LoopbackV6(ip: nat, range: Range, width: nat)
    requires width == 128 && ip < Power2(128) && range == DIRECT_V6
    ensures InRange(ip, range, width) <==> ip == 1
  {
    PowerGrows(1, 128);
    NetworkIsInterval(ip, 1, 0, width);
  }

  /** The IPv6 tables, as the addresses they hold. */
  lemma LocalV6Is(ip: nat)
    requires ip < Power2(128)
    ensures InAny(ip, LOCAL_V6, 128) <==> Ipv6(0xfc00) <= ip < Ipv6(0xfe00) || Ipv6(0xfe80) <= ip < Ipv6(0xfec0)
    ensures !(InRange(ip, LOCAL_V6[0], 128) && InRange(ip, LOCAL_V6[1], 128))
  {
    AnyOfTwo(ip, LOCAL_V6, 128);
    InV6(ip, LOCAL_V6[0], 126, 9, 0xfc00, 0xfe00, 128);
    InV6(ip, LOCAL_V6[1], 1018, 6, 0xfe80, 0xfec0, 128);
    ShiftedGrows(0xfe00, 0xfe80, 112);
  }

  lemma FarAboveMapped(first: nat)
    requires first >= 2
    ensures Ipv6(first) > MAPPED + 0x1_0000_0000
  {
    LowBits(first);
    LowBits(16777216 * first);
    ShiftedTwice(first, 24, 24);
    ShiftedTwice(first, 48, 64);
    AtLeast(Shifted(first, 48), 64);
  }

  lemma {:induction false} AtLeast(top: nat, low: nat)
    ensures Shifted(top, low) >= top
  {
    if low > 0 {
      AtLeast(top, low - 1);
    }
  }

  /** The route to every IPv6 address that carries no IPv4 one; and an IPv4
      address in IPv6 is in none of the IPv6 tables, so it is only ever routed
      as the IPv4 address it is. */
  lemma RouteV6Is(ip: nat)
    requires ip < Power2(128)
    ensures RouteV6(ip) == Direct <==> ip == 1
    ensures RouteV6(ip) == Local <==> Ipv6(0xfc00) <= ip < Ipv6(0xfe00) || Ipv6(0xfe80) <= ip < Ipv6(0xfec0)
    ensures MappedV4(ip).Some? ==> RouteV6(ip) == Syndeo
  {
    LoopbackV6(ip, DIRECT_V6, 128);
    LocalV6Is(ip);
    FarAboveMapped(0xfc00);
    ShiftedGrows(0xfc00, 0xfe80, 112);
  }

  /** A page at an IPv4 address is reached the same way when the address is
      written as IPv6; at any other IPv6 address, as the IPv6 tables say. */
  lemma MappedAlike(ip: nat, other: nat)
    requires ip < 0x1_0000_0000 && MappedV4(other).None?
    ensures RouteTo(V6(MAPPED + ip)) == RouteTo(V4(ip)) && RouteTo(V6(other)) == RouteV6(other)
    ensures RouteTo(V6(MAPPED + ip)) == Direct <==> Between(ip, Ipv4(127, 0, 0, 0), Ipv4(127, 255, 255, 255))
    ensures RouteTo(V6(MAPPED + ip)) == Local <==> IsLocalV4(ip)
  {
    RouteV4Is(ip);
  }

  /** The route to every IPv6 address there is. */
  lemma AnyV6(ip: nat)
    requires ip < Power2(128)
    ensures RouteTo(V6(ip)) == Direct <==>
            ip == 1 || Between(ip, MAPPED + Ipv4(127, 0, 0, 0), MAPPED + Ipv4(127, 255, 255, 255))
    ensures RouteTo(V6(ip)) == Local <==>
            || Ipv6(0xfc00) <= ip < Ipv6(0xfe00) || Ipv6(0xfe80) <= ip < Ipv6(0xfec0)
            || (MappedV4(ip).Some? && IsLocalV4(MappedV4(ip).value))
  {
    if MappedV4(ip).Some? {
      RouteV4Is(MappedV4(ip).value);
      RouteV6Is(ip);
    } else {
      RouteV6Is(ip);
    }
  }
}
