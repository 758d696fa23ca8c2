/**
 * Which IPv6 addresses the outbound target guard refuses
 * (src/common/outbound-target.guard.ts).
 */
module BlockedIpv6 {
  import opened Bits
  import opened Common
  import opened Ipv6
  import opened OutboundTarget

  predicate IsAddress(g: seq<nat>) {
    |g| == 8 && forall i | 0 <= i < 8 :: g[i] < 65536
  }

  /** The last two groups in dotted decimal. */
  function MappedText(g: seq<nat>): string
    requires |g| == 8
  {
    DecimalText(ShiftRight(g[6], 8)) + "." + DecimalText(And(g[6], 0xff)) + "."
    + DecimalText(ShiftRight(g[7], 8)) + "." + DecimalText(And(g[7], 0xff))
  }

  function IsBlockedGroups(g: seq<nat>): bool
    requires IsAddress(g)
  {
    if g == Zeros(8) then true
    else if g == Zeros(7) + [1] then true
    else if And(g[0], 0xfe00) == 0xfc00 then true
    else if And(g[0], 0xffc0) == 0xfe80 then true
    else if And(g[0], 0xff00) == 0xff00 then true
    else if g[0] == 0x0064 && g[1] == 0xff9b then true
    else if g[..5] == Zeros(5) then IsBlockedIpv4(MappedText(g))
    else false
  }

  function IsBlockedIpv6(ip: string): bool {
    if Groups(ip) == None then true
    else
      GroupsAreAddress(ip);
      IsBlockedGroups(Groups(ip).value)
  }

  // ---- what the parser returns is an address --------------------------------------------

  lemma {:induction false} HexBound(s: string)
    ensures HexValue(s) < Power(16, |s|)
    decreases |s|
  {
    if s != "" {
      HexBound(s[..|s| - 1]);
    }
  }

  lemma HextetBound(s: string)
    requires IsHextet(s)
    ensures HexValue(s) < 65536
  {
    HexBound(s);
    assert Power(16, 1) == 16 && Power(16, 2) == 256;
    assert Power(16, 3) == 4096;
    assert Power(16, 4) == 65536;
    hide HexValue;
  }

  lemma SegmentBound(s: string)
    ensures SegmentGroups(s).Some? ==> forall i | 0 <= i < |SegmentGroups(s).value| :: SegmentGroups(s).value[i] < 65536
  {
    if s != "" && SegmentGroups(s).Some? {
      var parts := Split(s, ':');
      hide Split;
      forall i | 0 <= i < |parts| ensures HexValue(parts[i]) < 65536 {
        HextetBound(parts[i]);
      }
    }
  }

  lemma GroupsAreAddress(ip: string)
    ensures Groups(ip).Some? ==> IsAddress(Groups(ip).value)
  {
    if Groups(ip).Some? {
      var halves := SplitDouble(RewriteTail(Split(ip, '%')[0]).value);
      SegmentBound(halves[0]);
      if |halves| == 2 {
        SegmentBound(halves[1]);
      }
      hide SegmentGroups, SplitDouble, RewriteTail, Split;
    }
  }

  // ---- masks are prefixes ---------------------------------------------------------------------

  /** Masking away the low k of sixteen bits keeps the quotient by 2^k. */
  lemma HighMask(x: nat, bits: nat, k: nat)
    requires x < Pow2(k) * Pow2(bits)
    ensures And(x, ShiftLeft(Pow2(bits) - 1, k)) == ShiftRight(x, k) * Pow2(k)
  {
    AndShiftedMask(x, Pow2(bits) - 1, k);
    AndLowMask(ShiftRight(x, k), bits);
    QuotientBound(x, Pow2(k), Pow2(bits));
    hide And, Pow2;
    SmallRemainder(ShiftRight(x, k), Pow2(bits));
  }

  lemma QuotientBound(x: nat, p: nat, q: nat)
    requires p > 0 && x < p * q
    ensures x / p < q
  {
    var d := x / p;
    assert p * d <= x;
    TimesAtMost(p, q, d);
  }

  lemma TimesAtMost(p: nat, q: nat, d: nat)
    ensures d >= q ==> p * d >= p * q
  {
    if d >= q {
      assert p * d == p * q + p * (d - q);
    }
  }

  lemma SmallRemainder(x: nat, d: nat)
    requires x < d
    ensures x % d == x
  {
  }

  lemma MasksArePrefixes(x: nat)
    requires x < 65536
    ensures And(x, 0xfe00) == 0xfc00 <==> x / 512 == 0xfc00 / 512
    ensures And(x, 0xffc0) == 0xfe80 <==> x / 64 == 0xfe80 / 64
    ensures And(x, 0xff00) == 0xff00 <==> x / 256 == 0xff00 / 256
    ensures And(x, 0xff) == x % 256
  {
    PowersOfTwo();
    hide And;
    HighMask(x, 7, 9);
    HighMask(x, 10, 6);
    HighMask(x, 8, 8);
    AndLowMask(x, 8);
    hide Pow2;
  }

  lemma LeadingBitsOfGroups(x: nat, y: nat)
    requires x < 65536 && y < 65536
    ensures SameLeadingBits(x, y, 16, 16) <==> x == y
    ensures SameLeadingBits(x, y, 16, 10) <==> x / 64 == y / 64
    ensures SameLeadingBits(x, y, 16, 8) <==> x / 256 == y / 256
    ensures SameLeadingBits(x, y, 16, 7) <==> x / 512 == y / 512
    ensures SameLeadingBits(x, y, 16, 0)
  {
    PowersOfTwo();
    hide Pow2;
  }

  // ---- the networks -----------------------------------------------------------------------------

  const UNSPECIFIED := Network([0, 0, 0, 0, 0, 0, 0, 0], 128)
  const LOOPBACK := Network([0, 0, 0, 0, 0, 0, 0, 1], 128)
  const UNIQUE_LOCAL := Network([0xfc00, 0, 0, 0, 0, 0, 0, 0], 7)
  const LINK_LOCAL := Network([0xfe80, 0, 0, 0, 0, 0, 0, 0], 10)
  const MULTICAST := Network([0xff00, 0, 0, 0, 0, 0, 0, 0], 8)
  /** The range the code tests. */
  const NAT64 := Network([0x64, 0xff9b, 0, 0, 0, 0, 0, 0], 32)
  /** The range its comment names. */
  const NAT64_DOCUMENTED := Network([0x64, 0xff9b, 0, 0, 0, 0, 0, 0], 96)
  /** Addresses whose last 32 bits are read as an IPv4 address. */
  const EMBEDDED := Network([0, 0, 0, 0, 0, 0, 0, 0], 80)

  const NETWORKS_V6: seq<Network> := [UNSPECIFIED, LOOPBACK, UNIQUE_LOCAL, LINK_LOCAL, MULTICAST, NAT64]

  const DOCUMENTED_V6: seq<Network> := [UNSPECIFIED, LOOPBACK, UNIQUE_LOCAL, LINK_LOCAL, MULTICAST, NAT64_DOCUMENTED]

  /** Which leading groups must be equal, and how much of the first one. */
  predicate InByGroups(g: seq<nat>, net: Network)
    requires |g| == |net.base| == 8
  {
    if net.length == 128 then g == net.base
    else if net.length == 96 then g[..6] == net.base[..6]
    else if net.length == 80 then g[..5] == net.base[..5]
    else if net.length == 32 then g[..2] == net.base[..2]
    else if net.length == 10 then g[0] / 64 == net.base[0] / 64
    else if net.length == 8 then g[0] / 256 == net.base[0] / 256
    else g[0] / 512 == net.base[0] / 512
  }

  lemma WholeGroups(g: seq<nat>, net: Network)
    requires IsAddress(g) && IsAddress(net.base) && net.length in {128, 96, 80, 32}
    ensures InNetwork(g, net, 16) <==> g[..net.length / 16] == net.base[..net.length / 16]
  {
    forall i | 0 <= i < 8
      ensures SameLeadingBits(g[i], net.base[i], 16, CoveredBits(net.length, 16, i))
              <==> (i < net.length / 16 ==> g[i] == net.base[i])
    {
      LeadingBitsOfGroups(g[i], net.base[i]);
    }
    hide SameLeadingBits;
    if InNetwork(g, net, 16) {
      assert forall i | 0 <= i < net.length / 16 :: g[i] == net.base[i];
    } else {
      var i :| 0 <= i < 8 && !SameLeadingBits(g[i], net.base[i], 16, CoveredBits(net.length, 16, i));
      assert g[..net.length / 16][i] != net.base[..net.length / 16][i];
    }
  }

  lemma PartOfAGroup(g: seq<nat>, net: Network)
    requires IsAddress(g) && IsAddress(net.base) && net.length in {10, 8, 7}
    ensures InNetwork(g, net, 16) <==> InByGroups(g, net)
  {
    LeadingBitsOfGroups(g[0], net.base[0]);
    forall i | 1 <= i < 8 ensures SameLeadingBits(g[i], net.base[i], 16, CoveredBits(net.length, 16, i)) {
      LeadingBitsOfGroups(g[i], net.base[i]);
    }
    hide SameLeadingBits;
  }

  lemma Membership(g: seq<nat>, net: Network)
    requires IsAddress(g) && IsAddress(net.base) && net.length in {128, 96, 80, 32, 10, 8, 7}
    ensures InNetwork(g, net, 16) <==> InByGroups(g, net)
  {
    if net.length >= 32 {
      WholeGroups(g, net);
      assert net.length == 128 ==> g[..8] == g && net.base[..8] == net.base;
    } else {
      PartOfAGroup(g, net);
    }
    hide InNetwork;
  }

  // ---- what is blocked ----------------------------------------------------------------------------

  /** The last 32 bits as the four numbers of an IPv4 address. */
  function LowQuad(g: seq<nat>): (q: seq<nat>)
    requires IsAddress(g)
    ensures IsQuad(q)
  {
    [g[6] / 256, g[6] % 256, g[7] / 256, g[7] % 256]
  }

  lemma DecimalDigits(n: nat)
    ensures AllDigits(DecimalText(n)) && '.' !in DecimalText(n) && ParseInt(DecimalText(n)) == Some(n)
  {
    DecimalRoundTrip(n);
    ParseIntOfDigits(DecimalText(n));
    hide ParseInt, DecimalValue;
  }

  lemma JoinDots(a: string, b: string, c: string, d: string)
    ensures Join([a, b, c, d], '.') == a + "." + b + "." + c + "." + d
  {
    assert [a, b, c, d][1..] == [b, c, d] && [b, c, d][1..] == [c, d] && [c, d][1..] == [d];
    assert Join([c, d], '.') == c + "." + d;
    assert Join([b, c, d], '.') == b + "." + (c + "." + d);
  }

  function Printed(q: seq<nat>): (ps: seq<string>)
    requires IsQuad(q)
    ensures |ps| == 4
  {
    [DecimalText(q[0]), DecimalText(q[1]), DecimalText(q[2]), DecimalText(q[3])]
  }

  lemma MappedTextIsPrinted(g: seq<nat>)
    requires IsAddress(g)
    ensures MappedText(g) == Join(Printed(LowQuad(g)), '.')
  {
    MasksArePrefixes(g[6]);
    MasksArePrefixes(g[7]);
    PowersOfTwo();
    hide Join, DecimalText, And, Pow2;
    var q := LowQuad(g);
    JoinDots(DecimalText(q[0]), DecimalText(q[1]), DecimalText(q[2]), DecimalText(q[3]));
  }

  /** Printing the last 32 bits and parsing them again gives them back. */
  lemma MappedTextParses(g: seq<nat>)
    requires IsAddress(g)
    ensures Quad(MappedText(g)) == Some(LowQuad(g))
  {
    MappedTextIsPrinted(g);
    var q := LowQuad(g);
    hide LowQuad, DecimalText, MappedText, ParseInt, Join, Quad, AllDigits;
    DecimalDigits(q[0]);
    DecimalDigits(q[1]);
    DecimalDigits(q[2]);
    DecimalDigits(q[3]);
    QuadOfJoined(Printed(q), q[0], q[1], q[2], q[3]);
    assert q == [q[0], q[1], q[2], q[3]];
  }

  /** The last 32 bits are the address of a listed IPv4 network. */
  predicate EmbedsListed(g: seq<nat>)
    requires IsAddress(g)
  {
    InAny(LowQuad(g), NETWORKS_V4, 8)
  }

  predicate Listed(g: seq<nat>, nets: seq<Network>)
    requires IsAddress(g) && forall k | 0 <= k < |nets| :: |nets[k].base| == 8
  {
    || InAny(g, nets, 16)
    || (InNetwork(g, EMBEDDED, 16) && EmbedsListed(g))
  }

  lemma InSix(g: seq<nat>, nets: seq<Network>)
    requires IsAddress(g) && |nets| == 6 && forall k | 0 <= k < 6 :: |nets[k].base| == 8
    ensures InAny(g, nets, 16)
            <==> (InNetwork(g, nets[0], 16) || InNetwork(g, nets[1], 16) || InNetwork(g, nets[2], 16)
                  || InNetwork(g, nets[3], 16) || InNetwork(g, nets[4], 16) || InNetwork(g, nets[5], 16))
  {
    hide InNetwork;
  }

  /** The five networks and the NAT64 range, by groups. */
  predicate SixByGroups(g: seq<nat>, nat64: Network)
    requires |g| == 8 && |nat64.base| == 8
  {
    || InByGroups(g, UNSPECIFIED) || InByGroups(g, LOOPBACK) || InByGroups(g, UNIQUE_LOCAL)
    || InByGroups(g, LINK_LOCAL) || InByGroups(g, MULTICAST) || InByGroups(g, nat64)
  }

  lemma ListedByGroups(g: seq<nat>, nets: seq<Network>, nat64: Network)
    requires IsAddress(g) && IsAddress(nat64.base) && nat64.length in {32, 96}
    requires nets == [UNSPECIFIED, LOOPBACK, UNIQUE_LOCAL, LINK_LOCAL, MULTICAST, nat64]
    ensures Listed(g, nets)
            <==> SixByGroups(g, nat64) || (InByGroups(g, EMBEDDED) && EmbedsListed(g))
  {
    hide InNetwork, InByGroups, InAny, EmbedsListed;
    InSix(g, nets);
    Membership(g, UNSPECIFIED);
    Membership(g, LOOPBACK);
    Membership(g, UNIQUE_LOCAL);
    Membership(g, LINK_LOCAL);
    Membership(g, MULTICAST);
    Membership(g, nat64);
    Membership(g, EMBEDDED);
  }

  lemma SpelledOut(g: seq<nat>)
    requires IsAddress(g)
    ensures InByGroups(g, UNSPECIFIED) <==> g == Zeros(8)
    ensures InByGroups(g, LOOPBACK) <==> g == Zeros(7) + [1]
    ensures InByGroups(g, UNIQUE_LOCAL) <==> g[0] / 512 == 0xfc00 / 512
    ensures InByGroups(g, LINK_LOCAL) <==> g[0] / 64 == 0xfe80 / 64
    ensures InByGroups(g, MULTICAST) <==> g[0] / 256 == 0xff00 / 256
    ensures InByGroups(g, NAT64) <==> g[0] == 0x64 && g[1] == 0xff9b
    ensures InByGroups(g, NAT64_DOCUMENTED) <==> g[0] == 0x64 && g[1] == 0xff9b && g[2..6] == Zeros(4)
    ensures InByGroups(g, EMBEDDED) <==> g[..5] == Zeros(5)
  {
    assert UNSPECIFIED.base == Zeros(8) && LOOPBACK.base == Zeros(7) + [1] && EMBEDDED.base[..5] == Zeros(5);
    assert NAT64_DOCUMENTED.base[..6] == [0x64, 0xff9b] + Zeros(4);
    assert NAT64.base[..2] == [0x64, 0xff9b];
    assert g[..2] == [g[0], g[1]];
    assert g[..6] == [g[0], g[1]] + g[2..6];
    hide Zeros;
    if g[..6] == NAT64_DOCUMENTED.base[..6] {
      assert g[0] == g[..6][0] && g[1] == g[..6][1];
      assert g[2..6] == g[..6][2..];
    }
    if g[..2] == [0x64, 0xff9b] {
      assert g[0] == g[..2][0] && g[1] == g[..2][1];
    }
  }

  lemma MapsToLowQuad(g: seq<nat>)
    requires IsAddress(g)
    ensures IsBlockedIpv4(MappedText(g)) <==> EmbedsListed(g)
  {
    hide MappedText, InAny, Quad, IsBlockedIpv4, LowQuad;
    MappedTextParses(g);
    BlockedIpv4IsListed(MappedText(g));
  }

  /** The code's tests, by groups. */
  lemma BlockedByGroups(g: seq<nat>)
    requires IsAddress(g)
    ensures IsBlockedGroups(g)
            <==> SixByGroups(g, NAT64) || (InByGroups(g, EMBEDDED) && EmbedsListed(g))
  {
    hide EmbedsListed, And, MappedText, IsBlockedIpv4, InByGroups, Zeros;
    MasksArePrefixes(g[0]);
    MapsToLowQuad(g);
    SpelledOut(g);
  }

  predicate ParsesIntoListed(ip: string) {
    && Groups(ip).Some?
    && (GroupsAreAddress(ip); Listed(Groups(ip).value, NETWORKS_V6))
  }

  /**
   * An IPv6 text is refused exactly when it does not parse, or its address
   * lies in one of the listed networks, or it embeds a listed IPv4 address.
   */
  lemma BlockedIpv6IsListed(ip: string)
    ensures IsBlockedIpv6(ip) <==> Groups(ip) == None || ParsesIntoListed(ip)
  {
    GroupsAreAddress(ip);
    if Groups(ip).Some? {
      BlockedByGroups(Groups(ip).value);
      ListedByGroups(Groups(ip).value, NETWORKS_V6, NAT64);
      hide Groups, Listed, IsBlockedGroups, SixByGroups, InByGroups, InAny, LowQuad;
    }
  }

  // ---- the NAT64 range ---------------------------------------------------------------------------

  /**
   * The comment at the NAT64 test names 64:ff9b::/96, the test looks at the
   * first 32 bits. The two give the same answer exactly for the addresses
   * outside 64:ff9b::/32 and those whose groups three to six are zero.
   */
  lemma Nat64TestMatchesItsCommentIff(g: seq<nat>)
    requires IsAddress(g)
    ensures (Listed(g, NETWORKS_V6) <==> Listed(g, DOCUMENTED_V6))
            <==> !(g[0] == 0x64 && g[1] == 0xff9b) || g[2..6] == Zeros(4)
  {
    hide Listed, EmbedsListed, InByGroups, Zeros;
    ListedByGroups(g, NETWORKS_V6, NAT64);
    ListedByGroups(g, DOCUMENTED_V6, NAT64_DOCUMENTED);
    SpelledOut(g);
    assert Zeros(5)[0] == 0;
    assert g[..5] == Zeros(5) ==> g[0] == 0 by {
      assert g[..5][0] == g[0];
    }
    assert g == Zeros(8) || g == Zeros(7) + [1] ==> g[0] == 0 by {
      assert Zeros(8)[0] == 0 && (Zeros(7) + [1])[0] == 0;
    }
  }

  predicate InDocumented(g: seq<nat>)
    requires IsAddress(g)
  {
    Listed(g, DOCUMENTED_V6)
  }

  lemma HexSnoc(s: string, c: char)
    ensures HexValue(s + [c]) == HexValue(s) * 16 + HexDigitValue(c)
  {
    assert (s + [c])[..|s|] == s;
  }

  lemma HexOfFour(a: char, b: char, c: char, d: char)
    ensures HexValue([a, b, c, d])
         == ((HexDigitValue(a) * 16 + HexDigitValue(b)) * 16 + HexDigitValue(c)) * 16 + HexDigitValue(d)
    ensures HexValue([a, b]) == HexDigitValue(a) * 16 + HexDigitValue(b)
    ensures HexValue([a]) == HexDigitValue(a)
  {
    assert HexValue("") == 0;
    hide *;
    HexSnoc("", a);
    HexSnoc([a], b);
    HexSnoc([a, b], c);
    HexSnoc([a, b, c], d);
    assert "" + [a] == [a];
    assert [a] + [b] == [a, b];
    assert [a, b] + [c] == [a, b, c];
    assert [a, b, c] + [d] == [a, b, c, d];
  }

  lemma ThreeGroupsThenGap(a: string, b: string, c: string, x: nat, y: nat, z: nat)
    requires IsHextet(a) && IsHextet(b) && IsHextet(c)
    requires HexValue(a) == x && HexValue(b) == y && HexValue(c) == z
    ensures Groups(a + ":" + b + ":" + c + "::") == Some([x, y, z, 0, 0, 0, 0, 0])
  {
    var f := Gap([a, b, c], Tail([], None));
    assert Values([a, b, c]) == [x, y, z];
    hide HexValue, IsHextet;
    assert Legal(f);
    assert Values([]) == [];
    assert Meaning(f) == [x, y, z] + Zeros(5) + [];
    assert [x, y, z] + Zeros(5) + [] == [x, y, z, 0, 0, 0, 0, 0];
    JoinThree(a, b, c, ':');
    assert Text(f) == a + ":" + b + ":" + c + "::";
    hide *;
    ParseInvertsText(f, None);
    NoSuffix(Text(f));
  }

  lemma NoSuffix(text: string)
    ensures text + ZoneSuffix(None) == text
  {
  }

  /** Every address of 64:ff9b::/32 outside the documented range is refused without being listed there. */
  lemma WiderThanDocumented(g: seq<nat>)
    requires IsAddress(g) && g[0] == 0x64 && g[1] == 0xff9b && g[2..6] != Zeros(4)
    ensures IsBlockedGroups(g) && !InDocumented(g)
  {
    hide Listed, IsBlockedGroups, InByGroups, EmbedsListed;
    SpelledOut(g);
    BlockedByGroups(g);
    ListedByGroups(g, NETWORKS_V6, NAT64);
    Nat64TestMatchesItsCommentIff(g);
  }

  lemma BlockedByItsGroups(ip: string, g: seq<nat>)
    requires IsAddress(g) && Groups(ip) == Some(g)
    ensures IsBlockedIpv6(ip) == IsBlockedGroups(g)
  {
    hide Groups, IsBlockedGroups;
  }

  lemma WiderHextets()
    ensures IsHextet("64") && IsHextet("ff9b") && IsHextet("1")
    ensures HexValue("64") == 0x64 && HexValue("ff9b") == 0xff9b && HexValue("1") == 1
  {
    HexOfFour('f', 'f', '9', 'b');
    HexOfFour('6', '4', '0', '0');
    HexOfFour('1', '0', '0', '0');
    hide HexValue;
  }

  /** For instance 64:ff9b:1:: */
  lemma Nat64TestIsWider(ip: string, g: seq<nat>)
    requires ip == "64" + ":" + "ff9b" + ":" + "1" + "::"
    requires |g| == 8 && g[0] == 0x64 && g[1] == 0xff9b && g[2] == 1 && g[3..] == Zeros(5)
    ensures Groups(ip) == Some(g) && IsAddress(g)
    ensures IsBlockedIpv6(ip) && !InDocumented(g)
  {
    assert forall i | 3 <= i < 8 :: g[i] == g[3..][i - 3];
    assert g[2..6][0] == 1;
    assert g == [0x64, 0xff9b, 1, 0, 0, 0, 0, 0];
    assert g[2..6] != Zeros(4);
    assert IsAddress(g);
    hide *;
    WiderHextets();
    ThreeGroupsThenGap("64", "ff9b", "1", 0x64, 0xff9b, 1);
    WiderThanDocumented(g);
    BlockedByItsGroups(ip, g);
  }

  // ---- embedded IPv4 addresses -------------------------------------------------------------------

  /** With 80 leading zero bits, an IPv6 text is refused exactly when the IPv4 address in its last 32 bits is. */
  lemma EmbeddedAgreesWithIpv4(f: Form, zone: Option<string>)
    requires Legal(f) && Meaning(f)[..5] == Zeros(5)
    ensures IsAddress(Meaning(f))
    ensures IsBlockedIpv6(Text(f) + ZoneSuffix(zone)) <==> EmbedsListed(Meaning(f))
  {
    var ip, g := Text(f) + ZoneSuffix(zone), Meaning(f);
    ParseInvertsText(f, zone);
    GroupsAreAddress(ip);
    hide Groups, Legal, Meaning, Text, ZoneSuffix, IsBlockedGroups, EmbedsListed;
    EmbeddedBlocked(g);
  }

  lemma EmbeddedBlocked(g: seq<nat>)
    requires IsAddress(g) && g[..5] == Zeros(5)
    ensures IsBlockedGroups(g) <==> EmbedsListed(g)
  {
    assert g[0] == g[..5][0] == 0;
    SpelledOut(g);
    BlockedByGroups(g);
    if g[6] == 0 {
      ZeroIsListed(g);
    }
    assert g == Zeros(8) || g == Zeros(7) + [1] ==> g[6] == 0;
    hide InByGroups, IsBlockedGroups, EmbedsListed, Zeros;
  }

  lemma ZeroIsListed(g: seq<nat>)
    requires IsAddress(g) && g[6] == 0
    ensures EmbedsListed(g)
  {
    hide InNetwork;
    ListedFourIsMembership(LowQuad(g), 0);
    assert LowQuad(g)[0] == 0;
    assert InNetwork(LowQuad(g), NETWORKS_V4[0], 8);
  }

  /** `::ffff:a.b.c.d` is refused exactly when `a.b.c.d` is. */
  lemma MappedAgreesWithIpv4(ds: seq<string>)
    requires IsDottedQuad(ds)
    ensures IsBlockedIpv6("::ffff:" + Join(ds, '.')) == IsBlockedIpv4(Join(ds, '.'))
  {
    var dotted := Join(ds, '.');
    var f := Gap([], Tail(["ffff"], Some(ds)));
    HexOfFour('f', 'f', 'f', 'f');
    assert Values(["ffff"]) == [0xffff];
    MappedForm(f, ds);
    assert forall i | 0 <= i < 4 :: DecimalValue(ds[i]) < 256;
    hide *;
    DottedQuadParses(ds);
    BlockedIpv4IsListed(dotted);
    EmbeddedAgreesWithIpv4(f, None);
    NoSuffix(Text(f));
    EmbedsQuad(Meaning(f), DecimalValue(ds[0]), DecimalValue(ds[1]), DecimalValue(ds[2]), DecimalValue(ds[3]));
  }

  lemma EmbedsQuad(g: seq<nat>, a: nat, b: nat, c: nat, d: nat)
    requires IsAddress(g) && g[6] == a * 256 + b && g[7] == c * 256 + d
    requires a < 256 && b < 256 && c < 256 && d < 256
    ensures EmbedsListed(g) <==> InAny([a, b, c, d], NETWORKS_V4, 8)
  {
    hide InAny;
    assert LowQuad(g) == [a, b, c, d];
  }

  lemma MappedForm(f: Form, ds: seq<string>)
    requires IsDottedQuad(ds) && Values(["ffff"]) == [0xffff] && f == Gap([], Tail(["ffff"], Some(ds)))
    ensures Legal(f) && Text(f) == "::ffff:" + Join(ds, '.')
    ensures Meaning(f)[..5] == Zeros(5)
    ensures Meaning(f)[6] == DecimalValue(ds[0]) * 256 + DecimalValue(ds[1])
    ensures Meaning(f)[7] == DecimalValue(ds[2]) * 256 + DecimalValue(ds[3])
  {
    var dotted := Join(ds, '.');
    hide HexValue, DecimalValue;
    assert Pieces(f.tail) == ["ffff", dotted];
    assert ["ffff", dotted][1..] == [dotted];
    assert Join(["ffff", dotted], ':') == "ffff" + ":" + dotted;
    assert Joined([]) == "";
    assert "" + "::" + ("ffff" + ":" + dotted) == "::ffff:" + dotted;
    assert Values([]) == [];
    assert Meaning(f) == Zeros(5) + TailGroups(f.tail);
  }
}
