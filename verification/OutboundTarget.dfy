/**
 * Address texts and blocked networks of the outbound target guard
 * (src/common/outbound-target.guard.ts).
 *
 * Texts are in lower case, as the guard's callers make them. Groups are
 * numbers below 65536, most significant first.
 */
module OutboundTarget {
  import opened Bits
  import opened Common

  // ---- numbers in texts -----------------------------------------------------------

  predicate IsDigit(c: char) {
    '0' <= c <= '9'
  }

  predicate IsHexDigit(c: char) {
    IsDigit(c) || 'a' <= c <= 'f'
  }

  function HexDigitValue(c: char): (v: nat)
    ensures v < 16
  {
    if IsDigit(c) then c as int - '0' as int
    else if 'a' <= c <= 'f' then c as int - 'a' as int + 10
    else 0
  }

  function HexValue(s: string): nat {
    if s == "" then 0 else HexValue(s[..|s| - 1]) * 16 + HexDigitValue(s[|s| - 1])
  }

  function DecimalValue(s: string): nat {
    if s == "" then 0 else DecimalValue(s[..|s| - 1]) * 10 + HexDigitValue(s[|s| - 1])
  }

  function DigitsPrefix(s: string): (n: nat)
    ensures n <= |s|
  {
    if s != "" && IsDigit(s[0]) then 1 + DigitsPrefix(s[1..]) else 0
  }

  /** `Number.parseInt(s, 10)`: leading white space, a sign, then as many digits as there are. */
  function ParseInt(s: string): Option<int> {
    var t := TrimStart(s);
    var minus := t != "" && t[0] == '-';
    var u := if t != "" && (t[0] == '-' || t[0] == '+') then t[1..] else t;
    var n := DigitsPrefix(u);
    if n == 0 then None
    else
      var v: int := DecimalValue(u[..n]);
      Some(if minus then -v else v)
  }

  /** `n.toString(16)` */
  function HexText(n: nat): (s: string)
    ensures s != "" && (forall c | c in s :: IsHexDigit(c))
  {
    if n < 16 then [HexDigit(n)] else HexText(n / 16) + [HexDigit(n % 16)]
  }

  /** A number printed in decimal. */
  function DecimalText(n: nat): (s: string)
    ensures s != "" && (forall c | c in s :: IsDigit(c))
  {
    if n < 10 then ['0' + n as char] else DecimalText(n / 10) + ['0' + (n % 10) as char]
  }

  lemma {:induction false} HexRoundTrip(n: nat, digits: nat)
    requires n < Power(16, digits) && digits > 0
    ensures HexValue(HexText(n)) == n && |HexText(n)| <= digits
    decreases digits
  {
    var s := HexText(n);
    if n < 16 {
      assert s[..|s| - 1] == "";
    } else {
      HexRoundTrip(n / 16, digits - 1);
      assert s[..|s| - 1] == HexText(n / 16);
    }
  }

  function Power(b: nat, e: nat): nat {
    if e == 0 then 1 else b * Power(b, e - 1)
  }

  lemma {:induction false} DecimalRoundTrip(n: nat)
    ensures DecimalValue(DecimalText(n)) == n
    decreases n
  {
    var s := DecimalText(n);
    if n < 10 {
      assert s[..|s| - 1] == "";
    } else {
      DecimalRoundTrip(n / 10);
      assert s[..|s| - 1] == DecimalText(n / 10);
    }
  }

  predicate AllDigits(s: string) {
    s != "" && forall i | 0 <= i < |s| :: IsDigit(s[i])
  }

  lemma {:induction false} AllDigitsPrefix(s: string)
    requires forall i | 0 <= i < |s| :: IsDigit(s[i])
    ensures DigitsPrefix(s) == |s|
    decreases |s|
  {
    if s != "" {
      AllDigitsPrefix(s[1..]);
    }
  }

  lemma ParseIntOfDigits(s: string)
    requires AllDigits(s)
    ensures ParseInt(s) == Some(DecimalValue(s))
  {
    assert IsDigit(s[0]);
    assert TrimStart(s) == s;
    AllDigitsPrefix(s);
    assert s[..|s|] == s;
  }

  lemma {:induction false} TrimStartDrops(space: string, t: string)
    requires (forall i | 0 <= i < |space| :: IsSpace(space[i])) && (t != "" ==> !IsSpace(t[0]))
    ensures TrimStart(space + t) == t
    decreases |space|
  {
    if space == "" {
      assert space + t == t;
    } else {
      assert (space + t)[1..] == space[1..] + t;
      TrimStartDrops(space[1..], t);
    }
  }

  lemma {:induction false} DigitsThenOther(digits: string, rest: string)
    requires (forall i | 0 <= i < |digits| :: IsDigit(digits[i])) && (rest != "" ==> !IsDigit(rest[0]))
    ensures DigitsPrefix(digits + rest) == |digits|
    decreases |digits|
  {
    if digits == "" {
      assert digits + rest == rest;
    } else {
      assert (digits + rest)[1..] == digits[1..] + rest;
      DigitsThenOther(digits[1..], rest);
    }
  }

  /** White space, at most one sign, then the longest run of digits makes the number; without a digit there is none. */
  lemma ParseIntReads(space: string, sign: string, digits: string, rest: string)
    requires forall i | 0 <= i < |space| :: IsSpace(space[i])
    requires sign == "" || sign == "+" || sign == "-"
    requires (forall i | 0 <= i < |digits| :: IsDigit(digits[i])) && (rest != "" ==> !IsDigit(rest[0]))
    requires digits == "" && sign == "" && rest != "" ==> !IsSpace(rest[0]) && rest[0] != '+' && rest[0] != '-'
    ensures ParseInt(space + (sign + (digits + rest)))
         == if digits == "" then None else Some(if sign == "-" then -(DecimalValue(digits) as int) else DecimalValue(digits))
  {
    hide *;
    var u := digits + rest;
    var t := sign + u;
    FrontOf(digits, rest);
    SignedFront(sign, u);
    if t != "" {
      SignsAndDigitsAreNoSpace(t[0]);
    }
    TrimStartDrops(space, t);
    DigitsThenOther(digits, rest);
    ParseTrimmed(space + t, t, u, sign, |digits|);
  }

  lemma FrontOf(digits: string, rest: string)
    ensures (digits + rest)[..|digits|] == digits
    ensures digits != "" ==> (digits + rest)[0] == digits[0]
    ensures digits == "" ==> digits + rest == rest
  {
  }

  lemma SignedFront(sign: string, u: string)
    requires sign == "" || sign == "+" || sign == "-"
    ensures sign == "" ==> sign + u == u
    ensures sign != "" ==> (sign + u)[0] == sign[0] && (sign + u)[1..] == u
  {
  }

  lemma SignsAndDigitsAreNoSpace(c: char)
    ensures IsDigit(c) || c == '+' || c == '-' ==> !IsSpace(c)
    ensures IsDigit(c) ==> c != '+' && c != '-'
  {
  }

  lemma ParseTrimmed(s: string, t: string, u: string, sign: string, n: nat)
    requires TrimStart(s) == t && DigitsPrefix(u) == n <= |u|
    requires sign == "" ==> t == u && (t != "" ==> t[0] != '+' && t[0] != '-')
    requires sign != "" ==> (sign == "+" || sign == "-") && t != "" && t[0] == sign[0] && t[1..] == u
    ensures ParseInt(s) == if n == 0 then None else Some(if sign == "-" then -(DecimalValue(u[..n]) as int) else DecimalValue(u[..n]))
  {
    hide TrimStart, DigitsPrefix, DecimalValue;
  }

  // ---- IPv4 -------------------------------------------------------------------------

  predicate IsOctet(n: Option<int>) {
    n.Some? && 0 <= n.value <= 255
  }

  /** Four numbers as an address, if each is in range. */
  function FourOctets(a: Option<int>, b: Option<int>, c: Option<int>, d: Option<int>): (q: Option<seq<nat>>)
    ensures q.Some? ==> IsQuad(q.value)
  {
    if IsOctet(a) && IsOctet(b) && IsOctet(c) && IsOctet(d) then Some([a.value, b.value, c.value, d.value]) else None
  }

  function QuadOfParts(ps: seq<string>): (q: Option<seq<nat>>)
    ensures q.Some? ==> IsQuad(q.value)
  {
    if |ps| == 4 then FourOctets(ParseInt(ps[0]), ParseInt(ps[1]), ParseInt(ps[2]), ParseInt(ps[3])) else None
  }

  /** The four numbers of a dotted text, if there are four and each is in range. */
  function Quad(text: string): (q: Option<seq<nat>>)
    ensures q.Some? ==> IsQuad(q.value)
  {
    QuadOfParts(Split(text, '.'))
  }

  /** A joined text of four parts parses to the numbers its parts parse to. */
  lemma QuadOfJoined(ps: seq<string>, a: nat, b: nat, c: nat, d: nat)
    requires |ps| == 4 && '.' !in ps[0] && '.' !in ps[1] && '.' !in ps[2] && '.' !in ps[3]
    requires ParseInt(ps[0]) == Some(a) && ParseInt(ps[1]) == Some(b)
    requires ParseInt(ps[2]) == Some(c) && ParseInt(ps[3]) == Some(d)
    requires a < 256 && b < 256 && c < 256 && d < 256
    ensures Quad(Join(ps, '.')) == Some([a, b, c, d])
  {
    hide Split, Join, ParseInt;
    SplitOfJoin(ps, '.');
  }

  predicate IsQuad(q: seq<nat>) {
    |q| == 4 && forall i | 0 <= i < 4 :: q[i] < 256
  }

  predicate Restricted(a: nat, b: nat, c: nat) {
    if a == 0 then true
    else if a == 10 then true
    else if a == 127 then true
    else if a == 169 && b == 254 then true
    else if a == 172 && b >= 16 && b <= 31 then true
    else if a == 192 && b == 168 then true
    else if a == 100 && b >= 64 && b <= 127 then true
    else if a == 192 && b == 0 && c == 0 then true
    else a >= 224
  }

  /** Restricted, reserved or not parsable. */
  function IsBlockedIpv4(text: string): bool {
    var q := Quad(text);
    q == None || Restricted(q.value[0], q.value[1], q.value[2])
  }

  // ---- networks, by their leading bits ---------------------------------------------------

  datatype Network = Network(base: seq<nat>, length: nat)

  /** How many of part i's bits a prefix of that length covers. */
  function CoveredBits(length: nat, width: nat, i: nat): (b: nat)
    ensures b <= width
  {
    if length <= i * width then 0 else Min(length - i * width, width)
  }

  predicate SameLeadingBits(x: nat, y: nat, width: nat, bits: nat)
    requires bits <= width
  {
    x / Pow2(width - bits) == y / Pow2(width - bits)
  }

  predicate InNetwork(parts: seq<nat>, net: Network, width: nat)
    requires |net.base| == |parts|
  {
    forall i | 0 <= i < |parts| :: SameLeadingBits(parts[i], net.base[i], width, CoveredBits(net.length, width, i))
  }

  const NETWORKS_V4: seq<Network> := [
    Network([0, 0, 0, 0], 8),
    Network([10, 0, 0, 0], 8),
    Network([127, 0, 0, 0], 8),
    Network([169, 254, 0, 0], 16),
    Network([172, 16, 0, 0], 12),
    Network([192, 168, 0, 0], 16),
    Network([100, 64, 0, 0], 10),
    Network([192, 0, 0, 0], 24),
    Network([224, 0, 0, 0], 4),
    Network([240, 0, 0, 0], 4)
  ]

  predicate InAny(parts: seq<nat>, nets: seq<Network>, width: nat)
    requires forall k | 0 <= k < |nets| :: |nets[k].base| == |parts|
  {
    exists k | 0 <= k < |nets| :: InNetwork(parts, nets[k], width)
  }

  lemma LeadingBitsOfOctets(x: nat, y: nat)
    requires x < 256 && y < 256
    ensures SameLeadingBits(x, y, 8, 8) <==> x == y
    ensures SameLeadingBits(x, y, 8, 4) <==> x / 16 == y / 16
    ensures SameLeadingBits(x, y, 8, 2) <==> x / 64 == y / 64
    ensures SameLeadingBits(x, y, 8, 0)
  {
    PowersOfTwo();
    hide Pow2;
  }

  /** The arithmetic form of membership in the k-th listed network. */
  predicate ListedFour(q: seq<nat>, k: nat)
    requires |q| == 4
  {
    if k == 0 then q[0] == 0
    else if k == 1 then q[0] == 10
    else if k == 2 then q[0] == 127
    else if k == 3 then q[0] == 169 && q[1] == 254
    else if k == 4 then q[0] == 172 && 16 <= q[1] <= 31
    else if k == 5 then q[0] == 192 && q[1] == 168
    else if k == 6 then q[0] == 100 && 64 <= q[1] <= 127
    else if k == 7 then q[0] == 192 && q[1] == 0 && q[2] == 0
    else if k == 8 then 224 <= q[0] <= 239
    else 240 <= q[0]
  }

  lemma InNetworkOfFour(q: seq<nat>, net: Network)
    requires |q| == |net.base| == 4
    ensures InNetwork(q, net, 8) <==>
            && SameLeadingBits(q[0], net.base[0], 8, CoveredBits(net.length, 8, 0))
            && SameLeadingBits(q[1], net.base[1], 8, CoveredBits(net.length, 8, 1))
            && SameLeadingBits(q[2], net.base[2], 8, CoveredBits(net.length, 8, 2))
            && SameLeadingBits(q[3], net.base[3], 8, CoveredBits(net.length, 8, 3))
  {
    hide SameLeadingBits, CoveredBits;
  }

  /** Which leading octets must be equal, and how much of the next one. */
  predicate InByOctets(q: seq<nat>, net: Network)
    requires |q| == |net.base| == 4
  {
    if net.length == 4 then q[0] / 16 == net.base[0] / 16
    else
      && q[0] == net.base[0]
      && (net.length == 10 ==> q[1] / 64 == net.base[1] / 64)
      && (net.length == 12 ==> q[1] / 16 == net.base[1] / 16)
      && (net.length >= 16 ==> q[1] == net.base[1])
      && (net.length >= 24 ==> q[2] == net.base[2])
  }

  lemma ByOctets(q: seq<nat>, net: Network)
    requires IsQuad(q) && IsQuad(net.base) && net.length in {4, 8, 10, 12, 16, 24}
    ensures InNetwork(q, net, 8) <==> InByOctets(q, net)
  {
    hide SameLeadingBits, InNetwork;
    InNetworkOfFour(q, net);
    LeadingBitsOfOctets(q[0], net.base[0]);
    LeadingBitsOfOctets(q[1], net.base[1]);
    LeadingBitsOfOctets(q[2], net.base[2]);
    LeadingBitsOfOctets(q[3], net.base[3]);
  }

  lemma ListedFourIsMembership(q: seq<nat>, k: nat)
    requires IsQuad(q) && k < |NETWORKS_V4|
    ensures InNetwork(q, NETWORKS_V4[k], 8) <==> ListedFour(q, k)
  {
    hide InNetwork;
    ByOctets(q, NETWORKS_V4[k]);
  }

  /** Which listed network the blocked address is in. */
  function ListingOf(q: seq<nat>): (k: nat)
    requires IsQuad(q)
    ensures k < 10
  {
    var a, b, c := q[0], q[1], q[2];
    if a == 0 then 0
    else if a == 10 then 1
    else if a == 127 then 2
    else if a == 169 && b == 254 then 3
    else if a == 172 && b >= 16 && b <= 31 then 4
    else if a == 192 && b == 168 then 5
    else if a == 100 && b >= 64 && b <= 127 then 6
    else if a == 192 && b == 0 && c == 0 then 7
    else if a < 240 then 8
    else 9
  }

  /** The tests of the code single out the listed networks, no more and no less. */
  lemma RestrictedIffListed(q: seq<nat>)
    requires IsQuad(q)
    ensures Restricted(q[0], q[1], q[2]) ==> ListedFour(q, ListingOf(q))
    ensures forall k: nat | k < 10 && ListedFour(q, k) :: Restricted(q[0], q[1], q[2])
  {
  }

  lemma RestrictedIsMembership(q: seq<nat>)
    requires IsQuad(q)
    ensures Restricted(q[0], q[1], q[2]) <==> InAny(q, NETWORKS_V4, 8)
  {
    hide InNetwork, ListedFour, Restricted, ListingOf;
    RestrictedIffListed(q);
    ListedFourIsMembership(q, ListingOf(q));
    forall k: nat | k < |NETWORKS_V4| && InNetwork(q, NETWORKS_V4[k], 8) ensures Restricted(q[0], q[1], q[2]) {
      ListedFourIsMembership(q, k);
    }
  }

  /** An address text is blocked exactly when it does not parse or its address is in a listed network. */
  lemma BlockedIpv4IsListed(text: string)
    ensures IsBlockedIpv4(text) <==> Quad(text) == None || InAny(Quad(text).value, NETWORKS_V4, 8)
  {
    hide InAny, Quad, Restricted;
    if Quad(text).Some? {
      RestrictedIsMembership(Quad(text).value);
    }
  }
}
