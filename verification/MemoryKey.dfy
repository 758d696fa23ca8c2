/**
 * The Redis key of a conversation (src/brain/memory-manager.service.ts),
 * over UTF-16 text: `encodeURIComponent` of every part (section 2.1 of
 * RFC 3986 over UTF-8), joined with colons.
 */
module MemoryKey {
  import opened Common

  type CodeUnit = u: int | 0 <= u < 0x1_0000

  type Text = seq<CodeUnit>

  predicate IsHigh(u: CodeUnit) {
    0xD800 <= u <= 0xDBFF
  }

  predicate IsLow(u: CodeUnit) {
    0xDC00 <= u <= 0xDFFF
  }

  predicate IsPoint(p: int) {
    0 <= p < 0xD800 || 0xE000 <= p < 0x11_0000
  }

  /** The first code point, or nothing at a surrogate without its partner. */
  function FirstPoint(s: Text): (p: Option<int>)
    requires s != []
    ensures p.Some? ==> IsPoint(p.value) && |UnitsOf(p.value)| <= |s| && UnitsOf(p.value) == s[..|UnitsOf(p.value)|]
  {
    if !IsHigh(s[0]) && !IsLow(s[0]) then Some(s[0])
    else if IsHigh(s[0]) && |s| > 1 && IsLow(s[1]) then
      var high: int, low: int := s[0], s[1];
      var p := (high - 0xD800) * 0x400 + (low - 0xDC00) + 0x1_0000;
      assert (p - 0x1_0000) / 0x400 == high - 0xD800;
      Some(p)
    else None
  }

  function UnitsOf(p: int): (units: Text)
    ensures |units| > 0
  {
    if 0 <= p < 0x1_0000 then [p]
    else if 0x1_0000 <= p < 0x11_0000 then [0xD800 + (p - 0x1_0000) / 0x400, 0xDC00 + (p - 0x1_0000) % 0x400]
    else [0xFFFD]
  }

  // ---- percent-encoding --------------------------------------------------------

  predicate IsUnreserved(p: int) {
    || 'a' as int <= p <= 'z' as int
    || 'A' as int <= p <= 'Z' as int
    || '0' as int <= p <= '9' as int
    || (p < 128 && p >= 0 && p as char in "-_.!~*'()")
  }

  type Octet = b: int | 0 <= b < 256

  function Utf8(p: int): seq<Octet>
    requires IsPoint(p)
  {
    if p < 0x80 then [p]
    else if p < 0x800 then [0xC0 + p / 0x40, 0x80 + p % 0x40]
    else if p < 0x1_0000 then [0xE0 + p / 0x1000, 0x80 + p / 0x40 % 0x40, 0x80 + p % 0x40]
    else [0xF0 + p / 0x4_0000, 0x80 + p / 0x1000 % 0x40, 0x80 + p / 0x40 % 0x40, 0x80 + p % 0x40]
  }

  function UpperHexDigit(n: int): (c: char)
    requires 0 <= n < 16
    ensures '0' <= c <= '9' || 'A' <= c <= 'F'
  {
    if n < 10 then '0' + n as char else 'A' + (n - 10) as char
  }

  function Percent(bs: seq<Octet>): (t: string)
    ensures |t| == 3 * |bs|
    ensures ':' !in t
    ensures bs != [] ==> t[0] == '%'
  {
    if bs == [] then "" else ['%', UpperHexDigit(bs[0] / 16), UpperHexDigit(bs[0] % 16)] + Percent(bs[1..])
  }

  function Escaped(p: int): (t: string)
    requires IsPoint(p)
    ensures t != "" && ':' !in t
  {
    if IsUnreserved(p) then [p as char] else Percent(Utf8(p))
  }

  /** `encodeURIComponent`; None where it throws a URIError. */
  function EncodeURIComponent(s: Text): (t: Option<string>)
    ensures t.Some? ==> ':' !in t.value
    decreases |s|
  {
    if s == [] then Some("")
    else if FirstPoint(s) == None then None
    else
      var p := FirstPoint(s).value;
      var rest := EncodeURIComponent(s[|UnitsOf(p)|..]);
      if rest == None then None else Some(Escaped(p) + rest.value)
  }

  // ---- decoding, as an independent account of what an encoded text means --------------

  function HexValue(c: char): int {
    if '0' <= c <= '9' then c as int - '0' as int
    else if 'A' <= c <= 'F' then c as int - 'A' as int + 10
    else 0
  }

  /** The k-th percent-encoded octet at the start of a text. */
  function OctetAt(t: string, k: nat): int {
    if 3 * k + 2 < |t| then HexValue(t[3 * k + 1]) * 16 + HexValue(t[3 * k + 2]) else 0
  }

  /** The first code point of an encoded text and the number of characters it takes. */
  function Head(t: string): (h: (int, nat))
    requires t != ""
    ensures h.1 > 0
  {
    if t[0] != '%' then (t[0] as int, 1)
    else
      var a, b, c, d := OctetAt(t, 0), OctetAt(t, 1) - 0x80, OctetAt(t, 2) - 0x80, OctetAt(t, 3) - 0x80;
      if a < 0x80 then (a, 3)
      else if a < 0xE0 then ((a - 0xC0) * 0x40 + b, 6)
      else if a < 0xF0 then ((a - 0xE0) * 0x1000 + b * 0x40 + c, 9)
      else ((a - 0xF0) * 0x4_0000 + b * 0x1000 + c * 0x40 + d, 12)
  }

  function Decode(t: string): Text
    decreases |t|
  {
    if t == "" then []
    else
      var (p, n) := Head(t);
      UnitsOf(p) + if n >= |t| then [] else Decode(t[n..])
  }

  lemma HexRoundTrip(n: int)
    requires 0 <= n < 16
    ensures HexValue(UpperHexDigit(n)) == n
  {
  }

  lemma {:induction false} OctetsRead(bs: seq<Octet>, rest: string, k: nat)
    requires k < |bs|
    ensures OctetAt(Percent(bs) + rest, k) == bs[k]
    decreases k
  {
    var t := Percent(bs) + rest;
    if k == 0 {
      HexRoundTrip(bs[0] / 16);
      HexRoundTrip(bs[0] % 16);
    } else {
      var u := Percent(bs[1..]) + rest;
      OctetsRead(bs[1..], rest, k - 1);
      assert t[3..] == u;
      assert t[3 * k + 1] == u[3 * (k - 1) + 1] && t[3 * k + 2] == u[3 * (k - 1) + 2];
    }
  }

  /** The payload bits of the octets put the code point together again. */
  lemma PayloadBits(p: int)
    requires IsPoint(p)
    ensures var bs: seq<int> := Utf8(p);
            && (|bs| == 1 ==> p == bs[0] < 0x80)
            && (|bs| == 2 ==> 0x80 <= bs[0] < 0xE0 && p == (bs[0] - 0xC0) * 0x40 + (bs[1] - 0x80))
            && (|bs| == 3 ==> 0xE0 <= bs[0] < 0xF0
                              && p == (bs[0] - 0xE0) * 0x1000 + (bs[1] - 0x80) * 0x40 + (bs[2] - 0x80))
            && (|bs| == 4 ==> 0xF0 <= bs[0]
                              && p == (bs[0] - 0xF0) * 0x4_0000 + (bs[1] - 0x80) * 0x1000 + (bs[2] - 0x80) * 0x40 + (bs[3] - 0x80))
            && 1 <= |bs| <= 4
  {
    assert p / 0x1000 == p / 0x40 / 0x40;
    assert p / 0x4_0000 == p / 0x1000 / 0x40;
  }

  /** One to four octets by the size of the code point, the lead octet telling how many follow (section 3 of RFC 3629). */
  lemma Utf8Shape(p: int)
    requires IsPoint(p)
    ensures var bs: seq<int> := Utf8(p);
            && |bs| == (if p <= 0x7F then 1 else if p <= 0x7FF then 2 else if p <= 0xFFFF then 3 else 4)
            && (|bs| == 2 ==> 0xC2 <= bs[0] <= 0xDF) && (|bs| == 3 ==> 0xE0 <= bs[0] <= 0xEF)
            && (|bs| == 4 ==> 0xF0 <= bs[0] <= 0xF4)
            && forall k | 1 <= k < |bs| :: 0x80 <= bs[k] <= 0xBF
  {
  }

  /** Letters, digits and nine signs stay as they are; every other octet becomes a percent sign and two capital hexadecimal digits. */
  lemma EscapedForm(p: int)
    requires IsPoint(p)
    ensures var letter := 0x41 <= p <= 0x5A || 0x61 <= p <= 0x7A;
            var digit := 0x30 <= p <= 0x39;
            if letter || digit || p in [0x2D, 0x5F, 0x2E, 0x21, 0x7E, 0x2A, 0x27, 0x28, 0x29]
            then Escaped(p) == [p as char] else Escaped(p) == Percent(Utf8(p))
  {
    hide Percent, Utf8;
    assert forall q: int | 0 <= q < 128 && q as char in "-_.!~*'()" :: q in [0x2D, 0x5F, 0x2E, 0x21, 0x7E, 0x2A, 0x27, 0x28, 0x29];
  }

  lemma HeadOfEscaped(p: int, rest: string)
    requires IsPoint(p)
    ensures Head(Escaped(p) + rest) == (p, |Escaped(p)|)
  {
    var t := Escaped(p) + rest;
    if !IsUnreserved(p) {
      var bs := Utf8(p);
      PayloadBits(p);
      OctetsRead(bs, rest, 0);
      if |bs| > 1 { OctetsRead(bs, rest, 1); }
      if |bs| > 2 { OctetsRead(bs, rest, 2); }
      if |bs| > 3 { OctetsRead(bs, rest, 3); }
      assert t[0] == '%' && |Escaped(p)| == 3 * |bs|;
      hide Percent, OctetAt, Utf8, Escaped, IsUnreserved;
    }
  }

  lemma DecodeStep(p: int, rest: string)
    requires IsPoint(p)
    ensures Decode(Escaped(p) + rest) == UnitsOf(p) + Decode(rest)
  {
    HeadOfEscaped(p, rest);
    hide Head, Escaped, UnitsOf;
    var t := Escaped(p) + rest;
    assert t[|Escaped(p)|..] == rest;
    assert Decode("") == [];
  }

  lemma EncodePeels(s: Text)
    requires s != [] && EncodeURIComponent(s).Some?
    ensures FirstPoint(s).Some?
    ensures var p := FirstPoint(s).value;
            && EncodeURIComponent(s[|UnitsOf(p)|..]).Some?
            && EncodeURIComponent(s).value == Escaped(p) + EncodeURIComponent(s[|UnitsOf(p)|..]).value
  {
    hide Escaped, UnitsOf, FirstPoint;
  }

  lemma SplitAt(s: Text, n: nat, front: Text, back: Text)
    requires n <= |s| && front == s[..n] && back == s[n..]
    ensures front + back == s
  {
  }

  /** Decoding gives back the text, so no two texts have the same encoding. */
  lemma {:induction false} DecodeInvertsEncode(s: Text)
    requires EncodeURIComponent(s).Some?
    ensures Decode(EncodeURIComponent(s).value) == s
    decreases |s|
  {
    if s != [] {
      EncodePeels(s);
      var p := FirstPoint(s).value;
      var n := |UnitsOf(p)|;
      hide *;
      DecodeInvertsEncode(s[n..]);
      DecodeStep(p, EncodeURIComponent(s[n..]).value);
      SplitAt(s, n, UnitsOf(p), s[n..]);
    }
  }

  // ---- when it throws -------------------------------------------------------------------

  /** Every high surrogate is followed by a low one and every low one preceded by a high one. */
  predicate WellFormed(s: Text) {
    forall i | 0 <= i < |s| :: Paired(s, i)
  }

  predicate Paired(s: Text, i: nat)
    requires i < |s|
  {
    && (IsHigh(s[i]) ==> i + 1 < |s| && IsLow(s[i + 1]))
    && (IsLow(s[i]) ==> i > 0 && IsHigh(s[i - 1]))
  }

  lemma FirstPointShape(s: Text)
    requires s != []
    ensures FirstPoint(s) == None ==> !Paired(s, 0)
    ensures FirstPoint(s).Some? ==>
              var n := |UnitsOf(FirstPoint(s).value)|;
              && 1 <= n <= 2 && n <= |s|
              && (n == 1 ==> !IsHigh(s[0]) && !IsLow(s[0]))
              && (n == 2 ==> IsHigh(s[0]) && IsLow(s[1]))
  {
  }

  /** A text is well formed when its first code point is and what follows it is. */
  lemma WellFormedPeels(s: Text)
    requires s != []
    ensures WellFormed(s) <==> FirstPoint(s).Some? && WellFormed(s[|UnitsOf(FirstPoint(s).value)|..])
  {
    FirstPointShape(s);
    if FirstPoint(s).Some? {
      var n := |UnitsOf(FirstPoint(s).value)|;
      var rest := s[n..];
      hide UnitsOf, FirstPoint;
      forall i | 0 <= i < |rest| ensures Paired(s, n + i) == Paired(rest, i) {
        assert rest[i] == s[n + i];
        assert i + 1 < |rest| ==> rest[i + 1] == s[n + i + 1];
        assert i > 0 ==> rest[i - 1] == s[n + i - 1];
      }
      assert Paired(s, 0) && Paired(s, n - 1);
      if WellFormed(rest) {
        forall i | 0 <= i < |s| ensures Paired(s, i) {
          if i >= n {
            assert Paired(rest, i - n);
          }
        }
      }
    }
  }

  lemma {:induction false} EncodesIffWellFormed(s: Text)
    ensures EncodeURIComponent(s).Some? <==> WellFormed(s)
    decreases |s|
  {
    if s != [] {
      WellFormedPeels(s);
      if FirstPoint(s).Some? {
        EncodesIffWellFormed(s[|UnitsOf(FirstPoint(s).value)|..]);
      }
      hide WellFormed;
    }
  }

  // ---- the key ----------------------------------------------------------------------------

  /** An absent and an empty customer id both mean the staff side. */
  function Scope(customer: Option<Text>): Option<Text> {
    if customer == Some([]) then None else customer
  }

  function BuildMemoryKey(tenant: Text, session: Text, customer: Option<Text>): Option<string> {
    var t, s := EncodeURIComponent(tenant), EncodeURIComponent(session);
    if customer.Some? && customer.value != [] then
      var c := EncodeURIComponent(customer.value);
      if t.Some? && c.Some? && s.Some? then Some("ai:memory:" + t.value + ":" + c.value + ":" + s.value) else None
    else
      if t.Some? && s.Some? then Some("ai:memory:" + t.value + ":" + s.value) else None
  }

  /** The parts a key splits into. */
  function Parts(tenant: Text, session: Text, customer: Option<Text>): seq<string>
    requires BuildMemoryKey(tenant, session, customer).Some?
  {
    var t, s := EncodeURIComponent(tenant), EncodeURIComponent(session);
    if customer.Some? && customer.value != []
    then
      var c := EncodeURIComponent(customer.value);
      ["ai", "memory", t.value, c.value, s.value]
    else
      ["ai", "memory", t.value, s.value]
  }

  lemma JoinFour(t: string, u: string)
    ensures Join(["ai", "memory", t, u], ':') == "ai:memory:" + t + ":" + u
  {
    var parts := ["ai", "memory", t, u];
    assert parts[1..] == ["memory", t, u] && parts[1..][1..] == [t, u] && parts[1..][1..][1..] == [u];
    assert Join([t, u], ':') == t + ":" + u;
    assert Join(["memory", t, u], ':') == "memory" + ":" + (t + ":" + u);
  }

  lemma JoinFive(t: string, c: string, u: string)
    ensures Join(["ai", "memory", t, c, u], ':') == "ai:memory:" + t + ":" + c + ":" + u
  {
    JoinFour(t, c + ":" + u);
    var long, short := ["ai", "memory", t, c, u], ["ai", "memory", t, c + ":" + u];
    assert [c, u][1..] == [u] && Join([c, u], ':') == c + ":" + u;
    assert long[1..][1..][1..] == [c, u] && short[1..][1..][1..] == [c + ":" + u];
    assert Join(long[1..][1..], ':') == Join(short[1..][1..], ':');
    assert Join(long[1..], ':') == Join(short[1..], ':');
    assert Join(long, ':') == Join(short, ':');
    hide Join;
    assert "ai:memory:" + t + ":" + (c + ":" + u) == "ai:memory:" + t + ":" + c + ":" + u;
  }

  lemma KeySplitsIntoParts(tenant: Text, session: Text, customer: Option<Text>)
    requires BuildMemoryKey(tenant, session, customer).Some?
    ensures Split(BuildMemoryKey(tenant, session, customer).value, ':') == Parts(tenant, session, customer)
  {
    var parts := Parts(tenant, session, customer);
    assert forall p | p in parts :: ':' !in p;
    SplitOfJoin(parts, ':');
    hide Split, Join, EncodeURIComponent;
    if |parts| == 4 {
      JoinFour(parts[2], parts[3]);
    } else {
      JoinFive(parts[2], parts[3], parts[4]);
    }
  }

  /**
   * Two conversations share a key exactly when tenant, session and customer
   * are the same; in particular a staff key is never a customer key.
   */
  lemma KeysAreInjective(tenant: Text, session: Text, customer: Option<Text>,
                         tenant': Text, session': Text, customer': Option<Text>)
    requires BuildMemoryKey(tenant, session, customer).Some? && BuildMemoryKey(tenant', session', customer').Some?
    ensures BuildMemoryKey(tenant, session, customer) == BuildMemoryKey(tenant', session', customer')
            <==> tenant == tenant' && session == session' && Scope(customer) == Scope(customer')
  {
    KeySplitsIntoParts(tenant, session, customer);
    KeySplitsIntoParts(tenant', session', customer');
    var ps, ps' := Parts(tenant, session, customer), Parts(tenant', session', customer');
    if ps == ps' {
      assert ps[2] == ps'[2] && ps[|ps| - 1] == ps'[|ps| - 1] && ps[3] == ps'[3];
      DecodeInvertsEncode(tenant);
      DecodeInvertsEncode(tenant');
      DecodeInvertsEncode(session);
      DecodeInvertsEncode(session');
      if |ps| == 5 {
        DecodeInvertsEncode(customer.value);
        DecodeInvertsEncode(customer'.value);
      }
      hide EncodeURIComponent, Decode, Split;
    }
  }

  /** A key exists exactly when no part used has a lone surrogate. */
  lemma KeyExistsIffWellFormed(tenant: Text, session: Text, customer: Option<Text>)
    ensures BuildMemoryKey(tenant, session, customer).Some?
            <==> WellFormed(tenant) && WellFormed(session) && (customer.Some? ==> WellFormed(customer.value))
  {
    EncodesIffWellFormed(tenant);
    EncodesIffWellFormed(session);
    if customer.Some? {
      EncodesIffWellFormed(customer.value);
    }
  }
}
