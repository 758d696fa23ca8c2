/**
 * IPv6 texts and blocked IPv6 networks of the outbound target guard
 * (src/common/outbound-target.guard.ts), against the text forms of
 * sections 2.2 and 2.5.5 of RFC 4291.
 */
module Ipv6 {
  import opened Bits
  import opened Common
  import opened OutboundTarget

  // ---- the parser ------------------------------------------------------------------

  predicate IsHextet(part: string) {
    1 <= |part| <= 4 && forall i | 0 <= i < |part| :: IsHexDigit(part[i])
  }

  function Values(parts: seq<string>): (r: seq<nat>)
    ensures |r| == |parts| && forall i | 0 <= i < |parts| :: r[i] == HexValue(parts[i])
  {
    seq(|parts|, i requires 0 <= i < |parts| => HexValue(parts[i]))
  }

  function SegmentGroups(segment: string): Option<seq<nat>> {
    if segment == "" then Some([])
    else
      var parts := Split(segment, ':');
      if forall i | 0 <= i < |parts| :: IsHextet(parts[i]) then Some(Values(parts)) else None
  }

  method ParseGroups(segment: string) returns (r: Option<seq<nat>>)
    ensures r == SegmentGroups(segment)
  {
    if segment == "" {
      return Some([]);
    }
    var parts := Split(segment, ':');
    var groups: seq<nat> := [];
    for i := 0 to |parts|
      invariant groups == Values(parts)[..i]
      invariant forall k | 0 <= k < i :: IsHextet(parts[k])
    {
      if !IsHextet(parts[i]) {
        return None;
      }
      groups := groups + [HexValue(parts[i])];
    }
    assert Values(parts)[..|parts|] == Values(parts);
    return Some(groups);
  }

  function LastIndexOf(s: string, c: char): (i: int)
    ensures -1 <= i < |s|
    ensures i >= 0 ==> s[i] == c
    ensures forall k | i < k < |s| :: s[k] != c
  {
    if s == "" then -1
    else if s[|s| - 1] == c then |s| - 1
    else LastIndexOf(s[..|s| - 1], c)
  }

  /** A dotted tail becomes the two groups it stands for. */
  function RewriteTail(text: string): Option<string> {
    var lastColon := LastIndexOf(text, ':');
    var tail := text[lastColon + 1..];
    if '.' !in tail then Some(text)
    else
      match Quad(tail)
      case None => None
      case Some(q) =>
        Some(text[..lastColon + 1] + HexText(Or(ShiftLeft(q[0], 8), q[1])) + ":" + HexText(Or(ShiftLeft(q[2], 8), q[3])))
  }

  /** Where the first double colon is, or the length if there is none. */
  function DoubleAt(s: string): (i: nat)
    ensures i <= |s|
    ensures i < |s| ==> i + 1 < |s| && s[i] == ':' && s[i + 1] == ':'
  {
    if |s| < 2 then |s|
    else if s[0] == ':' && s[1] == ':' then 0
    else DoubleAt(s[1..]) + 1
  }

  /** `split('::')` */
  function SplitDouble(s: string): (parts: seq<string>)
    ensures |parts| > 0
    decreases |s|
  {
    var i := DoubleAt(s);
    if i == |s| then [s] else [s[..i]] + SplitDouble(s[i + 2..])
  }

  function Zeros(n: nat): (z: seq<nat>)
    ensures |z| == n && forall i | 0 <= i < n :: z[i] == 0
  {
    seq(n, _ => 0)
  }

  function Assemble(halves: seq<string>): Option<seq<nat>>
    requires |halves| > 0
  {
    if |halves| > 2 then None
    else
      var head := SegmentGroups(halves[0]);
      var rest := if |halves| == 2 then SegmentGroups(halves[1]) else Some([]);
      if head == None || rest == None then None
      else if |halves| == 1 then if |head.value| == 8 then head else None
      else
        var missing := 8 - |head.value| - |rest.value|;
        if missing < 0 then None else Some(head.value + Zeros(missing) + rest.value)
  }

  function Groups(ip: string): Option<seq<nat>> {
    var text := Split(ip, '%')[0];
    if ':' !in text then None
    else
      match RewriteTail(text)
      case None => None
      case Some(plain) => Assemble(SplitDouble(plain))
  }

  method Ipv6Groups(ip: string) returns (r: Option<seq<nat>>)
    ensures r == Groups(ip)
  {
    hide SegmentGroups, SplitDouble, HexText, Quad, Or, ShiftLeft, LastIndexOf, Split;
    var text := Split(ip, '%')[0];
    if ':' !in text {
      return None;
    }
    var lastColon := LastIndexOf(text, ':');
    var tail := text[lastColon + 1..];
    if '.' in tail {
      var q := Quad(tail);
      if q == None {
        return None;
      }
      var hi := HexText(Or(ShiftLeft(q.value[0], 8), q.value[1]));
      var lo := HexText(Or(ShiftLeft(q.value[2], 8), q.value[3]));
      text := text[..lastColon + 1] + hi + ":" + lo;
    }
    var halves := SplitDouble(text);
    if |halves| > 2 {
      return None;
    }
    var head := ParseGroups(halves[0]);
    var rest := Some([]);
    if |halves| == 2 {
      rest := ParseGroups(halves[1]);
    }
    if head == None || rest == None {
      return None;
    }
    if |halves| == 1 {
      return if |head.value| == 8 then head else None;
    }
    var missing := 8 - |head.value| - |rest.value|;
    if missing < 0 {
      return None;
    }
    return Some(head.value + Zeros(missing) + rest.value);
  }

  // ---- the legal text forms -------------------------------------------------------------

  /** Hexadecimal pieces, then optionally a dotted IPv4 address. */
  datatype Tail = Tail(parts: seq<string>, dotted: Option<seq<string>>)

  /** With or without a double colon that stands for one or more groups of zeros. */
  datatype Form = Whole(tail: Tail) | Gap(head: seq<string>, tail: Tail)

  predicate AllHextets(parts: seq<string>) {
    forall i | 0 <= i < |parts| :: IsHextet(parts[i])
  }

  predicate IsDottedQuad(ds: seq<string>) {
    |ds| == 4 && forall i | 0 <= i < 4 :: AllDigits(ds[i]) && DecimalValue(ds[i]) < 256
  }

  predicate LegalTail(t: Tail) {
    AllHextets(t.parts) && (t.dotted.Some? ==> IsDottedQuad(t.dotted.value))
  }

  function TailGroups(t: Tail): seq<nat>
    requires LegalTail(t)
  {
    if t.dotted == None then Values(t.parts)
    else
      var ds := t.dotted.value;
      Values(t.parts) + [DecimalValue(ds[0]) * 256 + DecimalValue(ds[1]), DecimalValue(ds[2]) * 256 + DecimalValue(ds[3])]
  }

  predicate Legal(f: Form) {
    && LegalTail(f.tail)
    && match f
       case Whole(tail) => |TailGroups(tail)| == 8
       case Gap(head, tail) => AllHextets(head) && |head| + |TailGroups(tail)| <= 7
  }

  /** The eight groups a text form denotes. */
  function Meaning(f: Form): (g: seq<nat>)
    requires Legal(f)
    ensures |g| == 8
  {
    match f
    case Whole(tail) => TailGroups(tail)
    case Gap(head, tail) => Values(head) + Zeros(8 - |head| - |TailGroups(tail)|) + TailGroups(tail)
  }

  function Pieces(t: Tail): seq<string>
    requires LegalTail(t)
  {
    if t.dotted == None then t.parts else t.parts + [Join(t.dotted.value, '.')]
  }

  function Joined(parts: seq<string>): string {
    if parts == [] then "" else Join(parts, ':')
  }

  function Text(f: Form): string
    requires Legal(f)
  {
    match f
    case Whole(tail) => Joined(Pieces(tail))
    case Gap(head, tail) => Joined(head) + "::" + Joined(Pieces(tail))
  }

  // ---- dotted tails -----------------------------------------------------------------------

  /** Everything up to and including the last colon, and what follows it. */
  function Front(pieces: seq<string>): string {
    if |pieces| <= 1 then "" else Join(pieces[..|pieces| - 1], ':') + ":"
  }

  function Last(pieces: seq<string>): string {
    if pieces == [] then "" else pieces[|pieces| - 1]
  }

  function Before(f: Form): string
    requires Legal(f)
  {
    match f
    case Whole(tail) => Front(Pieces(tail))
    case Gap(head, tail) => Joined(head) + "::" + Front(Pieces(tail))
  }

  lemma JoinedAtLast(pieces: seq<string>)
    ensures Joined(pieces) == Front(pieces) + Last(pieces)
  {
    if |pieces| > 1 {
      var n := |pieces| - 1;
      assert pieces == pieces[..n] + [pieces[n]];
      JoinSnoc(pieces[..n], pieces[n], ':');
    }
  }

  lemma TextAtLast(f: Form)
    requires Legal(f)
    ensures Text(f) == Before(f) + Last(Pieces(f.tail))
    ensures Before(f) != "" && Before(f)[|Before(f)| - 1] == ':'
  {
    var pieces := Pieces(f.tail);
    assert Text(f) == if f.Whole? then Joined(pieces) else Joined(f.head) + "::" + Joined(pieces);
    assert Before(f) == if f.Whole? then Front(pieces) else Joined(f.head) + "::" + Front(pieces);
    if f.Whole? {
      WholeHasPieces(f);
    }
    hide *;
    JoinedAtLast(pieces);
    FrontEnds(pieces);
    if f.Gap? {
      var head := Joined(f.head) + "::";
      assert head[|head| - 1] == ':';
      EndOfAppend(head, Front(pieces), Last(pieces));
    }
  }

  lemma WholeHasPieces(f: Form)
    requires Legal(f) && f.Whole?
    ensures |Pieces(f.tail)| >= 2
  {
    hide HexValue, DecimalValue, Join;
  }

  lemma EndOfAppend(head: string, front: string, last: string)
    requires head != ""
    ensures head + (front + last) == (head + front) + last
    ensures front != "" ==> (head + front)[|head + front| - 1] == front[|front| - 1]
    ensures front == "" ==> head + front == head
  {
  }

  lemma FrontEnds(pieces: seq<string>)
    ensures Front(pieces) != "" ==> Front(pieces)[|Front(pieces)| - 1] == ':'
    ensures |pieces| >= 2 ==> Front(pieces) != ""
  {
  }

  lemma CutAtLastColon(before: string, last: string)
    requires before != "" && before[|before| - 1] == ':' && ':' !in last
    ensures var text := before + last;
            && LastIndexOf(text, ':') == |before| - 1
            && text[..|before|] == before && text[|before|..] == last
  {
    var text := before + last;
    assert text[|before|..] == last;
    assert forall k | |before| <= k < |text| :: text[k] == last[k - |before|];
    assert text[|before| - 1] == ':';
  }

  lemma DottedCharacters(ds: seq<string>)
    requires IsDottedQuad(ds)
    ensures ':' !in Join(ds, '.') && '%' !in Join(ds, '.') && '.' in Join(ds, '.')
    ensures Split(Join(ds, '.'), '.') == ds
  {
    forall i | 0 <= i < |ds| ensures ':' !in ds[i] && '%' !in ds[i] && '.' !in ds[i] {
      assert AllDigits(ds[i]);
    }
    assert Join(ds, '.')[|ds[0]|] == '.';
    hide *;
    JoinAvoids(ds, '.', ':');
    JoinAvoids(ds, '.', '%');
    SplitOfJoin(ds, '.');
  }

  lemma OctetParses(ds: seq<string>, i: nat)
    requires IsDottedQuad(ds) && i < 4
    ensures |ds| == 4 && '.' !in ds[i]
    ensures ParseInt(ds[i]) == Some(DecimalValue(ds[i])) && DecimalValue(ds[i]) < 256
  {
    assert AllDigits(ds[i]);
    hide ParseInt, DecimalValue;
    ParseIntOfDigits(ds[i]);
  }

  lemma DottedQuadParses(ds: seq<string>)
    requires IsDottedQuad(ds)
    ensures ':' !in Join(ds, '.') && '%' !in Join(ds, '.') && '.' in Join(ds, '.')
    ensures Quad(Join(ds, '.'))
         == Some([DecimalValue(ds[0]), DecimalValue(ds[1]), DecimalValue(ds[2]), DecimalValue(ds[3])])
  {
    hide *;
    DottedCharacters(ds);
    OctetParses(ds, 0);
    OctetParses(ds, 1);
    OctetParses(ds, 2);
    OctetParses(ds, 3);
    QuadOfJoined(ds, DecimalValue(ds[0]), DecimalValue(ds[1]), DecimalValue(ds[2]), DecimalValue(ds[3]));
  }

  /** The same address with the dotted tail written as two groups. */
  function Undotted(t: Tail): (u: Tail)
    requires LegalTail(t)
  {
    if t.dotted == None then t
    else
      var ds := t.dotted.value;
      Tail(t.parts + [HexText(DecimalValue(ds[0]) * 256 + DecimalValue(ds[1])),
                      HexText(DecimalValue(ds[2]) * 256 + DecimalValue(ds[3]))], None)
  }

  function UndottedForm(f: Form): Form
    requires Legal(f)
  {
    match f
    case Whole(tail) => Whole(Undotted(tail))
    case Gap(head, tail) => Gap(head, Undotted(tail))
  }

  lemma HextetOfNumber(n: nat)
    requires n < 65536
    ensures IsHextet(HexText(n)) && HexValue(HexText(n)) == n
  {
    assert Power(16, 4) == 65536 by {
      assert Power(16, 2) == 256 && Power(16, 3) == 4096;
    }
    HexRoundTrip(n, 4);
  }

  lemma TwoMoreHextets(parts: seq<string>, h: string, l: string)
    requires AllHextets(parts) && IsHextet(h) && IsHextet(l)
    ensures AllHextets(parts + [h, l])
    ensures Values(parts + [h, l]) == Values(parts) + [HexValue(h), HexValue(l)]
  {
    hide IsHextet, HexValue;
  }

  lemma UndottedMeansTheSame(t: Tail)
    requires LegalTail(t)
    ensures LegalTail(Undotted(t)) && TailGroups(Undotted(t)) == TailGroups(t)
  {
    if t.dotted.Some? {
      var ds := t.dotted.value;
      assert forall i | 0 <= i < 4 :: DecimalValue(ds[i]) < 256;
      var hi, lo := DecimalValue(ds[0]) * 256 + DecimalValue(ds[1]), DecimalValue(ds[2]) * 256 + DecimalValue(ds[3]);
      HextetOfNumber(hi);
      HextetOfNumber(lo);
      TwoMoreHextets(t.parts, HexText(hi), HexText(lo));
      assert TailGroups(t) == Values(t.parts) + [hi, lo];
      assert Undotted(t) == Tail(t.parts + [HexText(hi), HexText(lo)], None);
      hide HexText, HexValue, DecimalValue, IsHextet, Values, AllHextets, Undotted;
    }
  }

  lemma UndottedPieces(t: Tail)
    requires LegalTail(t) && t.dotted.Some?
    ensures var u := Undotted(t).parts;
            Joined(u) == Front(Pieces(t)) + u[|u| - 2] + ":" + u[|u| - 1]
  {
    var u := Undotted(t).parts;
    var h, l := u[|u| - 2], u[|u| - 1];
    assert u == t.parts + [h] + [l];
    JoinSnoc(t.parts + [h], l, ':');
    hide HexText;
    if t.parts == [] {
      assert t.parts + [h] == [h];
      assert Join([h], ':') == h;
    } else {
      JoinSnoc(t.parts, h, ':');
      assert Pieces(t)[..|Pieces(t)| - 1] == t.parts;
    }
    hide Join;
  }

  lemma GroupOfOctets(x: nat, y: nat)
    requires y < 256
    ensures Or(ShiftLeft(x, 8), y) == x * 256 + y
  {
    PowersOfTwo();
    OrBelow(x, y, 8);
    hide Or, Pow2;
  }

  lemma RewriteQuad(before: string, last: string, q: seq<nat>)
    requires before != "" && before[|before| - 1] == ':' && ':' !in last && '.' in last
    requires IsQuad(q) && Quad(last) == Some(q)
    ensures RewriteTail(before + last)
         == Some(before + HexText(q[0] * 256 + q[1]) + ":" + HexText(q[2] * 256 + q[3]))
  {
    CutAtLastColon(before, last);
    GroupOfOctets(q[0], q[1]);
    GroupOfOctets(q[2], q[3]);
    hide HexText, Or, Quad, ShiftLeft, LastIndexOf;
  }

  lemma RewritePlain(before: string, last: string)
    requires before != "" && before[|before| - 1] == ':' && ':' !in last && '.' !in last
    ensures RewriteTail(before + last) == Some(before + last)
  {
    CutAtLastColon(before, last);
    hide LastIndexOf;
  }

  /** The rewritten form denotes the same address and has no dotted tail. */
  lemma UndottedFormMeansTheSame(f: Form)
    requires Legal(f)
    ensures Legal(UndottedForm(f)) && UndottedForm(f).tail.dotted == None
    ensures Meaning(UndottedForm(f)) == Meaning(f)
  {
    UndottedMeansTheSame(f.tail);
    hide TailGroups, LegalTail, HexText, Values;
  }

  lemma AppendThree(a: string, b: string, h: string, l: string)
    ensures a + (b + h + ":" + l) == (a + b) + h + ":" + l
  {
  }

  function HighText(ds: seq<string>): string
    requires IsDottedQuad(ds)
  {
    HexText(DecimalValue(ds[0]) * 256 + DecimalValue(ds[1]))
  }

  function LowText(ds: seq<string>): string
    requires IsDottedQuad(ds)
  {
    HexText(DecimalValue(ds[2]) * 256 + DecimalValue(ds[3]))
  }

  lemma UndottedText(f: Form)
    requires Legal(f) && Legal(UndottedForm(f)) && f.tail.dotted.Some?
    ensures Text(UndottedForm(f))
         == Before(f) + HighText(f.tail.dotted.value) + ":" + LowText(f.tail.dotted.value)
  {
    var t := f.tail;
    var ds := t.dotted.value;
    var u, front := Joined(Undotted(t).parts), Front(Pieces(t));
    UndottedJoined(t);
    UndottedTextIs(f);
    assert Before(f) == if f.Whole? then front else Joined(f.head) + "::" + front;
    hide *;
    if f.Gap? {
      AppendThree(Joined(f.head) + "::", front, HighText(ds), LowText(ds));
    }
  }

  lemma UndottedJoined(t: Tail)
    requires LegalTail(t) && t.dotted.Some?
    ensures Joined(Undotted(t).parts)
         == Front(Pieces(t)) + HighText(t.dotted.value) + ":" + LowText(t.dotted.value)
  {
    var ds := t.dotted.value;
    assert Undotted(t).parts[|t.parts|] == HighText(ds) && Undotted(t).parts[|t.parts| + 1] == LowText(ds);
    hide Undotted, HighText, LowText, Joined, Front, Pieces;
    UndottedPieces(t);
  }

  lemma UndottedTextIs(f: Form)
    requires Legal(f) && Legal(UndottedForm(f)) && f.tail.dotted.Some?
    ensures var u := Joined(Undotted(f.tail).parts);
            Text(UndottedForm(f)) == if f.Whole? then u else Joined(f.head) + "::" + u
  {
    assert UndottedForm(f).tail == Undotted(f.tail) && Undotted(f.tail).dotted == None;
    hide Joined, HexText, DecimalValue, AllHextets, TailGroups;
  }

  /** Rewriting the tail of a legal text gives the text without a dotted tail. */
  lemma RewriteUndots(f: Form)
    requires Legal(f) && Legal(UndottedForm(f))
    ensures RewriteTail(Text(f)) == Some(Text(UndottedForm(f)))
  {
    var t := f.tail;
    if t.dotted.Some? {
      RewriteUndotsDotted(f);
    } else {
      LastHextet(t.parts);
      assert Pieces(t) == t.parts && UndottedForm(f) == f;
      hide *;
      TextAtLast(f);
      RewritePlain(Before(f), Last(t.parts));
    }
  }

  lemma RewriteUndotsDotted(f: Form)
    requires Legal(f) && Legal(UndottedForm(f)) && f.tail.dotted.Some?
    ensures RewriteTail(Text(f)) == Some(Text(UndottedForm(f)))
  {
    var ds := f.tail.dotted.value;
    assert forall i | 0 <= i < 4 :: DecimalValue(ds[i]) < 256;
    var q := [DecimalValue(ds[0]), DecimalValue(ds[1]), DecimalValue(ds[2]), DecimalValue(ds[3])];
    assert IsQuad(q);
    assert Last(Pieces(f.tail)) == Join(ds, '.');
    assert HighText(ds) == HexText(q[0] * 256 + q[1]) && LowText(ds) == HexText(q[2] * 256 + q[3]);
    assert IsDottedQuad(ds);
    hide *;
    TextAtLast(f);
    DottedQuadParses(ds);
    RewriteQuad(Before(f), Join(ds, '.'), q);
    UndottedText(f);
  }

  lemma LastHextet(parts: seq<string>)
    requires AllHextets(parts)
    ensures ':' !in Last(parts) && '.' !in Last(parts)
  {
    if parts != [] {
      assert IsHextet(parts[|parts| - 1]);
    }
  }

  // ---- double colons ---------------------------------------------------------------------------

  predicate NoDouble(s: string) {
    forall i | 0 <= i < |s| - 1 :: !(s[i] == ':' && s[i + 1] == ':')
  }

  /** Joined hextets have no double colon and no colon at either end. */
  lemma {:induction false} JoinedIsTight(parts: seq<string>)
    requires AllHextets(parts)
    ensures NoDouble(Joined(parts))
    ensures parts != [] ==> var s := Joined(parts); s != "" && s[0] != ':' && s[|s| - 1] != ':'
    decreases |parts|
  {
    if parts != [] {
      assert IsHextet(parts[0]);
      if |parts| > 1 {
        JoinedIsTight(parts[1..]);
        var s, p, r := Joined(parts), parts[0], Joined(parts[1..]);
        assert s == p + ":" + r;
        forall i | 0 <= i < |s| - 1 ensures !(s[i] == ':' && s[i + 1] == ':') {
          if i > |p| {
            assert s[i] == r[i - |p| - 1] && s[i + 1] == r[i - |p|];
          }
        }
      }
    }
  }

  lemma {:induction false} NoDoubleNoSplit(s: string)
    requires NoDouble(s)
    ensures DoubleAt(s) == |s| && SplitDouble(s) == [s]
    decreases |s|
  {
    if |s| >= 2 {
      assert !(s[0] == ':' && s[0 + 1] == ':');
      forall i | 0 <= i < |s[1..]| - 1 ensures !(s[1..][i] == ':' && s[1..][i + 1] == ':') {
        assert s[1..][i] == s[i + 1] && s[1..][i + 1] == s[(i + 1) + 1];
      }
      NoDoubleNoSplit(s[1..]);
    }
  }

  lemma {:induction false} FirstDouble(a: string, b: string)
    requires NoDouble(a) && (a != "" ==> a[|a| - 1] != ':')
    ensures DoubleAt(a + "::" + b) == |a|
    decreases |a|
  {
    var s := a + "::" + b;
    if a != "" {
      assert s[1..] == a[1..] + "::" + b;
      assert a[0] == ':' ==> |a| > 1 && !(a[0] == ':' && a[0 + 1] == ':');
      forall i | 0 <= i < |a[1..]| - 1 ensures !(a[1..][i] == ':' && a[1..][i + 1] == ':') {
        assert a[1..][i] == a[i + 1] && a[1..][i + 1] == a[(i + 1) + 1];
      }
      FirstDouble(a[1..], b);
    }
  }

  lemma SplitAtGap(a: string, b: string)
    requires NoDouble(a) && (a != "" ==> a[|a| - 1] != ':') && NoDouble(b)
    ensures SplitDouble(a + "::" + b) == [a, b]
  {
    var s := a + "::" + b;
    FirstDouble(a, b);
    NoDoubleNoSplit(b);
    assert s[..|a|] == a && s[|a| + 2..] == b;
  }

  lemma SegmentOfJoined(parts: seq<string>)
    requires AllHextets(parts)
    ensures SegmentGroups(Joined(parts)) == Some(Values(parts))
  {
    if parts != [] {
      JoinedIsTight(parts);
      forall p | p in parts ensures ':' !in p {
        var i :| 0 <= i < |parts| && parts[i] == p;
        assert IsHextet(parts[i]);
      }
      SplitOfJoin(parts, ':');
    }
  }

  // ---- the parser inverts every legal text ---------------------------------------------------

  lemma AssembleGap(a: string, b: string, x: seq<nat>, y: seq<nat>)
    requires SegmentGroups(a) == Some(x) && SegmentGroups(b) == Some(y) && |x| + |y| <= 8
    ensures Assemble([a, b]) == Some(x + Zeros(8 - |x| - |y|) + y)
  {
    hide SegmentGroups, Zeros;
  }

  lemma AssembleWhole(a: string, x: seq<nat>)
    requires SegmentGroups(a) == Some(x) && |x| == 8
    ensures Assemble([a]) == Some(x)
  {
    hide SegmentGroups;
  }

  lemma AssembleJoined(parts: seq<string>)
    requires AllHextets(parts) && |parts| == 8
    ensures Assemble(SplitDouble(Joined(parts))) == Some(Values(parts))
  {
    hide *;
    JoinedIsTight(parts);
    SegmentOfJoined(parts);
    NoDoubleNoSplit(Joined(parts));
    AssembleWhole(Joined(parts), Values(parts));
  }

  lemma AssembleJoinedGap(head: seq<string>, parts: seq<string>)
    requires AllHextets(head) && AllHextets(parts) && |head| + |parts| <= 7
    ensures Assemble(SplitDouble(Joined(head) + "::" + Joined(parts)))
         == Some(Values(head) + Zeros(8 - |head| - |parts|) + Values(parts))
  {
    assert head == [] ==> Joined(head) == "";
    hide *;
    JoinedIsTight(head);
    JoinedIsTight(parts);
    SegmentOfJoined(head);
    SegmentOfJoined(parts);
    SplitAtGap(Joined(head), Joined(parts));
    AssembleGap(Joined(head), Joined(parts), Values(head), Values(parts));
  }

  lemma AssembleUndotted(f: Form)
    requires Legal(f) && f.tail.dotted == None
    ensures Assemble(SplitDouble(Text(f))) == Some(Meaning(f))
  {
    hide AllHextets, Values, Joined, Assemble, SplitDouble, Zeros;
    if f.Whole? {
      AssembleJoined(f.tail.parts);
    } else {
      AssembleJoinedGap(f.head, f.tail.parts);
    }
  }

  lemma HextetAvoids(parts: seq<string>)
    requires AllHextets(parts)
    ensures '%' !in Joined(parts)
  {
    if parts != [] {
      forall i | 0 <= i < |parts| ensures '%' !in parts[i] {
        assert IsHextet(parts[i]);
      }
      JoinAvoids(parts, ':', '%');
    }
  }

  lemma TextHasNoZone(f: Form)
    requires Legal(f)
    ensures '%' !in Text(f)
  {
    var t := f.tail;
    HextetAvoids(t.parts);
    if t.dotted.Some? {
      DottedQuadParses(t.dotted.value);
      var pieces := Pieces(t);
      forall i | 0 <= i < |pieces| ensures '%' !in pieces[i] {
        assert i < |t.parts| ==> IsHextet(t.parts[i]);
      }
      JoinAvoids(pieces, ':', '%');
    }
    if f.Gap? {
      HextetAvoids(f.head);
    }
  }

  /**
   * Every legal text of an address, with or without '::', with or without a
   * dotted tail, with or without a zone, parses to the address it denotes.
   */
  lemma ParseInvertsText(f: Form, zone: Option<string>)
    requires Legal(f)
    ensures Groups(Text(f) + ZoneSuffix(zone)) == Some(Meaning(f))
  {
    hide *;
    var text, plain := Text(f), UndottedForm(f);
    TextHasNoZone(f);
    ZoneIsDropped(text, zone);
    TextAtLast(f);
    assert text[|Before(f)| - 1] == ':';
    UndottedFormMeansTheSame(f);
    RewriteUndots(f);
    AssembleUndotted(plain);
    GroupsOfText(text + ZoneSuffix(zone), text, Text(plain));
  }

  lemma GroupsOfText(ip: string, text: string, plain: string)
    requires Split(ip, '%')[0] == text && ':' in text && RewriteTail(text) == Some(plain)
    ensures Groups(ip) == Assemble(SplitDouble(plain))
  {
    hide Split, RewriteTail, Assemble, SplitDouble;
  }

  function ZoneSuffix(zone: Option<string>): string {
    if zone == None then "" else "%" + zone.value
  }

  lemma ZoneIsDropped(text: string, zone: Option<string>)
    requires '%' !in text
    ensures Split(text + ZoneSuffix(zone), '%')[0] == text
  {
    var ip := text + ZoneSuffix(zone);
    assert ip[..|text|] == text;
    IndexOfUnique(ip, '%', |text|);
    hide IndexOf;
  }
}
