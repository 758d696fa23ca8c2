/**
 * JSON.stringify on canonical values, and the idempotency key material built
 * from it (src/tools/idempotency-gate.service.ts).
 */
module KeyMaterial {
  import opened Common
  import opened Canonical

  // ---- JSON text (JSON.stringify of ECMA-262, without indentation) ------------

  function EscapeChar(c: char): (e: string)
    ensures e != "" && e[0] != '"'
  {
    if c == '"' then "\\\""
    else if c == '\\' then "\\\\"
    else if c == '\U{8}' then "\\b"
    else if c == '\U{C}' then "\\f"
    else if c == '\n' then "\\n"
    else if c == '\r' then "\\r"
    else if c == '\t' then "\\t"
    else if c < ' ' then "\\u00" + [HexDigit(c as int / 16), HexDigit(c as int % 16)]
    else [c]
  }

  /** The escapes of section 7 of RFC 8259, by code point: seven short ones, other control characters by number, nothing else. */
  lemma EscapeForms(c: char)
    ensures EscapeChar(c) ==
            match c as int
            case 0x22 => "\\\""
            case 0x5C => "\\\\"
            case 0x08 => "\\b"
            case 0x0C => "\\f"
            case 0x0A => "\\n"
            case 0x0D => "\\r"
            case 0x09 => "\\t"
            case n => if n < 0x20 then ['\\', 'u', '0', '0', if n < 0x10 then '0' else '1', HexDigit(n % 16)] else [c]
  {
  }

  function EscapeAll(s: string): string {
    if s == "" then "" else EscapeChar(s[0]) + EscapeAll(s[1..])
  }

  function Quote(s: string): string {
    "\"" + EscapeAll(s) + "\""
  }

  function Stringify(v: Json): string
    decreases v, 1
  {
    match v
    case JNull => "null"
    case JBool(b) => if b then "true" else "false"
    case JNumber(Finite(t)) => t
    case JNumber(NegativeZero) => "0"
    case JNumber(_) => "null"
    case JString(s) => Quote(s)
    case JArray(items) => "[" + Items(items)
    case JObject(ms) => "{" + Members(ms)
  }

  function Items(items: seq<Json>): string
    decreases items, 1
  {
    if items == [] then "]" else Stringify(items[0]) + MoreItems(items[1..])
  }

  function Members(ms: seq<Member>): string
    decreases ms, 1
  {
    if ms == [] then "}" else OneMember(ms[0]) + MoreMembers(ms[1..])
  }

  function MoreItems(items: seq<Json>): string
    decreases items, 0
  {
    if items == [] then "]" else "," + Stringify(items[0]) + MoreItems(items[1..])
  }

  function OneMember(m: Member): string
    decreases m, 2
  {
    Quote(m.key) + ":" + Stringify(m.value)
  }

  function MoreMembers(ms: seq<Member>): string
    decreases ms, 0
  {
    if ms == [] then "}" else "," + OneMember(ms[0]) + MoreMembers(ms[1..])
  }

  // ---- no two values share a text -----------------------------------------------

  /** Values whose text determines them: what canonicalisation produces from well-formed arguments. */
  predicate Printable(v: Json) {
    match v
    case JNumber(n) => n.Finite? && Numeral(n.text)
    case JArray(items) => forall i | i in items :: Printable(i)
    case JObject(ms) => forall m | m in ms :: Printable(m.value)
    case _ => true
  }

  /** What can follow a value inside a text. */
  predicate Closed(x: string) {
    x == "" || x[0] == ',' || x[0] == ']' || x[0] == '}'
  }

  lemma CutPrefix(p: string, x: string, y: string)
    requires p + x == p + y
    ensures x == y
  {
    assert (p + x)[|p|..] == x && (p + y)[|p|..] == y;
  }

  lemma HexDigitsDistinct(m: nat, n: nat)
    requires m < 16 && n < 16 && HexDigit(m) == HexDigit(n)
    ensures m == n
  {
  }

  /** The escapes form a prefix code. */
  lemma EscapeUnique(c: char, d: char, x: string, y: string)
    requires EscapeChar(c) + x == EscapeChar(d) + y
    ensures c == d && x == y
  {
    var e, f := EscapeChar(c), EscapeChar(d);
    assert e[0] == (e + x)[0] == (f + y)[0] == f[0];
    if |e| >= 2 && |f| >= 2 {
      assert e[1] == (e + x)[1] == (f + y)[1] == f[1];
      if |e| == 6 && |f| == 6 {
        assert e[4] == (e + x)[4] == (f + y)[4] == f[4];
        assert e[5] == (e + x)[5] == (f + y)[5] == f[5];
        HexDigitsDistinct(c as int / 16, d as int / 16);
        HexDigitsDistinct(c as int % 16, d as int % 16);
      }
    }
    assert c == d;
    CutPrefix(e, x, y);
  }

  lemma {:induction false} EscapedTextUnique(s: string, t: string, x: string, y: string)
    requires EscapeAll(s) + "\"" + x == EscapeAll(t) + "\"" + y
    ensures s == t && x == y
    decreases |s|
  {
    EscapedHead(s, x);
    EscapedHead(t, y);
    hide EscapeAll, EscapeChar;
    if s == "" && t == "" {
      CutPrefix("\"", x, y);
    } else if s != "" && t != "" {
      EscapeUnique(s[0], t[0], EscapeAll(s[1..]) + "\"" + x, EscapeAll(t[1..]) + "\"" + y);
      EscapedTextUnique(s[1..], t[1..], x, y);
      assert s == [s[0]] + s[1..] && t == [t[0]] + t[1..];
    }
  }

  lemma EscapedHead(s: string, x: string)
    ensures EscapeAll(s) + "\"" + x != ""
    ensures s == "" ==> EscapeAll(s) + "\"" + x == "\"" + x && (EscapeAll(s) + "\"" + x)[0] == '"'
    ensures s != "" ==> EscapeAll(s) + "\"" + x == EscapeChar(s[0]) + (EscapeAll(s[1..]) + "\"" + x)
    ensures s != "" ==> (EscapeAll(s) + "\"" + x)[0] != '"'
  {
    hide EscapeChar;
    if s == "" {
      assert EscapeAll(s) == "";
      assert "" + "\"" + x == "\"" + x;
    } else {
      var e, rest := EscapeChar(s[0]), EscapeAll(s[1..]);
      Assoc(e, rest, "\"" + x);
      Assoc(rest, "\"", x);
      Assoc(e + rest, "\"", x);
      HeadOfAppend(e, rest + "\"" + x);
    }
  }

  lemma QuoteHead(s: string, x: string)
    ensures Quote(s) + x == "\"" + (EscapeAll(s) + "\"" + x)
  {
    hide EscapeAll;
    Assoc("\"", EscapeAll(s), "\"");
  }

  lemma QuoteUnique(s: string, t: string, x: string, y: string)
    requires Quote(s) + x == Quote(t) + y
    ensures s == t && x == y
  {
    QuoteHead(s, x);
    QuoteHead(t, y);
    hide Quote, EscapeAll;
    CutPrefix("\"", EscapeAll(s) + "\"" + x, EscapeAll(t) + "\"" + y);
    EscapedTextUnique(s, t, x, y);
  }

  lemma HeadOfAppend(s: string, x: string)
    ensures s == "" ==> s + x == x
    ensures s != "" ==> (s + x)[0] == s[0] && (s + x)[1..] == s[1..] + x && s[0] in s
  {
    if s != "" {
      assert (s + x)[1..] == s[1..] + x;
    }
  }

  lemma {:induction false} NumeralUnique(s: string, t: string, x: string, y: string)
    requires (forall c | c in s :: NumeralChar(c)) && (forall c | c in t :: NumeralChar(c))
    requires Closed(x) && Closed(y) && s + x == t + y
    ensures s == t && x == y
    decreases |s|
  {
    HeadOfAppend(s, x);
    HeadOfAppend(t, y);
    if s != "" && t != "" {
      NumeralUnique(s[1..], t[1..], x, y);
      assert s == [s[0]] + s[1..] && t == [t[0]] + t[1..];
    }
  }

  /** The first character of a text tells the kind of value. */
  lemma FirstChar(v: Json)
    requires Printable(v)
    ensures Stringify(v) != ""
    ensures var c := Stringify(v)[0];
            && (c == '[' <==> v.JArray?) && (c == '{' <==> v.JObject?) && (c == '"' <==> v.JString?)
            && (NumeralChar(c) <==> v.JNumber?) && (c == 'n' <==> v.JNull?)
            && (c == 't' <==> v == JBool(true)) && (c == 'f' <==> v == JBool(false))
            && c != ']' && c != ','
  {
    match v
    case JNumber(n) => assert n.text[0] in n.text;
    case JString(s) => assert Quote(s)[0] == '"';
    case JArray(items) => assert Stringify(v)[0] == '[';
    case JObject(ms) => assert Stringify(v)[0] == '{';
    case _ =>
  }

  lemma {:induction false} TextUnique(v: Json, w: Json, x: string, y: string)
    requires Printable(v) && Printable(w) && Closed(x) && Closed(y)
    requires Stringify(v) + x == Stringify(w) + y
    ensures v == w && x == y
    decreases v, 1
  {
    FirstChar(v);
    FirstChar(w);
    HeadOfAppend(Stringify(v), x);
    HeadOfAppend(Stringify(w), y);
    match v
    case JNumber(n) => NumeralUnique(n.text, w.n.text, x, y);
    case JString(s) => QuoteUnique(s, w.s, x, y);
    case JArray(items) =>
      assert Stringify(v) + x == "[" + (Items(items) + x) && Stringify(w) + y == "[" + (Items(w.items) + y);
      CutPrefix("[", Items(items) + x, Items(w.items) + y);
      ItemsUnique(items, w.items, x, y);
    case JObject(ms) =>
      assert Stringify(v) + x == "{" + (Members(ms) + x) && Stringify(w) + y == "{" + (Members(w.members) + y);
      CutPrefix("{", Members(ms) + x, Members(w.members) + y);
      MembersUnique(ms, w.members, x, y);
    case JNull => CutPrefix("null", x, y);
    case JBool(b) => CutPrefix(if b then "true" else "false", x, y);
  }

  lemma Assoc(a: string, b: string, x: string)
    ensures a + b + x == a + (b + x)
  {
  }

  /** How item texts begin: an empty list closes at once, any other starts with its first item. */
  lemma ItemsHead(a: seq<Json>, x: string)
    requires forall i | i in a :: Printable(i)
    ensures a == [] ==> Items(a) + x == "]" + x
    ensures a != [] ==> Items(a) + x == Stringify(a[0]) + (MoreItems(a[1..]) + x)
    ensures Items(a) + x != "" && ((Items(a) + x)[0] == ']' <==> a == [])
  {
    if a == [] {
      HeadOfAppend("]", x);
    } else {
      FirstChar(a[0]);
      Assoc(Stringify(a[0]), MoreItems(a[1..]), x);
      HeadOfAppend(Stringify(a[0]), MoreItems(a[1..]) + x);
    }
  }

  lemma MoreItemsHead(a: seq<Json>, x: string)
    ensures a == [] ==> MoreItems(a) + x == "]" + x
    ensures a != [] ==> MoreItems(a) + x == "," + (Stringify(a[0]) + (MoreItems(a[1..]) + x))
    ensures MoreItems(a) + x != "" && (MoreItems(a) + x)[0] == (if a == [] then ']' else ',')
    ensures Closed(MoreItems(a) + x)
  {
    if a == [] {
      HeadOfAppend("]", x);
    } else {
      Assoc("," + Stringify(a[0]), MoreItems(a[1..]), x);
      Assoc(",", Stringify(a[0]), MoreItems(a[1..]) + x);
      HeadOfAppend(",", Stringify(a[0]) + (MoreItems(a[1..]) + x));
    }
  }

  lemma {:induction false} ItemsUnique(a: seq<Json>, b: seq<Json>, x: string, y: string)
    requires (forall i | i in a :: Printable(i)) && (forall i | i in b :: Printable(i))
    requires Items(a) + x == Items(b) + y
    ensures a == b && x == y
    decreases a, 0
  {
    ItemsHead(a, x);
    ItemsHead(b, y);
    hide Items, MoreItems, Stringify, Printable;
    if a == [] && b == [] {
      CutPrefix("]", x, y);
    } else if a != [] && b != [] {
      MoreItemsHead(a[1..], x);
      MoreItemsHead(b[1..], y);
      TextUnique(a[0], b[0], MoreItems(a[1..]) + x, MoreItems(b[1..]) + y);
      MoreItemsUnique(a[1..], b[1..], x, y);
      assert a == [a[0]] + a[1..] && b == [b[0]] + b[1..];
    }
  }

  lemma {:induction false} MoreItemsUnique(a: seq<Json>, b: seq<Json>, x: string, y: string)
    requires (forall i | i in a :: Printable(i)) && (forall i | i in b :: Printable(i))
    requires MoreItems(a) + x == MoreItems(b) + y
    ensures a == b && x == y
    decreases a, 0
  {
    MoreItemsHead(a, x);
    MoreItemsHead(b, y);
    hide Items, MoreItems, Stringify, Printable;
    if a == [] && b == [] {
      CutPrefix("]", x, y);
    } else if a != [] && b != [] {
      var u, v := MoreItems(a[1..]) + x, MoreItems(b[1..]) + y;
      CutPrefix(",", Stringify(a[0]) + u, Stringify(b[0]) + v);
      MoreItemsHead(a[1..], x);
      MoreItemsHead(b[1..], y);
      TextUnique(a[0], b[0], u, v);
      MoreItemsUnique(a[1..], b[1..], x, y);
      assert a == [a[0]] + a[1..] && b == [b[0]] + b[1..];
    }
  }

  lemma {:induction false} OneMemberUnique(m: Member, n: Member, x: string, y: string)
    requires Printable(m.value) && Printable(n.value) && Closed(x) && Closed(y)
    requires OneMember(m) + x == OneMember(n) + y
    ensures m == n && x == y
    decreases m, 2
  {
    var u, v := ":" + (Stringify(m.value) + x), ":" + (Stringify(n.value) + y);
    OneMemberText(m, x);
    OneMemberText(n, y);
    hide Stringify, Quote, OneMember, Printable, Closed;
    QuoteUnique(m.key, n.key, u, v);
    CutPrefix(":", Stringify(m.value) + x, Stringify(n.value) + y);
    TextUnique(m.value, n.value, x, y);
  }

  lemma OneMemberText(m: Member, x: string)
    ensures OneMember(m) + x == Quote(m.key) + (":" + (Stringify(m.value) + x))
    ensures OneMember(m) + x != "" && (OneMember(m) + x)[0] == '"'
  {
    hide Stringify, EscapeAll;
    Assoc(Quote(m.key) + ":", Stringify(m.value), x);
    Assoc(Quote(m.key), ":", Stringify(m.value) + x);
    assert Quote(m.key)[0] == '"';
    HeadOfAppend(Quote(m.key), ":" + (Stringify(m.value) + x));
  }

  lemma MembersHead(a: seq<Member>, x: string)
    ensures a == [] ==> Members(a) + x == "}" + x
    ensures a != [] ==> Members(a) + x == OneMember(a[0]) + (MoreMembers(a[1..]) + x)
    ensures Members(a) + x != "" && (Members(a) + x)[0] == (if a == [] then '}' else '"')
  {
    if a == [] {
      HeadOfAppend("}", x);
    } else {
      Assoc(OneMember(a[0]), MoreMembers(a[1..]), x);
      OneMemberText(a[0], MoreMembers(a[1..]) + x);
    }
  }

  lemma MoreMembersHead(a: seq<Member>, x: string)
    ensures a == [] ==> MoreMembers(a) + x == "}" + x
    ensures a != [] ==> MoreMembers(a) + x == "," + (OneMember(a[0]) + (MoreMembers(a[1..]) + x))
    ensures MoreMembers(a) + x != "" && (MoreMembers(a) + x)[0] == (if a == [] then '}' else ',')
    ensures Closed(MoreMembers(a) + x)
  {
    if a == [] {
      HeadOfAppend("}", x);
    } else {
      Assoc("," + OneMember(a[0]), MoreMembers(a[1..]), x);
      Assoc(",", OneMember(a[0]), MoreMembers(a[1..]) + x);
      HeadOfAppend(",", OneMember(a[0]) + (MoreMembers(a[1..]) + x));
    }
  }

  lemma {:induction false} MembersUnique(a: seq<Member>, b: seq<Member>, x: string, y: string)
    requires (forall m | m in a :: Printable(m.value)) && (forall m | m in b :: Printable(m.value))
    requires Members(a) + x == Members(b) + y
    ensures a == b && x == y
    decreases a, 0
  {
    MembersHead(a, x);
    MembersHead(b, y);
    hide Members, MoreMembers, OneMember, Printable;
    if a == [] && b == [] {
      CutPrefix("}", x, y);
    } else if a != [] && b != [] {
      MoreMembersHead(a[1..], x);
      MoreMembersHead(b[1..], y);
      OneMemberUnique(a[0], b[0], MoreMembers(a[1..]) + x, MoreMembers(b[1..]) + y);
      MoreMembersUnique(a[1..], b[1..], x, y);
      assert a == [a[0]] + a[1..] && b == [b[0]] + b[1..];
    }
  }

  lemma {:induction false} MoreMembersUnique(a: seq<Member>, b: seq<Member>, x: string, y: string)
    requires (forall m | m in a :: Printable(m.value)) && (forall m | m in b :: Printable(m.value))
    requires MoreMembers(a) + x == MoreMembers(b) + y
    ensures a == b && x == y
    decreases a, 0
  {
    MoreMembersHead(a, x);
    MoreMembersHead(b, y);
    hide Members, MoreMembers, OneMember, Printable;
    if a == [] && b == [] {
      CutPrefix("}", x, y);
    } else if a != [] && b != [] {
      var u, v := MoreMembers(a[1..]) + x, MoreMembers(b[1..]) + y;
      CutPrefix(",", OneMember(a[0]) + u, OneMember(b[0]) + v);
      MoreMembersHead(a[1..], x);
      MoreMembersHead(b[1..], y);
      OneMemberUnique(a[0], b[0], u, v);
      MoreMembersUnique(a[1..], b[1..], x, y);
      assert a == [a[0]] + a[1..] && b == [b[0]] + b[1..];
    }
  }

  // ---- canonical trees are printable ----------------------------------------------

  lemma {:induction false} InsertedArePrintable(m: Member, ms: seq<Member>)
    requires Printable(m.value) && forall n | n in ms :: Printable(n.value)
    ensures forall n | n in Insert(m, ms) :: Printable(n.value)
    decreases |ms|
  {
    if ms != [] && !Less(m.key, ms[0].key) {
      InsertedArePrintable(m, ms[1..]);
    }
  }

  lemma {:induction false} CanonicalIsPrintable(v: Json, strip: bool)
    requires WellFormed(v)
    ensures Printable(Canonicalize(v, strip))
    decreases v, 1
  {
    match v
    case JArray(items) => ItemsArePrintable(items, strip);
    case JObject(ms) => MembersArePrintable(ms, strip);
    case _ => assert Numeral("0") by { assert NumeralChar('0'); }
  }

  lemma {:induction false} ItemsArePrintable(items: seq<Json>, strip: bool)
    requires forall i | i in items :: WellFormed(i)
    ensures forall i | i in CanonicalItems(items, strip) :: Printable(i)
    decreases items, 0
  {
    if items != [] {
      CanonicalIsPrintable(items[0], strip);
      ItemsArePrintable(items[1..], strip);
    }
  }

  lemma {:induction false} MembersArePrintable(ms: seq<Member>, strip: bool)
    requires forall m | m in ms :: WellFormed(m.value)
    ensures forall m | m in CanonicalMembers(ms, strip) :: Printable(m.value)
    decreases ms, 0
  {
    if ms != [] {
      CanonicalIsPrintable(ms[0].value, strip);
      MembersArePrintable(ms[1..], strip);
      if !Dropped(ms[0].key, strip) {
        InsertedArePrintable(Member(ms[0].key, Canonicalize(ms[0].value, strip)), CanonicalMembers(ms[1..], strip));
      }
    }
  }

  /** Two well-formed values have the same canonical text exactly when they are equivalent. */
  lemma SameTextIffEquivalent(v: Json, w: Json, strip: bool)
    requires WellFormed(v) && WellFormed(w)
    ensures Stringify(Canonicalize(v, strip)) == Stringify(Canonicalize(w, strip)) <==> Equivalent(v, w, strip)
  {
    CanonicalIsPrintable(v, strip);
    CanonicalIsPrintable(w, strip);
    EquivalentIffCanonicallyEqual(v, w, strip);
    var a, b := Canonicalize(v, strip), Canonicalize(w, strip);
    hide Stringify, Canonicalize, Printable, Equivalent;
    if Stringify(a) == Stringify(b) {
      assert Stringify(a) + "" == Stringify(b) + "";
      TextUnique(a, b, "", "");
    }
  }

  // ---- buildKey ---------------------------------------------------------------------

  datatype Source = Explicit | ConfirmToken | BusinessKey | PayloadHash

  datatype Input = Input(explicitKey: string, toolCallId: string, args: seq<Member>, keyFields: seq<string>)

  /** The declared fields the arguments have, each once. */
  function Pick(args: seq<Member>, fields: seq<string>): seq<Member> {
    if fields == [] then []
    else
      var before := Pick(args, fields[..|fields| - 1]);
      var f := fields[|fields| - 1];
      if Lookup(args, f).None? || Lookup(before, f).Some? then before else before + [Member(f, Lookup(args, f).value)]
  }

  function SourceOf(i: Input): Source {
    if Trim(i.explicitKey) != "" then Explicit
    else if StartsWith(i.toolCallId, "confirm-") then ConfirmToken
    else if Pick(i.args, i.keyFields) != [] then BusinessKey
    else PayloadHash
  }

  function Material(i: Input): string {
    match SourceOf(i)
    case Explicit => "explicit:" + Trim(i.explicitKey)
    case ConfirmToken => "token:" + i.toolCallId
    case BusinessKey => "business:" + Stringify(Canonicalize(JObject(Pick(i.args, i.keyFields)), false))
    case PayloadHash => "payload:" + Stringify(Canonicalize(JObject(i.args), true))
  }

  lemma {:induction false} PickedIffPresent(args: seq<Member>, fields: seq<string>)
    ensures Pick(args, fields) != [] <==> exists f | f in fields :: Lookup(args, f).Some?
    decreases |fields|
  {
    if fields != [] {
      var init, f := fields[..|fields| - 1], fields[|fields| - 1];
      PickedIffPresent(args, init);
      assert fields == init + [f];
      NothingPicked(f);
      if exists g | g in fields :: Lookup(args, g).Some? {
        var g :| g in fields && Lookup(args, g).Some?;
        assert g in init || g == f;
      }
      hide Lookup;
    }
  }

  lemma NothingPicked(f: string)
    ensures Lookup([], f) == None
  {
  }

  /** Where the key comes from: an explicit key, else a confirm token, else the declared fields if any is present, else the payload. */
  lemma SourceInOrder(i: Input)
    ensures var confirm := |i.toolCallId| >= 8 && i.toolCallId[..8] == "confirm-";
            var present := exists f | f in i.keyFields :: Lookup(i.args, f).Some?;
            && (SourceOf(i) == Explicit <==> Trim(i.explicitKey) != "")
            && (SourceOf(i) == ConfirmToken <==> Trim(i.explicitKey) == "" && confirm)
            && (SourceOf(i) == BusinessKey <==> Trim(i.explicitKey) == "" && !confirm && present)
            && (SourceOf(i) == PayloadHash <==> Trim(i.explicitKey) == "" && !confirm && !present)
  {
    PickedIffPresent(i.args, i.keyFields);
    hide Pick, Trim, Lookup;
  }

  lemma {:induction false} LookupAppended(ms: seq<Member>, m: Member, k: string)
    ensures Lookup(ms + [m], k) == if Lookup(ms, k).Some? then Lookup(ms, k) else if k == m.key then Some(m.value) else None
    decreases |ms|
  {
    if ms != [] {
      assert (ms + [m])[1..] == ms[1..] + [m];
      LookupAppended(ms[1..], m, k);
    }
  }

  /** The picked members map exactly the declared, present fields, each to its argument. */
  lemma {:induction false} PickedFields(args: seq<Member>, fields: seq<string>)
    requires forall m | m in args :: WellFormed(m.value)
    ensures DistinctKeys(Pick(args, fields)) && forall m | m in Pick(args, fields) :: WellFormed(m.value)
    ensures forall k :: Lookup(Pick(args, fields), k) == if k in fields then Lookup(args, k) else None
    decreases |fields|
  {
    if fields != [] {
      var init, f := fields[..|fields| - 1], fields[|fields| - 1];
      var before := Pick(args, init);
      PickedFields(args, init);
      assert fields == init + [f];
      LookupFound(before, f);
      LookupFound(args, f);
      if Lookup(args, f).Some? {
        var m := Member(f, Lookup(args, f).value);
        forall k ensures Lookup(Pick(args, fields), k) == if k in fields then Lookup(args, k) else None {
          LookupAppended(before, m, k);
        }
      }
    }
  }

  /** Business identity: every declared field is present in both or in neither, with equivalent values. */
  predicate SameFields(a: seq<Member>, b: seq<Member>, fields: seq<string>) {
    forall f | f in fields && !Dropped(f, false) ::
      (Lookup(a, f).Some? <==> Lookup(b, f).Some?)
      && (Lookup(a, f).Some? && Lookup(b, f).Some? ==> Equivalent(Lookup(a, f).value, Lookup(b, f).value, false))
  }

  lemma SameFieldsIffEquivalentPicks(a: seq<Member>, b: seq<Member>, fields: seq<string>)
    requires WellFormed(JObject(a)) && WellFormed(JObject(b))
    ensures SameFields(a, b, fields) <==> Equivalent(JObject(Pick(a, fields)), JObject(Pick(b, fields)), false)
  {
    PickedFields(a, fields);
    PickedFields(b, fields);
    var p, q := Pick(a, fields), Pick(b, fields);
    if SameFields(a, b, fields) {
      forall m | m in p && !Dropped(m.key, false)
        ensures Lookup(q, m.key).Some? && Equivalent(m.value, Lookup(q, m.key).value, false)
      {
        LookupMember(p, m);
      }
      forall m | m in q && !Dropped(m.key, false) ensures Lookup(p, m.key).Some? {
        LookupMember(q, m);
      }
    }
    if Equivalent(JObject(p), JObject(q), false) {
      forall f | f in fields && !Dropped(f, false)
        ensures Lookup(a, f).Some? <==> Lookup(b, f).Some?
        ensures Lookup(a, f).Some? && Lookup(b, f).Some? ==> Equivalent(Lookup(a, f).value, Lookup(b, f).value, false)
      {
        LookupFound(p, f);
        LookupFound(q, f);
        if Lookup(p, f).Some? {
          assert Member(f, Lookup(p, f).value) in p;
        }
        if Lookup(q, f).Some? {
          assert Member(f, Lookup(q, f).value) in q;
        }
      }
    }
  }

  /** When two calls of one tool that declares the same fields share their key. */
  predicate SameOperation(i: Input, j: Input) {
    SourceOf(i) == SourceOf(j)
    && match SourceOf(i)
       case Explicit => Trim(i.explicitKey) == Trim(j.explicitKey)
       case ConfirmToken => i.toolCallId == j.toolCallId
       case BusinessKey => SameFields(i.args, j.args, i.keyFields)
       case PayloadHash => Equivalent(JObject(i.args), JObject(j.args), true)
  }

  lemma Prefixed(i: Input)
    ensures Material(i) != ""
    ensures Material(i)[0] == (match SourceOf(i) case Explicit => 'e' case ConfirmToken => 't' case BusinessKey => 'b' case PayloadHash => 'p')
  {
    hide Stringify, Canonicalize, Pick, Trim, StartsWith;
  }

  /**
   * Key material is equal exactly when the calls are the same operation: key
   * order, string padding and volatile fields never matter, everything else does.
   */
  lemma SameMaterialIffSameOperation(i: Input, j: Input)
    requires WellFormed(JObject(i.args)) && WellFormed(JObject(j.args)) && i.keyFields == j.keyFields
    ensures Material(i) == Material(j) <==> SameOperation(i, j)
  {
    Prefixed(i);
    Prefixed(j);
    if SourceOf(i) == SourceOf(j) {
      PickedFields(i.args, i.keyFields);
      PickedFields(j.args, j.keyFields);
      var p, q := JObject(Pick(i.args, i.keyFields)), JObject(Pick(j.args, j.keyFields));
      SameTextIffEquivalent(p, q, false);
      SameFieldsIffEquivalentPicks(i.args, j.args, i.keyFields);
      SameTextIffEquivalent(JObject(i.args), JObject(j.args), true);
      hide Stringify, Canonicalize, Equivalent, Pick, SameFields;
      match SourceOf(i)
      case Explicit => PrefixInjective("explicit:", Trim(i.explicitKey), Trim(j.explicitKey));
      case ConfirmToken => PrefixInjective("token:", i.toolCallId, j.toolCallId);
      case BusinessKey => PrefixInjective("business:", Stringify(Canonicalize(p, false)), Stringify(Canonicalize(q, false)));
      case PayloadHash =>
        PrefixInjective("payload:", Stringify(Canonicalize(JObject(i.args), true)), Stringify(Canonicalize(JObject(j.args), true)));
    }
  }

  lemma PrefixInjective(p: string, x: string, y: string)
    ensures p + x == p + y <==> x == y
  {
    if p + x == p + y {
      CutPrefix(p, x, y);
    }
  }
}
