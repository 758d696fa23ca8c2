/**
 * Canonical arguments and the key material built from them
 * (src/tools/idempotency-gate.service.ts).
 *
 * Arguments are what JSON.parse can return.  A finite number is identified by
 * the text ECMA-262 prints for it; keys are ordered by code point.
 */
module Canonical {
  import opened Common

  datatype Number = Finite(text: string) | NegativeZero | NaN | Infinity | NegativeInfinity

  datatype Member = Member(key: string, value: Json)

  datatype Json =
    | JNull
    | JBool(b: bool)
    | JNumber(n: Number)
    | JString(s: string)
    | JArray(items: seq<Json>)
    | JObject(members: seq<Member>)

  const Volatile := {"confirm", "force", "idempotencyKey", "requestId", "sessionId", "timestamp", "remark"}

  /** Assigning to `__proto__` on a plain object creates no own property, so that key never survives. */
  predicate Dropped(key: string, strip: bool) {
    key == "__proto__" || (strip && key in Volatile)
  }

  /** Which argument names never reach the text. */
  lemma DroppedNames(key: string)
    ensures Dropped(key, false) <==> key == "__proto__"
    ensures Dropped(key, true)
            <==> key in ["__proto__", "confirm", "force", "idempotencyKey", "requestId", "sessionId", "timestamp", "remark"]
  {
  }

  predicate NumeralChar(c: char) {
    c in "0123456789+-.e"
  }

  predicate Numeral(t: string) {
    t != "" && forall c | c in t :: NumeralChar(c)
  }

  predicate DistinctKeys(ms: seq<Member>) {
    forall i, j | 0 <= i < j < |ms| :: ms[i].key != ms[j].key
  }

  /** Objects have distinct keys and finite numbers print as numerals, at every depth. */
  predicate WellFormed(v: Json) {
    match v
    case JNumber(Finite(t)) => Numeral(t)
    case JArray(items) => forall i | i in items :: WellFormed(i)
    case JObject(ms) => DistinctKeys(ms) && forall m | m in ms :: WellFormed(m.value)
    case _ => true
  }

  // ---- key order -------------------------------------------------------------

  predicate Less(a: string, b: string) {
    b != "" && (a == "" || a[0] < b[0] || (a[0] == b[0] && Less(a[1..], b[1..])))
  }

  lemma {:induction false} LessTotal(a: string, b: string)
    ensures Less(a, b) || a == b || Less(b, a)
    ensures !(Less(a, b) && Less(b, a)) && !Less(a, a)
    decreases |a|
  {
    if a != "" && b != "" && a[0] == b[0] {
      LessTotal(a[1..], b[1..]);
      assert a == [a[0]] + a[1..] && b == [b[0]] + b[1..];
    }
    if a != "" {
      LessTotal(a[1..], a[1..]);
    }
  }

  lemma {:induction false} LessTransitive(a: string, b: string, c: string)
    requires Less(a, b) && Less(b, c)
    ensures Less(a, c)
    decreases |a|
  {
    if a != "" && a[0] == b[0] && b[0] == c[0] {
      LessTransitive(a[1..], b[1..], c[1..]);
    }
  }

  // ---- canonicalize -------------------------------------------------------------

  function Scalar(v: Json): Json {
    match v
    case JString(s) => JString(Trim(s))
    case JNumber(NaN) => JString("NaN")
    case JNumber(Infinity) => JString("Infinity")
    case JNumber(NegativeInfinity) => JString("-Infinity")
    case JNumber(NegativeZero) => JNumber(Finite("0"))
    case _ => v
  }

  function Canonicalize(v: Json, strip: bool): Json
    decreases v, 1
  {
    match v
    case JArray(items) => JArray(CanonicalItems(items, strip))
    case JObject(ms) => JObject(CanonicalMembers(ms, strip))
    case _ => Scalar(v)
  }

  function CanonicalItems(items: seq<Json>, strip: bool): (out: seq<Json>)
    ensures |out| == |items|
    decreases items, 0
  {
    if items == [] then [] else [Canonicalize(items[0], strip)] + CanonicalItems(items[1..], strip)
  }

  /** Keys in order, dropped ones left out. */
  function CanonicalMembers(ms: seq<Member>, strip: bool): seq<Member>
    decreases ms, 0
  {
    if ms == [] then []
    else
      var rest := CanonicalMembers(ms[1..], strip);
      if Dropped(ms[0].key, strip) then rest
      else Insert(Member(ms[0].key, Canonicalize(ms[0].value, strip)), rest)
  }

  function Insert(m: Member, sorted: seq<Member>): seq<Member> {
    if sorted == [] || Less(m.key, sorted[0].key) then [m] + sorted
    else [sorted[0]] + Insert(m, sorted[1..])
  }

  // ---- members as a finite map ----------------------------------------------------

  function Lookup(ms: seq<Member>, key: string): Option<Json> {
    if ms == [] then None else if ms[0].key == key then Some(ms[0].value) else Lookup(ms[1..], key)
  }

  predicate Sorted(ms: seq<Member>) {
    forall i, j | 0 <= i < j < |ms| :: Less(ms[i].key, ms[j].key)
  }

  lemma {:induction false} LookupMember(ms: seq<Member>, m: Member)
    requires m in ms && DistinctKeys(ms)
    ensures Lookup(ms, m.key) == Some(m.value)
    decreases |ms|
  {
    if ms[0] != m {
      LookupMember(ms[1..], m);
    }
  }

  lemma {:induction false} LookupFound(ms: seq<Member>, key: string)
    ensures Lookup(ms, key).Some? ==> Member(key, Lookup(ms, key).value) in ms
    ensures Lookup(ms, key).None? ==> forall m | m in ms :: m.key != key
    decreases |ms|
  {
    if ms != [] && ms[0].key != key {
      LookupFound(ms[1..], key);
    }
  }

  lemma SortedIsDistinct(ms: seq<Member>)
    requires Sorted(ms)
    ensures DistinctKeys(ms)
  {
    forall i, j | 0 <= i < j < |ms| ensures ms[i].key != ms[j].key {
      LessTotal(ms[i].key, ms[j].key);
    }
  }

  lemma {:induction false} InsertInto(m: Member, sorted: seq<Member>)
    requires Sorted(sorted) && Lookup(sorted, m.key).None?
    ensures Sorted(Insert(m, sorted))
    ensures forall k :: Lookup(Insert(m, sorted), k) == if k == m.key then Some(m.value) else Lookup(sorted, k)
    ensures forall x | x in Insert(m, sorted) :: x == m || x in sorted
    decreases |sorted|
  {
    if sorted != [] {
      LessTotal(m.key, sorted[0].key);
      if Less(m.key, sorted[0].key) {
        forall j | 0 < j < |sorted| ensures Less(m.key, sorted[j].key) {
          LessTransitive(m.key, sorted[0].key, sorted[j].key);
        }
      } else {
        InsertInto(m, sorted[1..]);
        var rest := Insert(m, sorted[1..]);
        forall j | 0 <= j < |rest| ensures Less(sorted[0].key, rest[j].key) {
          assert rest[j] in rest;
          if rest[j] != m {
            var i :| 0 <= i < |sorted[1..]| && sorted[1..][i] == rest[j];
            assert sorted[i + 1] == rest[j];
          }
        }
        assert Insert(m, sorted) == [sorted[0]] + rest;
      }
    }
  }

  /** Sorted member lists are determined by what they map each key to. */
  lemma {:induction false} SortedUnique(a: seq<Member>, b: seq<Member>)
    requires Sorted(a) && Sorted(b) && forall k :: Lookup(a, k) == Lookup(b, k)
    ensures a == b
    decreases |a|
  {
    if a == [] {
      assert b != [] ==> Lookup(b, b[0].key).Some?;
    } else {
      assert Lookup(a, a[0].key) == Lookup(b, a[0].key);
      LookupFound(b, a[0].key);
      LookupFound(a, b[0].key);
      assert Lookup(b, b[0].key) == Lookup(a, b[0].key);
      FirstKeys(a, b);
      SortedIsDistinct(a);
      SortedIsDistinct(b);
      forall k ensures Lookup(a[1..], k) == Lookup(b[1..], k) {
        if k == a[0].key {
          LookupFound(a[1..], k);
          LookupFound(b[1..], k);
        } else {
          assert Lookup(a, k) == Lookup(b, k);
        }
      }
      SortedUnique(a[1..], b[1..]);
      assert a == [a[0]] + a[1..] && b == [b[0]] + b[1..];
    }
  }

  lemma FirstKeys(a: seq<Member>, b: seq<Member>)
    requires Sorted(a) && Sorted(b) && a != [] && b != []
    requires exists m | m in b :: m.key == a[0].key
    requires exists m | m in a :: m.key == b[0].key
    ensures a[0].key == b[0].key
  {
    var i :| 0 <= i < |b| && b[i].key == a[0].key;
    var j :| 0 <= j < |a| && a[j].key == b[0].key;
    LessTotal(a[0].key, b[0].key);
  }

  /** What canonical members map a key to. */
  lemma {:induction false} CanonicalLookup(ms: seq<Member>, strip: bool)
    requires DistinctKeys(ms)
    ensures Sorted(CanonicalMembers(ms, strip))
    ensures forall k :: Lookup(CanonicalMembers(ms, strip), k)
                     == if Dropped(k, strip) || Lookup(ms, k).None? then None
                        else Some(Canonicalize(Lookup(ms, k).value, strip))
    decreases |ms|
  {
    if ms != [] {
      CanonicalLookup(ms[1..], strip);
      var rest := CanonicalMembers(ms[1..], strip);
      LookupFound(ms[1..], ms[0].key);
      if !Dropped(ms[0].key, strip) {
        InsertInto(Member(ms[0].key, Canonicalize(ms[0].value, strip)), rest);
      }
    }
  }

  // ---- when two argument values are the same --------------------------------------

  predicate IsScalar(v: Json) {
    !v.JArray? && !v.JObject?
  }

  /** Same up to key order, string padding and dropped fields, at every depth. */
  predicate Equivalent(v: Json, w: Json, strip: bool) {
    match v
    case JArray(a) =>
      w.JArray? && |a| == |w.items| && forall i | 0 <= i < |a| :: Equivalent(a[i], w.items[i], strip)
    case JObject(a) =>
      && w.JObject?
      && (forall m | m in a && !Dropped(m.key, strip) ::
            Lookup(w.members, m.key).Some? && Equivalent(m.value, Lookup(w.members, m.key).value, strip))
      && (forall m | m in w.members && !Dropped(m.key, strip) :: Lookup(a, m.key).Some?)
    case _ => IsScalar(w) && Scalar(v) == Scalar(w)
  }

  lemma {:induction false} CanonicalItemAt(items: seq<Json>, strip: bool, i: nat)
    requires i < |items|
    ensures CanonicalItems(items, strip)[i] == Canonicalize(items[i], strip)
    decreases |items|
  {
    if i > 0 {
      CanonicalItemAt(items[1..], strip, i - 1);
    }
  }

  lemma CanonicalKind(v: Json, strip: bool)
    ensures Canonicalize(v, strip).JArray? <==> v.JArray?
    ensures Canonicalize(v, strip).JObject? <==> v.JObject?
  {
  }

  lemma {:induction false} EqualArrays(a: seq<Json>, b: seq<Json>, strip: bool)
    requires |a| == |b|
    requires forall i | 0 <= i < |a| :: Equivalent(a[i], b[i], strip) <==> Canonicalize(a[i], strip) == Canonicalize(b[i], strip)
    ensures (forall i | 0 <= i < |a| :: Equivalent(a[i], b[i], strip)) <==> CanonicalItems(a, strip) == CanonicalItems(b, strip)
  {
    forall i | 0 <= i < |a|
      ensures CanonicalItems(a, strip)[i] == Canonicalize(a[i], strip)
      ensures CanonicalItems(b, strip)[i] == Canonicalize(b[i], strip)
    {
      CanonicalItemAt(a, strip, i);
      CanonicalItemAt(b, strip, i);
    }
    hide CanonicalItems, Canonicalize, Equivalent;
    var ca, cb := CanonicalItems(a, strip), CanonicalItems(b, strip);
    if forall i | 0 <= i < |a| :: Equivalent(a[i], b[i], strip) {
      assert forall i | 0 <= i < |ca| :: ca[i] == cb[i];
    }
    if ca == cb {
      assert forall i | 0 <= i < |a| :: ca[i] == cb[i];
    }
  }

  predicate SameMembers(a: seq<Member>, b: seq<Member>, strip: bool) {
    && (forall m | m in a && !Dropped(m.key, strip) ::
          Lookup(b, m.key).Some? && Equivalent(m.value, Lookup(b, m.key).value, strip))
    && (forall m | m in b && !Dropped(m.key, strip) :: Lookup(a, m.key).Some?)
  }

  lemma SameMembersGiveEqualObjects(a: seq<Member>, b: seq<Member>, strip: bool)
    requires DistinctKeys(a) && DistinctKeys(b) && SameMembers(a, b, strip)
    requires forall m, n | m in a && n in b && Equivalent(m.value, n.value, strip) ::
               Canonicalize(m.value, strip) == Canonicalize(n.value, strip)
    ensures CanonicalMembers(a, strip) == CanonicalMembers(b, strip)
  {
    CanonicalLookup(a, strip);
    CanonicalLookup(b, strip);
    forall k ensures Lookup(CanonicalMembers(a, strip), k) == Lookup(CanonicalMembers(b, strip), k) {
      LookupFound(a, k);
      LookupFound(b, k);
      if !Dropped(k, strip) && Lookup(a, k).Some? {
        var m := Member(k, Lookup(a, k).value);
        assert m in a;
        assert Member(k, Lookup(b, k).value) in b;
      }
      if !Dropped(k, strip) && Lookup(b, k).Some? {
        assert Member(k, Lookup(b, k).value) in b;
      }
    }
    SortedUnique(CanonicalMembers(a, strip), CanonicalMembers(b, strip));
  }

  lemma EqualObjectsHaveSameMembers(a: seq<Member>, b: seq<Member>, strip: bool)
    requires DistinctKeys(a) && DistinctKeys(b) && CanonicalMembers(a, strip) == CanonicalMembers(b, strip)
    requires forall m, n | m in a && n in b && Canonicalize(m.value, strip) == Canonicalize(n.value, strip) ::
               Equivalent(m.value, n.value, strip)
    ensures SameMembers(a, b, strip)
  {
    CanonicalLookup(a, strip);
    CanonicalLookup(b, strip);
    forall m | m in a && !Dropped(m.key, strip)
      ensures Lookup(b, m.key).Some? && Equivalent(m.value, Lookup(b, m.key).value, strip)
    {
      LookupMember(a, m);
      assert Lookup(CanonicalMembers(b, strip), m.key).Some?;
      LookupFound(b, m.key);
    }
    forall m | m in b && !Dropped(m.key, strip)
      ensures Lookup(a, m.key).Some?
    {
      LookupMember(b, m);
      assert Lookup(CanonicalMembers(a, strip), m.key).Some?;
    }
  }

  /** Canonical trees are equal exactly when the values are the same up to order, padding and dropped fields. */
  lemma {:induction false} EquivalentIffCanonicallyEqual(v: Json, w: Json, strip: bool)
    requires WellFormed(v) && WellFormed(w)
    ensures Equivalent(v, w, strip) <==> Canonicalize(v, strip) == Canonicalize(w, strip)
    decreases v
  {
    CanonicalKind(v, strip);
    CanonicalKind(w, strip);
    if v.JArray? && w.JArray? {
      var a, b := v.items, w.items;
      if |a| == |b| {
        forall i | 0 <= i < |a|
          ensures Equivalent(a[i], b[i], strip) <==> Canonicalize(a[i], strip) == Canonicalize(b[i], strip)
        {
          assert a[i] in a && b[i] in b;
          EquivalentIffCanonicallyEqual(a[i], b[i], strip);
        }
        EqualArrays(a, b, strip);
      }
    } else if v.JObject? && w.JObject? {
      var a, b := v.members, w.members;
      forall m, n | m in a && n in b
        ensures Equivalent(m.value, n.value, strip) <==> Canonicalize(m.value, strip) == Canonicalize(n.value, strip)
      {
        EquivalentIffCanonicallyEqual(m.value, n.value, strip);
      }
      assert Equivalent(v, w, strip) <==> SameMembers(a, b, strip);
      if SameMembers(a, b, strip) {
        SameMembersGiveEqualObjects(a, b, strip);
      }
      if CanonicalMembers(a, strip) == CanonicalMembers(b, strip) {
        EqualObjectsHaveSameMembers(a, b, strip);
      }
    }
  }

  lemma ScalarIdempotent(v: Json)
    requires IsScalar(v)
    ensures IsScalar(Scalar(v)) && Scalar(Scalar(v)) == Scalar(v)
  {
    hide Trim;
    if v.JString? {
      TrimIdempotent(v.s);
    } else {
      SpecialNamesAreTight();
    }
  }

  lemma SpecialNamesAreTight()
    ensures Trim("NaN") == "NaN" && Trim("Infinity") == "Infinity" && Trim("-Infinity") == "-Infinity"
  {
    assert !IsSpace('N') && !IsSpace('I') && !IsSpace('y') && !IsSpace('-');
    hide IsSpace;
    TrimTight("NaN");
    TrimTight("Infinity");
    TrimTight("-Infinity");
  }

  lemma MembersIdempotent(ms: seq<Member>, strip: bool)
    requires DistinctKeys(ms)
    requires forall m | m in ms :: Canonicalize(Canonicalize(m.value, strip), strip) == Canonicalize(m.value, strip)
    ensures CanonicalMembers(CanonicalMembers(ms, strip), strip) == CanonicalMembers(ms, strip)
  {
    var c := CanonicalMembers(ms, strip);
    CanonicalLookup(ms, strip);
    SortedIsDistinct(c);
    CanonicalLookup(c, strip);
    forall k ensures Lookup(CanonicalMembers(c, strip), k) == Lookup(c, k) {
      LookupFound(ms, k);
      if Lookup(ms, k).Some? {
        assert Member(k, Lookup(ms, k).value) in ms;
      }
    }
    SortedUnique(CanonicalMembers(c, strip), c);
  }

  lemma ItemsIdempotent(items: seq<Json>, strip: bool)
    requires forall i | i in items :: Canonicalize(Canonicalize(i, strip), strip) == Canonicalize(i, strip)
    ensures CanonicalItems(CanonicalItems(items, strip), strip) == CanonicalItems(items, strip)
  {
    var c := CanonicalItems(items, strip);
    forall i | 0 <= i < |items| ensures CanonicalItems(c, strip)[i] == c[i] {
      CanonicalItemAt(items, strip, i);
      CanonicalItemAt(c, strip, i);
      assert items[i] in items;
    }
  }

  /** Canonicalising twice is canonicalising once. */
  lemma {:induction false} CanonicalizeIdempotent(v: Json, strip: bool)
    requires WellFormed(v)
    ensures Canonicalize(Canonicalize(v, strip), strip) == Canonicalize(v, strip)
    decreases v
  {
    match v
    case JArray(items) =>
      forall i | i in items ensures Canonicalize(Canonicalize(i, strip), strip) == Canonicalize(i, strip) {
        CanonicalizeIdempotent(i, strip);
      }
      ItemsIdempotent(items, strip);
    case JObject(ms) =>
      forall m | m in ms ensures Canonicalize(Canonicalize(m.value, strip), strip) == Canonicalize(m.value, strip) {
        CanonicalizeIdempotent(m.value, strip);
      }
      MembersIdempotent(ms, strip);
    case _ => ScalarIdempotent(v);
  }
}
