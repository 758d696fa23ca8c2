/**
 * Cosine similarity, top-K search and document overwrite in the vector store
 * (src/rag/vector-store.service.ts), over real numbers.
 *
 * The square root is a parameter: any function that inverts squaring on
 * positive reals.
 */
module VectorStore {
  import opened Common

  type Sqrt = real -> real

  ghost predicate IsSqrt(sqrt: Sqrt) {
    forall x: real | x > 0.0 :: sqrt(x) > 0.0 && sqrt(x) * sqrt(x) == x
  }

  function Product(p: real, q: real): real {
    p * q
  }

  function Dot(a: seq<real>, b: seq<real>): real
    requires |a| == |b|
  {
    if a == [] then 0.0 else Dot(a[..|a| - 1], b[..|b| - 1]) + Product(a[|a| - 1], b[|b| - 1])
  }

  function Cosine(a: seq<real>, b: seq<real>, sqrt: Sqrt): real {
    if a == [] || b == [] || |a| != |b| || Dot(a, a) == 0.0 || Dot(b, b) == 0.0 then 0.0
    else
      var norms := sqrt(Dot(a, a)) * sqrt(Dot(b, b));
      if norms == 0.0 then 0.0 else Dot(a, b) / norms
  }

  method CosineSimilarity(a: seq<real>, b: seq<real>, sqrt: Sqrt) returns (r: real)
    requires IsSqrt(sqrt)
    ensures r == Cosine(a, b, sqrt)
    ensures if a != [] && |a| == |b| && Dot(a, a) != 0.0 && Dot(b, b) != 0.0
            then r * (sqrt(Dot(a, a)) * sqrt(Dot(b, b))) == Dot(a, b) else r == 0.0
  {
    if |a| == 0 || |b| == 0 || |a| != |b| {
      return 0.0;
    }
    var dot, normA, normB := 0.0, 0.0, 0.0;
    for i := 0 to |a|
      invariant dot == Dot(a[..i], b[..i]) && normA == Dot(a[..i], a[..i]) && normB == Dot(b[..i], b[..i])
    {
      assert a[..i + 1][..i] == a[..i] && b[..i + 1][..i] == b[..i];
      dot := dot + a[i] * b[i];
      normA := normA + a[i] * a[i];
      normB := normB + b[i] * b[i];
    }
    assert a[..|a|] == a && b[..|b|] == b;
    if normA == 0.0 || normB == 0.0 {
      return 0.0;
    }
    SelfDotNonNegative(a);
    SelfDotNonNegative(b);
    ProductPositive(sqrt(normA), sqrt(normB));
    QuotientTimes(dot, sqrt(normA) * sqrt(normB));
    return dot / (sqrt(normA) * sqrt(normB));
  }

  lemma QuotientTimes(x: real, n: real)
    requires n != 0.0
    ensures x / n * n == x
  {
  }

  // ---- the dot product ---------------------------------------------------------------

  function Unit(n: nat, k: nat): (u: seq<real>)
    ensures |u| == n && forall i | 0 <= i < n :: u[i] == if i == k then 1.0 else 0.0
  {
    seq(n, i => if i == k then 1.0 else 0.0)
  }

  /** The dot product is linear and picks out coordinates, which determines it. */
  lemma {:induction false} DotOfUnit(n: nat, k: nat, b: seq<real>)
    requires |b| == n
    ensures Dot(Unit(n, k), b) == if k < n then b[k] else 0.0
    decreases n
  {
    if n > 0 {
      assert Unit(n, k)[..n - 1] == Unit(n - 1, k);
      DotOfUnit(n - 1, k, b[..n - 1]);
    }
  }

  function Mix(x: real, p: real, y: real, q: real): real {
    x * p + y * q
  }

  function Combined(x: real, a: seq<real>, y: real, b: seq<real>): (c: seq<real>)
    requires |a| == |b|
    ensures |c| == |a| && forall i | 0 <= i < |a| :: c[i] == Mix(x, a[i], y, b[i])
  {
    seq(|a|, i requires 0 <= i < |a| => Mix(x, a[i], y, b[i]))
  }

  lemma {:induction false} DotIsLinear(x: real, a: seq<real>, y: real, b: seq<real>, c: seq<real>)
    requires |a| == |b| == |c|
    ensures Dot(Combined(x, a, y, b), c) == Mix(x, Dot(a, c), y, Dot(b, c))
    decreases |a|
  {
    if a != [] {
      hide *;
      var n := |a| - 1;
      LastTerm(a, c);
      LastTerm(b, c);
      LastTerm(Combined(x, a, y, b), c);
      CombinedFront(x, a, y, b);
      DotIsLinear(x, a[..n], y, b[..n], c[..n]);
      LinearStep(x, Dot(a[..n], c[..n]), a[n], y, Dot(b[..n], c[..n]), b[n], c[n]);
    } else {
      assert x * 0.0 == 0.0 && y * 0.0 == 0.0;
    }
  }

  lemma LastTerm(a: seq<real>, b: seq<real>)
    requires |a| == |b| > 0
    ensures Dot(a, b) == Dot(a[..|a| - 1], b[..|b| - 1]) + Product(a[|a| - 1], b[|b| - 1])
  {
    hide Product;
  }

  lemma CombinedFront(x: real, a: seq<real>, y: real, b: seq<real>)
    requires |a| == |b| > 0
    ensures Combined(x, a, y, b)[..|a| - 1] == Combined(x, a[..|a| - 1], y, b[..|b| - 1])
  {
    hide Mix;
  }

  lemma LinearStep(x: real, p: real, a: real, y: real, q: real, b: real, r: real)
    ensures Mix(x, p, y, q) + Product(Mix(x, a, y, b), r) == Mix(x, p + Product(a, r), y, q + Product(b, r))
  {
    Spread(x, p, a * r);
    Spread(y, q, b * r);
    Spread(r, x * a, y * b);
    assert r * (x * a) == x * (a * r) && r * (y * b) == y * (b * r);
  }

  lemma Spread(x: real, p: real, q: real)
    ensures x * (p + q) == x * p + x * q && (p + q) * x == x * (p + q)
  {
  }

  // ---- Cauchy-Schwarz ------------------------------------------------------------

  lemma ProductPositive(x: real, y: real)
    ensures x > 0.0 && y > 0.0 ==> x * y > 0.0
    ensures x >= 0.0 && y >= 0.0 ==> x * y >= 0.0
  {
  }

  lemma SquareNonNegative(x: real)
    ensures x * x >= 0.0
  {
  }

  lemma {:induction false} SelfDotNonNegative(a: seq<real>)
    ensures Dot(a, a) >= 0.0
    decreases |a|
  {
    if a != [] {
      SelfDotNonNegative(a[..|a| - 1]);
      SquareNonNegative(a[|a| - 1]);
    }
  }

  /** Between non-negative numbers, squares are ordered as the numbers are. */
  lemma DifferenceOfSquares(x: real, y: real)
    ensures (x - y) * (x + y) == x * x - y * y
  {
  }

  lemma SquareOrder(x: real, y: real)
    requires x >= 0.0 && y >= 0.0
    ensures x > y ==> x * x > y * y
  {
    ProductPositive(x - y, x + y);
    DifferenceOfSquares(x, y);
  }

  /** The geometric mean of two numbers is at most their arithmetic mean. */
  lemma MeanInequality(u: real, p: real, q: real)
    requires p >= 0.0 && q >= 0.0 && u * u <= p * q
    ensures 2.0 * u <= p + q
  {
    SquareNonNegative(p - q);
    assert (p + q) * (p + q) == (p - q) * (p - q) + 4.0 * (p * q);
    assert (2.0 * u) * (2.0 * u) == 4.0 * (u * u);
    if u >= 0.0 {
      SquareOrder(2.0 * u, p + q);
    }
  }

  lemma Swap4(s: real, t: real)
    ensures (s * t) * (s * t) == (s * s) * (t * t)
  {
    assert (s * t) * (s * t) == s * (t * (s * t));
    assert t * (s * t) == s * (t * t);
  }

  lemma Swap22(a: real, b: real, c: real, d: real)
    ensures (a * b) * (c * d) == (a * c) * (b * d)
  {
    assert (a * b) * (c * d) == a * (b * (c * d));
    assert b * (c * d) == c * (b * d);
  }

  lemma OneMoreTerm(d: real, A: real, B: real, x: real, y: real)
    requires A >= 0.0 && B >= 0.0 && d * d <= A * B
    ensures (d + x * y) * (d + x * y) <= (A + x * x) * (B + y * y)
  {
    var p, q := A * (y * y), B * (x * x);
    SquareNonNegative(x);
    SquareNonNegative(y);
    ProductPositive(A, y * y);
    ProductPositive(B, x * x);
    CrossTerm(d, A, B, x, y);
    MeanInequality(d * (x * y), p, q);
    Expand(d, x * y);
    ExpandTwo(A, x * x, B, y * y);
    Swap4(x, y);
  }

  lemma CrossTerm(d: real, A: real, B: real, x: real, y: real)
    requires d * d <= A * B
    ensures (d * (x * y)) * (d * (x * y)) <= (A * (y * y)) * (B * (x * x))
  {
    var f := (x * y) * (x * y);
    SquareNonNegative(x * y);
    ProductOrder(d * d, A * B, f);
    Swap4(d, x * y);
    Swap22(A, y * y, B, x * x);
    Swap4(y, x);
    SameProduct(x, y);
  }

  lemma SameProduct(x: real, y: real)
    ensures x * y == y * x
  {
  }

  lemma ProductOrder(x: real, y: real, f: real)
    requires x <= y && f >= 0.0
    ensures x * f <= y * f
  {
    ProductPositive(y - x, f);
    assert (y - x) * f == y * f - x * f;
  }

  lemma Expand(d: real, e: real)
    ensures (d + e) * (d + e) == d * d + 2.0 * (d * e) + e * e
  {
  }

  lemma ExpandTwo(a: real, b: real, c: real, d: real)
    ensures (a + b) * (c + d) == a * c + a * d + c * b + b * d
  {
  }

  /** Proved along the accumulation loop: one more coordinate keeps the inequality. */
  lemma {:induction false} CauchySchwarz(a: seq<real>, b: seq<real>)
    requires |a| == |b|
    ensures Dot(a, b) * Dot(a, b) <= Dot(a, a) * Dot(b, b)
    decreases |a|
  {
    if a != [] {
      var a', b' := a[..|a| - 1], b[..|b| - 1];
      CauchySchwarz(a', b');
      SelfDotNonNegative(a');
      SelfDotNonNegative(b');
      OneMoreTerm(Dot(a', b'), Dot(a', a'), Dot(b', b'), a[|a| - 1], b[|b| - 1]);
    }
  }

  lemma {:induction false} DotSymmetric(a: seq<real>, b: seq<real>)
    requires |a| == |b|
    ensures Dot(a, b) == Dot(b, a)
    decreases |a|
  {
    if a != [] {
      DotSymmetric(a[..|a| - 1], b[..|b| - 1]);
    }
  }

  lemma QuotientBelow(d: real, n: real)
    requires n > 0.0
    ensures d <= n ==> d / n <= 1.0
    ensures -n <= d ==> -1.0 <= d / n
    ensures d == n ==> d / n == 1.0
  {
    var r := d / n;
    assert r * n == d;
    ProductPositive(r - 1.0, n);
    ProductPositive(-1.0 - r, n);
    assert (r - 1.0) * n == r * n - n;
    assert (-1.0 - r) * n == -n - r * n;
  }

  lemma QuotientInUnit(d: real, n: real)
    requires n > 0.0 && d * d <= n * n
    ensures -1.0 <= d / n <= 1.0
  {
    SquareOrder(if d >= 0.0 then d else -d, n);
    assert (-d) * (-d) == d * d;
    QuotientBelow(d, n);
  }

  /** Similarity lies between -1 and 1. */
  lemma CosineInRange(a: seq<real>, b: seq<real>, sqrt: Sqrt)
    requires IsSqrt(sqrt)
    ensures -1.0 <= Cosine(a, b, sqrt) <= 1.0
  {
    if a != [] && b != [] && |a| == |b| && Dot(a, a) != 0.0 && Dot(b, b) != 0.0 {
      SelfDotNonNegative(a);
      SelfDotNonNegative(b);
      CauchySchwarz(a, b);
      hide Dot;
      var ra, rb := sqrt(Dot(a, a)), sqrt(Dot(b, b));
      ProductPositive(ra, rb);
      Swap4(ra, rb);
      var norms := ra * rb;
      QuotientInUnit(Dot(a, b), norms);
      assert Cosine(a, b, sqrt) == Dot(a, b) / norms;
    }
  }

  /** Similarity is symmetric, and 1 of any vector that is not zero to itself. */
  lemma CosineSymmetric(a: seq<real>, b: seq<real>, sqrt: Sqrt)
    requires IsSqrt(sqrt)
    ensures Cosine(a, b, sqrt) == Cosine(b, a, sqrt)
    ensures a != [] && Dot(a, a) != 0.0 ==> Cosine(a, a, sqrt) == 1.0
  {
    if |a| == |b| {
      DotSymmetric(a, b);
    }
    if a != [] && Dot(a, a) != 0.0 {
      SelfDotNonNegative(a);
      hide Dot;
      QuotientBelow(Dot(a, a), Dot(a, a));
    }
  }

  // ---- search ---------------------------------------------------------------------

  datatype Chunk = Chunk(docName: string, chunkIndex: nat, text: string, embedding: seq<real>)

  datatype Hit = Hit(chunk: Chunk, score: real)

  function Scored(chunks: seq<Chunk>, query: seq<real>, sqrt: Sqrt): (hits: seq<Hit>)
    ensures |hits| == |chunks|
    ensures forall i | 0 <= i < |chunks| :: hits[i] == Hit(chunks[i], Cosine(query, chunks[i].embedding, sqrt))
  {
    seq(|chunks|, i requires 0 <= i < |chunks| => Hit(chunks[i], Cosine(query, chunks[i].embedding, sqrt)))
  }

  /** A stable sort, best first: a later hit goes behind those that score as well. */
  function InsertHit(h: Hit, sorted: seq<Hit>): seq<Hit> {
    if sorted == [] || sorted[|sorted| - 1].score >= h.score then sorted + [h]
    else InsertHit(h, sorted[..|sorted| - 1]) + [sorted[|sorted| - 1]]
  }

  function SortHits(hits: seq<Hit>): seq<Hit> {
    if hits == [] then [] else InsertHit(hits[|hits| - 1], SortHits(hits[..|hits| - 1]))
  }

  /** JavaScript's `slice(0, k)`: a negative k counts from the end. */
  function SliceTo(hits: seq<Hit>, k: int): seq<Hit> {
    hits[..if k >= 0 then Min(k, |hits|) else Max(0, |hits| + k)]
  }

  function Search(chunks: seq<Chunk>, query: seq<real>, topK: int, sqrt: Sqrt): seq<Hit> {
    SliceTo(SortHits(Scored(chunks, query, sqrt)), topK)
  }

  predicate Descending(hits: seq<Hit>) {
    forall i, j | 0 <= i < j < |hits| :: hits[i].score >= hits[j].score
  }

  lemma {:induction false} InsertKeepsHits(h: Hit, sorted: seq<Hit>)
    ensures multiset(InsertHit(h, sorted)) == multiset(sorted) + multiset{h}
    decreases |sorted|
  {
    if sorted != [] && sorted[|sorted| - 1].score < h.score {
      var init, last := sorted[..|sorted| - 1], sorted[|sorted| - 1];
      InsertKeepsHits(h, init);
      assert sorted == init + [last];
    }
  }

  /** Inserting keeps the order and any bound from below. */
  lemma {:induction false} InsertKeepsOrder(h: Hit, sorted: seq<Hit>, bound: real)
    requires Descending(sorted)
    requires h.score >= bound && forall i | 0 <= i < |sorted| :: sorted[i].score >= bound
    ensures Descending(InsertHit(h, sorted))
    ensures forall i | 0 <= i < |InsertHit(h, sorted)| :: InsertHit(h, sorted)[i].score >= bound
    decreases |sorted|
  {
    if sorted != [] && sorted[|sorted| - 1].score < h.score {
      var init, last := sorted[..|sorted| - 1], sorted[|sorted| - 1];
      InsertKeepsOrder(h, init, last.score);
      assert InsertHit(h, sorted) == InsertHit(h, init) + [last];
    }
  }

  function Lesser(x: real, y: real): real {
    if x <= y then x else y
  }

  lemma {:induction false} SortIsOrderedPermutation(hits: seq<Hit>)
    ensures Descending(SortHits(hits)) && multiset(SortHits(hits)) == multiset(hits)
    decreases |hits|
  {
    if hits != [] {
      SortIsOrderedPermutation(hits[..|hits| - 1]);
      var rest, last := SortHits(hits[..|hits| - 1]), hits[|hits| - 1];
      assert hits == hits[..|hits| - 1] + [last];
      InsertKeepsHits(last, rest);
      InsertKeepsOrder(last, rest, if rest == [] then last.score else Lesser(last.score, rest[|rest| - 1].score));
      hide InsertHit;
    }
  }

  /** Cutting an ordered list keeps the best: what is cut off scores no better than what stays. */
  lemma PrefixIsBest(sorted: seq<Hit>, n: nat)
    requires Descending(sorted) && n <= |sorted|
    ensures Descending(sorted[..n])
    ensures multiset(sorted[..n]) + multiset(sorted[n..]) == multiset(sorted)
    ensures forall f, o | f in sorted[..n] && o in sorted[n..] :: o.score <= f.score
  {
    assert sorted == sorted[..n] + sorted[n..];
    assert forall o | o in sorted[n..] :: exists k | n <= k < |sorted| :: sorted[k] == o;
  }

  ghost predicate NoneBetter(found: seq<Hit>, omitted: seq<Hit>, all: seq<Hit>) {
    && multiset(found) + multiset(omitted) == multiset(all)
    && forall f, o | f in found && o in omitted :: o.score <= f.score
  }

  /** How many hits a search returns: a negative topK leaves out that many. */
  function HitCount(n: nat, topK: int): nat {
    if topK >= 0 then Min(topK, n) else Max(0, n + topK)
  }

  /**
   * Stored chunks, each at most as often as it is stored, best first, and
   * whatever is left out scores no better than anything returned; for a
   * non-negative topK min(topK, n) of them.
   */
  lemma SearchReturnsBest(chunks: seq<Chunk>, query: seq<real>, topK: int, sqrt: Sqrt) returns (omitted: seq<Hit>)
    ensures var n := |chunks|;
            |Search(chunks, query, topK, sqrt)|
            == if topK > n then n else if topK >= 0 then topK else if n + topK > 0 then n + topK else 0
    ensures Descending(Search(chunks, query, topK, sqrt))
    ensures NoneBetter(Search(chunks, query, topK, sqrt), omitted, Scored(chunks, query, sqrt))
  {
    var all := Scored(chunks, query, sqrt);
    var sorted := SortHits(all);
    SortIsOrderedPermutation(all);
    SameSize(sorted, all);
    var n := HitCount(|sorted|, topK);
    PrefixIsBest(sorted, n);
    omitted := sorted[n..];
  }

  lemma SameSize(a: seq<Hit>, b: seq<Hit>)
    requires multiset(a) == multiset(b)
    ensures |a| == |b|
  {
    assert |multiset(a)| == |a| && |multiset(b)| == |b|;
  }

  /** A negative topK is not an empty search: it returns the best chunks and drops the -topK worst. */
  lemma NegativeTopKDropsWorst(chunks: seq<Chunk>, query: seq<real>, topK: int, sqrt: Sqrt) returns (dropped: seq<Hit>)
    requires topK < 0
    ensures |dropped| == Min(-topK, |chunks|)
    ensures |Search(chunks, query, topK, sqrt)| == |chunks| - |dropped|
    ensures Descending(Search(chunks, query, topK, sqrt))
    ensures NoneBetter(Search(chunks, query, topK, sqrt), dropped, Scored(chunks, query, sqrt))
  {
    var all := Scored(chunks, query, sqrt);
    dropped := SearchReturnsBest(chunks, query, topK, sqrt);
    var found := Search(chunks, query, topK, sqrt);
    assert |multiset(found) + multiset(dropped)| == |multiset(all)| == |all|;
  }

  // ---- documents --------------------------------------------------------------------

  function ChunksOf(list: seq<Chunk>, doc: string): seq<Chunk> {
    if list == [] then []
    else
      var init, last := list[..|list| - 1], list[|list| - 1];
      if last.docName == doc then ChunksOf(init, doc) + [last] else ChunksOf(init, doc)
  }

  function WithoutDoc(list: seq<Chunk>, doc: string): seq<Chunk> {
    if list == [] then []
    else
      var init, last := list[..|list| - 1], list[|list| - 1];
      if last.docName != doc then WithoutDoc(init, doc) + [last] else WithoutDoc(init, doc)
  }

  datatype Input = Input(text: string, embedding: seq<real>)

  function Made(doc: string, inputs: seq<Input>): (chunks: seq<Chunk>)
    ensures |chunks| == |inputs|
    ensures forall i | 0 <= i < |inputs| :: chunks[i] == Chunk(doc, i, inputs[i].text, inputs[i].embedding)
  {
    seq(|inputs|, i requires 0 <= i < |inputs| => Chunk(doc, i, inputs[i].text, inputs[i].embedding))
  }

  function Added(list: seq<Chunk>, doc: string, inputs: seq<Input>): seq<Chunk> {
    WithoutDoc(list, doc) + Made(doc, inputs)
  }

  function ListOf(store: map<string, seq<Chunk>>, tenant: string): seq<Chunk> {
    if tenant in store then store[tenant] else []
  }

  class VectorStoreService {
    var store: map<string, seq<Chunk>>

    constructor ()
      ensures store == map[]
    {
      store := map[];
    }

    method RemoveDoc(tenant: string, doc: string)
      modifies this
      ensures store == old(store)[tenant := WithoutDoc(ListOf(old(store), tenant), doc)]
      ensures tenant in old(store) ==> store == old(store)[tenant := WithoutDoc(old(store)[tenant], doc)]
      ensures tenant !in old(store) ==> store == old(store)[tenant := []]
    {
      var existing := ListOf(store, tenant);
      var kept := [];
      for i := 0 to |existing|
        invariant kept == WithoutDoc(existing[..i], doc)
      {
        assert existing[..i + 1][..i] == existing[..i];
        if existing[i].docName != doc {
          kept := kept + [existing[i]];
        }
      }
      assert existing[..|existing|] == existing;
      store := store[tenant := kept];
    }

    method AddChunks(tenant: string, doc: string, inputs: seq<Input>) returns (n: nat)
      modifies this
      ensures n == |inputs|
      ensures store == old(store)[tenant := Added(ListOf(old(store), tenant), doc, inputs)]
      ensures tenant in old(store) ==>
                store == old(store)[tenant := WithoutDoc(old(store)[tenant], doc) + Made(doc, inputs)]
      ensures tenant !in old(store) ==> store == old(store)[tenant := Made(doc, inputs)]
    {
      var list := Made(doc, inputs);
      assert [] + list == list;
      RemoveDoc(tenant, doc);
      store := store[tenant := ListOf(store, tenant) + list];
      return |list|;
    }
  }

  lemma {:induction false} WithoutDocAppend(a: seq<Chunk>, b: seq<Chunk>, doc: string)
    ensures WithoutDoc(a + b, doc) == WithoutDoc(a, doc) + WithoutDoc(b, doc)
    ensures ChunksOf(a + b, doc) == ChunksOf(a, doc) + ChunksOf(b, doc)
    decreases |b|
  {
    if b == [] {
      assert a + b == a;
    } else {
      assert (a + b)[..|a + b| - 1] == a + b[..|b| - 1];
      WithoutDocAppend(a, b[..|b| - 1], doc);
    }
  }

  lemma OneMore(list: seq<Chunk>, doc: string)
    requires list != []
    ensures var init, last := list[..|list| - 1], list[|list| - 1];
            && ChunksOf(list, doc) == (if last.docName == doc then ChunksOf(init, doc) + [last] else ChunksOf(init, doc))
            && WithoutDoc(list, doc) == (if last.docName != doc then WithoutDoc(init, doc) + [last] else WithoutDoc(init, doc))
            && list == init + [last]
  {
  }

  lemma SnocKeeps(list: seq<Chunk>, c: Chunk, doc: string)
    ensures ChunksOf(list + [c], doc) == if c.docName == doc then ChunksOf(list, doc) + [c] else ChunksOf(list, doc)
    ensures c.docName != doc ==> WithoutDoc(list + [c], doc) == WithoutDoc(list, doc) + [c]
  {
    OneMore(list + [c], doc);
    assert (list + [c])[..|list|] == list;
    hide *;
  }

  lemma {:induction false} OneDoc(list: seq<Chunk>, doc: string, asked: string)
    requires forall i | 0 <= i < |list| :: list[i].docName == doc
    ensures ChunksOf(list, asked) == if asked == doc then list else []
    ensures WithoutDoc(list, asked) == if asked == doc then [] else list
    decreases |list|
  {
    if list != [] {
      OneMore(list, asked);
      assert list[|list| - 1].docName == doc;
      hide ChunksOf, WithoutDoc;
      OneDoc(list[..|list| - 1], doc, asked);
    }
  }

  lemma {:induction false} WithoutKeepsOthers(list: seq<Chunk>, doc: string, other: string)
    ensures ChunksOf(WithoutDoc(list, doc), other) == if other == doc then [] else ChunksOf(list, other)
    ensures WithoutDoc(WithoutDoc(list, doc), doc) == WithoutDoc(list, doc)
    decreases |list|
  {
    if list != [] {
      hide *;
      OneMore(list, doc);
      OneMore(list, other);
      var init, last := list[..|list| - 1], list[|list| - 1];
      WithoutKeepsOthers(init, doc, other);
      if last.docName != doc {
        SnocKeeps(WithoutDoc(init, doc), last, doc);
        SnocKeeps(WithoutDoc(init, doc), last, other);
      }
    }
  }

  /** Uploading replaces: exactly the new chunks for this document, every other document as it was, and the last upload wins. */
  lemma UploadOverwrites(list: seq<Chunk>, doc: string, first: seq<Input>, second: seq<Input>, other: string)
    ensures ChunksOf(Added(list, doc, first), doc) == Made(doc, first)
    ensures other != doc ==> ChunksOf(Added(list, doc, first), other) == ChunksOf(list, other)
    ensures Added(Added(list, doc, first), doc, second) == Added(list, doc, second)
  {
    hide *;
    AddedIs(list, doc, first);
    AddedIs(list, doc, second);
    AddedIs(Added(list, doc, first), doc, second);
    var kept, made := WithoutDoc(list, doc), Made(doc, first);
    WithoutKeepsOthers(list, doc, doc);
    WithoutKeepsOthers(list, doc, other);
    WithoutDocAppend(kept, made, doc);
    WithoutDocAppend(kept, made, other);
    OneDoc(made, doc, doc);
    OneDoc(made, doc, other);
    Neutral(kept, made);
    Neutral(ChunksOf(kept, other), made);
  }

  lemma AddedIs(list: seq<Chunk>, doc: string, inputs: seq<Input>)
    ensures Added(list, doc, inputs) == WithoutDoc(list, doc) + Made(doc, inputs)
  {
  }

  lemma Neutral(a: seq<Chunk>, b: seq<Chunk>)
    ensures a + [] == a && [] + b == b
  {
  }
}
