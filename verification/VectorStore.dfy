/** `MemoryVectorStore` of plugins/services/memory/l3_vector/memory_store.rs, in real
    arithmetic. The hash map's iteration order is left open. */
module VectorStore {
  import opened RealSums
  import opened Sorting
  import opened Wrappers

  datatype Metadata = Metadata(text: string, weight: real, tags: seq<string>, docType: string, isInvalid: bool)

  datatype Entry = Entry(vector: seq<real>, metadata: Metadata)

  datatype Filter = Filter(docType: Option<string>, minWeight: Option<real>, tags: seq<string>, excludeInvalid: bool)

  datatype Hit = Hit(id: string, score: real, metadata: Metadata)

  type Data = map<string, Entry>

  // The similarity.

  datatype Sums = Sums(dot: real, na: real, nb: real)

  /** The fold of `cosine_sim` over the zipped vectors. */
  function Fold(a: seq<real>, b: seq<real>, acc: Sums): Sums {
    if a == [] || b == [] then acc else Fold(a[1..], b[1..], Plus(acc, a[0], b[0]))
  }

  function Plus(acc: Sums, x: real, y: real): Sums {
    Sums(acc.dot + x * y, acc.na + x * x, acc.nb + y * y)
  }

  function SumsOf(a: seq<real>, b: seq<real>): Sums {
    Fold(a, b, Sums(0.0, 0.0, 0.0))
  }

  function CosineSim(a: seq<real>, b: seq<real>, sqrt: real -> real): real
    requires IsSqrt(sqrt)
  {
    var s := SumsOf(a, b);
    FoldKeepsCauchy(a, b, Sums(0.0, 0.0, 0.0));
    if s.na == 0.0 || s.nb == 0.0 then 0.0
    else
      RootsArePositive(s.na, s.nb, sqrt);
      s.dot / (sqrt(s.na) * sqrt(s.nb))
  }

  /** What holds of the three running sums. */
  ghost predicate WithinNorms(s: Sums) {
    s.na >= 0.0 && s.nb >= 0.0 && s.dot * s.dot <= s.na * s.nb
  }

  lemma {:induction false} FoldKeepsCauchy(a: seq<real>, b: seq<real>, acc: Sums)
    requires WithinNorms(acc)
    ensures WithinNorms(Fold(a, b, acc))
    decreases |a|
  {
    if a != [] && b != [] {
      SquareIsNonNegative(a[0]);
      SquareIsNonNegative(b[0]);
      CauchyStep(acc.na, acc.nb, acc.dot, a[0], b[0]);
      FoldKeepsCauchy(a[1..], b[1..], Plus(acc, a[0], b[0]));
    }
  }

  /** Vectors of any two lengths have a similarity between -1 and 1. */
  lemma SimilarityIsBounded(a: seq<real>, b: seq<real>, sqrt: real -> real)
    requires IsSqrt(sqrt)
    ensures -1.0 <= CosineSim(a, b, sqrt) <= 1.0
  {
    var s := SumsOf(a, b);
    FoldKeepsCauchy(a, b, Sums(0.0, 0.0, 0.0));
    RatioIsBounded(s.dot, s.na, s.nb, sqrt);
    assert CosineSim(a, b, sqrt) == Ratio(s.dot, s.na, s.nb, sqrt);
  }

  lemma {:induction false} FoldIsSymmetric(a: seq<real>, b: seq<real>, acc: Sums)
    ensures Fold(b, a, Sums(acc.dot, acc.nb, acc.na))
      == var s := Fold(a, b, acc); Sums(s.dot, s.nb, s.na)
    decreases |a|
  {
    if a != [] && b != [] {
      assert a[0] * b[0] == b[0] * a[0];
      FoldIsSymmetric(a[1..], b[1..], Plus(acc, a[0], b[0]));
    }
  }

  lemma SimilarityIsSymmetric(a: seq<real>, b: seq<real>, sqrt: real -> real)
    requires IsSqrt(sqrt)
    ensures CosineSim(a, b, sqrt) == CosineSim(b, a, sqrt)
  {
    FoldIsSymmetric(a, b, Sums(0.0, 0.0, 0.0));
    var s := SumsOf(a, b);
    assert SumsOf(b, a) == Sums(s.dot, s.nb, s.na);
    FoldKeepsCauchy(a, b, Sums(0.0, 0.0, 0.0));
    if s.na != 0.0 && s.nb != 0.0 {
      RootsArePositive(s.na, s.nb, sqrt);
      var p, q := sqrt(s.na) * sqrt(s.nb), sqrt(s.nb) * sqrt(s.na);
      assert p == q;
      assert CosineSim(a, b, sqrt) == s.dot / p;
      assert CosineSim(b, a, sqrt) == s.dot / q;
    }
  }

  /** The longer vector's surplus coordinates are ignored, in its norm too. */
  lemma {:induction false} FoldIgnoresSurplus(a: seq<real>, b: seq<real>, acc: Sums)
    requires |a| <= |b|
    ensures Fold(a, b, acc) == Fold(a, b[..|a|], acc)
    decreases |a|
  {
    var cut := b[..|a|];
    if a != [] {
      assert cut[0] == b[0] && |a[1..]| == |a| - 1;
      assert cut[1..] == b[1..|a|] == b[1..][..|a| - 1];
      FoldIgnoresSurplus(a[1..], b[1..], Plus(acc, a[0], b[0]));
      assert Fold(a, cut, acc) == Fold(a[1..], cut[1..], Plus(acc, a[0], cut[0]));
    }
  }

  // What the similarity is, by index.

  /** The scalar product of the first `n` coordinates. */
  ghost function Dot(a: seq<real>, b: seq<real>, n: nat): real
    requires n <= |a| && n <= |b|
  {
    if n == 0 then 0.0 else Dot(a, b, n - 1) + a[n - 1] * b[n - 1]
  }

  function Common(a: seq<real>, b: seq<real>): nat {
    if |a| <= |b| then |a| else |b|
  }

  lemma {:induction false} DotFirst(a: seq<real>, b: seq<real>, n: nat)
    requires 0 < n <= |a| && n <= |b|
    ensures Dot(a, b, n) == a[0] * b[0] + Dot(a[1..], b[1..], n - 1)
    decreases n
  {
    if n > 1 {
      DotFirst(a, b, n - 1);
      assert a[1..][n - 2] == a[n - 1] && b[1..][n - 2] == b[n - 1];
    }
  }

  lemma {:induction false} FoldIsDot(a: seq<real>, b: seq<real>, acc: Sums)
    ensures var n := Common(a, b);
      Fold(a, b, acc) == Sums(acc.dot + Dot(a, b, n), acc.na + Dot(a, a, n), acc.nb + Dot(b, b, n))
    decreases |a|
  {
    var n := Common(a, b);
    if n > 0 {
      DotFirst(a, b, n);
      DotFirst(a, a, n);
      DotFirst(b, b, n);
      FoldIsDot(a[1..], b[1..], Plus(acc, a[0], b[0]));
    }
  }

  lemma QuotientTimes(x: real, d: real)
    requires d > 0.0
    ensures x / d * d == x
    ensures x / d == 0.0 <==> x == 0.0
  {
    var q := x / d;
    assert q * d == x;
    NonZeroProduct(q, d);
  }

  lemma NonZeroProduct(q: real, d: real)
    requires d > 0.0
    ensures q * d == 0.0 <==> q == 0.0
  {
    if q > 0.0 {
      PositiveProduct(q, d);
    } else if q < 0.0 {
      PositiveProduct(-q, d);
    } else {
      ZeroFactor(q, d);
    }
  }

  /** The similarity is the cosine of the two vectors, cut to their common length: the product
      of the norms times the similarity is the scalar product. It is zero if one of the vectors
      is, and otherwise exactly when they are orthogonal. */
  lemma SimilarityIsCosine(a: seq<real>, b: seq<real>, sqrt: real -> real)
    requires IsSqrt(sqrt)
    ensures var n := Common(a, b);
      var dot, na, nb := Dot(a, b, n), Dot(a, a, n), Dot(b, b, n);
      && na >= 0.0 && nb >= 0.0
      && (na != 0.0 && nb != 0.0 ==> CosineSim(a, b, sqrt) * (sqrt(na) * sqrt(nb)) == dot)
      && (CosineSim(a, b, sqrt) == 0.0 <==> na == 0.0 || nb == 0.0 || dot == 0.0)
  {
    FoldIsDot(a, b, Sums(0.0, 0.0, 0.0));
    FoldKeepsCauchy(a, b, Sums(0.0, 0.0, 0.0));
    var s := SumsOf(a, b);
    if s.na != 0.0 && s.nb != 0.0 {
      RootsArePositive(s.na, s.nb, sqrt);
      QuotientTimes(s.dot, sqrt(s.na) * sqrt(s.nb));
    }
  }

  /** A vector's norm is zero for the zero vector alone. */
  lemma {:induction false} NormIsZeroIff(a: seq<real>, n: nat)
    requires n <= |a|
    ensures Dot(a, a, n) >= 0.0
    ensures Dot(a, a, n) == 0.0 <==> forall i | 0 <= i < n :: a[i] == 0.0
  {
    if n > 0 {
      NormIsZeroIff(a, n - 1);
      AddSquare(Dot(a, a, n - 1), a[n - 1]);
    }
  }

  lemma AddSquare(d: real, x: real)
    requires d >= 0.0
    ensures d + x * x >= 0.0
    ensures d + x * x == 0.0 <==> d == 0.0 && x == 0.0
  {
    if x != 0.0 {
      SquareIsPositive(x);
    }
    assert x == 0.0 ==> Times(x, x) == 0.0;
    assert Times(x, x) == x * x;
  }

  function Times(x: real, y: real): real {
    x * y
  }

  lemma TimesIsPositive(x: real, y: real)
    requires x > 0.0 && y > 0.0
    ensures Times(x, y) > 0.0
  {
  }

  lemma SquareIsPositive(x: real)
    requires x != 0.0
    ensures Times(x, x) > 0.0
  {
    if x > 0.0 {
      TimesIsPositive(x, x);
    } else {
      TimesIsPositive(-x, -x);
      assert Times(-x, -x) == Times(x, x);
    }
  }

  ghost predicate IsMultiple(a: seq<real>, b: seq<real>, c: real) {
    |b| == |a| && forall i | 0 <= i < |a| :: b[i] == c * a[i]
  }

  lemma {:induction false} DotOfMultiple(a: seq<real>, b: seq<real>, c: real, n: nat)
    requires IsMultiple(a, b, c) && n <= |a|
    ensures Dot(a, b, n) == c * Dot(a, a, n) && Dot(b, b, n) == c * c * Dot(a, a, n)
  {
    if n > 0 {
      DotOfMultiple(a, b, c, n - 1);
      MultipleStep(c, a[n - 1], Dot(a, a, n - 1));
    }
  }

  lemma MultipleStep(c: real, x: real, d: real)
    ensures c * d + x * (c * x) == c * (d + x * x)
    ensures c * c * d + (c * x) * (c * x) == c * c * (d + x * x)
  {
    var y := x * x;
    assert x * (c * x) == c * y;
    assert (c * x) * (c * x) == c * c * y;
    assert c * c * (d + y) == c * c * d + c * c * y;
  }

  lemma RootIsUnique(x: real, y: real)
    requires x >= 0.0 && y >= 0.0 && x * x == y * y
    ensures x == y
  {
    if x + y > 0.0 {
      assert (x - y) * (x + y) == x * x - y * y;
      NonZeroProduct(x - y, x + y);
    }
  }

  lemma RootOfMultiple(c: real, m: real, nb: real, sqrt: real -> real)
    requires IsSqrt(sqrt) && m >= 0.0 && c >= 0.0 && nb == c * c * m && nb >= 0.0
    ensures sqrt(nb) == c * sqrt(m)
  {
    var r := sqrt(m);
    assert (c * r) * (c * r) == c * c * (r * r);
    ProductIsNonNegative(c, r);
    RootIsUnique(sqrt(nb), c * r);
  }

  lemma ProductIsNonNegative(x: real, y: real)
    requires x >= 0.0 && y >= 0.0
    ensures x * y >= 0.0
  {
  }

  lemma CancelNorms(x: real, c: real, d: real, r: real, s: real, m: real)
    requires d > 0.0 && (c == d || c == -d) && m > 0.0
    requires r * r == m && s == d * r && x * (r * s) == c * m
    ensures x == if c == d then 1.0 else -1.0
  {
    var y := if c == d then 1.0 else -1.0;
    assert r * s == d * m;
    PositiveProduct(d, m);
    assert y * (d * m) == c * m;
    assert (x - y) * (d * m) == x * (d * m) - y * (d * m);
    NonZeroProduct(x - y, d * m);
  }

  lemma MultipleCancels(x: real, c: real, d: real, m: real, nb: real, sqrt: real -> real)
    requires IsSqrt(sqrt) && d > 0.0 && (c == d || c == -d) && m > 0.0 && nb == c * c * m
    requires nb != 0.0 ==> x * (sqrt(m) * sqrt(nb)) == c * m
    ensures x == if c == d then 1.0 else -1.0
  {
    SameSquare(c, d, m);
    RootOfMultiple(d, m, nb, sqrt);
    CancelNorms(x, c, d, sqrt(m), sqrt(nb), m);
  }

  lemma SameSquare(c: real, d: real, m: real)
    requires d > 0.0 && (c == d || c == -d) && m > 0.0
    ensures c * c * m == d * d * m > 0.0
  {
    SquareIsPositive(d);
    PositiveProduct(Times(d, d), m);
    assert c * c == d * d;
  }

  /** A vector that is not zero has similarity 1 with each of its positive multiples, so with
      itself, and -1 with each negative one. */
  lemma SimilarityOfMultiple(a: seq<real>, b: seq<real>, c: real, sqrt: real -> real)
    requires IsSqrt(sqrt) && IsMultiple(a, b, c) && c != 0.0 && exists i | 0 <= i < |a| :: a[i] != 0.0
    ensures CosineSim(a, b, sqrt) == if c > 0.0 then 1.0 else -1.0
  {
    NonZeroNorm(a);
    SimilarityBySums(a, b, c, sqrt);
    if c > 0.0 {
      MultipleCancels(CosineSim(a, b, sqrt), c, c, Dot(a, a, |a|), Dot(b, b, |a|), sqrt);
    } else {
      MultipleCancels(CosineSim(a, b, sqrt), c, -c, Dot(a, a, |a|), Dot(b, b, |a|), sqrt);
    }
  }

  lemma NonZeroNorm(a: seq<real>)
    requires exists i | 0 <= i < |a| :: a[i] != 0.0
    ensures Dot(a, a, |a|) > 0.0
  {
    NormIsZeroIff(a, |a|);
  }

  lemma SimilarityBySums(a: seq<real>, b: seq<real>, c: real, sqrt: real -> real)
    requires IsSqrt(sqrt) && IsMultiple(a, b, c)
    ensures var m, nb := Dot(a, a, |a|), Dot(b, b, |a|);
      && nb == c * c * m
      && (m != 0.0 && nb != 0.0 ==> CosineSim(a, b, sqrt) * (sqrt(m) * sqrt(nb)) == c * m)
  {
    assert Common(a, b) == |a|;
    SimilarityIsCosine(a, b, sqrt);
    DotOfMultiple(a, b, c, |a|);
  }

  // The search.

  predicate Passes(f: Filter, m: Metadata) {
    && !(f.excludeInvalid && m.isInvalid)
    && (f.docType.Some? ==> m.docType == f.docType.value)
    && (f.minWeight.Some? ==> m.weight >= f.minWeight.value)
    && (f.tags == [] || exists t | t in f.tags :: t in m.tags)
  }

  ghost function Passing(data: Data, f: Filter): set<string> {
    set id | id in data && Passes(f, data[id].metadata)
  }

  /** A filter lets through what each of its criteria alone lets through, and a criterion that is
      not set lets everything through. Of several tags one is enough. */
  lemma FilterIsConjunction(data: Data, f: Filter)
    ensures Passing(data, Filter(None, None, [], false)) == data.Keys
    ensures Passing(data, f) ==
      Passing(data, Filter(f.docType, None, [], false)) * Passing(data, Filter(None, f.minWeight, [], false))
      * Passing(data, Filter(None, None, f.tags, false)) * Passing(data, Filter(None, None, [], f.excludeInvalid))
    ensures forall id, docType :: (
      id in Passing(data, Filter(Some(docType), None, [], false)) <==> id in data && data[id].metadata.docType == docType)
    ensures forall id, least :: (
      id in Passing(data, Filter(None, Some(least), [], false)) <==> id in data && data[id].metadata.weight >= least)
    ensures f.tags != [] ==> forall id :: (
      id in Passing(data, Filter(None, None, f.tags, false))
      <==> id in data && exists t :: t in f.tags && t in data[id].metadata.tags)
    ensures forall id :: id in Passing(data, Filter(None, None, [], true)) <==> id in data && !data[id].metadata.isInvalid
  {
  }

  function HitOf(id: string, e: Entry, query: seq<real>, sqrt: real -> real): Hit
    requires IsSqrt(sqrt)
  {
    Hit(id, CosineSim(query, e.vector, sqrt), e.metadata)
  }

  /** The filter and map over the entries in the order `order`. */
  function Hits(data: Data, order: seq<string>, query: seq<real>, f: Filter, sqrt: real -> real): seq<Hit>
    requires IsSqrt(sqrt) && forall id | id in order :: id in data
    decreases |order|
  {
    if order == [] then []
    else if Passes(f, data[order[0]].metadata) then
      [HitOf(order[0], data[order[0]], query, sqrt)] + Hits(data, order[1..], query, f, sqrt)
    else Hits(data, order[1..], query, f, sqrt)
  }

  function Descending(): Hit -> real {
    (h: Hit) => -h.score
  }

  ghost function IdsOf(hits: seq<Hit>): set<string> {
    set h: Hit | h in hits :: h.id
  }

  /** Every hit is an entry that passes, with its similarity. */
  ghost predicate Genuine(data: Data, query: seq<real>, f: Filter, sqrt: real -> real, hits: seq<Hit>)
    requires IsSqrt(sqrt)
  {
    forall h | h in hits :: h.id in Passing(data, f) && h == HitOf(h.id, data[h.id], query, sqrt)
  }

  ghost predicate NoTwice(order: seq<string>) {
    order == [] || (order[0] !in order[1..] && NoTwice(order[1..]))
  }

  lemma {:induction false} HitsAreGenuine(data: Data, order: seq<string>, query: seq<real>, f: Filter, sqrt: real -> real)
    requires IsSqrt(sqrt) && forall id | id in order :: id in data
    ensures Genuine(data, query, f, sqrt, Hits(data, order, query, f, sqrt))
    ensures IdsOf(Hits(data, order, query, f, sqrt)) == set id | id in order && id in Passing(data, f)
    decreases |order|
  {
    if order != [] {
      var rest := Hits(data, order[1..], query, f, sqrt);
      HitsAreGenuine(data, order[1..], query, f, sqrt);
      if Passes(f, data[order[0]].metadata) {
        IdsOfCons(HitOf(order[0], data[order[0]], query, sqrt), rest);
      }
    }
  }

  lemma IdsOfCons(h: Hit, rest: seq<Hit>)
    ensures IdsOf([h] + rest) == {h.id} + IdsOf(rest)
  {
  }

  lemma IdsOfAppend(a: seq<Hit>, b: seq<Hit>)
    ensures IdsOf(a + b) == IdsOf(a) + IdsOf(b)
  {
  }

  lemma {:induction false} AtMostOneIdEach(hits: seq<Hit>)
    ensures |IdsOf(hits)| <= |hits|
  {
    if hits == [] {
      assert IdsOf(hits) == {};
    } else {
      assert hits == [hits[0]] + hits[1..];
      IdsOfCons(hits[0], hits[1..]);
      AtMostOneIdEach(hits[1..]);
    }
  }

  lemma {:induction false} HitsHaveDistinctIds(data: Data, order: seq<string>, query: seq<real>, f: Filter,
                                               sqrt: real -> real)
    requires IsSqrt(sqrt) && NoTwice(order) && forall id | id in order :: id in data
    ensures |IdsOf(Hits(data, order, query, f, sqrt))| == |Hits(data, order, query, f, sqrt)|
    decreases |order|
  {
    if order == [] {
      assert IdsOf([]) == {};
    } else {
      var rest := Hits(data, order[1..], query, f, sqrt);
      HitsHaveDistinctIds(data, order[1..], query, f, sqrt);
      HitsAreGenuine(data, order[1..], query, f, sqrt);
      if Passes(f, data[order[0]].metadata) {
        IdsOfCons(HitOf(order[0], data[order[0]], query, sqrt), rest);
        assert order[0] !in IdsOf(rest);
      }
    }
  }

  lemma SortedHits(hits: seq<Hit>)
    ensures var sorted := StableSort(hits, Descending());
      && Sorted(sorted, Descending()) && |sorted| == |hits| && IdsOf(sorted) == IdsOf(hits)
      && forall h :: h in sorted <==> h in hits
  {
    SortSorts(hits, Descending());
    SortPermutes(hits, Descending());
    var sorted := StableSort(hits, Descending());
    assert |sorted| == |multiset(sorted)| == |multiset(hits)| == |hits|;
    assert forall h :: h in sorted <==> h in multiset(sorted);
    assert forall h :: h in hits <==> h in multiset(hits);
  }

  lemma {:induction false} SortedPairs(xs: seq<Hit>, i: nat, j: nat)
    requires Sorted(xs, Descending()) && i < j < |xs|
    ensures xs[i].score >= xs[j].score
  {
    if i == 0 {
      assert xs[1..][j - 1] == xs[j];
    } else {
      SortedPairs(xs[1..], i - 1, j - 1);
    }
  }

  /** What a search promises of its results. */
  ghost predicate IsTop(data: Data, query: seq<real>, topK: nat, f: Filter, sqrt: real -> real, results: seq<Hit>)
    requires IsSqrt(sqrt)
  {
    && Genuine(data, query, f, sqrt, results)
    && |IdsOf(results)| == |results| == (if topK < |Passing(data, f)| then topK else |Passing(data, f)|)
    && (forall i, j | 0 <= i < j < |results| :: results[i].score >= results[j].score)
    && (forall id, h | id in Passing(data, f) && id !in IdsOf(results) && h in results ::
          h.score >= HitOf(id, data[id], query, sqrt).score)
  }

  /** Cutting a list with distinct ids keeps the ids distinct. */
  lemma PrefixHasDistinctIds(xs: seq<Hit>, k: nat)
    requires k <= |xs| && |IdsOf(xs)| == |xs|
    ensures |IdsOf(xs[..k])| == k
  {
    assert xs == xs[..k] + xs[k..];
    IdsOfAppend(xs[..k], xs[k..]);
    AtMostOneIdEach(xs[..k]);
    AtMostOneIdEach(xs[k..]);
  }

  lemma CutOffScoresLess(xs: seq<Hit>, k: nat, g: Hit, h: Hit)
    requires Sorted(xs, Descending()) && k <= |xs| && g in xs && g.id !in IdsOf(xs[..k]) && h in xs[..k]
    ensures h.score >= g.score
  {
    var i: nat :| i < k && xs[i] == h;
    assert g !in xs[..k] && xs == xs[..k] + xs[k..];
    var j: nat :| j < |xs[k..]| && xs[k..][j] == g;
    SortedPairs(xs, i, k + j);
  }

  /** The best `topK` hits, from the hits in any order. */
  lemma TopOfHits(data: Data, query: seq<real>, topK: nat, f: Filter, sqrt: real -> real, hits: seq<Hit>, k: nat)
    requires IsSqrt(sqrt) && Genuine(data, query, f, sqrt, hits)
    requires IdsOf(hits) == Passing(data, f) && |IdsOf(hits)| == |hits|
    requires k == if topK < |hits| then topK else |hits|
    ensures |StableSort(hits, Descending())| == |hits|
    ensures IsTop(data, query, topK, f, sqrt, StableSort(hits, Descending())[..k])
  {
    var sorted := StableSort(hits, Descending());
    SortedHits(hits);
    PrefixHasDistinctIds(sorted, k);
    var results := sorted[..k];
    forall i: nat, j: nat | i < j < |results|
      ensures results[i].score >= results[j].score
    {
      SortedPairs(sorted, i, j);
    }
    forall id, h | id in Passing(data, f) && id !in IdsOf(results) && h in results
      ensures h.score >= HitOf(id, data[id], query, sqrt).score
    {
      var g :| g in hits && g.id == id;
      CutOffScoresLess(sorted, k, g, h);
    }
  }

  class MemoryVectorStore {
    const dim: nat
    var data: Data

    constructor (dim: nat)
      ensures this.dim == dim && data == map[]
    {
      this.dim, data := dim, map[];
    }

    method Upsert(items: seq<(string, Entry)>)
      modifies this
      ensures data == Upserted(old(data), items)
    {
      data := InsertAll(data, items);
    }

    method Delete(ids: seq<string>)
      modifies this
      ensures data == old(data) - set id | id in ids
    {
      data := RemoveAll(data, ids);
    }

    method Search(query: seq<real>, topK: nat, f: Filter, sqrt: real -> real) returns (results: seq<Hit>)
      requires IsSqrt(sqrt)
      ensures IsTop(data, query, topK, f, sqrt, results)
    {
      var order := Enumerate(data.Keys);
      HitsAreGenuine(data, order, query, f, sqrt);
      HitsHaveDistinctIds(data, order, query, f, sqrt);
      var hits := Hits(data, order, query, f, sqrt);
      assert IdsOf(hits) == Passing(data, f);
      var k := if topK < |hits| then topK else |hits|;
      TopOfHits(data, query, topK, f, sqrt, hits, k);
      results := StableSort(hits, Descending())[..k];
    }
  }

  /** The keys of a hash map in some order. */
  method Enumerate(ids: set<string>) returns (order: seq<string>)
    ensures NoTwice(order) && forall id :: id in order <==> id in ids
  {
    order := [];
    var left := ids;
    while left != {}
      invariant left <= ids && NoTwice(order)
      invariant forall id :: id in order <==> id in ids && id !in left
      decreases |left|
    {
      var id :| id in left;
      assert ([id] + order)[1..] == order;
      order := [id] + order;
      left := left - {id};
    }
  }

  function Upserted(data: Data, items: seq<(string, Entry)>): Data
    decreases |items|
  {
    if items == [] then data else Upserted(data[items[0].0 := items[0].1], items[1..])
  }

  method InsertAll(data0: Data, items: seq<(string, Entry)>) returns (data: Data)
    ensures data == Upserted(data0, items)
  {
    data := data0;
    var left := items;
    while left != []
      invariant Upserted(data, left) == Upserted(data0, items)
      decreases |left|
    {
      data := data[left[0].0 := left[0].1];
      left := left[1..];
    }
  }

  method RemoveAll(data0: Data, ids: seq<string>) returns (data: Data)
    ensures data == data0 - set id | id in ids
  {
    data := data0;
    for i := 0 to |ids|
      invariant data == data0 - set id | id in ids[..i]
    {
      assert ids[..i + 1] == ids[..i] + [ids[i]];
      data := data - {ids[i]};
    }
    assert ids[..|ids|] == ids;
  }

  lemma {:induction false} OtherIdsUntouched(data: Data, items: seq<(string, Entry)>, id: string)
    requires forall i | 0 <= i < |items| :: items[i].0 != id
    ensures (id in Upserted(data, items) <==> id in data) && (id in data ==> Upserted(data, items)[id] == data[id])
    decreases |items|
  {
    if items != [] {
      OtherIdsUntouched(data[items[0].0 := items[0].1], items[1..], id);
    }
  }

  /** The last item for an id wins. */
  lemma {:induction false} LastUpsertWins(data: Data, items: seq<(string, Entry)>, i: nat)
    requires i < |items| && forall j | i < j < |items| :: items[j].0 != items[i].0
    ensures items[i].0 in Upserted(data, items) && Upserted(data, items)[items[i].0] == items[i].1
    decreases |items|
  {
    var next := data[items[0].0 := items[0].1];
    if i == 0 {
      OtherIdsUntouched(next, items[1..], items[0].0);
    } else {
      assert items[1..][i - 1] == items[i];
      LastUpsertWins(next, items[1..], i - 1);
    }
  }
}
