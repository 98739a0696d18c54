/** Dot products of real vectors over key sets, the Cauchy-Schwarz inequality, and the square
    root by its specification. */
module RealSums {
  /** What is assumed of a square root: nothing but that it is one. */
  ghost predicate IsSqrt(sqrt: real -> real) {
    forall x | x >= 0.0 :: sqrt(x) >= 0.0 && sqrt(x) * sqrt(x) == x
  }

  ghost function Sum(keys: set<string>, h: string -> real): real {
    if keys == {} then 0.0
    else
      var k :| k in keys;
      h(k) + Sum(keys - {k}, h)
  }

  /** Any key may be taken first. */
  lemma {:induction false} SumPick(keys: set<string>, h: string -> real, k: string)
    requires k in keys
    ensures Sum(keys, h) == h(k) + Sum(keys - {k}, h)
  {
    var j :| j in keys && Sum(keys, h) == h(j) + Sum(keys - {j}, h);
    if j != k {
      SumPick(keys - {j}, h, k);
      SumPick(keys - {k}, h, j);
      assert keys - {j} - {k} == keys - {k} - {j};
    }
  }

  lemma SumAdd(keys: set<string>, h: string -> real, k: string)
    requires k !in keys
    ensures Sum(keys + {k}, h) == Sum(keys, h) + h(k)
  {
    SumPick(keys + {k}, h, k);
    assert keys + {k} - {k} == keys;
  }

  lemma {:induction false} SumOfZero(keys: set<string>, h: string -> real)
    requires forall k | k in keys :: h(k) == 0.0
    ensures Sum(keys, h) == 0.0
  {
    if keys != {} {
      var k :| k in keys;
      SumPick(keys, h, k);
      SumOfZero(keys - {k}, h);
    }
  }

  lemma {:induction false} SumSplit(keys: set<string>, part: set<string>, h: string -> real)
    requires part <= keys
    ensures Sum(keys, h) == Sum(part, h) + Sum(keys - part, h)
  {
    if part == {} {
      assert keys - part == keys;
    } else {
      var k :| k in part;
      SumPick(keys, h, k);
      SumPick(part, h, k);
      SumSplit(keys - {k}, part - {k}, h);
      assert keys - {k} - (part - {k}) == keys - part;
    }
  }

  /** A sum only depends on the keys where the summand can differ from zero. */
  lemma SumOverSupport(keys: set<string>, part: set<string>, h: string -> real)
    requires part <= keys && forall k | k in keys - part :: h(k) == 0.0
    ensures Sum(keys, h) == Sum(part, h)
  {
    SumSplit(keys, part, h);
    SumOfZero(keys - part, h);
  }

  lemma {:induction false} SumNonNegative(keys: set<string>, h: string -> real)
    requires forall k | k in keys :: h(k) >= 0.0
    ensures Sum(keys, h) >= 0.0
  {
    if keys != {} {
      var k :| k in keys;
      SumPick(keys, h, k);
      SumNonNegative(keys - {k}, h);
    }
  }

  function Products(f: string -> real, g: string -> real): string -> real {
    k => f(k) * g(k)
  }

  /** `h` is the product of `f` and `g`; said of an `h` that is not a lambda, so that a sum
      of `h` unfolds to nothing but terms of `h`. */
  ghost predicate IsProduct(h: string -> real, f: string -> real, g: string -> real) {
    forall k {:trigger f(k), g(k)} :: h(k) == f(k) * g(k)
  }

  lemma ProductsAreProducts(f: string -> real, g: string -> real)
    ensures IsProduct(Products(f, g), f, g)
  {
  }

  lemma SquareIsNonNegative(x: real)
    ensures x * x >= 0.0
  {
  }

  lemma NormIsNonNegative(keys: set<string>, ff: string -> real, f: string -> real)
    requires IsProduct(ff, f, f)
    ensures Sum(keys, ff) >= 0.0
  {
    forall k | k in keys
      ensures ff(k) >= 0.0
    {
      SquareIsNonNegative(f(k));
    }
    SumNonNegative(keys, ff);
  }

  lemma PositiveProduct(s: real, t: real)
    requires s > 0.0 && t > 0.0
    ensures s * t > 0.0
  {
  }

  lemma OrderBySquares(u: real, v: real)
    requires v >= 0.0 && u * u <= v * v
    ensures -v <= u <= v
  {
    assert (u - v) * (u + v) == u * u - v * v;
    assert (-u - v) * (-u + v) == u * u - v * v;
    if u > v {
      PositiveProduct(u - v, u + v);
    }
    if u < -v {
      PositiveProduct(-u - v, -u + v);
    }
  }

  /** One step of the inequality: a pair `x`, `y` joins sums `a`, `b` of squares and `c` of
      products. */
  lemma CauchyStep(a: real, b: real, c: real, x: real, y: real)
    requires a >= 0.0 && b >= 0.0 && c * c <= a * b
    ensures (c + x * y) * (c + x * y) <= (a + x * x) * (b + y * y)
  {
    var u, v := 2.0 * c * x * y, a * y * y + b * x * x;
    CrossTerm(a, b, c, x, y);
    OrderBySquares(u, v);
    assert (c + x * y) * (c + x * y) == c * c + u + x * x * y * y;
    assert (a + x * x) * (b + y * y) == a * b + v + x * x * y * y;
  }

  lemma CrossTerm(a: real, b: real, c: real, x: real, y: real)
    requires a >= 0.0 && b >= 0.0 && c * c <= a * b
    ensures var u, v := 2.0 * c * x * y, a * y * y + b * x * x; v >= 0.0 && u * u <= v * v
  {
    var u, v := 2.0 * c * x * y, a * y * y + b * x * x;
    var p, q := a * (y * y), b * (x * x);
    var s := (x * y) * (x * y);
    SquareIsNonNegative(x);
    SquareIsNonNegative(y);
    SquareIsNonNegative(x * y);
    assert p >= 0.0 && q >= 0.0 && v == p + q;
    assert u * u == 4.0 * (c * c) * s;
    assert (c * c) * s <= (a * b) * s;
    assert (a * b) * s == p * q;
    SquareIsNonNegative(p - q);
    assert (p - q) * (p - q) == (p + q) * (p + q) - 4.0 * (p * q);
  }

  lemma {:induction false} CauchySchwarz(keys: set<string>, f: string -> real, g: string -> real,
                                         ff: string -> real, gg: string -> real, fg: string -> real)
    requires IsProduct(ff, f, f) && IsProduct(gg, g, g) && IsProduct(fg, f, g)
    ensures Sum(keys, fg) * Sum(keys, fg) <= Sum(keys, ff) * Sum(keys, gg)
  {
    if keys != {} {
      var k :| k in keys;
      var rest := keys - {k};
      CauchySchwarz(rest, f, g, ff, gg, fg);
      NormIsNonNegative(rest, ff, f);
      NormIsNonNegative(rest, gg, g);
      SumPick(keys, ff, k);
      SumPick(keys, gg, k);
      SumPick(keys, fg, k);
      CauchyStep(Sum(rest, ff), Sum(rest, gg), Sum(rest, fg), f(k), g(k));
    }
  }

  /** A dot product over the product of the norms, or 0 for a vector of norm 0. */
  ghost function Ratio(dot: real, a: real, b: real, sqrt: real -> real): real
    requires IsSqrt(sqrt)
  {
    if a > 0.0 && b > 0.0 then
      RootsArePositive(a, b, sqrt);
      dot / (sqrt(a) * sqrt(b))
    else 0.0
  }

  lemma RootsArePositive(a: real, b: real, sqrt: real -> real)
    requires IsSqrt(sqrt) && a > 0.0 && b > 0.0
    ensures sqrt(a) * sqrt(b) > 0.0
  {
  }

  lemma RatioIsBounded(dot: real, a: real, b: real, sqrt: real -> real)
    requires IsSqrt(sqrt) && dot * dot <= a * b
    ensures -1.0 <= Ratio(dot, a, b, sqrt) <= 1.0
    ensures dot >= 0.0 ==> Ratio(dot, a, b, sqrt) >= 0.0
  {
    if a > 0.0 && b > 0.0 {
      RootsArePositive(a, b, sqrt);
      RootsBoundTheDot(dot, a, b, sqrt(a), sqrt(b));
      Quotient(dot, sqrt(a) * sqrt(b));
    }
  }

  lemma RatioOfEqual(a: real, sqrt: real -> real)
    requires IsSqrt(sqrt) && a > 0.0
    ensures Ratio(a, a, a, sqrt) == 1.0
  {
    RootsArePositive(a, a, sqrt);
    SelfQuotient(sqrt(a) * sqrt(a));
  }

  lemma SelfQuotient(d: real)
    requires d > 0.0
    ensures d / d == 1.0
  {
  }

  lemma RootsBoundTheDot(dot: real, a: real, b: real, s: real, t: real)
    requires s >= 0.0 && t >= 0.0 && s * s == a && t * t == b && dot * dot <= a * b
    requires s * t > 0.0
    ensures -(s * t) <= dot <= s * t
  {
    assert (s * t) * (s * t) == (s * s) * (t * t);
    OrderBySquares(dot, s * t);
  }

  lemma Quotient(x: real, d: real)
    requires d > 0.0 && -d <= x <= d
    ensures -1.0 <= x / d <= 1.0
    ensures x >= 0.0 ==> x / d >= 0.0
  {
    var q := x / d;
    assert q * d == x;
    if q > 1.0 {
      PositiveProduct(q - 1.0, d);
    }
    if q < -1.0 {
      PositiveProduct(-1.0 - q, d);
    }
    if q < 0.0 {
      PositiveProduct(-q, d);
    }
  }

  ghost predicate Supported(keys: set<string>, f: string -> real) {
    forall k | k !in keys :: f(k) == 0.0
  }

  lemma ZeroFactor(x: real, y: real)
    requires x == 0.0 || y == 0.0
    ensures x * y == 0.0
  {
  }

  lemma NormOverUnion(keys: set<string>, part: set<string>, ff: string -> real, f: string -> real)
    requires part <= keys && Supported(part, f) && IsProduct(ff, f, f)
    ensures Sum(keys, ff) == Sum(part, ff)
  {
    forall k | k in keys - part
      ensures ff(k) == 0.0
    {
      assert f(k) == 0.0;
    }
    SumOverSupport(keys, part, ff);
  }

  /** Only the shared keys matter to a dot product. */
  lemma DotOverShared(doc: set<string>, query: set<string>, f: string -> real, g: string -> real, fg: string -> real)
    requires Supported(doc, f) && Supported(query, g) && IsProduct(fg, f, g)
    ensures Sum(doc + query, fg) == Sum(query * doc, fg)
  {
    forall k | k in doc + query - query * doc
      ensures fg(k) == 0.0
    {
      ZeroFactor(f(k), g(k));
    }
    SumOverSupport(doc + query, query * doc, fg);
  }

  lemma CosineOnOneSet(keys: set<string>, f: string -> real, g: string -> real,
                       ff: string -> real, gg: string -> real, fg: string -> real, sqrt: real -> real)
    requires IsSqrt(sqrt) && IsProduct(ff, f, f) && IsProduct(gg, g, g) && IsProduct(fg, f, g)
    ensures IsCosine(Sum(keys, fg), Sum(keys, ff), Sum(keys, gg), sqrt)
  {
    CauchySchwarz(keys, f, g, ff, gg, fg);
    RatioIsBounded(Sum(keys, fg), Sum(keys, ff), Sum(keys, gg), sqrt);
  }

  ghost predicate IsCosine(dot: real, a: real, b: real, sqrt: real -> real)
    requires IsSqrt(sqrt)
  {
    -1.0 <= Ratio(dot, a, b, sqrt) <= 1.0 && (dot >= 0.0 ==> Ratio(dot, a, b, sqrt) >= 0.0)
  }

  /** The cosine of two vectors over different key sets lies between -1 and 1. */
  lemma CosineBound(doc: set<string>, query: set<string>, f: string -> real, g: string -> real,
                    ff: string -> real, gg: string -> real, fg: string -> real, sqrt: real -> real)
    requires IsSqrt(sqrt) && Supported(doc, f) && Supported(query, g)
    requires IsProduct(ff, f, f) && IsProduct(gg, g, g) && IsProduct(fg, f, g)
    ensures IsCosine(Sum(doc + query, fg), Sum(doc, ff), Sum(query, gg), sqrt)
  {
    CosineOnOneSet(doc + query, f, g, ff, gg, fg, sqrt);
    NormOverUnion(doc + query, doc, ff, f);
    NormOverUnion(doc + query, query, gg, g);
  }
}
