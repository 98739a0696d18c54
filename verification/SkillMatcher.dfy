/** `SkillMatcher` of plugins/services/skills/matcher.rs, in real arithmetic. Tokenising,
    lower-casing and the logarithm are parameters. A hash map's iteration order is left
    open: every loop over one takes an arbitrary remaining key. */
module SkillMatcher {
  import opened RealSums

  type Weights = map<string, real>

  function Lookup(m: Weights, term: string): real {
    if term in m then m[term] else 0.0
  }

  function Count(tokens: seq<string>, term: string): nat {
    multiset(tokens)[term]
  }

  /** Term frequencies: each token's share of the tokens. */
  function TfOf(tokens: seq<string>): Weights {
    map t | t in tokens :: Count(tokens, t) as real / |tokens| as real
  }

  lemma CountStep(tokens: seq<string>, i: nat)
    requires i < |tokens|
    ensures tokens[..i + 1] == tokens[..i] + [tokens[i]]
    ensures forall t :: Count(tokens[..i + 1], t) == Count(tokens[..i], t) + if t == tokens[i] then 1 else 0
  {
  }

  method ComputeTf(tokens: seq<string>) returns (tf: Weights)
    ensures tf == TfOf(tokens)
  {
    var counts: Weights := map[];
    var total := |tokens| as real;
    for i := 0 to |tokens|
      invariant counts.Keys == set t | t in tokens[..i]
      invariant forall t | t in counts :: counts[t] == Count(tokens[..i], t) as real
    {
      CountStep(tokens, i);
      counts := counts[tokens[i] := Lookup(counts, tokens[i]) + 1.0];
    }
    assert tokens[..|tokens|] == tokens;
    tf := map[];
    var left := counts.Keys;
    while left != {}
      invariant left <= counts.Keys && tf.Keys == counts.Keys - left
      invariant forall t | t in tf :: tf[t] == counts[t] / total
      decreases |left|
    {
      var t :| t in left;
      tf := tf[t := counts[t] / total];
      left := left - {t};
    }
  }

  /** Document frequencies, which never go below zero. */
  type Frequencies = m: Weights | forall t | t in m :: m[t] >= 0.0 witness map[]

  function IdfVal(ln: real -> real, idf: Frequencies, n: nat): string -> real {
    term => ln((n as real + 1.0) / (Lookup(idf, term) + 1.0)) + 1.0
  }

  /** A term's weight in a vector; zero for a term it does not hold. */
  function Weight(m: Weights, idfVal: string -> real): string -> real {
    t => Lookup(m, t) * idfVal(t)
  }

  ghost function Cosine(doc: Weights, query: Weights, idfVal: string -> real, sqrt: real -> real): real
    requires IsSqrt(sqrt)
  {
    var f, g := Weight(doc, idfVal), Weight(query, idfVal);
    Ratio(Sum(doc.Keys + query.Keys, Products(f, g)), Sum(doc.Keys, Products(f, f)), Sum(query.Keys, Products(g, g)), sqrt)
  }

  lemma WeightIsSupported(m: Weights, idfVal: string -> real)
    ensures Supported(m.Keys, Weight(m, idfVal))
  {
    forall t | t !in m.Keys
      ensures Weight(m, idfVal)(t) == 0.0
    {
      assert 0.0 * idfVal(t) == 0.0;
    }
  }

  /** `cosine_tfidf`: two passes, then the quotient. */
  method CosineTfidf(doc: Weights, query: Weights, idfVal: string -> real, sqrt: real -> real) returns (r: real)
    requires IsSqrt(sqrt)
    ensures r == Cosine(doc, query, idfVal, sqrt)
  {
    var f, g := Weight(doc, idfVal), Weight(query, idfVal);
    WeightIsSupported(doc, idfVal);
    WeightIsSupported(query, idfVal);
    ProductsAreProducts(f, f);
    ProductsAreProducts(g, g);
    ProductsAreProducts(f, g);
    DotOverShared(doc.Keys, query.Keys, f, g, Products(f, g));
    NormIsNonNegative(doc.Keys, Products(f, f), f);
    NormIsNonNegative(query.Keys, Products(g, g), g);
    r := CosineOf(doc.Keys, query.Keys, Products(f, f), Products(g, g), Products(f, g), sqrt);
  }

  /** `ff`, `gg` and `fg` are the products of the document's and the query's weights. */
  method CosineOf(doc: set<string>, query: set<string>, ff: string -> real, gg: string -> real, fg: string -> real,
                  sqrt: real -> real)
    returns (r: real)
    requires IsSqrt(sqrt) && Sum(doc, ff) >= 0.0 && Sum(query, gg) >= 0.0
    ensures r == Ratio(Sum(query * doc, fg), Sum(doc, ff), Sum(query, gg), sqrt)
  {
    var dot, normDoc, normQuery := QueryPass(doc, query, ff, gg, fg);
    assert query - {} == query * query == query;
    normDoc := DocPass(doc, query, ff, normDoc);
    r := Divide(dot, normDoc, normQuery, sqrt);
  }

  method Divide(dot: real, normDoc: real, normQuery: real, sqrt: real -> real) returns (r: real)
    requires IsSqrt(sqrt) && normDoc >= 0.0 && normQuery >= 0.0
    ensures r == Ratio(dot, normDoc, normQuery, sqrt)
  {
    if normDoc == 0.0 || normQuery == 0.0 {
      r := 0.0;
    } else {
      RootsArePositive(normDoc, normQuery, sqrt);
      r := dot / (sqrt(normDoc) * sqrt(normQuery));
    }
  }

  /** Meeting one more query term adds its product, for the keys `doc` if it is one. */
  lemma TermStep(doc: set<string>, query: set<string>, left: set<string>, h: string -> real, term: string)
    requires term in left && left <= query
    ensures Sum((query - (left - {term})) * doc, h)
      == Sum((query - left) * doc, h) + if term in doc then h(term) else 0.0
  {
    if term in doc {
      assert (query - (left - {term})) * doc == (query - left) * doc + {term};
      SumAdd((query - left) * doc, h, term);
    } else {
      assert (query - (left - {term})) * doc == (query - left) * doc;
    }
  }

  /** The three running sums, when the query terms `left` are still to come. */
  ghost predicate Passed(doc: set<string>, query: set<string>, left: set<string>, ff: string -> real, gg: string -> real,
                         fg: string -> real, dot: real, normDoc: real, normQuery: real)
  {
    && normQuery == Sum((query - left) * query, gg)
    && dot == Sum((query - left) * doc, fg)
    && normDoc == Sum((query - left) * doc, ff)
  }

  lemma NothingPassed(doc: set<string>, query: set<string>, ff: string -> real, gg: string -> real, fg: string -> real)
    ensures Passed(doc, query, query, ff, gg, fg, 0.0, 0.0, 0.0)
  {
    assert query - query == {} == {} * doc == {} * query;
  }

  lemma PassTerm(doc: set<string>, query: set<string>, left: set<string>, ff: string -> real, gg: string -> real,
                 fg: string -> real, dot: real, normDoc: real, normQuery: real, term: string)
    requires term in left && left <= query && Passed(doc, query, left, ff, gg, fg, dot, normDoc, normQuery)
    ensures term in doc ==> Passed(doc, query, left - {term}, ff, gg, fg,
                                   dot + fg(term), normDoc + ff(term), normQuery + gg(term))
    ensures term !in doc ==> Passed(doc, query, left - {term}, ff, gg, fg, dot, normDoc, normQuery + gg(term))
  {
    TermStep(query, query, left, gg, term);
    TermStep(doc, query, left, fg, term);
    TermStep(doc, query, left, ff, term);
  }

  /** The query's terms, with the document's share of them. */
  method QueryPass(doc: set<string>, query: set<string>, ff: string -> real, gg: string -> real, fg: string -> real)
    returns (dot: real, normDoc: real, normQuery: real)
    ensures Passed(doc, query, {}, ff, gg, fg, dot, normDoc, normQuery)
  {
    dot, normDoc, normQuery := 0.0, 0.0, 0.0;
    var left := query;
    NothingPassed(doc, query, ff, gg, fg);
    while left != {}
      invariant left <= query && Passed(doc, query, left, ff, gg, fg, dot, normDoc, normQuery)
      decreases |left|
    {
      var term :| term in left;
      PassTerm(doc, query, left, ff, gg, fg, dot, normDoc, normQuery, term);
      normQuery := normQuery + gg(term);
      if term in doc {
        dot := dot + fg(term);
        normDoc := normDoc + ff(term);
      }
      left := left - {term};
    }
  }

  lemma CountedStep(doc: set<string>, query: set<string>, left: set<string>, term: string)
    requires term in left && left <= doc
    ensures term in query ==> doc - (left - {term} - query) == doc - (left - query)
    ensures term !in query ==> term !in doc - (left - query)
    ensures term !in query ==> doc - (left - {term} - query) == doc - (left - query) + {term}
  {
  }

  /** The document's terms that the first pass has not met. */
  method DocPass(doc: set<string>, query: set<string>, ff: string -> real, shared: real)
    returns (normDoc: real)
    requires shared == Sum(query * doc, ff)
    ensures normDoc == Sum(doc, ff)
  {
    normDoc := shared;
    var left := doc;
    ghost var counted := doc - (left - query);
    assert counted == query * doc;
    while left != {}
      invariant left <= doc && counted == doc - (left - query)
      invariant normDoc == Sum(counted, ff)
      decreases |left|
    {
      var term :| term in left;
      CountedStep(doc, query, left, term);
      if term !in query {
        SumAdd(counted, ff, term);
        normDoc := normDoc + ff(term);
      }
      left := left - {term};
      counted := doc - (left - query);
    }
    assert counted == doc;
  }

  lemma DotIsNonNegative(doc: Weights, query: Weights, idfVal: string -> real)
    requires (forall t | t in doc :: doc[t] >= 0.0) && (forall t | t in query :: query[t] >= 0.0)
    ensures Sum(doc.Keys + query.Keys, Products(Weight(doc, idfVal), Weight(query, idfVal))) >= 0.0
  {
    forall t | t in doc.Keys + query.Keys
      ensures Products(Weight(doc, idfVal), Weight(query, idfVal))(t) >= 0.0
    {
      ScaledProduct(Lookup(doc, t), Lookup(query, t), idfVal(t));
    }
    SumNonNegative(doc.Keys + query.Keys, Products(Weight(doc, idfVal), Weight(query, idfVal)));
  }

  lemma ScaledProduct(x: real, y: real, w: real)
    requires x >= 0.0 && y >= 0.0
    ensures (x * w) * (y * w) >= 0.0
  {
  }

  /** With term frequencies that are not negative the cosine lies between 0 and 1, for any
      inverse document frequencies, negative ones included. */
  lemma CosineInUnit(doc: Weights, query: Weights, idfVal: string -> real, sqrt: real -> real)
    requires IsSqrt(sqrt)
    requires (forall t | t in doc :: doc[t] >= 0.0) && (forall t | t in query :: query[t] >= 0.0)
    ensures 0.0 <= Cosine(doc, query, idfVal, sqrt) <= 1.0
  {
    DotIsNonNegative(doc, query, idfVal);
    WeightIsSupported(doc, idfVal);
    WeightIsSupported(query, idfVal);
    var f, g := Weight(doc, idfVal), Weight(query, idfVal);
    ProductsAreProducts(f, f);
    ProductsAreProducts(g, g);
    ProductsAreProducts(f, g);
    CosineBound(doc.Keys, query.Keys, f, g, Products(f, f), Products(g, g), Products(f, g), sqrt);
  }

  /** A text compared with itself has cosine 1, unless all its weights are zero. */
  lemma SelfCosine(m: Weights, idfVal: string -> real, sqrt: real -> real)
    requires IsSqrt(sqrt)
    requires Sum(m.Keys, Products(Weight(m, idfVal), Weight(m, idfVal))) > 0.0
    ensures Cosine(m, m, idfVal, sqrt) == 1.0
  {
    assert m.Keys + m.Keys == m.Keys;
    RatioOfEqual(Sum(m.Keys, Products(Weight(m, idfVal), Weight(m, idfVal))), sqrt);
  }

  lemma ShareOfWhole(c: nat, n: nat)
    requires 0 < c <= n
    ensures 0.0 < c as real / n as real <= 1.0
  {
    var q := c as real / n as real;
    assert q * n as real == c as real;
    Quotient(c as real, n as real);
  }

  lemma CountAtMostLength(tokens: seq<string>, t: string)
    ensures Count(tokens, t) <= |tokens|
  {
    assert multiset(tokens)[t] <= |multiset(tokens)| == |tokens|;
  }

  lemma TfIsNonNegative(tokens: seq<string>)
    ensures forall t | t in TfOf(tokens) :: 0.0 < TfOf(tokens)[t] <= 1.0
  {
    forall t | t in TfOf(tokens)
      ensures 0.0 < TfOf(tokens)[t] <= 1.0
    {
      CountAtMostLength(tokens, t);
      ShareOfWhole(Count(tokens, t), |tokens|);
    }
  }

  function TagHits(tags: seq<string>, found: string -> bool): nat {
    if tags == [] then 0 else (if found(tags[0]) then 1 else 0) + TagHits(tags[1..], found)
  }

  lemma {:induction false} HitsAreTags(tags: seq<string>, found: string -> bool)
    ensures TagHits(tags, found) <= |tags|
  {
    if tags != [] {
      HitsAreTags(tags[1..], found);
    }
  }

  /** What an index holds. */
  datatype Indexed = Indexed(docVectors: map<string, Weights>, idf: Frequencies, docCount: nat)

  /** Adding stores the vector under its name and counts every occurrence of a token. */
  ghost predicate IsAdded(before: Indexed, after: Indexed, name: string, tokens: seq<string>) {
    && after.docVectors == before.docVectors[name := TfOf(tokens)] && after.docCount == before.docCount + 1
    && forall t :: Lookup(after.idf, t) == AfterAdd(before.idf, tokens, t)
  }

  /** Removing a known name drops its vector and takes one off each of its distinct tokens. */
  ghost predicate IsRemoved(before: Indexed, after: Indexed, name: string) {
    if name !in before.docVectors then after == before
    else
      && after.docVectors == before.docVectors - {name}
      && after.docCount == (if before.docCount > 0 then before.docCount - 1 else 0)
      && forall t :: Lookup(after.idf, t) == AfterRemove(before.idf, before.docVectors[name].Keys, t)
  }

  /** The documents and the document frequencies, which are kept up to date by hand. */
  class Index {
    var docVectors: map<string, Weights>
    var idf: Frequencies
    var docCount: nat

    constructor ()
      ensures docVectors == map[] && idf == map[] && docCount == 0
    {
      docVectors, idf, docCount := map[], map[], 0;
    }

    function Contents(): Indexed
      reads this
    {
      Indexed(docVectors, idf, docCount)
    }

    method AddDocument(name: string, tokens: seq<string>)
      modifies this
      ensures IsAdded(old(Contents()), Contents(), name, tokens)
    {
      var tf := ComputeTf(tokens);
      docVectors := docVectors[name := tf];
      docCount := docCount + 1;
      idf := CountTokens(idf, tokens);
    }

    method RemoveDocument(name: string)
      modifies this
      ensures IsRemoved(old(Contents()), Contents(), name)
    {
      if name in docVectors {
        var tf := docVectors[name];
        docVectors := docVectors - {name};
        docCount := if docCount > 0 then docCount - 1 else 0;
        idf := map t | t in idf :: AfterRemove(idf, tf.Keys, t);
      }
    }

    /** `compute_score`, from the tokens of the document and of the context; `found` says
        whether the context contains a tag. No hit among the tags there are scores nothing. */
    method ComputeScore(tags: seq<string>, found: string -> bool, docTokens: seq<string>, queryTokens: seq<string>,
                        ln: real -> real, sqrt: real -> real) returns (score: real)
      requires IsSqrt(sqrt)
      ensures 0.0 <= score <= 1.0
      ensures tags != [] && TagHits(tags, found) == 0 ==> score == 0.0
      ensures tags == [] || TagHits(tags, found) > 0 ==>
        score == 0.5 * Share(tags, found) + 0.5 * Cosine(TfOf(docTokens), TfOf(queryTokens), IdfVal(ln, idf, docCount), sqrt)
    {
      var tagHits := TagHits(tags, found);
      if tagHits == 0 && tags != [] {
        return 0.0;
      }
      ShareInUnit(tags, found);
      var docVec := ComputeTf(docTokens);
      var queryVec := ComputeTf(queryTokens);
      var tfidf := CosineTfidf(docVec, queryVec, IdfVal(ln, idf, docCount), sqrt);
      TfCosineInUnit(docTokens, queryTokens, IdfVal(ln, idf, docCount), sqrt);
      score := 0.5 * Share(tags, found) + 0.5 * tfidf;
    }
  }

  function Share(tags: seq<string>, found: string -> bool): real {
    if tags == [] then 0.5 else TagHits(tags, found) as real / |tags| as real
  }

  lemma ShareInUnit(tags: seq<string>, found: string -> bool)
    ensures 0.0 <= Share(tags, found) <= 1.0
  {
    HitsAreTags(tags, found);
    if tags != [] {
      Quotient(TagHits(tags, found) as real, |tags| as real);
    }
  }

  lemma TfCosineInUnit(docTokens: seq<string>, queryTokens: seq<string>, idfVal: string -> real, sqrt: real -> real)
    requires IsSqrt(sqrt)
    ensures 0.0 <= Cosine(TfOf(docTokens), TfOf(queryTokens), idfVal, sqrt) <= 1.0
  {
    TfIsNonNegative(docTokens);
    TfIsNonNegative(queryTokens);
    CosineInUnit(TfOf(docTokens), TfOf(queryTokens), idfVal, sqrt);
  }

  /** Adding counts every occurrence of a token. */
  function AfterAdd(idf: Weights, tokens: seq<string>, t: string): real {
    Lookup(idf, t) + Count(tokens, t) as real
  }

  /** Removing takes one off each distinct token. */
  function AfterRemove(idf: Weights, terms: set<string>, t: string): real {
    if t !in terms then Lookup(idf, t) else if Lookup(idf, t) > 1.0 then Lookup(idf, t) - 1.0 else 0.0
  }

  method CountTokens(idf0: Frequencies, tokens: seq<string>) returns (idf: Frequencies)
    ensures forall t :: Lookup(idf, t) == AfterAdd(idf0, tokens, t)
  {
    idf := idf0;
    for i := 0 to |tokens|
      invariant forall t :: Lookup(idf, t) == AfterAdd(idf0, tokens[..i], t)
    {
      CountStep(tokens, i);
      ghost var before := idf;
      idf := idf[tokens[i] := Lookup(idf, tokens[i]) + 1.0];
      assert forall t :: Lookup(idf, t) == Lookup(before, t) + if t == tokens[i] then 1.0 else 0.0;
    }
    assert tokens[..|tokens|] == tokens;
  }

  /** On the frequencies, removing a document undoes adding it exactly when none of its tokens
      occurs twice: the surplus occurrences stay. */
  lemma FrequenciesComeBack(idf: Frequencies, added: Frequencies, tokens: seq<string>)
    requires forall t :: Lookup(added, t) == AfterAdd(idf, tokens, t)
    ensures (forall t :: AfterRemove(added, TfOf(tokens).Keys, t) == Lookup(idf, t))
      <==> forall t | t in tokens :: Count(tokens, t) == 1
  {
    forall t
      ensures AfterRemove(added, TfOf(tokens).Keys, t) == Lookup(idf, t) <==> Count(tokens, t) <= 1
    {
      assert t in tokens <==> Count(tokens, t) >= 1;
    }
  }

  /** The same documents, the same number of them, and the same frequency of every term. */
  ghost predicate SameIndex(a: Indexed, b: Indexed) {
    a.docVectors == b.docVectors && a.docCount == b.docCount && forall t :: Lookup(a.idf, t) == Lookup(b.idf, t)
  }

  lemma VectorsComeBack(docs: map<string, Weights>, name: string, tf: Weights)
    ensures docs[name := tf] - {name} == docs <==> name !in docs
  {
    if name !in docs {
      assert docs[name := tf] - {name} == docs;
    } else {
      assert name !in docs[name := tf] - {name};
    }
  }

  /** Removing a document undoes adding it if and only if its name was new and none of its
      tokens occurs twice: otherwise an older vector is gone, or surplus counts stay. */
  lemma RemoveUndoesAddIff(empty: Indexed, full: Indexed, after: Indexed, name: string, tokens: seq<string>)
    requires IsAdded(empty, full, name, tokens) && IsRemoved(full, after, name)
    ensures SameIndex(empty, after)
      <==> name !in empty.docVectors && forall t | t in tokens :: Count(tokens, t) == 1
  {
    VectorsComeBack(empty.docVectors, name, TfOf(tokens));
    FrequenciesComeBack(empty.idf, full.idf, tokens);
    assert full.docVectors[name] == TfOf(tokens);
  }

  // What the parts of a score are.

  lemma {:induction false} SumOfEqual(keys: set<string>, f: string -> real, g: string -> real)
    requires forall t | t in keys :: f(t) == g(t)
    ensures Sum(keys, f) == Sum(keys, g)
  {
    if keys != {} {
      var k :| k in keys;
      SumPick(keys, f, k);
      SumPick(keys, g, k);
      SumOfEqual(keys - {k}, f, g);
    }
  }

  /** `h` holds the squares of the weights: a term's frequency times its inverse document
      frequency. */
  ghost predicate AreSquares(m: Weights, idfVal: string -> real, h: string -> real) {
    forall t | t in m :: h(t) == (m[t] * idfVal(t)) * (m[t] * idfVal(t))
  }

  ghost predicate AreProducts(doc: Weights, query: Weights, idfVal: string -> real, h: string -> real) {
    forall t | t in doc && t in query :: h(t) == (doc[t] * idfVal(t)) * (query[t] * idfVal(t))
  }

  lemma NormIs(m: Weights, idfVal: string -> real, h: string -> real)
    requires AreSquares(m, idfVal, h)
    ensures Sum(m.Keys, h) == Sum(m.Keys, Products(Weight(m, idfVal), Weight(m, idfVal))) >= 0.0
  {
    var f := Weight(m, idfVal);
    SumOfEqual(m.Keys, h, Products(f, f));
    ProductsAreProducts(f, f);
    NormIsNonNegative(m.Keys, Products(f, f), f);
  }

  lemma DotIs(doc: Weights, query: Weights, idfVal: string -> real, h: string -> real)
    requires AreProducts(doc, query, idfVal, h)
    ensures Sum(query.Keys * doc.Keys, h)
      == Sum(doc.Keys + query.Keys, Products(Weight(doc, idfVal), Weight(query, idfVal)))
  {
    var f, g := Weight(doc, idfVal), Weight(query, idfVal);
    WeightIsSupported(doc, idfVal);
    WeightIsSupported(query, idfVal);
    ProductsAreProducts(f, g);
    DotOverShared(doc.Keys, query.Keys, f, g, Products(f, g));
    SumOfEqual(query.Keys * doc.Keys, h, Products(f, g));
  }

  ghost predicate IsQuotient(r: real, dot: real, a: real, b: real, sqrt: real -> real) {
    a >= 0.0 && b >= 0.0 && if a == 0.0 || b == 0.0 then r == 0.0 else r * (sqrt(a) * sqrt(b)) == dot
  }

  lemma RatioIsQuotient(dot: real, a: real, b: real, sqrt: real -> real)
    requires IsSqrt(sqrt) && a >= 0.0 && b >= 0.0
    ensures IsQuotient(Ratio(dot, a, b, sqrt), dot, a, b, sqrt)
  {
    if a > 0.0 && b > 0.0 {
      RootsArePositive(a, b, sqrt);
    }
  }

  /** The cosine is the scalar product over the shared terms divided by the two norms, and zero
      when a norm is. */
  lemma CosineIsQuotient(doc: Weights, query: Weights, idfVal: string -> real, sqrt: real -> real,
                         squaresDoc: string -> real, squaresQuery: string -> real, products: string -> real)
    requires IsSqrt(sqrt) && AreSquares(doc, idfVal, squaresDoc) && AreSquares(query, idfVal, squaresQuery)
    requires AreProducts(doc, query, idfVal, products)
    ensures IsQuotient(Cosine(doc, query, idfVal, sqrt), Sum(query.Keys * doc.Keys, products),
                       Sum(doc.Keys, squaresDoc), Sum(query.Keys, squaresQuery), sqrt)
  {
    NormIs(doc, idfVal, squaresDoc);
    NormIs(query, idfVal, squaresQuery);
    DotIs(doc, query, idfVal, products);
    RatioIsQuotient(Sum(query.Keys * doc.Keys, products), Sum(doc.Keys, squaresDoc), Sum(query.Keys, squaresQuery), sqrt);
  }

  /** A term that every document has once weighs 1, one that fewer have weighs no less than one
      that more have, and a term nobody has weighs most. */
  lemma RareTermsWeighMore(ln: real -> real, idf: Frequencies, n: nat, s: string, t: string)
    requires ln(1.0) == 0.0 && forall x, y | 0.0 < x <= y :: ln(x) <= ln(y)
    ensures Lookup(idf, t) == n as real ==> IdfVal(ln, idf, n)(t) == 1.0
    ensures Lookup(idf, s) <= Lookup(idf, t) ==> IdfVal(ln, idf, n)(s) >= IdfVal(ln, idf, n)(t)
    ensures t !in idf ==> IdfVal(ln, idf, n)(t) == ln(n as real + 1.0) + 1.0
  {
    var top, a, b := n as real + 1.0, Lookup(idf, s) + 1.0, Lookup(idf, t) + 1.0;
    SelfQuotient(top);
    assert t !in idf ==> top / b == top;
    if a <= b {
      LargerDenominator(top, a, b);
    }
  }

  lemma LargerDenominator(x: real, a: real, b: real)
    requires x > 0.0 && 0.0 < a <= b
    ensures 0.0 < x / b <= x / a
  {
    var p, q := x / a, x / b;
    assert p * a == x && q * b == x;
    PositiveFactor(q, b);
    if a < b {
      PositiveProduct(b - a, q);
    }
    assert (p - q) * a == x - q * a && q * (b - a) == x - q * a;
    NonNegativeFactor(p - q, a);
  }

  lemma PositiveFactor(x: real, y: real)
    requires y > 0.0 && x * y > 0.0
    ensures x > 0.0
  {
    if x < 0.0 {
      PositiveProduct(-x, y);
    } else {
      assert x == 0.0 ==> x * y == 0.0;
    }
  }

  lemma NonNegativeFactor(x: real, y: real)
    requires y > 0.0 && x * y >= 0.0
    ensures x >= 0.0
  {
    if x < 0.0 {
      PositiveProduct(-x, y);
    }
  }

  /** The positions of the tags that are found. */
  ghost function Found(tags: seq<string>, found: string -> bool): set<nat> {
    set i: nat | i < |tags| && found(tags[i])
  }

  lemma {:induction false} HitsAreFound(tags: seq<string>, found: string -> bool)
    ensures TagHits(tags, found) == |Found(tags, found)|
  {
    if tags == [] {
      assert Found(tags, found) == {};
    } else {
      var n := |tags| - 1;
      HitsAreFound(tags[..n], found);
      HitsAppend(tags[..n], tags[n], found);
      assert tags == tags[..n] + [tags[n]];
      assert Found(tags, found) == Found(tags[..n], found) + if found(tags[n]) then {n} else {};
    }
  }

  lemma {:induction false} HitsAppend(tags: seq<string>, last: string, found: string -> bool)
    ensures TagHits(tags + [last], found) == TagHits(tags, found) + if found(last) then 1 else 0
  {
    if tags == [] {
      assert [last][1..] == [];
    } else {
      assert (tags + [last])[1..] == tags[1..] + [last];
      HitsAppend(tags[1..], last, found);
    }
  }

  /** The tag part of a score is the share of the tags that are found, and a half without tags. */
  lemma ShareIsFound(tags: seq<string>, found: string -> bool)
    ensures tags == [] ==> Share(tags, found) == 0.5
    ensures tags != [] ==> Share(tags, found) * |tags| as real == |Found(tags, found)| as real
  {
    HitsAreFound(tags, found);
  }
}
