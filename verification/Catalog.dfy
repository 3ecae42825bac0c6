/** Matching retailer items against a block of candidates: identifiers first, then a
    structured score, and the matches in order of confidence. */
module Catalog {
  import opened Prelude
  import opened Json

  datatype Kind = Gtin | Unknown | OtherKind(name: string)

  datatype Identifier = Identifier(kind: Kind, value: string)

  datatype Product = Product(
    item: string,
    retailer: string,
    tokens: seq<string>,
    identifiers: seq<Identifier>,
    brand: Option<string>,
    manufacturer: Option<string>,
    quantity: Option<real>,
    measure: Option<string>,
    packaging: Option<string>)

  datatype Rule = ExactGtin | ExactIdentifier | Structured

  datatype Disposition = AutoConfirm | Review

  /** Confidence in thousandths. */
  datatype Match = Match(candidate: string, rule: Rule, disposition: Disposition, confidence: int)

  // ----- comparing two products

  function Gtins(p: Product): set<string> { set d | d in p.identifiers && d.kind == Gtin :: d.value }

  predicate SharesGtin(a: Product, b: Product) { Gtins(a) * Gtins(b) != {} }

  /** An identifier of a that b has too; those of kind GTIN or unknown do not count. */
  predicate SharesIdentifier(a: Product, b: Product) {
    exists d :: d in a.identifiers && d in b.identifiers && d.kind != Gtin && d.kind != Unknown
  }

  function Tokens(p: Product): set<string> { set t | t in p.tokens }

  function Similarity(a: Product, b: Product): (r: real)
    ensures 0.0 <= r <= 1.0
  {
    var all, common := Tokens(a) + Tokens(b), Tokens(a) * Tokens(b);
    if all == {} then 0.0
    else
      CommonIsFewer(Tokens(a), Tokens(b));
      QuotientBounds(|common|, |all|);
      |common| as real / |all| as real
  }

  lemma QuotientBounds(m: nat, n: nat)
    requires m <= n && n > 0
    ensures 0.0 <= m as real / n as real <= 1.0
  {
    var q, r := m as real / n as real, n as real;
    assert q * r == m as real;
    if q > 1.0 { MoreTimes(1.0, q, r); }
    if q < 0.0 { MoreTimes(q, 0.0, r); }
  }

  lemma MoreTimes(a: real, b: real, c: real)
    requires a < b && c > 0.0
    ensures a * c < b * c
  {
    assert (b - a) * c > 0.0;
  }

  lemma CommonIsFewer(x: set<string>, y: set<string>)
    ensures |x * y| <= |x + y|
    ensures x + y != {} ==> |x + y| > 0
  {
    assert x + y == x * y + ((x + y) - x * y);
    assert |x + y| == |x * y| + |(x + y) - x * y|;
  }

  predicate EqualPresent(x: Option<string>, y: Option<string>) { x.Some? && x == y }

  predicate SameQuantity(a: Product, b: Product) {
    a.quantity.Some? && a.measure.Some? && a.quantity == b.quantity && a.measure == b.measure
  }

  predicate ConflictingGtins(a: Product, b: Product) { Gtins(a) != {} && Gtins(b) != {} && Gtins(a) * Gtins(b) == {} }

  function Bonus(present: bool, amount: real): real { if present then amount else 0.0 }

  function Score(a: Product, b: Product): (r: real)
    ensures 0.0 <= r <= 1.0
  {
    var score := Similarity(a, b) * 0.40
      + Bonus(EqualPresent(a.brand, b.brand), 0.20)
      + Bonus(EqualPresent(a.manufacturer, b.manufacturer), 0.15)
      + Bonus(SameQuantity(a, b), 0.20)
      + Bonus(EqualPresent(a.packaging, b.packaging), 0.05);
    if !ConflictingGtins(a, b) then score else if score < 0.25 then 0.0 else score - 0.25
  }

  /** The score of a candidate without identifiers: each agreeing field adds its own amount,
      and the tokens the rest. */
  lemma PlainScore(a: Product, b: Product, c: Product)
    requires c.tokens == b.tokens && c.identifiers == []
    ensures Score(a, c) == Similarity(a, b) * 0.40
      + (if a.brand.Some? && c.brand == a.brand then 0.20 else 0.0)
      + (if a.manufacturer.Some? && c.manufacturer == a.manufacturer then 0.15 else 0.0)
      + (if a.quantity.Some? && a.measure.Some? && c.quantity == a.quantity && c.measure == a.measure then 0.20 else 0.0)
      + (if a.packaging.Some? && c.packaging == a.packaging then 0.05 else 0.0)
  {
    hide Similarity;
    SameTokens(a, b, c);
    assert Gtins(c) == {};
  }

  lemma SameTokens(a: Product, b: Product, c: Product)
    requires c.tokens == b.tokens
    ensures Similarity(a, c) == Similarity(a, b)
  {
    assert Tokens(c) == Tokens(b);
  }

  /** Agreeing on a field raises the score by its amount. */
  lemma AgreementRaises(a: Product, b: Product)
    requires b.identifiers == []
    ensures a.brand.Some? ==> Score(a, b.(brand := a.brand)) == Score(a, b.(brand := None)) + 0.20
    ensures a.manufacturer.Some? ==>
      Score(a, b.(manufacturer := a.manufacturer)) == Score(a, b.(manufacturer := None)) + 0.15
    ensures a.quantity.Some? && a.measure.Some? ==>
      Score(a, b.(quantity := a.quantity, measure := a.measure)) == Score(a, b.(quantity := None)) + 0.20
    ensures a.packaging.Some? ==> Score(a, b.(packaging := a.packaging)) == Score(a, b.(packaging := None)) + 0.05
    ensures Score(a, b.(brand := None, manufacturer := None, quantity := None, packaging := None))
      == 0.40 * Similarity(a, b)
  {
    hide Similarity, Score;
    PlainScore(a, b, b.(brand := a.brand));
    PlainScore(a, b, b.(brand := None));
    PlainScore(a, b, b.(manufacturer := a.manufacturer));
    PlainScore(a, b, b.(manufacturer := None));
    PlainScore(a, b, b.(quantity := a.quantity, measure := a.measure));
    PlainScore(a, b, b.(quantity := None));
    PlainScore(a, b, b.(packaging := a.packaging));
    PlainScore(a, b, b.(packaging := None));
    PlainScore(a, b, b.(brand := None, manufacturer := None, quantity := None, packaging := None));
  }

  /** Conflicting GTINs take a quarter off, down to nothing; other identifiers change nothing. */
  lemma ConflictLowers(a: Product, b: Product)
    ensures var plain := Score(a, b.(identifiers := []));
      Score(a, b) == if !ConflictingGtins(a, b) then plain else if plain < 0.25 then 0.0 else plain - 0.25
  {
    hide Similarity;
    SameTokens(a, b, b.(identifiers := []));
    assert Gtins(b.(identifiers := [])) == {};
  }

  /** The similarity is the part of all distinct tokens that both have. */
  lemma SimilarityMeans(a: Product, b: Product)
    ensures var all, common := set t | t in a.tokens + b.tokens, set t | t in a.tokens && t in b.tokens;
      Similarity(a, b) * |all| as real == |common| as real
  {
    var all, common := set t | t in a.tokens + b.tokens, set t | t in a.tokens && t in b.tokens;
    assert all == Tokens(a) + Tokens(b) && common == Tokens(a) * Tokens(b);
  }

  /** Rounded to thousandths, halves to even. */
  function Quantized(x: real): (n: int)
    ensures -0.5 <= x * 1000.0 - n as real <= 0.5
    ensures x * 1000.0 - n as real == 0.5 || x * 1000.0 - n as real == -0.5 ==> n % 2 == 0
  {
    var f := (x * 1000.0).Floor;
    var d := x * 1000.0 - f as real;
    if d < 0.5 || (d == 0.5 && f % 2 == 0) then f else f + 1
  }

  function Compare(a: Product, b: Product, threshold: real): Option<Match> {
    if SharesGtin(a, b) then
      if a.retailer != b.retailer then Some(Match(b.item, ExactGtin, AutoConfirm, 1000))
      else Some(Match(b.item, ExactGtin, Review, 980))
    else if SharesIdentifier(a, b) then Some(Match(b.item, ExactIdentifier, Review, 950))
    else
      var rounded := Quantized(Score(a, b));
      var confidence := if rounded < 990 then rounded else 990;
      if confidence as real < threshold * 1000.0 then None else Some(Match(b.item, Structured, Review, confidence))
  }

  /** Neither item is privileged. */
  lemma CompareSymmetric(a: Product, b: Product, threshold: real)
    ensures var x, y := Compare(a, b, threshold), Compare(b, a, threshold);
      && x.Some? == y.Some?
      && (x.Some? ==> x.value.rule == y.value.rule && x.value.disposition == y.value.disposition
                      && x.value.confidence == y.value.confidence)
  {
    hide Score, Quantized, Gtins, SharesIdentifier;
    assert Gtins(a) * Gtins(b) == Gtins(b) * Gtins(a);
    SharesEither(a, b);
    ScoreSymmetric(a, b);
  }

  lemma SharesEither(a: Product, b: Product)
    ensures SharesIdentifier(a, b) <==> SharesIdentifier(b, a)
  {
  }

  lemma ScoreSymmetric(a: Product, b: Product)
    ensures Score(a, b) == Score(b, a)
  {
    hide Tokens, Gtins;
    assert Gtins(a) * Gtins(b) == Gtins(b) * Gtins(a);
    assert Tokens(a) + Tokens(b) == Tokens(b) + Tokens(a) && Tokens(a) * Tokens(b) == Tokens(b) * Tokens(a);
    assert Similarity(a, b) == Similarity(b, a);
    SameQuantityEither(a, b);
  }

  lemma SameQuantityEither(a: Product, b: Product)
    ensures SameQuantity(a, b) <==> SameQuantity(b, a)
  {
  }

  /** Certainty, automatic confirmation and a GTIN shared across retailers are the same thing. */
  lemma AutoConfirmedExactly(a: Product, b: Product, threshold: real)
    ensures var m := Compare(a, b, threshold);
      && (m.Some? && m.value.disposition == AutoConfirm <==> SharesGtin(a, b) && a.retailer != b.retailer)
      && (m.Some? && m.value.confidence == 1000 <==> SharesGtin(a, b) && a.retailer != b.retailer)
  {
  }

  lemma ConfidenceBounds(a: Product, b: Product, threshold: real)
    ensures var m := Compare(a, b, threshold);
      m.Some? ==>
        && m.value.candidate == b.item && 0 <= m.value.confidence <= 1000
        && (m.value.rule == Structured ==> m.value.confidence <= 990)
    ensures var m := Compare(a, b, threshold);
      && (SharesGtin(a, b) ==>
           m.Some? && m.value.rule == ExactGtin && (a.retailer == b.retailer ==> m.value.confidence == 980))
      && (SharesIdentifier(a, b) && !SharesGtin(a, b) ==>
           m.Some? && m.value.rule == ExactIdentifier && m.value.confidence == 950)
      && (m.Some? && m.value.rule == Structured ==> m.value.confidence as real >= threshold * 1000.0)
  {
    hide Score;
    var n := Quantized(Score(a, b));
    assert n as real >= -0.5;
  }

  // ----- the ordered matches of a block

  /** Higher confidence first, then the item's text. */
  predicate Precedes(x: Match, y: Match) {
    || x.confidence > y.confidence
    || (x.confidence == y.confidence && Below(x.candidate, y.candidate) && x.candidate != y.candidate)
  }

  /** A stable insertion: behind everything that does not come strictly later. */
  function Insert(m: Match, ms: seq<Match>): seq<Match> {
    if ms == [] || Precedes(m, ms[0]) then [m] + ms else [ms[0]] + Insert(m, ms[1..])
  }

  function Sort(ms: seq<Match>): seq<Match> {
    if ms == [] then [] else Insert(ms[|ms| - 1], Sort(ms[..|ms| - 1]))
  }

  function Matches(a: Product, block: seq<Product>, threshold: real): seq<Match> {
    if block == [] then []
    else
      var c := block[|block| - 1];
      var m := Compare(a, c, threshold);
      Matches(a, block[..|block| - 1], threshold) + (if c.item == a.item || m.None? then [] else [m.value])
  }

  datatype Answer = Answer(matches: seq<Match>) | Refused

  method GenerateMatchCandidates(a: Product, block: seq<Product>, maximum: int, threshold: real) returns (r: Answer)
    ensures r.Refused? <==> maximum <= 0 || |block| > maximum || !(0.0 <= threshold <= 1.0)
    ensures r.Answer? ==> r.matches == Sort(Matches(a, block, threshold))
  {
    if maximum <= 0 || |block| > maximum || !(0.0 <= threshold <= 1.0) {
      return Refused;
    }
    var results := [];
    for i := 0 to |block|
      invariant results == Matches(a, block[..i], threshold)
    {
      assert block[..i + 1][..i] == block[..i];
      if block[i].item != a.item {
        var m := Compare(a, block[i], threshold);
        if m.Some? {
          results := results + [m.value];
        }
      }
    }
    assert block[..|block|] == block;
    r := Answer(Sort(results));
  }

  // ----- the order of the block does not matter

  predicate Ordered(ms: seq<Match>) { forall i, j :: 0 <= i < j < |ms| ==> Precedes(ms[i], ms[j]) }

  lemma PrecedesTransitive(x: Match, y: Match, z: Match)
    requires Precedes(x, y) && Precedes(y, z)
    ensures Precedes(x, z) && !Precedes(y, x)
  {
    hide Below;
    if x.confidence == y.confidence == z.confidence {
      BelowTransitive(x.candidate, y.candidate, z.candidate);
      BelowTotal(x.candidate, y.candidate);
      BelowTotal(y.candidate, z.candidate);
    }
    if x.confidence == y.confidence { BelowTotal(x.candidate, y.candidate); }
  }

  lemma PrecedesTotal(x: Match, y: Match)
    requires x.candidate != y.candidate
    ensures Precedes(x, y) || Precedes(y, x)
  {
    BelowTotal(x.candidate, y.candidate);
  }

  lemma {:induction false} InsertOrdered(m: Match, ms: seq<Match>)
    requires Ordered(ms) && forall x :: x in ms ==> x.candidate != m.candidate
    ensures Ordered(Insert(m, ms)) && forall x :: x in Insert(m, ms) <==> x == m || x in ms
  {
    hide Precedes;
    if ms != [] {
      if Precedes(m, ms[0]) {
        forall i | 0 <= i < |ms| ensures Precedes(m, ms[i]) {
          if i > 0 { PrecedesTransitive(m, ms[0], ms[i]); }
        }
      } else {
        InsertOrdered(m, ms[1..]);
        PrecedesTotal(m, ms[0]);
        var rest := Insert(m, ms[1..]);
        forall i | 0 <= i < |rest| ensures Precedes(ms[0], rest[i]) { assert rest[i] in rest; }
        assert ms == [ms[0]] + ms[1..];
      }
    }
  }

  predicate Distinct(ms: seq<Match>) { forall i, j :: 0 <= i < j < |ms| ==> ms[i].candidate != ms[j].candidate }

  lemma {:induction false} SortOrdered(ms: seq<Match>)
    requires Distinct(ms)
    ensures Ordered(Sort(ms)) && forall x :: x in Sort(ms) <==> x in ms
  {
    if ms != [] {
      var rest, last := ms[..|ms| - 1], ms[|ms| - 1];
      SortOrdered(rest);
      InsertOrdered(last, Sort(rest));
      assert ms == rest + [last];
    }
  }

  /** An ordered sequence is determined by its elements. */
  lemma {:induction false} OrderedUnique(xs: seq<Match>, ys: seq<Match>)
    requires Ordered(xs) && Ordered(ys) && forall x :: x in xs <==> x in ys
    ensures xs == ys
  {
    hide Precedes;
    assert ys != [] ==> ys[0] in ys && ys[0] in xs;
    if xs != [] {
      assert xs[0] in xs && xs[0] in ys;
      assert ys[0] in ys && ys[0] in xs;
      FirstIsSame(xs, ys);
      forall x ensures x in xs[1..] <==> x in ys[1..] {
        TailMembers(xs, x);
        TailMembers(ys, x);
      }
      OrderedUnique(xs[1..], ys[1..]);
      assert xs == [xs[0]] + xs[1..] && ys == [ys[0]] + ys[1..];
    }
  }

  lemma FirstIsSame(xs: seq<Match>, ys: seq<Match>)
    requires Ordered(xs) && Ordered(ys) && xs != [] && ys != [] && xs[0] in ys && ys[0] in xs
    ensures xs[0] == ys[0]
  {
    hide Precedes;
    var i :| 0 <= i < |ys| && ys[i] == xs[0];
    var j :| 0 <= j < |xs| && xs[j] == ys[0];
    if i > 0 && j > 0 {
      PrecedesTransitive(xs[0], ys[0], xs[0]);
    }
  }

  lemma TailMembers(xs: seq<Match>, x: Match)
    requires Ordered(xs) && xs != []
    ensures x in xs[1..] <==> x in xs && x != xs[0]
  {
    if x in xs[1..] {
      var i :| 0 <= i < |xs[1..]| && xs[1..][i] == x;
      assert xs[i + 1] == x;
      PrecedesIrreflexive(xs[0]);
    }
    assert xs == [xs[0]] + xs[1..];
  }

  lemma PrecedesIrreflexive(x: Match)
    ensures !Precedes(x, x)
  {
  }

  predicate DistinctItems(block: seq<Product>) {
    forall i, j :: 0 <= i < j < |block| ==> block[i].item != block[j].item
  }

  lemma {:induction false} MatchesOf(a: Product, block: seq<Product>, threshold: real)
    ensures forall m :: m in Matches(a, block, threshold) <==>
      exists c :: c in block && c.item != a.item && Compare(a, c, threshold) == Some(m)
    ensures DistinctItems(block) ==> Distinct(Matches(a, block, threshold))
  {
    hide Compare;
    if block != [] {
      var rest, last := block[..|block| - 1], block[|block| - 1];
      MatchesOf(a, rest, threshold);
      assert block == rest + [last];
      assert forall c :: c in block <==> c in rest || c == last;
      MatchesDistinct(a, rest, last, threshold);
    }
  }

  lemma MatchesDistinct(a: Product, rest: seq<Product>, last: Product, threshold: real)
    requires forall m :: m in Matches(a, rest, threshold) <==>
      exists c :: c in rest && c.item != a.item && Compare(a, c, threshold) == Some(m)
    requires DistinctItems(rest) ==> Distinct(Matches(a, rest, threshold))
    ensures DistinctItems(rest + [last]) ==> Distinct(Matches(a, rest + [last], threshold))
  {
    hide Compare;
    var block := rest + [last];
    assert block[..|block| - 1] == rest;
    if DistinctItems(block) {
      forall i, j | 0 <= i < j < |rest| ensures rest[i].item != rest[j].item {
        assert block[i] == rest[i] && block[j] == rest[j];
      }
      var ms := Matches(a, rest, threshold);
      forall k | 0 <= k < |ms| ensures ms[k].candidate != last.item {
        assert ms[k] in ms;
        var c :| c in rest && c.item != a.item && Compare(a, c, threshold) == Some(ms[k]);
        ConfidenceBounds(a, c, threshold);
        var i :| 0 <= i < |rest| && rest[i] == c;
        assert block[i].item != block[|rest|].item;
      }
      ConfidenceBounds(a, last, threshold);
    }
  }

  /** Blocks with the same distinct items give the same answer, however they are ordered. */
  lemma OrderDoesNotMatter(a: Product, b1: seq<Product>, b2: seq<Product>, threshold: real)
    requires DistinctItems(b1) && DistinctItems(b2) && forall c :: c in b1 <==> c in b2
    ensures Sort(Matches(a, b1, threshold)) == Sort(Matches(a, b2, threshold))
    ensures Ordered(Sort(Matches(a, b1, threshold)))
  {
    hide Compare, Sort, Ordered, Distinct;
    MatchesOf(a, b1, threshold);
    MatchesOf(a, b2, threshold);
    SortOrdered(Matches(a, b1, threshold));
    SortOrdered(Matches(a, b2, threshold));
    OrderedUnique(Sort(Matches(a, b1, threshold)), Sort(Matches(a, b2, threshold)));
  }
}
