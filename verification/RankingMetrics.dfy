/** Average precision, nDCG and the context metrics of a session ranking. */
module RankingMetrics {
  import opened Quotients
  import opened Wrappers

  /** A session, known by its digest. */
  datatype Session = Session(digest: string)

  function SetOf(s: seq<Session>): set<Session> {
    set x | x in s
  }

  ghost predicate Unique(s: seq<Session>) {
    forall i, j :: 0 <= i < j < |s| ==> s[i] != s[j]
  }

  function Front<T>(s: seq<T>): seq<T>
    requires s != []
  {
    s[..|s| - 1]
  }

  function Last<T>(s: seq<T>): T
    requires s != []
  {
    s[|s| - 1]
  }

  /** Python's `list(dict.fromkeys(values))`: every session at its first place. */
  function Deduplicated(values: seq<Session>): seq<Session> {
    if values == [] then
      []
    else
      var kept := Deduplicated(Front(values));
      if Last(values) in kept then kept else kept + [Last(values)]
  }

  lemma SetOfFrontAndLast(s: seq<Session>)
    requires s != []
    ensures SetOf(s) == SetOf(Front(s)) + {Last(s)}
  {
  }

  lemma SetOfSnoc(s: seq<Session>, x: Session)
    ensures SetOf(s + [x]) == SetOf(s) + {x}
    ensures x in SetOf(s) <==> x in s
  {
  }

  lemma UniqueSnoc(s: seq<Session>, x: Session)
    ensures Unique(s + [x]) <==> Unique(s) && x !in s
  {
    var t := s + [x];
    assert forall i :: 0 <= i < |s| ==> t[i] == s[i];
    assert t[|s|] == x;
    if Unique(t) {
      assert forall i :: 0 <= i < |s| ==> t[i] != t[|s|];
    }
  }

  /** Nothing repeats, nothing is lost, and a session that is already unique
      stays where it is. */
  lemma {:induction false} DeduplicatedMeans(values: seq<Session>)
    ensures Unique(Deduplicated(values)) && SetOf(Deduplicated(values)) == SetOf(values)
    ensures |Deduplicated(values)| <= |values|
    ensures Unique(values) ==> Deduplicated(values) == values
  {
    if values == [] {
      assert Deduplicated(values) == [];
    } else {
      var front, last := Front(values), Last(values);
      var kept := Deduplicated(front);
      DeduplicatedMeans(front);
      assert values == front + [last];
      hide SetOf, Unique;
      SetOfFrontAndLast(values);
      SetOfSnoc(kept, last);
      SetOfSnoc(front, last);
      UniqueSnoc(kept, last);
      UniqueSnoc(front, last);
    }
  }

  /** The first place counts: what a list keeps, and where, does not depend on
      what comes later. */
  lemma {:induction false} DeduplicatedPrefix(values: seq<Session>, n: nat)
    requires n <= |values|
    ensures Deduplicated(values[..n]) <= Deduplicated(values)
  {
    if n < |values| {
      DeduplicatedPrefix(Front(values), n);
      assert Front(values)[..n] == values[..n];
    } else {
      assert values[..n] == values;
    }
  }

  // ------------------------------------------------------------ the specifications

  function Hits(s: seq<Session>, gold: set<Session>): nat {
    if s == [] then 0 else Hits(Front(s), gold) + if Last(s) in gold then 1 else 0
  }

  /** The precision at every gold rank, summed. */
  function PrecisionSum(s: seq<Session>, gold: set<Session>): real {
    if s == [] then
      0.0
    else
      PrecisionSum(Front(s), gold)
      + if Last(s) in gold then Quotient(Hits(s, gold) as real, |s| as real) else 0.0
  }

  function AveragePrecisionOf(values: seq<Session>, gold: seq<Session>): Option<real> {
    if gold == [] then
      None
    else
      SomeGold(gold);
      Some(Quotient(PrecisionSum(Deduplicated(values), SetOf(gold)), |SetOf(gold)| as real))
  }

  /** The weight of a rank, counted from one. */
  type Weight = nat -> real

  /** Weights like 1 / log2(rank + 1): positive and strictly decreasing. */
  ghost predicate Discount(weight: Weight) {
    && (forall r: nat :: weight(r) > 0.0)
    && forall a: nat, b: nat :: a < b ==> weight(a) > weight(b)
  }

  function Gain(s: seq<Session>, gold: set<Session>, weight: Weight): real {
    if s == [] then 0.0 else Gain(Front(s), gold, weight) + if Last(s) in gold then weight(|s|) else 0.0
  }

  function Ideal(n: nat, weight: Weight): real {
    if n == 0 then 0.0 else Ideal(n - 1, weight) + weight(n)
  }

  /** Normalised discounted gain; the weights are positive, so the ideal is. */
  function NdcgOf(values: seq<Session>, gold: seq<Session>, weight: Weight): Option<real>
    requires Discount(weight)
  {
    if gold == [] then
      None
    else
      SomeGold(gold);
      IdealPositive(|SetOf(gold)|, weight);
      Some(Quotient(Gain(Deduplicated(values), SetOf(gold), weight), Ideal(|SetOf(gold)|, weight)))
  }

  lemma SomeGold(gold: seq<Session>)
    requires gold != []
    ensures |SetOf(gold)| > 0
  {
    assert gold[0] in SetOf(gold);
  }

  lemma {:induction false} IdealPositive(n: nat, weight: Weight)
    requires Discount(weight)
    ensures Ideal(n, weight) >= 0.0 && (n > 0 ==> Ideal(n, weight) > 0.0)
  {
    if n > 0 {
      IdealPositive(n - 1, weight);
    }
  }

  // ---------------------------------------------------------------------- counting

  lemma {:induction false} HitsAreCommon(s: seq<Session>, gold: set<Session>)
    requires Unique(s)
    ensures Hits(s, gold) == |SetOf(s) * gold| && Hits(s, gold) <= |gold| && Hits(s, gold) <= |s|
  {
    if s == [] {
      assert SetOf(s) * gold == {};
    } else {
      HitsAreCommon(Front(s), gold);
      assert s == Front(s) + [Last(s)];
      hide Unique, SetOf;
      UniqueSnoc(Front(s), Last(s));
      SetOfSnoc(Front(s), Last(s));
      CommonGrows(SetOf(Front(s)), gold, Last(s));
    }
    SubsetSize(SetOf(s) * gold, gold);
  }

  lemma CommonGrows(a: set<Session>, gold: set<Session>, x: Session)
    requires x !in a
    ensures |(a + {x}) * gold| == |a * gold| + if x in gold then 1 else 0
  {
    assert (a + {x}) * gold == if x in gold then a * gold + {x} else a * gold;
  }

  lemma {:induction false} SubsetSize<T>(a: set<T>, b: set<T>)
    requires a <= b
    ensures |a| <= |b| && (|a| == |b| ==> a == b)
  {
    if a != {} {
      var x :| x in a;
      SubsetSize(a - {x}, b - {x});
    }
  }

  /** All gold ranked so far comes before everything else. */
  ghost predicate GoldFirst(s: seq<Session>, gold: set<Session>) {
    forall i, j :: 0 <= i < j < |s| && s[j] in gold ==> s[i] in gold
  }

  lemma {:induction false} AllGold(s: seq<Session>, gold: set<Session>)
    ensures Hits(s, gold) <= |s|
    ensures Hits(s, gold) == |s| <==> forall i :: 0 <= i < |s| ==> s[i] in gold
  {
    if s != [] {
      AllGold(Front(s), gold);
      assert s == Front(s) + [Last(s)];
    }
  }

  lemma GoldFirstStep(s: seq<Session>, gold: set<Session>)
    requires s != []
    ensures Last(s) !in gold ==> (GoldFirst(s, gold) <==> GoldFirst(Front(s), gold))
    ensures Last(s) in gold ==> (GoldFirst(s, gold) <==> Hits(s, gold) == |s|)
  {
    AllGold(s, gold);
    assert s == Front(s) + [Last(s)];
    if Last(s) in gold && GoldFirst(s, gold) {
      forall i | 0 <= i < |s| ensures s[i] in gold {
        assert s[|s| - 1] in gold;
      }
    }
  }

  /** With all hits in front, the first |gold| places are the gold set exactly
      when every gold session is ranked. */
  lemma PerfectMeans(s: seq<Session>, gold: set<Session>)
    requires Unique(s)
    ensures GoldFirst(s, gold) && Hits(s, gold) == |gold| <==> |gold| <= |s| && SetOf(s[..|gold|]) == gold
  {
    hide Hits;
    HitsAreCommon(s, gold);
    if GoldFirst(s, gold) && Hits(s, gold) == |gold| {
      FrontHits(s, gold);
      AllGold(s[..|gold|], gold);
      HitsAreCommon(s[..|gold|], gold);
      AllInGold(s[..|gold|], gold);
    }
    if |gold| <= |s| && SetOf(s[..|gold|]) == gold {
      HeadHolds(s, gold);
    }
  }

  lemma AllInGold(head: seq<Session>, gold: set<Session>)
    requires (forall i :: 0 <= i < |head| ==> head[i] in gold) && |SetOf(head) * gold| == |gold|
    ensures SetOf(head) == gold
  {
    SubsetSize(SetOf(head) * gold, gold);
  }

  lemma HeadHolds(s: seq<Session>, gold: set<Session>)
    requires Unique(s) && |gold| <= |s| && SetOf(s[..|gold|]) == gold
    ensures GoldFirst(s, gold) && SetOf(s) * gold == gold
  {
  }

  lemma {:induction false} FrontHits(s: seq<Session>, gold: set<Session>)
    requires GoldFirst(s, gold)
    ensures Hits(s, gold) <= |s| && Hits(s[..Hits(s, gold)], gold) == Hits(s, gold)
  {
    AllGold(s, gold);
    if s != [] {
      GoldFirstStep(s, gold);
      if Last(s) in gold {
        assert s[..|s|] == s;
      } else {
        FrontHits(Front(s), gold);
        assert Front(s)[..Hits(s, gold)] == s[..Hits(s, gold)];
      }
    }
  }

  // ------------------------------------------------------------ bounds and equality

  lemma {:induction false} PrecisionBounds(s: seq<Session>, gold: set<Session>)
    ensures 0.0 <= PrecisionSum(s, gold) <= Hits(s, gold) as real
    ensures PrecisionSum(s, gold) == Hits(s, gold) as real <==> GoldFirst(s, gold)
  {
    if s != [] {
      hide Quotient;
      PrecisionBounds(Front(s), gold);
      GoldFirstStep(s, gold);
      AllGold(s, gold);
      if Last(s) in gold {
        var h, n := Hits(s, gold) as real, |s| as real;
        QuotientOrder(h, n, n);
        QuotientOrder(n, h, n);
        QuotientOrder(0.0, h, n);
        GoldFirstStep(s, gold);
        if Hits(s, gold) == |s| {
          AllGold(Front(s), gold);
          assert s == Front(s) + [Last(s)];
          assert GoldFirst(Front(s), gold);
        }
      }
    }
  }

  lemma {:induction false} IdealMonotone(a: nat, b: nat, weight: Weight)
    requires Discount(weight) && a <= b
    ensures Ideal(a, weight) <= Ideal(b, weight) && (a < b ==> Ideal(a, weight) < Ideal(b, weight))
    decreases b - a
  {
    if a < b {
      IdealMonotone(a, b - 1, weight);
    }
  }

  lemma {:induction false} GainBounds(s: seq<Session>, gold: set<Session>, weight: Weight)
    requires Discount(weight)
    ensures 0.0 <= Gain(s, gold, weight) <= Ideal(Hits(s, gold), weight)
    ensures Gain(s, gold, weight) == Ideal(Hits(s, gold), weight) <==> GoldFirst(s, gold)
  {
    if s != [] {
      GainBounds(Front(s), gold, weight);
      GoldFirstStep(s, gold);
      AllGold(s, gold);
      if Last(s) in gold && Hits(s, gold) == |s| {
        AllGold(Front(s), gold);
        assert s == Front(s) + [Last(s)];
        assert GoldFirst(Front(s), gold);
      }
    }
  }

  ghost predicate Perfect(s: seq<Session>, gold: set<Session>) {
    |gold| <= |s| && SetOf(s[..|gold|]) == gold
  }

  /** Both metrics lie in [0, 1], and each is 1 exactly when the first |gold|
      deduplicated sessions are the gold set. */
  lemma MetricBounds(values: seq<Session>, gold: seq<Session>, weight: Weight)
    requires gold != [] && Discount(weight)
    ensures 0.0 <= AveragePrecisionOf(values, gold).value <= 1.0
    ensures 0.0 <= NdcgOf(values, gold, weight).value <= 1.0
    ensures AveragePrecisionOf(values, gold).value == 1.0 <==> Perfect(Deduplicated(values), SetOf(gold))
    ensures NdcgOf(values, gold, weight).value == 1.0 <==> Perfect(Deduplicated(values), SetOf(gold))
  {
    hide Quotient, Gain, Ideal, PrecisionSum, Hits, Deduplicated, GoldFirst, SetOf, Discount;
    var s, g := Deduplicated(values), SetOf(gold);
    DeduplicatedMeans(values);
    SomeGold(gold);
    HitsAreCommon(s, g);
    PerfectMeans(s, g);
    PrecisionBounds(s, g);
    GainBounds(s, g, weight);
    IdealMonotone(Hits(s, g), |g|, weight);
    IdealPositive(|g|, weight);
    UnitQuotient(PrecisionSum(s, g), |g| as real);
    UnitQuotient(Gain(s, g, weight), Ideal(|g|, weight));
  }

  lemma UnitQuotient(x: real, d: real)
    requires 0.0 <= x <= d && d > 0.0
    ensures 0.0 <= Quotient(x, d) <= 1.0 && (Quotient(x, d) == 1.0 <==> x == d)
  {
  }

  // ------------------------------------------------------------------------ swapping

  lemma {:induction false} CommonTail(
    a: seq<Session>, b: seq<Session>, t: seq<Session>, gold: set<Session>, weight: Weight)
    requires |a| == |b| && Hits(a, gold) == Hits(b, gold)
    ensures Hits(a + t, gold) == Hits(b + t, gold)
    ensures PrecisionSum(a + t, gold) - PrecisionSum(b + t, gold) == PrecisionSum(a, gold) - PrecisionSum(b, gold)
    ensures Gain(a + t, gold, weight) - Gain(b + t, gold, weight) == Gain(a, gold, weight) - Gain(b, gold, weight)
  {
    if t == [] {
      assert a + t == a && b + t == b;
    } else {
      CommonTail(a, b, Front(t), gold, weight);
      assert Front(a + t) == a + Front(t) && Front(b + t) == b + Front(t);
    }
  }

  function Swapped(s: seq<Session>, i: nat): seq<Session>
    requires i + 1 < |s|
  {
    s[..i] + [s[i + 1], s[i]] + s[i + 2..]
  }

  lemma SwapHead(head: seq<Session>, miss: Session, hit: Session, gold: set<Session>, weight: Weight)
    requires Discount(weight) && miss !in gold && hit in gold
    ensures var a, b := head + [hit, miss], head + [miss, hit];
      && Hits(a, gold) == Hits(b, gold)
      && PrecisionSum(a, gold) > PrecisionSum(b, gold)
      && Gain(a, gold, weight) > Gain(b, gold, weight)
  {
    var a, b := head + [hit, miss], head + [miss, hit];
    var n := |head|;
    assert Front(a) == head + [hit] && Front(b) == head + [miss];
    assert Front(Front(a)) == head && Front(Front(b)) == head;
    var h := Hits(head, gold) + 1;
    hide Quotient;
    QuotientByMore(h as real, (n + 1) as real, (n + 2) as real);
  }

  /** Moving a gold session ahead of its non-gold neighbour strictly raises both
      metrics. */
  lemma SwapRaises(s: seq<Session>, gold: seq<Session>, i: nat, weight: Weight)
    requires Unique(s) && Discount(weight) && gold != [] && i + 1 < |s|
    requires s[i] !in SetOf(gold) && s[i + 1] in SetOf(gold)
    ensures AveragePrecisionOf(Swapped(s, i), gold).value > AveragePrecisionOf(s, gold).value
    ensures NdcgOf(Swapped(s, i), gold, weight).value > NdcgOf(s, gold, weight).value
  {
    var g := SetOf(gold);
    var head, tail := s[..i], s[i + 2..];
    var s' := Swapped(s, i);
    assert s == (head + [s[i], s[i + 1]]) + tail;
    assert s' == (head + [s[i + 1], s[i]]) + tail;
    assert Unique(s');
    hide *;
    SwapHead(head, s[i], s[i + 1], g, weight);
    CommonTail(head + [s[i + 1], s[i]], head + [s[i], s[i + 1]], tail, g, weight);
    DeduplicatedMeans(s);
    DeduplicatedMeans(s');
    MetricsOfUnique(s, gold, weight);
    MetricsOfUnique(s', gold, weight);
    SomeGold(gold);
    IdealPositive(|g|, weight);
    QuotientOrder(PrecisionSum(s', g), PrecisionSum(s, g), |g| as real);
    QuotientOrder(Gain(s', g, weight), Gain(s, g, weight), Ideal(|g|, weight));
  }

  lemma MetricsOfUnique(s: seq<Session>, gold: seq<Session>, weight: Weight)
    requires Discount(weight) && gold != [] && Deduplicated(s) == s
    ensures |SetOf(gold)| > 0 && Ideal(|SetOf(gold)|, weight) > 0.0
    ensures AveragePrecisionOf(s, gold) == Some(Quotient(PrecisionSum(s, SetOf(gold)), |SetOf(gold)| as real))
    ensures NdcgOf(s, gold, weight) == Some(Quotient(Gain(s, SetOf(gold), weight), Ideal(|SetOf(gold)|, weight)))
  {
    SomeGold(gold);
    IdealPositive(|SetOf(gold)|, weight);
    hide Quotient, Gain, Ideal, PrecisionSum, Discount;
  }

  // ------------------------------------------------------------- the context metrics

  datatype ContextMetrics = ContextMetrics(
    any: Option<bool>, all: Option<bool>, recall: Option<real>, mrr: Option<real>)

  /** The first gold rank, counted from one over the list as it is. */
  function FirstGold(values: seq<Session>, gold: set<Session>): Option<nat> {
    if values == [] then
      None
    else
      var first := FirstGold(Front(values), gold);
      if first.Some? then first else if Last(values) in gold then Some(|values|) else None
  }

  function ContextMetricsOf(values: seq<Session>, golds: seq<Session>): ContextMetrics {
    var gold := SetOf(golds);
    var hit := SetOf(values) * gold;
    if golds == [] then
      ContextMetrics(None, None, None, None)
    else
      SomeGold(golds);
      FirstGoldRank(values, gold);
      var first := FirstGold(values, gold);
      ContextMetrics(
        Some(hit != {}), Some(hit == gold),
        Some(Quotient(|hit| as real, |gold| as real)),
        Some(if first.Some? then Quotient(1.0, first.value as real) else 0.0))
  }

  lemma {:induction false} FirstGoldRank(values: seq<Session>, gold: set<Session>)
    ensures FirstGold(values, gold).Some? ==>
      var r := FirstGold(values, gold).value;
      && 1 <= r <= |values| && values[r - 1] in gold
      && forall i :: 0 <= i < r - 1 ==> values[i] !in gold
    ensures FirstGold(values, gold).None? <==> SetOf(values) * gold == {}
  {
    if values != [] {
      FirstGoldRank(Front(values), gold);
      SetOfFrontAndLast(values);
      assert forall i :: 0 <= i < |values| - 1 ==> values[i] == Front(values)[i] && values[i] in SetOf(Front(values));
      if FirstGold(Front(values), gold).None? {
        forall i | 0 <= i < |values| - 1 ensures values[i] !in gold {
          assert values[i] !in SetOf(Front(values)) * gold;
        }
      }
      assert Last(values) in gold ==> Last(values) in SetOf(values) * gold;
      assert Last(values) !in gold ==> SetOf(values) * gold == SetOf(Front(values)) * gold;
      assert SetOf(Front(values)) * gold <= SetOf(values) * gold;
    }
  }

  /** `any`, the recall and the reciprocal rank agree on whether there is a hit;
      `all` says that the recall is 1. */
  lemma ContextAgrees(values: seq<Session>, golds: seq<Session>)
    requires golds != []
    ensures var m := ContextMetricsOf(values, golds);
      && (m.any.value <==> m.recall.value > 0.0) && (m.any.value <==> m.mrr.value > 0.0)
      && (m.all.value <==> m.recall.value == 1.0)
      && 0.0 <= m.recall.value <= 1.0 && 0.0 <= m.mrr.value <= 1.0
  {
    var gold := SetOf(golds);
    var hit := SetOf(values) * gold;
    SomeGold(golds);
    FirstGoldRank(values, gold);
    SubsetSize(hit, gold);
    hide Quotient, FirstGold;
    UnitQuotient(|hit| as real, |gold| as real);
    QuotientOrder(|hit| as real, 0.0, |gold| as real);
    var first := FirstGold(values, gold);
    if first.Some? {
      UnitQuotient(1.0, first.value as real);
      QuotientOrder(1.0, 0.0, first.value as real);
    }
  }

  lemma ContextFields(values: seq<Session>, golds: seq<Session>)
    requires golds != []
    ensures var gold := SetOf(golds);
      var hit := SetOf(values) * gold;
      var m, first := ContextMetricsOf(values, golds), FirstGold(values, gold);
      && |gold| > 0 && (first.Some? ==> first.value > 0)
      && m.any == Some(hit != {}) && m.all == Some(hit == gold)
      && m.recall == Some(Quotient(|hit| as real, |gold| as real))
      && m.mrr == Some(if first.Some? then Quotient(1.0, first.value as real) else 0.0)
  {
    SomeGold(golds);
    FirstGoldRank(values, SetOf(golds));
    hide Quotient, FirstGold;
  }

  lemma HitSets(values: seq<Session>, golds: seq<Session>)
    ensures SetOf(values) * SetOf(golds) == set x | x in golds && x in values
    ensures SetOf(golds) == set x | x in golds
    ensures SetOf(values) * SetOf(golds) != {} <==> exists x :: x in values && x in golds
    ensures SetOf(values) * SetOf(golds) == SetOf(golds) <==> forall x :: x in golds ==> x in values
  {
    if x :| x in values && x in golds {
      assert x in SetOf(values) * SetOf(golds);
    }
    if SetOf(values) * SetOf(golds) == SetOf(golds) {
      forall x | x in golds ensures x in values {
        assert x in SetOf(golds);
      }
    }
  }

  /** What the metrics are: whether some or every gold session is ranked, and the
      share of the gold sessions that are. */
  lemma ContextMeans(values: seq<Session>, golds: seq<Session>)
    requires golds != []
    ensures var m := ContextMetricsOf(values, golds);
      && m.any.Some? && (m.any.value <==> exists x :: x in values && x in golds)
      && m.all.Some? && (m.all.value <==> forall x :: x in golds ==> x in values)
      && m.recall.Some?
      && m.recall.value * |set x | x in golds| as real == |set x | x in golds && x in values| as real
  {
    hide *;
    ContextFields(values, golds);
    HitSets(values, golds);
    QuotientMeans(|SetOf(values) * SetOf(golds)| as real, |SetOf(golds)| as real);
  }

  lemma FirstGoldIs(values: seq<Session>, gold: set<Session>, i: nat)
    requires i < |values| && values[i] in gold && forall j :: 0 <= j < i ==> values[j] !in gold
    ensures FirstGold(values, gold) == Some(i + 1)
  {
    FirstGoldRank(values, gold);
    hide FirstGold;
    assert values[i] in SetOf(values) * gold;
  }

  /** The reciprocal rank is that of the first gold session, and 0 without one. */
  lemma ReciprocalRankMeans(values: seq<Session>, golds: seq<Session>)
    requires golds != []
    ensures ContextMetricsOf(values, golds).mrr.Some?
    ensures (forall x :: x in golds ==> x !in values) ==> ContextMetricsOf(values, golds).mrr.value == 0.0
    ensures forall i: nat {:trigger values[i]} ::
      i < |values| && values[i] in golds && (forall j :: 0 <= j < i ==> values[j] !in golds) ==>
        ContextMetricsOf(values, golds).mrr.value * (i + 1) as real == 1.0
  {
    hide *;
    var gold := SetOf(golds);
    ContextFields(values, golds);
    FirstGoldRank(values, gold);
    HitSets(values, golds);
    forall i: nat | i < |values| && values[i] in golds && (forall j :: 0 <= j < i ==> values[j] !in golds)
      ensures ContextMetricsOf(values, golds).mrr.value * (i + 1) as real == 1.0
    {
      FirstGoldIs(values, gold, i);
      QuotientMeans(1.0, (i + 1) as real);
    }
  }

  /** Deduplication can only bring the first gold session forward, and leaves no
      precision sum below the reciprocal of its rank. */
  lemma {:induction false} PrecisionCoversFirst(values: seq<Session>, gold: set<Session>)
    ensures var first := FirstGold(values, gold);
      first.Some? ==> first.value > 0 && PrecisionSum(Deduplicated(values), gold) >= Quotient(1.0, first.value as real)
  {
    FirstGoldRank(values, gold);
    if values != [] {
      var front, s := Deduplicated(Front(values)), Deduplicated(values);
      PrecisionCoversFirst(Front(values), gold);
      PrecisionBounds(front, gold);
      DeduplicatedMeans(Front(values));
      DeduplicatedMeans(values);
      FirstGoldRank(Front(values), gold);
      hide Quotient;
      if s != front {
        assert Front(s) == front && Last(s) == Last(values);
        QuotientOrder(0.0, Hits(s, gold) as real, |s| as real);
        if FirstGold(Front(values), gold).None? && Last(values) in gold {
          QuotientByMore(1.0, |s| as real, |values| as real);
          QuotientOrder(1.0, Hits(s, gold) as real, |s| as real);
        }
      }
    }
  }

  /** Average precision never exceeds the answer-session recall, and |gold| times
      it is at least the reciprocal rank. */
  lemma BetweenReciprocalRankAndRecall(values: seq<Session>, golds: seq<Session>)
    requires golds != []
    ensures var ap, m := AveragePrecisionOf(values, golds).value, ContextMetricsOf(values, golds);
      ap <= m.recall.value && m.mrr.value <= |SetOf(golds)| as real * ap
  {
    hide Quotient, PrecisionSum, Hits, Deduplicated, FirstGold, SetOf;
    var gold := SetOf(golds);
    var s := Deduplicated(values);
    DeduplicatedMeans(values);
    SomeGold(golds);
    HitsAreCommon(s, gold);
    FirstGoldRank(values, gold);
    PrecisionBounds(s, gold);
    PrecisionCoversFirst(values, gold);
    QuotientOrder(PrecisionSum(s, gold), Hits(s, gold) as real, |gold| as real);
    QuotientMeans(PrecisionSum(s, gold), |gold| as real);
  }

  // ------------------------------------------------------------------------ the loop

  /** The source's loop over the ranks. */
  method AveragePrecision(values: seq<Session>, golds: seq<Session>) returns (r: Option<real>)
    ensures r == AveragePrecisionOf(values, golds)
  {
    if golds == [] {
      return None;
    }
    hide Quotient;
    var ordered := Deduplicated(values);
    var gold := SetOf(golds);
    var hits, total := 0, 0.0;
    for rank := 1 to |ordered| + 1
      invariant hits == Hits(ordered[..rank - 1], gold) && total == PrecisionSum(ordered[..rank - 1], gold)
    {
      var session := ordered[rank - 1];
      assert Front(ordered[..rank]) == ordered[..rank - 1];
      if session in gold {
        hits := hits + 1;
        total := total + Quotient(hits as real, rank as real);
      }
    }
    assert ordered[..|ordered|] == ordered;
    SomeGold(golds);
    return Some(Quotient(total, |gold| as real));
  }

  /** The two sums of nDCG over the ranks. */
  method Ndcg(values: seq<Session>, golds: seq<Session>, weight: Weight) returns (r: Option<real>)
    requires Discount(weight)
    ensures r == NdcgOf(values, golds, weight)
  {
    if golds == [] {
      return None;
    }
    hide Quotient;
    var ordered, gold := Deduplicated(values), set x | x in golds;
    var dcg, ideal := 0.0, 0.0;
    for rank := 1 to |ordered| + 1
      invariant dcg == Gain(ordered[..rank - 1], gold, weight)
    {
      assert Front(ordered[..rank]) == ordered[..rank - 1];
      if ordered[rank - 1] in gold {
        dcg := dcg + weight(rank);
      }
    }
    assert ordered[..|ordered|] == ordered;
    for rank := 1 to |gold| + 1
      invariant ideal == Ideal(rank - 1, weight)
    {
      ideal := ideal + weight(rank);
    }
    assert gold == SetOf(golds);
    SomeGold(golds);
    IdealPositive(|gold|, weight);
    return Some(Quotient(dcg, ideal));
  }
}
