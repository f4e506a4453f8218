/** The accuracy-latency frontier and the LAFS score
    (scripts/build_longmemeval_v2_report.py, lines 193-213 and 515-576). The
    logarithm is any strictly increasing weight W on positive latencies. */
module Lafs {
  import opened Wrappers

  datatype Point = Point(name: string, accuracy: real, latency: real)

  const T_MIN := 1.0
  const T_MAX := 200.0

  // ------------------------------------------------------------------ sorting

  /** The sort key is (latency, -accuracy). */
  predicate Before(p: Point, q: Point) {
    p.latency < q.latency || (p.latency == q.latency && p.accuracy >= q.accuracy)
  }

  function InsertPoint(p: Point, ps: seq<Point>): seq<Point> {
    if ps == [] then [p]
    else if Before(p, ps[0]) then [p] + ps
    else [ps[0]] + InsertPoint(p, ps[1..])
  }

  function SortPoints(ps: seq<Point>): seq<Point> {
    if ps == [] then [] else InsertPoint(ps[0], SortPoints(ps[1..]))
  }

  ghost predicate Ordered(ps: seq<Point>) {
    forall i, j :: 0 <= i < j < |ps| ==> Before(ps[i], ps[j])
  }

  lemma {:induction false} InsertPointOrders(p: Point, ps: seq<Point>)
    requires Ordered(ps)
    ensures Ordered(InsertPoint(p, ps))
    ensures multiset(InsertPoint(p, ps)) == multiset(ps) + multiset{p}
  {
    if ps == [] {
    } else if Before(p, ps[0]) {
    } else {
      var rest := InsertPoint(p, ps[1..]);
      InsertPointOrders(p, ps[1..]);
      assert ps == [ps[0]] + ps[1..];
      forall j | 0 <= j < |rest| ensures Before(ps[0], rest[j]) {
        assert rest[j] in multiset(rest);
        if rest[j] != p {
          assert rest[j] in multiset(ps[1..]);
          var k :| 0 <= k < |ps[1..]| && ps[1..][k] == rest[j];
          assert ps[k + 1] == rest[j];
        }
      }
    }
  }

  lemma {:induction false} SortPointsOrders(ps: seq<Point>)
    ensures Ordered(SortPoints(ps)) && multiset(SortPoints(ps)) == multiset(ps)
  {
    if ps != [] {
      SortPointsOrders(ps[1..]);
      InsertPointOrders(ps[0], SortPoints(ps[1..]));
      assert ps == [ps[0]] + ps[1..];
    }
  }

  // ------------------------------------------------- best accuracy so far

  ghost predicate Available(ps: seq<Point>, p: Point, t: real) {
    p in ps && p.latency <= t
  }

  /** The best accuracy reached within latency t, or the floor 0. */
  ghost predicate IsBest(ps: seq<Point>, t: real, a: real) {
    if exists p :: Available(ps, p, t) then
      (exists p :: Available(ps, p, t) && p.accuracy == a) && (forall p :: Available(ps, p, t) ==> p.accuracy <= a)
    else
      a == 0.0
  }

  function Best(ps: seq<Point>, t: real): (a: real)
    ensures IsBest(ps, t, a)
  {
    BestOr(ps, t).0
  }

  /** The maximum over the available points, with whether there are any. */
  function BestOr(ps: seq<Point>, t: real): (r: (real, bool))
    ensures r.1 <==> exists p :: Available(ps, p, t)
    ensures IsBest(ps, t, r.0)
  {
    if ps == [] then (0.0, false)
    else
      var (rest, found) := BestOr(ps[1..], t);
      assert ps == [ps[0]] + ps[1..];
      assert forall p :: Available(ps, p, t) <==> Available(ps[1..], p, t) || (p == ps[0] && p.latency <= t);
      if ps[0].latency <= t && (!found || ps[0].accuracy > rest) then (ps[0].accuracy, true)
      else (rest, found)
  }

  lemma BestIsUnique(ps: seq<Point>, qs: seq<Point>, t: real, a: real, b: real)
    requires forall p :: Available(ps, p, t) <==> Available(qs, p, t)
    requires IsBest(ps, t, a) && IsBest(qs, t, b)
    ensures a == b
  {
  }

  lemma BestConstant(ps: seq<Point>, s: real, t: real)
    requires s <= t && forall p :: p in ps ==> !(s < p.latency <= t)
    ensures Best(ps, s) == Best(ps, t)
  {
    forall p ensures Available(ps, p, s) <==> Available(ps, p, t) {}
    assert IsBest(ps, s, Best(ps, s)) && IsBest(ps, t, Best(ps, t));
    BestIsUniqueAt(ps, s, t, Best(ps, s), Best(ps, t));
  }

  lemma BestIsUniqueAt(ps: seq<Point>, s: real, t: real, a: real, b: real)
    requires forall p :: Available(ps, p, s) <==> Available(ps, p, t)
    requires IsBest(ps, s, a) && IsBest(ps, t, b)
    ensures a == b
  {
  }

  // ---------------------------------------------------------------- the frontier

  ghost predicate Increasing(ps: seq<Point>) {
    forall i, j :: 0 <= i < j < |ps| ==> ps[i].latency < ps[j].latency && ps[i].accuracy < ps[j].accuracy
  }

  /** Every point of `ps` is matched by a frontier point that is no slower and
      no less accurate. */
  ghost predicate Dominates(frontier: seq<Point>, ps: seq<Point>) {
    forall p :: p in ps ==> Matched(frontier, p)
  }

  ghost predicate Matched(frontier: seq<Point>, p: Point) {
    exists q :: q in frontier && q.latency <= p.latency && q.accuracy >= p.accuracy
  }

  ghost predicate Within(frontier: seq<Point>, ps: seq<Point>) {
    forall q :: q in frontier ==> q in ps
  }

  ghost predicate IsFrontier(frontier: seq<Point>, ps: seq<Point>) {
    Increasing(frontier) && Within(frontier, ps) && Dominates(frontier, ps)
  }

  lemma BestIsUpper(ps: seq<Point>, t: real, p: Point)
    requires Available(ps, p, t)
    ensures p.accuracy <= Best(ps, t)
  {
  }

  lemma BestIsReached(ps: seq<Point>, t: real) returns (p: Point)
    requires exists q :: Available(ps, q, t)
    ensures Available(ps, p, t) && p.accuracy == Best(ps, t)
  {
    assert IsBest(ps, t, Best(ps, t));
    p :| Available(ps, p, t) && p.accuracy == Best(ps, t);
  }

  lemma MatchedPoint(frontier: seq<Point>, ps: seq<Point>, p: Point) returns (q: Point)
    requires Dominates(frontier, ps) && p in ps
    ensures q in frontier && q.latency <= p.latency && q.accuracy >= p.accuracy
  {
    assert Matched(frontier, p);
    q :| q in frontier && q.latency <= p.latency && q.accuracy >= p.accuracy;
  }

  lemma WithinPoint(frontier: seq<Point>, ps: seq<Point>, q: Point)
    requires Within(frontier, ps) && q in frontier
    ensures q in ps
  {
  }

  lemma NothingAvailable(ps: seq<Point>, t: real)
    requires !exists p :: Available(ps, p, t)
    ensures Best(ps, t) == 0.0
  {
  }

  /** A frontier has the same best accuracy as all the points, at every latency. */
  lemma FrontierBest(frontier: seq<Point>, ps: seq<Point>, t: real)
    requires Within(frontier, ps) && Dominates(frontier, ps)
    ensures Best(frontier, t) == Best(ps, t)
  {
    hide *;
    if exists p :: Available(ps, p, t) {
      var p := BestIsReached(ps, t);
      AvailableMeans(ps, p, t);
      var q := MatchedPoint(frontier, ps, p);
      AvailableIn(frontier, q, t);
      BestIsUpper(frontier, t, q);
      var r := BestIsReached(frontier, t);
      AvailableMeans(frontier, r, t);
      WithinPoint(frontier, ps, r);
      AvailableIn(ps, r, t);
      BestIsUpper(ps, t, r);
    } else {
      forall q ensures !Available(frontier, q, t) {
        if Available(frontier, q, t) {
          AvailableMeans(frontier, q, t);
          WithinPoint(frontier, ps, q);
          AvailableIn(ps, q, t);
        }
      }
      NothingAvailable(frontier, t);
      NothingAvailable(ps, t);
    }
  }

  lemma AvailableIn(ps: seq<Point>, p: Point, t: real)
    requires p in ps && p.latency <= t
    ensures Available(ps, p, t)
  {
  }

  lemma AvailableMeans(ps: seq<Point>, p: Point, t: real)
    requires Available(ps, p, t)
    ensures p in ps && p.latency <= t
  {
  }

  lemma IncreasingPair(frontier: seq<Point>, q: Point, r: Point)
    requires Increasing(frontier) && q in frontier && r in frontier
    requires r.latency <= q.latency && r.accuracy >= q.accuracy
    ensures r == q
  {
  }

  /** No input dominates a frontier point. */
  lemma FrontierIsUndominated(frontier: seq<Point>, ps: seq<Point>, q: Point, p: Point)
    requires IsFrontier(frontier, ps) && q in frontier && p in ps
    requires p.latency <= q.latency && p.accuracy >= q.accuracy
    ensures p.latency == q.latency && p.accuracy == q.accuracy
  {
    hide Within, Dominates, Increasing;
    var r := MatchedPoint(frontier, ps, p);
    IncreasingPair(frontier, q, r);
  }

  /** A single pass over the sorted points, keeping each strict improvement. */
  method ParetoFrontier(points: seq<Point>) returns (r: Result<seq<Point>, string>)
    ensures r.Failure? <==> exists p :: p in points && p.latency <= 0.0
    ensures r.Success? ==> IsFrontier(r.value, points)
  {
    hide *;
    var ordered := SortPoints(points);
    SortPointsOrders(points);
    SameMembers(points, ordered);
    var frontier: seq<Point> := [];
    var best: Option<real> := None;
    NothingFrontier(ordered);
    for i := 0 to |ordered|
      invariant IsFrontier(frontier, ordered[..i])
      invariant forall j :: 0 <= j < i ==> ordered[j].latency > 0.0
      invariant best.None? <==> frontier == []
      invariant best.Some? ==> best.value == frontier[|frontier| - 1].accuracy
    {
      var point := ordered[i];
      if point.latency <= 0.0 {
        assert point in ordered;
        return Failure(point.name);
      }
      if best.None? || point.accuracy > best.value {
        FrontierGrows(ordered, i, frontier);
        frontier := frontier + [point];
        best := Some(point.accuracy);
      } else {
        FrontierStays(ordered, i, frontier);
      }
    }
    assert ordered[..|ordered|] == ordered;
    SameFrontier(frontier, ordered, points);
    r := Success(frontier);
  }

  lemma NothingFrontier(ps: seq<Point>)
    ensures IsFrontier([], ps[..0])
  {
  }

  lemma SameFrontier(frontier: seq<Point>, ps: seq<Point>, qs: seq<Point>)
    requires IsFrontier(frontier, ps) && forall p :: p in ps <==> p in qs
    ensures IsFrontier(frontier, qs)
  {
  }

  lemma SameMembers(ps: seq<Point>, qs: seq<Point>)
    requires multiset(ps) == multiset(qs)
    ensures forall p :: p in ps <==> p in qs
  {
    forall p ensures p in ps <==> p in qs {
      assert p in multiset(ps) <==> p in multiset(qs);
    }
  }

  lemma EarlierIsBefore(ordered: seq<Point>, i: nat, q: Point)
    requires Ordered(ordered) && i < |ordered| && q in ordered[..i]
    ensures Before(q, ordered[i])
  {
  }

  lemma MatchedBy(frontier: seq<Point>, q: Point, p: Point)
    requires q in frontier && q.latency <= p.latency && q.accuracy >= p.accuracy
    ensures Matched(frontier, p)
  {
  }

  lemma MatchedGrows(frontier: seq<Point>, q: Point, p: Point)
    requires Matched(frontier, p)
    ensures Matched(frontier + [q], p)
  {
  }

  lemma FrontierGrows(ordered: seq<Point>, i: nat, frontier: seq<Point>)
    requires Ordered(ordered) && i < |ordered| && IsFrontier(frontier, ordered[..i])
    requires frontier != [] ==> ordered[i].accuracy > frontier[|frontier| - 1].accuracy
    ensures IsFrontier(frontier + [ordered[i]], ordered[..i + 1])
  {
    hide Matched, Ordered;
    var point, grown := ordered[i], frontier + [ordered[i]];
    forall j | 0 <= j < |frontier|
      ensures frontier[j].latency < point.latency && frontier[j].accuracy < point.accuracy
    {
      assert frontier[j] in ordered[..i];
      EarlierIsBefore(ordered, i, frontier[j]);
    }
    forall p | p in ordered[..i + 1] ensures Matched(grown, p) {
      if p == point {
        assert grown[|frontier|] == point;
        MatchedBy(grown, point, p);
      } else {
        assert p in ordered[..i];
        MatchedGrows(frontier, point, p);
      }
    }
  }

  lemma FrontierStays(ordered: seq<Point>, i: nat, frontier: seq<Point>)
    requires Ordered(ordered) && i < |ordered| && frontier != [] && IsFrontier(frontier, ordered[..i])
    requires ordered[i].accuracy <= frontier[|frontier| - 1].accuracy
    ensures IsFrontier(frontier, ordered[..i + 1])
  {
    hide Matched, Ordered;
    var last := frontier[|frontier| - 1];
    EarlierIsBefore(ordered, i, last);
    MatchedBy(frontier, last, ordered[i]);
    forall p | p in ordered[..i + 1] ensures Matched(frontier, p) {
      if p !in ordered[..i] {
        assert p == ordered[i];
      }
    }
  }

  // ---------------------------------------------------------------- the integral

  type Weight = real -> real

  ghost predicate IncreasingWeight(w: Weight) {
    forall x, y {:trigger w(x), w(y)} :: 0.0 < x < y ==> w(x) < w(y)
  }

  ghost predicate Climbing(bs: seq<real>) {
    && |bs| > 0 && bs[0] > 0.0
    && forall i, j :: 0 <= i < j < |bs| ==> bs[i] < bs[j]
  }

  /** Every latency strictly between the ends of `bs` is a breakpoint. */
  ghost predicate Covers(bs: seq<real>, ps: seq<Point>)
    requires |bs| > 0
  {
    forall p :: p in ps && bs[0] < p.latency < bs[|bs| - 1] ==> p.latency in bs
  }

  /** The area under the best-accuracy step function, read at the left end of
      every interval. */
  function Area(w: Weight, ps: seq<Point>, bs: seq<real>): real {
    if |bs| < 2 then 0.0 else Strip(w, ps, bs[0], bs[1]) + Area(w, ps, bs[1..])
  }

  function Strip(w: Weight, ps: seq<Point>, left: real, right: real): real {
    Best(ps, left) * (w(right) - w(left))
  }

  lemma TailCovers(bs: seq<real>, ps: seq<Point>)
    requires Climbing(bs) && Covers(bs, ps) && |bs| > 1
    ensures Climbing(bs[1..]) && Covers(bs[1..], ps)
  {
  }

  lemma Distribute(a: real, x: real, y: real, z: real)
    ensures a * (z - x) == a * (y - x) + a * (z - y)
  {
  }

  lemma NothingBetween(ps: seq<Point>, bs: seq<real>)
    requires Climbing(bs) && Covers(bs, ps) && |bs| > 1
    ensures forall p :: p in ps ==> !(bs[0] < p.latency < bs[1])
  {
  }

  lemma SplitCovers(ps: seq<Point>, bs: seq<real>, t: real)
    requires Climbing(bs) && Covers(bs, ps) && |bs| > 1 && bs[0] < t < bs[1]
    ensures Climbing([t] + bs[1..]) && Covers([t] + bs[1..], ps)
  {
  }

  /** A breakpoint inside the first interval changes nothing. */
  lemma SplitFirst(w: Weight, ps: seq<Point>, bs: seq<real>, t: real)
    requires Climbing(bs) && Covers(bs, ps) && |bs| > 1 && bs[0] < t < bs[1]
    ensures Area(w, ps, bs) == Strip(w, ps, bs[0], t) + Area(w, ps, [t] + bs[1..])
  {
    NothingBetween(ps, bs);
    BestConstant(ps, bs[0], t);
    hide Best, Climbing, Covers;
    Distribute(Best(ps, t), w(bs[0]), w(t), w(bs[1]));
    assert ([t] + bs[1..])[1..] == bs[1..];
  }

  lemma AreaFirst(w: Weight, ps: seq<Point>, bs: seq<real>)
    requires |bs| > 1
    ensures Area(w, ps, bs) == Strip(w, ps, bs[0], bs[1]) + Area(w, ps, bs[1..])
  {
  }

  lemma FirstStep(bs: seq<real>)
    requires Climbing(bs) && |bs| > 1
    ensures bs[0] < bs[1]
  {
  }

  lemma SameEnds(bs: seq<real>, cs: seq<real>)
    requires Climbing(bs) && Climbing(cs) && (|bs| == 1 || |cs| == 1)
    requires bs[0] == cs[0] && bs[|bs| - 1] == cs[|cs| - 1]
    ensures |bs| == |cs| == 1
  {
  }

  /** The area does not depend on which covering breakpoints are used. */
  lemma {:induction false} AreaIsIntegral(w: Weight, ps: seq<Point>, bs: seq<real>, cs: seq<real>)
    requires Climbing(bs) && Climbing(cs) && Covers(bs, ps) && Covers(cs, ps)
    requires bs[0] == cs[0] && bs[|bs| - 1] == cs[|cs| - 1]
    ensures Area(w, ps, bs) == Area(w, ps, cs)
    decreases |bs| + |cs|
  {
    hide *;
    ClimbLength(bs);
    ClimbLength(cs);
    if |bs| == 1 || |cs| == 1 {
      SameEnds(bs, cs);
      AreaOfPoint(w, ps, bs);
      AreaOfPoint(w, ps, cs);
    } else {
      TailCovers(bs, ps);
      TailCovers(cs, ps);
      AreaFirst(w, ps, bs);
      AreaFirst(w, ps, cs);
      if bs[1] == cs[1] {
        AreaIsIntegral(w, ps, bs[1..], cs[1..]);
      } else if bs[1] < cs[1] {
        FirstStep(bs);
        SplitCovers(ps, cs, bs[1]);
        SplitFirst(w, ps, cs, bs[1]);
        AreaIsIntegral(w, ps, bs[1..], [bs[1]] + cs[1..]);
      } else {
        FirstStep(cs);
        SplitCovers(ps, bs, cs[1]);
        SplitFirst(w, ps, bs, cs[1]);
        AreaIsIntegral(w, ps, [cs[1]] + bs[1..], cs[1..]);
      }
    }
  }

  // ------------------------------------------------------------------- the score

  function InsertBreak(t: real, bs: seq<real>): seq<real> {
    if bs == [] || t < bs[0] then [t] + bs
    else if t == bs[0] then bs
    else [bs[0]] + InsertBreak(t, bs[1..])
  }

  /** The sorted set of 1, 200 and every latency in between. */
  function Breaks(ps: seq<Point>): seq<real> {
    if ps == [] then [T_MIN, T_MAX]
    else
      var bs := Breaks(ps[1..]);
      if T_MIN < ps[0].latency < T_MAX then InsertBreak(ps[0].latency, bs) else bs
  }

  lemma ClimbCons(x: real, bs: seq<real>)
    requires Climbing(bs) && 0.0 < x < bs[0]
    ensures Climbing([x] + bs)
  {
  }

  lemma ClimbTail(bs: seq<real>)
    requires Climbing(bs) && |bs| > 1
    ensures Climbing(bs[1..]) && 0.0 < bs[0] < bs[1]
  {
  }

  lemma {:induction false} InsertBreakClimbs(t: real, bs: seq<real>)
    requires Climbing(bs) && bs[0] < t < bs[|bs| - 1]
    ensures var cs := InsertBreak(t, bs);
      Climbing(cs) && |cs| >= |bs| && cs[0] == bs[0] && cs[|cs| - 1] == bs[|bs| - 1]
  {
    hide *;
    ClimbLength(bs);
    var tail := bs[1..];
    ClimbTail(bs);
    InsertBreakLater(t, bs);
    if t < tail[0] {
      InsertBreakHere(t, tail);
      ClimbCons(t, tail);
      ClimbCons(bs[0], [t] + tail);
    } else if t == tail[0] {
      InsertBreakHere(t, tail);
      assert [bs[0]] + tail == bs;
    } else {
      InsertBreakClimbs(t, tail);
      ClimbCons(bs[0], InsertBreak(t, tail));
    }
  }

  lemma InsertBreakLater(t: real, bs: seq<real>)
    requires bs != [] && bs[0] < t
    ensures InsertBreak(t, bs) == [bs[0]] + InsertBreak(t, bs[1..])
  {
  }

  lemma InsertBreakHere(t: real, bs: seq<real>)
    requires bs != [] && t <= bs[0]
    ensures InsertBreak(t, bs) == if t < bs[0] then [t] + bs else bs
  {
  }

  lemma {:induction false} InsertBreakMembers(t: real, bs: seq<real>)
    ensures t in InsertBreak(t, bs) && forall x :: x in bs ==> x in InsertBreak(t, bs)
  {
    if bs != [] && bs[0] < t {
      InsertBreakMembers(t, bs[1..]);
    }
  }

  ghost predicate Spanning(bs: seq<real>) {
    Climbing(bs) && |bs| > 1 && bs[0] == T_MIN && bs[|bs| - 1] == T_MAX
  }

  lemma {:induction false} BreaksSpan(ps: seq<Point>)
    ensures Spanning(Breaks(ps)) && Covers(Breaks(ps), ps)
  {
    if ps != [] {
      BreaksSpan(ps[1..]);
      hide *;
      BreaksFirst(ps);
      BreaksStep(ps, Breaks(ps[1..]), Breaks(ps));
    }
  }

  lemma BreaksFirst(ps: seq<Point>)
    requires ps != []
    ensures Breaks(ps) == if T_MIN < ps[0].latency < T_MAX
      then InsertBreak(ps[0].latency, Breaks(ps[1..])) else Breaks(ps[1..])
  {
  }

  lemma BreaksStep(ps: seq<Point>, bs: seq<real>, cs: seq<real>)
    requires ps != [] && Spanning(bs) && Covers(bs, ps[1..])
    requires cs == if T_MIN < ps[0].latency < T_MAX then InsertBreak(ps[0].latency, bs) else bs
    ensures Spanning(cs) && Covers(cs, ps)
  {
    hide InsertBreak, Climbing;
    if T_MIN < ps[0].latency < T_MAX {
      InsertBreakClimbs(ps[0].latency, bs);
      InsertBreakMembers(ps[0].latency, bs);
    }
    forall p | p in ps && T_MIN < p.latency < T_MAX ensures p.latency in cs {
      assert p == ps[0] || p in ps[1..];
    }
  }

  /** The integral of the best accuracy so far, per unit of total weight. */
  function Score(w: Weight, ps: seq<Point>): real
    requires w(T_MIN) < w(T_MAX)
  {
    Ratio(Area(w, ps, Breaks(ps)), w(T_MAX) - w(T_MIN))
  }

  function Ratio(a: real, d: real): real
    requires d > 0.0
  {
    a / d
  }

  lemma {:induction false} AreaByBest(w: Weight, ps: seq<Point>, qs: seq<Point>, bs: seq<real>)
    requires forall i :: 0 <= i < |bs| ==> Best(ps, bs[i]) == Best(qs, bs[i])
    ensures Area(w, ps, bs) == Area(w, qs, bs)
  {
    hide Best;
    if |bs| > 1 {
      AreaByBest(w, ps, qs, bs[1..]);
    }
  }

  lemma FrontierArea(w: Weight, frontier: seq<Point>, ps: seq<Point>)
    requires IsFrontier(frontier, ps)
    ensures Area(w, frontier, Breaks(frontier)) == Area(w, ps, Breaks(ps))
  {
    BreaksSpan(frontier);
    BreaksSpan(ps);
    var bs := Breaks(ps);
    hide Breaks, Area;
    assert Covers(bs, frontier) by {
      forall p | p in frontier ensures p in ps {
        WithinPoint(frontier, ps, p);
      }
    }
    AreaIsIntegral(w, frontier, Breaks(frontier), bs);
    forall i | 0 <= i < |bs| ensures Best(frontier, bs[i]) == Best(ps, bs[i]) {
      FrontierBest(frontier, ps, bs[i]);
    }
    AreaByBest(w, frontier, ps, bs);
  }

  lemma WeightSpan(w: Weight)
    requires IncreasingWeight(w)
    ensures w(T_MIN) < w(T_MAX)
  {
  }

  /** The loop over adjacent breakpoints. */
  method SumStrips(w: Weight, frontier: seq<Point>, ordered: seq<real>) returns (area: real)
    requires |ordered| > 1
    ensures area == Area(w, frontier, ordered)
  {
    hide *;
    area := 0.0;
    assert ordered[0..] == ordered;
    for i := 0 to |ordered| - 1
      invariant area + Area(w, frontier, ordered[i..]) == Area(w, frontier, ordered)
    {
      AreaFirst(w, frontier, ordered[i..]);
      assert ordered[i..][1..] == ordered[i + 1..];
      area := area + Strip(w, frontier, ordered[i], ordered[i + 1]);
    }
    AreaOfPoint(w, frontier, ordered[|ordered| - 1..]);
  }

  /** The score computed from the frontier is the integral over all points. */
  method LafsScore(w: Weight, points: seq<Point>) returns (r: Result<real, string>)
    requires IncreasingWeight(w)
    ensures w(T_MIN) < w(T_MAX)
    ensures r.Failure? <==> exists p :: p in points && p.latency <= 0.0
    ensures r.Success? ==> r.value == Score(w, points)
  {
    WeightSpan(w);
    hide *;
    var attempt := ParetoFrontier(points);
    if attempt.Failure? {
      return Failure(attempt.error);
    }
    var frontier := attempt.value;
    FrontierArea(w, frontier, points);
    BreaksSpan(frontier);
    SpanningLength(Breaks(frontier));
    var area := SumStrips(w, frontier, Breaks(frontier));
    ScoreMeans(w, points);
    r := Success(Ratio(area, w(T_MAX) - w(T_MIN)));
  }

  lemma SpanningLength(bs: seq<real>)
    requires Spanning(bs)
    ensures |bs| > 1
  {
  }

  lemma AreaOfPoint(w: Weight, ps: seq<Point>, bs: seq<real>)
    requires |bs| == 1
    ensures Area(w, ps, bs) == 0.0
  {
  }

  lemma ScoreMeans(w: Weight, ps: seq<Point>)
    requires w(T_MIN) < w(T_MAX)
    ensures Score(w, ps) == Ratio(Area(w, ps, Breaks(ps)), w(T_MAX) - w(T_MIN))
  {
  }

  // --------------------------------------------------------- what the score is

  lemma RatioMeans(a: real, d: real)
    requires d > 0.0
    ensures Box(Ratio(a, d), d) == a
  {
  }

  /** The score spread over the whole weight is the area under the best accuracy,
      whatever covering breakpoints are used. */
  lemma ScoreIsArea(w: Weight, ps: seq<Point>, bs: seq<real>)
    requires w(T_MIN) < w(T_MAX) && Spanning(bs) && Covers(bs, ps)
    ensures Box(Score(w, ps), w(T_MAX) - w(T_MIN)) == Area(w, ps, bs)
  {
    hide *;
    SpanEnds(bs);
    BreaksSpan(ps);
    SpanEnds(Breaks(ps));
    AreaIsIntegral(w, ps, Breaks(ps), bs);
    ScoreMeans(w, ps);
    RatioMeans(Area(w, ps, Breaks(ps)), w(T_MAX) - w(T_MIN));
  }

  /** The best accuracy is a before s and b from s on. */
  ghost predicate Steps(ps: seq<Point>, s: real, a: real, b: real) {
    && (forall t: real :: T_MIN <= t < s ==> Best(ps, t) == a)
    && (forall t: real :: s <= t < T_MAX ==> Best(ps, t) == b)
  }

  function StepArea(w: Weight, x: real, s: real, z: real, a: real, b: real): real {
    if x < s then Box(a, w(s) - w(x)) + Box(b, w(z) - w(s)) else Box(b, w(z) - w(x))
  }

  lemma StepsAt(ps: seq<Point>, s: real, a: real, b: real, t: real)
    requires Steps(ps, s, a, b) && T_MIN <= t < T_MAX
    ensures Best(ps, t) == if t < s then a else b
  {
  }

  lemma StripIsBox(w: Weight, ps: seq<Point>, x: real, y: real)
    ensures Strip(w, ps, x, y) == Box(Best(ps, x), w(y) - w(x))
  {
  }

  lemma StepAreaFirst(w: Weight, x: real, y: real, s: real, z: real, a: real, b: real)
    requires x < y && (s <= x || y <= s)
    ensures StepArea(w, x, s, z, a, b) == Box(if x < s then a else b, w(y) - w(x)) + StepArea(w, y, s, z, a, b)
  {
    Boxes(a, w(x), w(y), w(s));
    Boxes(b, w(x), w(y), w(z));
    FlatBox(a);
  }

  lemma ClimbsPast(bs: seq<real>, s: real)
    requires Climbing(bs) && |bs| > 1 && s in bs
    ensures s <= bs[0] || bs[1] <= s
    ensures s in bs[1..] || s <= bs[0]
    ensures bs[0] < bs[|bs| - 1]
  {
  }

  /** The area under one step. */
  lemma {:induction false} AreaOfSteps(w: Weight, ps: seq<Point>, bs: seq<real>, s: real, a: real, b: real)
    requires Climbing(bs) && T_MIN <= bs[0] && bs[|bs| - 1] == T_MAX
    requires Steps(ps, s, a, b) && (s in bs || s <= bs[0])
    ensures Area(w, ps, bs) == StepArea(w, bs[0], s, T_MAX, a, b)
  {
    hide *;
    ClimbLength(bs);
    if |bs| == 1 {
      AreaOfPoint(w, ps, bs);
      StepAreaOfPoint(w, s, a, b);
    } else {
      ClimbTail(bs);
      if s in bs {
        ClimbsPast(bs, s);
      }
      ClimbEnds(bs);
      StepsAt(ps, s, a, b, bs[0]);
      StripIsBox(w, ps, bs[0], bs[1]);
      AreaFirst(w, ps, bs);
      AreaOfSteps(w, ps, bs[1..], s, a, b);
      StepAreaFirst(w, bs[0], bs[1], s, T_MAX, a, b);
    }
  }

  lemma ClimbEnds(bs: seq<real>)
    requires Climbing(bs) && |bs| > 1
    ensures bs[0] < bs[|bs| - 1]
  {
  }

  lemma StepAreaOfPoint(w: Weight, s: real, a: real, b: real)
    ensures s <= T_MAX ==> StepArea(w, T_MAX, s, T_MAX, a, b) == 0.0
  {
  }

  lemma StepAreaMeans(w: Weight, x: real, s: real, z: real, a: real, b: real)
    requires x <= s
    ensures StepArea(w, x, s, z, a, b) == a * (w(s) - w(x)) + b * (w(z) - w(s))
  {
  }

  lemma InsertedSpan(bs: seq<real>, ps: seq<Point>, s: real) returns (cs: seq<real>)
    requires Spanning(bs) && Covers(bs, ps) && T_MIN <= s <= T_MAX
    ensures Spanning(cs) && Covers(cs, ps) && s in cs
  {
    if s in bs {
      cs := bs;
    } else {
      cs := InsertBreak(s, bs);
      assert bs[0] in bs && bs[|bs| - 1] in bs;
      InsertBreakClimbs(s, bs);
      InsertBreakMembers(s, bs);
    }
  }

  /** A best accuracy that is a up to latency s and b from there on scores the mean
      of a and b by the weight of the two spans. */
  lemma ScoreOfStep(w: Weight, ps: seq<Point>, s: real, a: real, b: real)
    requires w(1.0) < w(200.0) && 1.0 <= s <= 200.0
    requires forall t: real :: 1.0 <= t < s ==> Best(ps, t) == a
    requires forall t: real :: s <= t < 200.0 ==> Best(ps, t) == b
    ensures Score(w, ps) * (w(200.0) - w(1.0)) == a * (w(s) - w(1.0)) + b * (w(200.0) - w(s))
  {
    assert T_MIN == 1.0 && T_MAX == 200.0;
    hide *;
    StepsMean(ps, s, a, b);
    ScoreIsStepArea(w, ps, s, a, b);
    StepAreaMeans(w, T_MIN, s, T_MAX, a, b);
    BoxMeans(Score(w, ps), w(T_MAX) - w(T_MIN));
  }

  lemma StepsMean(ps: seq<Point>, s: real, a: real, b: real)
    requires forall t: real :: 1.0 <= t < s ==> Best(ps, t) == a
    requires forall t: real :: s <= t < 200.0 ==> Best(ps, t) == b
    ensures Steps(ps, s, a, b)
  {
    hide Best;
  }

  lemma BoxMeans(height: real, width: real)
    ensures Box(height, width) == height * width
  {
  }

  lemma ScoreIsStepArea(w: Weight, ps: seq<Point>, s: real, a: real, b: real)
    requires w(T_MIN) < w(T_MAX) && T_MIN <= s <= T_MAX && Steps(ps, s, a, b)
    ensures Box(Score(w, ps), w(T_MAX) - w(T_MIN)) == StepArea(w, T_MIN, s, T_MAX, a, b)
  {
    hide *;
    BreaksSpan(ps);
    var bs := InsertedSpan(Breaks(ps), ps, s);
    SpanEnds(bs);
    ScoreIsArea(w, ps, bs);
    AreaOfSteps(w, ps, bs, s, a, b);
  }

  /** A best accuracy that never changes is the score. */
  lemma ScoreOfConstant(w: Weight, ps: seq<Point>, a: real)
    requires w(1.0) < w(200.0) && forall t: real :: 1.0 <= t < 200.0 ==> Best(ps, t) == a
    ensures Score(w, ps) == a
  {
    ScoreOfStep(w, ps, T_MIN, a, a);
    hide Score, Best;
    MulOrder(Score(w, ps), a, w(T_MAX) - w(T_MIN));
  }

  // ------------------------------------------------------------ what it is for

  /** The score depends on the points only through the best accuracy so far:
      permuting points, repeating them or dropping dominated ones changes
      nothing, and any covering breakpoints give the same area. */
  lemma ScoreByBest(w: Weight, ps: seq<Point>, qs: seq<Point>)
    requires w(T_MIN) < w(T_MAX)
    requires forall t :: Best(ps, t) == Best(qs, t)
    ensures Score(w, ps) == Score(w, qs)
  {
    var both := Breaks(ps + qs);
    BreaksSpan(ps);
    BreaksSpan(qs);
    BreaksSpan(ps + qs);
    hide Breaks, Area, Best;
    AreaIsIntegral(w, ps, Breaks(ps), both);
    AreaIsIntegral(w, qs, Breaks(qs), both);
    AreaByBest(w, ps, qs, both);
  }

  lemma PermutedScore(w: Weight, ps: seq<Point>, qs: seq<Point>)
    requires w(T_MIN) < w(T_MAX) && multiset(ps) == multiset(qs)
    ensures Score(w, ps) == Score(w, qs)
  {
    SameMembers(ps, qs);
    forall t ensures Best(ps, t) == Best(qs, t) {
      assert IsBest(ps, t, Best(ps, t)) && IsBest(qs, t, Best(qs, t));
      BestIsUnique(ps, qs, t, Best(ps, t), Best(qs, t));
    }
    hide Score, Best;
    ScoreByBest(w, ps, qs);
  }

  /** A dominated point adds nothing. */
  lemma DominatedPointIsFree(w: Weight, ps: seq<Point>, p: Point)
    requires w(T_MIN) < w(T_MAX) && Matched(ps, p)
    ensures Score(w, ps + [p]) == Score(w, ps)
  {
    hide *;
    MatchedAll(ps, p);
    forall t ensures Best(ps, t) == Best(ps + [p], t) {
      FrontierBest(ps, ps + [p], t);
    }
    ScoreByBest(w, ps, ps + [p]);
  }

  lemma MatchedAll(ps: seq<Point>, p: Point)
    requires Matched(ps, p)
    ensures Within(ps, ps + [p]) && Dominates(ps, ps + [p])
  {
  }

  ghost predicate NonNegative(ps: seq<Point>) {
    forall p :: p in ps ==> p.accuracy >= 0.0
  }

  lemma BestIsNonNegative(ps: seq<Point>, t: real)
    requires NonNegative(ps)
    ensures Best(ps, t) >= 0.0
  {
  }

  /** More points and more time never lower the best accuracy. */
  lemma BestGrows(ps: seq<Point>, qs: seq<Point>, s: real, t: real)
    requires NonNegative(qs) && Within(ps, qs) && s <= t
    ensures Best(ps, s) <= Best(qs, t)
  {
    hide *;
    if exists p :: Available(ps, p, s) {
      var p := BestIsReached(ps, s);
      AvailableMeans(ps, p, s);
      WithinPoint(ps, qs, p);
      AvailableIn(qs, p, t);
      BestIsUpper(qs, t, p);
    } else {
      NothingAvailable(ps, s);
      BestIsNonNegative(qs, t);
    }
  }

  lemma MulOrder(a: real, b: real, d: real)
    requires d > 0.0
    ensures a <= b ==> a * d <= b * d
    ensures a < b ==> a * d < b * d
    ensures a * d == b * d ==> a == b
  {
  }

  /** Somewhere before the last breakpoint, qs is strictly better. */
  predicate Higher(ps: seq<Point>, qs: seq<Point>, bs: seq<real>) {
    |bs| > 1 && (Best(ps, bs[0]) < Best(qs, bs[0]) || Higher(ps, qs, bs[1..]))
  }

  lemma {:induction false} HigherAt(ps: seq<Point>, qs: seq<Point>, bs: seq<real>, i: nat)
    requires i < |bs| - 1 && Best(ps, bs[i]) < Best(qs, bs[i])
    ensures Higher(ps, qs, bs)
  {
    hide Best;
    if i > 0 {
      HigherAt(ps, qs, bs[1..], i - 1);
    }
  }

  lemma {:induction false} HigherWhere(ps: seq<Point>, qs: seq<Point>, bs: seq<real>) returns (i: nat)
    requires Higher(ps, qs, bs)
    ensures i < |bs| - 1 && Best(ps, bs[i]) < Best(qs, bs[i])
  {
    hide Best;
    if Best(ps, bs[0]) < Best(qs, bs[0]) {
      i := 0;
    } else {
      var j := HigherWhere(ps, qs, bs[1..]);
      i := j + 1;
    }
  }

  /** Areas compare as the best accuracies do. */
  lemma {:induction false} AreaOrder(w: Weight, ps: seq<Point>, qs: seq<Point>, bs: seq<real>)
    requires IncreasingWeight(w) && Climbing(bs)
    requires forall i :: 0 <= i < |bs| - 1 ==> Best(ps, bs[i]) <= Best(qs, bs[i])
    ensures Area(w, ps, bs) <= Area(w, qs, bs)
    ensures Area(w, ps, bs) < Area(w, qs, bs) <==> Higher(ps, qs, bs)
  {
    hide *;
    ClimbLength(bs);
    if |bs| == 1 {
      AreaOfPoint(w, ps, bs);
      AreaOfPoint(w, qs, bs);
      HigherOfPoint(ps, qs, bs);
    } else {
      ClimbTail(bs);
      WeightStep(w, bs);
      StripOrder(w, ps, qs, bs[0], bs[1]);
      AreaFirst(w, ps, bs);
      AreaFirst(w, qs, bs);
      HigherFirst(ps, qs, bs);
      AreaOrder(w, ps, qs, bs[1..]);
    }
  }

  lemma StripOrder(w: Weight, ps: seq<Point>, qs: seq<Point>, x: real, y: real)
    requires w(x) < w(y)
    ensures Best(ps, x) <= Best(qs, x) ==> Strip(w, ps, x, y) <= Strip(w, qs, x, y)
    ensures Best(ps, x) < Best(qs, x) ==> Strip(w, ps, x, y) < Strip(w, qs, x, y)
    ensures Best(ps, x) == Best(qs, x) ==> Strip(w, ps, x, y) == Strip(w, qs, x, y)
  {
    hide Best;
    var a, b, d := Best(ps, x), Best(qs, x), w(y) - w(x);
    assert Strip(w, ps, x, y) == a * d && Strip(w, qs, x, y) == b * d;
    hide *;
    MulOrder(a, b, d);
  }

  lemma ClimbLength(bs: seq<real>)
    requires Climbing(bs)
    ensures |bs| > 0
  {
  }

  lemma WeightStep(w: Weight, bs: seq<real>)
    requires IncreasingWeight(w) && Climbing(bs) && |bs| > 1
    ensures w(bs[0]) < w(bs[1])
  {
  }

  lemma HigherOfPoint(ps: seq<Point>, qs: seq<Point>, bs: seq<real>)
    requires |bs| == 1
    ensures !Higher(ps, qs, bs)
  {
  }

  lemma HigherFirst(ps: seq<Point>, qs: seq<Point>, bs: seq<real>)
    requires |bs| > 1
    ensures Higher(ps, qs, bs) <==> Best(ps, bs[0]) < Best(qs, bs[0]) || Higher(ps, qs, bs[1..])
  {
  }

  function Max(x: real, y: real): real {
    if x < y then y else x
  }

  /** A submission point that, before the last breakpoint, is more accurate
      than anything the reference reaches by then. */
  ghost predicate Beats(p: Point, reference: seq<Point>) {
    p.latency < T_MAX && p.accuracy > Best(reference, Max(T_MIN, p.latency))
  }

  lemma BeatsMeansHigher(reference: seq<Point>, extra: seq<Point>, bs: seq<real>, p: Point)
    requires Spanning(bs) && Covers(bs, reference + extra) && p in extra && Beats(p, reference)
    ensures Higher(reference, reference + extra, bs)
  {
    var t := Max(T_MIN, p.latency);
    assert p in reference + extra;
    assert t in bs by {
      assert bs[0] in bs;
    }
    var i :| 0 <= i < |bs| && bs[i] == t;
    hide Best, Climbing, Covers;
    AvailableIn(reference + extra, p, t);
    BestIsUpper(reference + extra, t, p);
    HigherAt(reference, reference + extra, bs, i);
  }

  lemma HigherMeansBeats(reference: seq<Point>, extra: seq<Point>, bs: seq<real>) returns (p: Point)
    requires NonNegative(reference + extra) && Spanning(bs) && Higher(reference, reference + extra, bs)
    ensures p in extra && Beats(p, reference)
  {
    var all := reference + extra;
    var i := HigherWhere(reference, all, bs);
    var t := bs[i];
    assert T_MIN <= t < T_MAX;
    hide Best, IsBest, Higher, Climbing, NonNegative;
    NonNegativePart(reference, extra);
    BestIsNonNegative(reference, t);
    if !exists q :: Available(all, q, t) {
      NothingAvailable(all, t);
      assert false;
    }
    p := BestIsReached(all, t);
    if p in reference {
      AvailableIn(reference, p, t);
      BestIsUpper(reference, t, p);
      assert false;
    }
    BestGrows(reference, reference, Max(T_MIN, p.latency), t);
  }

  lemma NonNegativePart(ps: seq<Point>, qs: seq<Point>)
    requires NonNegative(ps + qs)
    ensures NonNegative(ps) && NonNegative(qs)
  {
  }

  /** Adding submission points never costs score, and it gains exactly when
      some submission point faster than 200 beats the reference at
      max(1, its latency). */
  lemma GainIsBeating(w: Weight, reference: seq<Point>, extra: seq<Point>)
    requires IncreasingWeight(w) && w(T_MIN) < w(T_MAX) && NonNegative(reference + extra)
    ensures Score(w, reference) <= Score(w, reference + extra)
    ensures Score(w, reference) < Score(w, reference + extra) <==> exists p :: p in extra && Beats(p, reference)
  {
    var all := reference + extra;
    var bs := Breaks(all);
    BreaksSpan(all);
    BreaksSpan(reference);
    hide Breaks, Area, Beats, Higher, Best, NonNegative;
    CoversPart(bs, reference, extra);
    AreaIsIntegral(w, reference, Breaks(reference), bs);
    forall i | 0 <= i < |bs| - 1 ensures Best(reference, bs[i]) <= Best(all, bs[i]) {
      BestGrows(reference, all, bs[i], bs[i]);
    }
    AreaOrder(w, reference, all, bs);
    DivOrder(Area(w, reference, bs), Area(w, all, bs), w(T_MAX) - w(T_MIN));
    if p :| p in extra && Beats(p, reference) {
      BeatsMeansHigher(reference, extra, bs, p);
    }
    if Higher(reference, all, bs) {
      var p := HigherMeansBeats(reference, extra, bs);
    }
  }

  lemma CoversPart(bs: seq<real>, ps: seq<Point>, qs: seq<Point>)
    requires |bs| > 0 && Covers(bs, ps + qs)
    ensures Covers(bs, ps) && Within(ps, ps + qs)
  {
  }

  lemma DivOrder(a: real, b: real, d: real)
    requires d > 0.0
    ensures a <= b <==> Ratio(a, d) <= Ratio(b, d)
    ensures a < b <==> Ratio(a, d) < Ratio(b, d)
  {
  }

  function Box(height: real, width: real): real {
    height * width
  }

  lemma {:induction false} AreaBounds(w: Weight, ps: seq<Point>, bs: seq<real>, top: real)
    requires IncreasingWeight(w) && Climbing(bs) && NonNegative(ps) && 0.0 <= top
    requires forall p :: p in ps ==> p.accuracy <= top
    ensures |bs| > 0 && 0.0 <= Area(w, ps, bs) <= Box(top, w(bs[|bs| - 1]) - w(bs[0]))
  {
    hide *;
    ClimbLength(bs);
    if |bs| > 1 {
      ClimbTail(bs);
      WeightStep(w, bs);
      BestIsNonNegative(ps, bs[0]);
      BestAtMost(ps, bs[0], top);
      StripBounds(w, ps, bs[0], bs[1], top);
      AreaFirst(w, ps, bs);
      AreaBounds(w, ps, bs[1..], top);
      Boxes(top, w(bs[0]), w(bs[1]), w(bs[|bs| - 1]));
    } else {
      AreaOfPoint(w, ps, bs);
      FlatBox(top);
    }
  }

  lemma FlatBox(height: real)
    ensures Box(height, 0.0) == 0.0
  {
  }

  lemma Boxes(a: real, x: real, y: real, z: real)
    ensures Box(a, z - x) == Box(a, y - x) + Box(a, z - y)
  {
  }

  lemma StripBounds(w: Weight, ps: seq<Point>, x: real, y: real, top: real)
    requires w(x) < w(y) && 0.0 <= Best(ps, x) <= top
    ensures 0.0 <= Strip(w, ps, x, y) <= Box(top, w(y) - w(x))
  {
    var a, d := Best(ps, x), w(y) - w(x);
    assert Strip(w, ps, x, y) == a * d && Box(top, d) == top * d;
    hide *;
    MulOrder(0.0, a, d);
    MulOrder(a, top, d);
  }

  lemma BestAtMost(ps: seq<Point>, t: real, top: real)
    requires 0.0 <= top && forall p :: p in ps ==> p.accuracy <= top
    ensures Best(ps, t) <= top
  {
  }

  /** The score lies between 0 and any bound on the accuracies. */
  lemma ScoreBounds(w: Weight, ps: seq<Point>, top: real)
    requires IncreasingWeight(w) && w(T_MIN) < w(T_MAX) && NonNegative(ps) && 0.0 <= top
    requires forall p :: p in ps ==> p.accuracy <= top
    ensures 0.0 <= Score(w, ps) <= top
  {
    var bs := Breaks(ps);
    BreaksSpan(ps);
    SpanEnds(bs);
    hide *;
    AreaBounds(w, ps, bs, top);
    ScoreMeans(w, ps);
    DivBounds(Area(w, ps, bs), top, w(T_MAX) - w(T_MIN));
  }

  lemma SpanEnds(bs: seq<real>)
    requires Spanning(bs)
    ensures Climbing(bs) && |bs| > 1 && bs[0] == T_MIN && bs[|bs| - 1] == T_MAX
  {
  }

  lemma DivBounds(a: real, top: real, d: real)
    requires d > 0.0 && 0.0 <= a <= Box(top, d)
    ensures 0.0 <= Ratio(a, d) <= top
  {
  }

  // ----------------------------------------------------------------- summaries

  datatype Tier = Small | Medium

  function Reference(tier: Tier): seq<Point> {
    match tier
    case Small => [
      Point("RAG: query -> slice + notes", 51.0, 0.2), Point("Codex", 69.9, 177.2),
      Point("AgentRunbook-R", 58.6, 26.9), Point("AgentRunbook-C", 74.9, 108.3)]
    case Medium => [
      Point("RAG: query -> slice + notes", 45.9, 0.3), Point("Codex", 68.7, 185.8),
      Point("AgentRunbook-R", 57.0, 25.8), Point("AgentRunbook-C", 70.1, 139.9)]
  }

  lemma BestBy(ps: seq<Point>, t: real, p: Point)
    requires p in ps && p.latency <= t && forall q :: q in ps && q.latency <= t ==> q.accuracy <= p.accuracy
    ensures Best(ps, t) == p.accuracy
  {
    assert Available(ps, p, t);
    BestIsUpper(ps, t, p);
    var q := BestIsReached(ps, t);
  }

  lemma FourStrips(w: Weight, ps: seq<Point>, bs: seq<real>)
    requires |bs| == 5
    ensures Area(w, ps, bs) ==
      Strip(w, ps, bs[0], bs[1]) + Strip(w, ps, bs[1], bs[2]) + Strip(w, ps, bs[2], bs[3]) + Strip(w, ps, bs[3], bs[4])
  {
    hide *;
    AreaFirst(w, ps, bs);
    AreaFirst(w, ps, bs[1..]);
    AreaFirst(w, ps, bs[2..]);
    AreaFirst(w, ps, bs[3..]);
    assert bs[1..][1..] == bs[2..] && bs[2..][1..] == bs[3..] && bs[3..][1..] == bs[4..];
    AreaOfPoint(w, ps, bs[4..]);
  }

  lemma ReferenceSteps(ps: seq<Point>, bs: seq<real>, first: Point, second: Point, third: Point, behind: Point)
    requires |ps| == 4 && ps == [first, behind, second, third]
    requires bs == [1.0, second.latency, third.latency, behind.latency, 200.0]
    requires first.latency <= 1.0 < second.latency < third.latency < behind.latency < 200.0
    requires first.accuracy <= second.accuracy <= third.accuracy && behind.accuracy <= third.accuracy
    ensures Spanning(bs) && Covers(bs, ps)
    ensures Best(ps, bs[0]) == first.accuracy && Best(ps, bs[1]) == second.accuracy
    ensures Best(ps, bs[2]) == Best(ps, bs[3]) == third.accuracy
  {
    hide Best, IsBest, Available;
    BestBy(ps, bs[0], first);
    BestBy(ps, bs[1], second);
    BestBy(ps, bs[2], third);
    BestBy(ps, bs[3], third);
  }

  /** What the published points score: Codex is behind AgentRunbook-C in both
      tiers and adds nothing. */
  lemma ReferenceScores(w: Weight, tier: Tier)
    requires IncreasingWeight(w)
    ensures w(1.0) < w(200.0)
    ensures Score(w, Reference(tier)) * (w(200.0) - w(1.0)) ==
      match tier
      case Small => 51.0 * (w(26.9) - w(1.0)) + 58.6 * (w(108.3) - w(26.9)) + 74.9 * (w(200.0) - w(108.3))
      case Medium => 45.9 * (w(25.8) - w(1.0)) + 57.0 * (w(139.9) - w(25.8)) + 70.1 * (w(200.0) - w(139.9))
  {
    WeightSpan(w);
    assert T_MIN == 1.0 && T_MAX == 200.0;
    var ps := Reference(tier);
    var bs := [1.0, ps[2].latency, ps[3].latency, ps[1].latency, 200.0];
    ReferenceIsSound(tier);
    assert ps == [ps[0], ps[1], ps[2], ps[3]];
    ReferenceValues(tier);
    hide *;
    ReferenceSteps(ps, bs, ps[0], ps[2], ps[3], ps[1]);
    ScoreIsArea(w, ps, bs);
    FourStrips(w, ps, bs);
    StripIsBox(w, ps, bs[0], bs[1]);
    StripIsBox(w, ps, bs[1], bs[2]);
    StripIsBox(w, ps, bs[2], bs[3]);
    StripIsBox(w, ps, bs[3], bs[4]);
    Boxes(ps[3].accuracy, w(bs[2]), w(bs[3]), w(bs[4]));
    BoxMeans(ps[0].accuracy, w(bs[1]) - w(bs[0]));
    BoxMeans(ps[2].accuracy, w(bs[2]) - w(bs[1]));
    BoxMeans(ps[3].accuracy, w(bs[4]) - w(bs[2]));
    BoxMeans(Score(w, ps), w(T_MAX) - w(T_MIN));
  }

  lemma ReferenceValues(tier: Tier)
    ensures |Reference(tier)| == 4
    ensures var ps := Reference(tier);
      match tier
      case Small =>
        && ps[0].accuracy == 51.0 && ps[0].latency == 0.2 && ps[1].accuracy == 69.9 && ps[1].latency == 177.2
        && ps[2].accuracy == 58.6 && ps[2].latency == 26.9 && ps[3].accuracy == 74.9 && ps[3].latency == 108.3
      case Medium =>
        && ps[0].accuracy == 45.9 && ps[0].latency == 0.3 && ps[1].accuracy == 68.7 && ps[1].latency == 185.8
        && ps[2].accuracy == 57.0 && ps[2].latency == 25.8 && ps[3].accuracy == 70.1 && ps[3].latency == 139.9
  {
  }

  datatype Summary = Summary(
    reference: real, submission: real, gain: real,
    referenceFrontier: seq<Point>, submissionFrontier: seq<Point>)

  /** The summary of one tier: for accuracies that are not negative the gain is
      never negative, and positive exactly when some submission point beats the
      reference. */
  method Summarize(w: Weight, tier: Tier, submission: seq<Point>) returns (r: Result<Summary, string>)
    requires IncreasingWeight(w)
    ensures r.Failure? <==> exists p :: p in submission && p.latency <= 0.0
    ensures w(T_MIN) < w(T_MAX)
    ensures r.Success? ==>
      && r.value.reference == Score(w, Reference(tier))
      && r.value.submission == Score(w, Reference(tier) + submission)
      && r.value.gain == r.value.submission - r.value.reference
    ensures r.Success? ==>
      && IsFrontier(r.value.referenceFrontier, Reference(tier))
      && IsFrontier(r.value.submissionFrontier, Reference(tier) + submission)
    ensures r.Success? && NonNegative(submission) ==> r.value.gain >= 0.0
    ensures r.Success? && NonNegative(submission) ==>
      (r.value.gain > 0.0 <==> exists p :: p in submission && Beats(p, Reference(tier)))
  {
    var reference := Reference(tier);
    ReferenceIsSound(tier);
    AppendMembers(reference, submission);
    hide *;
    var before := LafsScore(w, reference);
    var after := LafsScore(w, reference + submission);
    var frontier := ParetoFrontier(reference);
    var combined := ParetoFrontier(reference + submission);
    if before.Failure? || after.Failure? || frontier.Failure? || combined.Failure? {
      return Failure("nonpositive latency");
    }
    if NonNegative(submission) {
      AppendNonNegative(reference, submission);
      GainIsBeating(w, reference, submission);
    }
    r := Success(Summary(before.value, after.value, after.value - before.value, frontier.value, combined.value));
  }

  lemma ReferenceIsSound(tier: Tier)
    ensures NonNegative(Reference(tier)) && forall p :: p in Reference(tier) ==> p.latency > 0.0
  {
  }

  lemma AppendMembers(ps: seq<Point>, qs: seq<Point>)
    ensures forall p :: p in ps + qs <==> p in ps || p in qs
  {
  }

  lemma AppendNonNegative(ps: seq<Point>, qs: seq<Point>)
    requires NonNegative(ps) && NonNegative(qs)
    ensures NonNegative(ps + qs)
  {
  }
}
