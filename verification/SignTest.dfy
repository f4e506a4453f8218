/** The exact one-sided sign test and the paired comparison that uses it. */
module SignTest {
  import opened Quotients
  import opened Wrappers

  // ---------------------------------------------------------------- binomials

  function Choose(n: nat, k: nat): nat {
    if k == 0 then 1 else if n == 0 then 0 else Choose(n - 1, k - 1) + Choose(n - 1, k)
  }

  function Power2(n: nat): (p: nat)
    ensures p > 0
  {
    if n == 0 then 1 else 2 * Power2(n - 1)
  }

  /** The sum of Choose(n, v) for v from w to n. */
  function Tail(n: nat, w: nat): nat
    decreases n + 1 - w
  {
    if w > n then 0 else Choose(n, w) + Tail(n, w + 1)
  }

  /** The sum of Choose(n, v) for v from 0 to w. */
  function Head(n: nat, w: nat): nat {
    Choose(n, w) + if w == 0 then 0 else Head(n, w - 1)
  }

  lemma {:induction false} ChooseOutside(n: nat, k: nat)
    ensures k > n ==> Choose(n, k) == 0
    ensures k <= n ==> Choose(n, k) > 0
    ensures Choose(n, n) == 1
  {
    if n > 0 && k > 0 {
      ChooseOutside(n - 1, k - 1);
      ChooseOutside(n - 1, k);
    }
    if n > 0 {
      ChooseOutside(n - 1, n);
    }
  }

  lemma {:induction false} ChooseSymmetric(n: nat, k: nat)
    requires k <= n
    ensures Choose(n, k) == Choose(n, n - k)
  {
    ChooseOutside(n, k);
    if 0 < k < n {
      ChooseSymmetric(n - 1, k - 1);
      ChooseSymmetric(n - 1, k);
    }
  }

  lemma {:induction false} TailPascal(n: nat, w: nat)
    ensures Tail(n + 1, w + 1) == Tail(n, w) + Tail(n, w + 1)
    decreases n + 1 - w
  {
    if w <= n {
      TailPascal(n, w + 1);
      ChooseOutside(n, w + 1);
    } else {
      assert Tail(n + 1, w + 1) == 0 == Tail(n, w) == Tail(n, w + 1);
    }
  }

  lemma {:induction false} RowSum(n: nat)
    ensures Tail(n, 0) == Power2(n)
  {
    if n == 0 {
      assert Tail(0, 1) == 0;
    } else {
      RowSum(n - 1);
      TailPascal(n - 1, 0);
      assert Choose(n, 0) == 1 == Choose(n - 1, 0);
    }
  }

  lemma {:induction false} HeadAndTail(n: nat, w: nat)
    requires w <= n
    ensures Head(n, w) + Tail(n, w + 1) == Power2(n)
  {
    RowSum(n);
    if w > 0 {
      HeadAndTail(n, w - 1);
    }
  }

  lemma {:induction false} TailIsHead(n: nat, w: nat)
    requires w <= n
    ensures Tail(n, w) == Head(n, n - w)
    decreases n - w
  {
    ChooseSymmetric(n, w);
    if w < n {
      TailIsHead(n, w + 1);
    } else {
      assert Tail(n, n + 1) == 0;
    }
  }

  lemma {:induction false} HeadMonotone(n: nat, a: nat, b: nat)
    requires a <= b
    ensures Head(n, a) <= Head(n, b)
    decreases b
  {
    if a < b {
      HeadMonotone(n, a, b - 1);
    }
  }

  /** The upper tail beyond the middle is at most half the row. */
  lemma TailBeyondMiddle(n: nat, w: nat)
    requires w <= n < 2 * w
    ensures 2 * Tail(n, w) <= Power2(n)
  {
    TailIsHead(n, w);
    HeadMonotone(n, n - w, w - 1);
    HeadAndTail(n, w - 1);
  }

  // ------------------------------------------------------------------ the p-value

  function Ratio(a: nat, n: nat): real {
    Quotient(a as real, Power2(n) as real)
  }

  lemma RatioOrder(a: nat, n: nat, b: nat)
    ensures Ratio(a, n) <= Ratio(b, n) <==> a <= b
    ensures Ratio(Power2(n), n) == 1.0 && Ratio(0, n) == 0.0
  {
    hide Quotient, Power2;
    QuotientOrder(a as real, b as real, Power2(n) as real);
  }

  lemma RatioDouble(a: nat, n: nat)
    ensures Ratio(2 * a, n + 1) == Ratio(a, n)
    ensures Ratio(2 * a, n) == 2.0 * Ratio(a, n)
  {
  }

  function PValue(wins: nat, losses: nat): real {
    var discordant := wins + losses;
    if discordant == 0 || wins <= losses then 1.0 else Ratio(Tail(discordant, wins), discordant)
  }

  /** A p-value is a positive probability; it is at most one half when there
      are more wins, and one otherwise. */
  lemma PValueRange(wins: nat, losses: nat)
    ensures 0.0 < PValue(wins, losses) <= 1.0
    ensures wins > losses ==> PValue(wins, losses) <= 0.5
    ensures wins <= losses <==> PValue(wins, losses) == 1.0
  {
    if wins > losses {
      var n := wins + losses;
      TailBeyondMiddle(n, wins);
      ChooseOutside(n, wins);
      assert Tail(n, wins) > 0;
      hide Ratio, Power2, Tail;
      RatioOrder(Tail(n, wins), n, 0);
      RatioDouble(Tail(n, wins), n);
      RatioOrder(2 * Tail(n, wins), n, Power2(n));
    }
  }

  /** One more win never raises the p-value; it lowers it exactly when the wins
      are not behind already. */
  lemma AddedWin(wins: nat, losses: nat)
    ensures PValue(wins + 1, losses) <= PValue(wins, losses)
    ensures PValue(wins + 1, losses) < PValue(wins, losses) <==> wins >= losses
  {
    PValueRange(wins, losses);
    PValueRange(wins + 1, losses);
    if wins > losses {
      var n := wins + losses;
      TailPascal(n, wins);
      ChooseOutside(n, wins);
      RatioDouble(Tail(n, wins), n);
      RatioOrder(2 * Tail(n, wins), n + 1, Tail(n + 1, wins + 1));
    }
  }

  /** One more loss never lowers the p-value; it raises it exactly when the wins
      were ahead. */
  lemma AddedLoss(wins: nat, losses: nat)
    ensures PValue(wins, losses) <= PValue(wins, losses + 1)
    ensures PValue(wins, losses) < PValue(wins, losses + 1) <==> wins > losses
  {
    PValueRange(wins, losses);
    PValueRange(wins, losses + 1);
    if wins > losses + 1 {
      var n := wins + losses;
      TailPascal(n, wins - 1);
      ChooseOutside(n, wins - 1);
      RatioDouble(Tail(n, wins), n);
      RatioOrder(Tail(n + 1, wins), n + 1, 2 * Tail(n, wins));
    }
  }

  // -------------------------------------------- what the p-value is the probability of

  function Trues(s: seq<bool>): nat {
    if s == [] then 0 else (if s[0] then 1 else 0) + Trues(s[1..])
  }

  /** All outcomes of n fair win/loss draws. */
  function Draws(n: nat): set<seq<bool>> {
    if n == 0 then {[]} else Prefixed(true, Draws(n - 1)) + Prefixed(false, Draws(n - 1))
  }

  function Prefixed(b: bool, all: set<seq<bool>>): set<seq<bool>> {
    set s | s in all :: [b] + s
  }

  function AtLeast(n: nat, w: nat): set<seq<bool>> {
    set s | s in Draws(n) && Trues(s) >= w
  }

  lemma InPrefixed(b: bool, all: set<seq<bool>>, s: seq<bool>)
    ensures s in Prefixed(b, all) <==> s != [] && s[0] == b && s[1..] in all
  {
    if s in Prefixed(b, all) {
      var t :| t in all && s == [b] + t;
      assert s[1..] == t;
    }
    if s != [] && s[0] == b {
      assert s == [b] + s[1..];
    }
  }

  lemma {:induction false} DrawsAreAll(n: nat, s: seq<bool>)
    ensures s in Draws(n) <==> |s| == n
  {
    if n > 0 {
      InPrefixed(true, Draws(n - 1), s);
      InPrefixed(false, Draws(n - 1), s);
      if s != [] {
        DrawsAreAll(n - 1, s[1..]);
      }
    }
  }

  lemma {:induction false} PrefixedSize(b: bool, all: set<seq<bool>>)
    ensures |Prefixed(b, all)| == |all|
  {
    if all != {} {
      var s :| s in all;
      PrefixedSize(b, all - {s});
      assert forall t :: t in all && [b] + t == [b] + s ==> t == s by {
        forall t | t in all && [b] + t == [b] + s ensures t == s {
          assert ([b] + t)[1..] == t && ([b] + s)[1..] == s;
        }
      }
      assert Prefixed(b, all) == Prefixed(b, all - {s}) + {[b] + s};
      assert [b] + s !in Prefixed(b, all - {s});
    }
  }

  lemma Doubled(n: nat)
    requires n > 0
    ensures Power2(n) == 2 * Power2(n - 1)
  {
  }

  lemma NoDraws(w: nat)
    ensures |AtLeast(0, w)| == Tail(0, w)
  {
    assert AtLeast(0, w) == if w == 0 then {[]} else {};
    assert Tail(0, 1) == 0;
  }

  lemma AtLeastSplits(n: nat, w: nat)
    requires n > 0
    ensures AtLeast(n, w) ==
      Prefixed(true, AtLeast(n - 1, if w == 0 then 0 else w - 1)) + Prefixed(false, AtLeast(n - 1, w))
    ensures Prefixed(true, AtLeast(n - 1, if w == 0 then 0 else w - 1)) !! Prefixed(false, AtLeast(n - 1, w))
  {
  }

  /** Of the 2^n equally likely outcomes, Tail(n, w) have at least w wins: the
      p-value is the probability of a result as good or better. */
  lemma {:induction false} TailCountsDraws(n: nat, w: nat)
    ensures |AtLeast(n, w)| == Tail(n, w)
  {
    hide AtLeast, Prefixed, Tail, Choose, Power2;
    if n == 0 {
      NoDraws(w);
    } else {
      var w' := if w == 0 then 0 else w - 1;
      AtLeastSplits(n, w);
      PrefixedSize(true, AtLeast(n - 1, w'));
      PrefixedSize(false, AtLeast(n - 1, w));
      TailCountsDraws(n - 1, w');
      TailCountsDraws(n - 1, w);
      if w == 0 {
        RowSum(n);
        RowSum(n - 1);
        Doubled(n);
      } else {
        TailPascal(n - 1, w - 1);
      }
    }
  }

  lemma AllDraws(n: nat)
    ensures AtLeast(n, 0) == Draws(n)
  {
  }

  lemma PValueIsProbability(wins: nat, losses: nat)
    requires wins > losses
    ensures var n := wins + losses;
      |Draws(n)| > 0 && PValue(wins, losses) == Quotient(|AtLeast(n, wins)| as real, |Draws(n)| as real)
  {
    hide Quotient, AtLeast, Draws, Tail, Power2;
    var n := wins + losses;
    AllDraws(n);
    TailCountsDraws(n, wins);
    TailCountsDraws(n, 0);
    RowSum(n);
  }

  // ------------------------------------------------------------ the paired comparison

  /** One question: whether it is answerable, and whether each arm kept gold. */
  datatype Outcome = Outcome(gold: bool, greedy: bool, facility: bool)

  datatype Comparison = Comparison(delta: real, wins: nat, losses: nat, ties: int, p: real)

  function Answerable(outcomes: seq<Outcome>): (r: seq<Outcome>) {
    if outcomes == [] then [] else (if outcomes[0].gold then [outcomes[0]] else []) + Answerable(outcomes[1..])
  }

  function Count(outcomes: seq<Outcome>, f: Outcome -> bool): nat {
    if outcomes == [] then 0 else (if f(outcomes[0]) then 1 else 0) + Count(outcomes[1..], f)
  }

  const GREEDY := (o: Outcome) => o.greedy
  const FACILITY := (o: Outcome) => o.facility
  const WIN := (o: Outcome) => o.facility && !o.greedy
  const LOSS := (o: Outcome) => o.greedy && !o.facility
  const TIE := (o: Outcome) => o.greedy == o.facility

  /** No comparison without an answerable question: the mean divides by their
      number. */
  function Compare(outcomes: seq<Outcome>): Option<Comparison> {
    var answerable := Answerable(outcomes);
    if answerable == [] then
      None
    else
      var wins, losses := Count(answerable, WIN), Count(answerable, LOSS);
      Some(Comparison(
        Quotient((Count(answerable, FACILITY) - Count(answerable, GREEDY)) as real, |answerable| as real),
        wins, losses, |answerable| - wins - losses, PValue(wins, losses)))
  }

  /** The answerable questions with a property, by their positions. */
  function Questions(outcomes: seq<Outcome>, f: Outcome -> bool): set<nat> {
    set i: nat | i < |outcomes| && outcomes[i].gold && f(outcomes[i])
  }

  lemma {:induction false} AnswerableAppend(outcomes: seq<Outcome>, o: Outcome, f: Outcome -> bool)
    ensures |Answerable(outcomes + [o])| == |Answerable(outcomes)| + if o.gold then 1 else 0
    ensures Count(Answerable(outcomes + [o]), f)
      == Count(Answerable(outcomes), f) + if o.gold && f(o) then 1 else 0
  {
    if outcomes == [] {
      assert outcomes + [o] == [o] && [o][1..] == [];
      assert Answerable([o]) == if o.gold then [o] else [];
    } else {
      AnswerableAppend(outcomes[1..], o, f);
      assert (outcomes + [o])[1..] == outcomes[1..] + [o];
      CountFirst(outcomes[0], Answerable(outcomes[1..]), f);
      CountFirst(outcomes[0], Answerable(outcomes[1..] + [o]), f);
    }
  }

  lemma CountFirst(o: Outcome, rest: seq<Outcome>, f: Outcome -> bool)
    ensures Count([o] + rest, f) == (if f(o) then 1 else 0) + Count(rest, f)
    ensures [] + rest == rest
  {
    assert ([o] + rest)[1..] == rest;
  }

  /** Counting among the answerable outcomes is counting questions. */
  lemma {:induction false} AnswerableCount(outcomes: seq<Outcome>, f: Outcome -> bool)
    ensures Count(Answerable(outcomes), f) == |Questions(outcomes, f)|
    ensures |Answerable(outcomes)| == |Questions(outcomes, o => true)|
  {
    if outcomes == [] {
      assert Questions(outcomes, f) == {} && Questions(outcomes, o => true) == {};
    } else {
      var n := |outcomes| - 1;
      var front, last := outcomes[..n], outcomes[n];
      assert outcomes == front + [last];
      AnswerableAppend(front, last, f);
      AnswerableCount(front, f);
      QuestionsGrow(front, last, f);
      QuestionsGrow(front, last, o => true);
    }
  }

  lemma QuestionsGrow(front: seq<Outcome>, last: Outcome, f: Outcome -> bool)
    ensures |Questions(front + [last], f)| == |Questions(front, f)| + if last.gold && f(last) then 1 else 0
  {
    var all, n := front + [last], |front|;
    assert Questions(all, f) == Questions(front, f) + if last.gold && f(last) then {n} else {};
  }

  /** What is compared, question by question: a win, a loss and a tie are what
      their names say, and only answerable questions count. */
  lemma CompareCounts(outcomes: seq<Outcome>)
    ensures Compare(outcomes).Some? <==> exists i :: 0 <= i < |outcomes| && outcomes[i].gold
    ensures Compare(outcomes).Some? ==>
      var c := Compare(outcomes).value;
      && c.wins == |set i: nat | i < |outcomes| && outcomes[i].gold && outcomes[i].facility && !outcomes[i].greedy|
      && c.losses == |set i: nat | i < |outcomes| && outcomes[i].gold && outcomes[i].greedy && !outcomes[i].facility|
      && c.ties == |set i: nat | i < |outcomes| && outcomes[i].gold && outcomes[i].greedy == outcomes[i].facility|
      && c.p == PValue(c.wins, c.losses)
      && c.delta * |set i: nat | i < |outcomes| && outcomes[i].gold| as real == (c.wins - c.losses) as real
  {
    hide *;
    QuestionsMean(outcomes);
    AnswerableCount(outcomes, WIN);
    AnswerableCount(outcomes, LOSS);
    AnswerableCount(outcomes, TIE);
    CompareFields(outcomes);
    if Compare(outcomes).Some? {
      CompareMeans(outcomes);
    }
  }

  lemma CompareFields(outcomes: seq<Outcome>)
    ensures var pairs := Answerable(outcomes);
      && (Compare(outcomes).Some? <==> |pairs| > 0)
      && (Compare(outcomes).Some? ==>
        var c := Compare(outcomes).value;
        c.wins == Count(pairs, WIN) && c.losses == Count(pairs, LOSS) && c.p == PValue(c.wins, c.losses))
  {
    hide Count, PValue, Answerable, Quotient;
  }

  lemma QuestionsMean(outcomes: seq<Outcome>)
    ensures Questions(outcomes, WIN)
      == set i: nat | i < |outcomes| && outcomes[i].gold && outcomes[i].facility && !outcomes[i].greedy
    ensures Questions(outcomes, LOSS)
      == set i: nat | i < |outcomes| && outcomes[i].gold && outcomes[i].greedy && !outcomes[i].facility
    ensures Questions(outcomes, TIE)
      == set i: nat | i < |outcomes| && outcomes[i].gold && outcomes[i].greedy == outcomes[i].facility
    ensures Questions(outcomes, o => true) == set i: nat | i < |outcomes| && outcomes[i].gold
    ensures |Questions(outcomes, o => true)| > 0 <==> exists i :: 0 <= i < |outcomes| && outcomes[i].gold
  {
    if i :| 0 <= i < |outcomes| && outcomes[i].gold {
      assert i in Questions(outcomes, o => true);
    }
    if |Questions(outcomes, o => true)| > 0 {
      var i :| i in Questions(outcomes, o => true);
      assert outcomes[i].gold;
    }
  }

  lemma {:induction false} PairsBalance(pairs: seq<Outcome>)
    ensures Count(pairs, WIN) - Count(pairs, LOSS) == Count(pairs, FACILITY) - Count(pairs, GREEDY)
    ensures Count(pairs, WIN) + Count(pairs, LOSS) + Count(pairs, TIE) == |pairs|
  {
    if pairs != [] {
      PairsBalance(pairs[1..]);
    }
  }

  /** The reported ties are the equal pairs; wins and losses differ by the
      difference of the arms' totals; so the test reports less than certainty,
      and then at most one half, exactly when the mean went up. */
  lemma CompareMeans(outcomes: seq<Outcome>)
    requires Compare(outcomes).Some?
    ensures var c := Compare(outcomes).value;
      var pairs := Answerable(outcomes);
      && c.ties == Count(pairs, TIE)
      && c.wins - c.losses == Count(pairs, FACILITY) - Count(pairs, GREEDY)
      && c.delta * |pairs| as real == (c.wins - c.losses) as real
      && (c.p < 1.0 <==> c.delta > 0.0) && (c.delta > 0.0 ==> c.p <= 0.5)
  {
    hide Count, PValue, Quotient, Answerable;
    var c, pairs := Compare(outcomes).value, Answerable(outcomes);
    PairsBalance(pairs);
    PValueRange(c.wins, c.losses);
    QuotientMeans((c.wins - c.losses) as real, |pairs| as real);
    QuotientOrder((c.wins - c.losses) as real, 0.0, |pairs| as real);
  }

  function Swapped(outcomes: seq<Outcome>): seq<Outcome> {
    seq(|outcomes|, i requires 0 <= i < |outcomes| =>
      Outcome(outcomes[i].gold, outcomes[i].facility, outcomes[i].greedy))
  }

  lemma {:induction false} SwappedCounts(outcomes: seq<Outcome>)
    ensures var a, b := Answerable(outcomes), Answerable(Swapped(outcomes));
      && |a| == |b| && Count(a, WIN) == Count(b, LOSS) && Count(a, LOSS) == Count(b, WIN)
      && Count(a, FACILITY) == Count(b, GREEDY) && Count(a, GREEDY) == Count(b, FACILITY)
  {
    if outcomes != [] {
      SwappedCounts(outcomes[1..]);
      assert Swapped(outcomes)[1..] == Swapped(outcomes[1..]);
      assert ([outcomes[0]] + Answerable(outcomes[1..]))[1..] == Answerable(outcomes[1..]);
      var s := Swapped(outcomes)[0];
      assert ([s] + Answerable(Swapped(outcomes[1..])))[1..] == Answerable(Swapped(outcomes[1..]));
      if !outcomes[0].gold {
        assert Answerable(outcomes) == Answerable(outcomes[1..]);
        assert Answerable(Swapped(outcomes)) == Answerable(Swapped(outcomes[1..]));
      }
    }
  }

  /** Exchanging the arms exchanges wins and losses and negates the delta, and
      never are both directions below certainty. */
  lemma SwappedCompare(outcomes: seq<Outcome>)
    requires Compare(outcomes).Some?
    ensures Compare(Swapped(outcomes)).Some?
    ensures var c, s := Compare(outcomes).value, Compare(Swapped(outcomes)).value;
      s.wins == c.losses && s.losses == c.wins && s.ties == c.ties && s.delta == -c.delta && (c.p == 1.0 || s.p == 1.0)
  {
    SwappedCounts(outcomes);
    CompareMeans(outcomes);
    CompareMeans(Swapped(outcomes));
    PValueRange(Compare(outcomes).value.wins, Compare(outcomes).value.losses);
    PValueRange(Compare(outcomes).value.losses, Compare(outcomes).value.wins);
    hide Count, PValue, Quotient, Answerable;
    var pairs := Answerable(outcomes);
    QuotientDoubles((Count(pairs, FACILITY) - Count(pairs, GREEDY)) as real, |pairs| as real);
  }
}
