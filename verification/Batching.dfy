/** Padding-aware batching and the embedder around it
    (scripts/run_longmemeval_e1_external.py, lines 109-114 and 669-858). */
module Batching {
  import opened Wrappers

  const MAX_LENGTH := 8192
  const CELL_BUDGET := 33_554_432

  type Tokens = seq<int>

  /** One tokenized text: its input position, its ids and whether they were cut. */
  datatype Encoded = Encoded(position: nat, ids: Tokens, truncated: bool)

  type Batch = seq<Encoded>

  datatype BatchError = BatchSizeNotPositive | EmptyInput | NotSorted | SingletonNotAdmitted

  function Length(e: Encoded): nat {
    |e.ids|
  }

  // ------------------------------------------------------------ admissibility

  /** The three limits, asked of a batch whose last item is its longest: size,
      padding ratio 2 and attention cells. One item alone only has to meet the
      size limit. */
  predicate Exceeds(batch: Batch, size: int)
    requires batch != []
  {
    var maximum, minimum := Length(batch[|batch| - 1]), Length(batch[0]);
    || |batch| > size
    || (|batch| > 1 && (maximum > 2 * minimum || |batch| * maximum * maximum > CELL_BUDGET))
  }

  ghost predicate Sorted(xs: seq<Encoded>) {
    forall i, j :: 0 <= i <= j < |xs| ==> Length(xs[i]) <= Length(xs[j])
  }

  ghost predicate Positive(xs: seq<Encoded>) {
    forall i :: 0 <= i < |xs| ==> 1 <= Length(xs[i])
  }

  ghost predicate Admissible(batch: Batch, size: int) {
    batch != [] && !Exceeds(batch, size)
  }

  /** `batches` cuts `xs` into contiguous admissible batches. */
  ghost predicate Splits(xs: seq<Encoded>, batches: seq<Batch>, size: int) {
    Flatten(batches) == xs && forall i :: 0 <= i < |batches| ==> Admissible(batches[i], size)
  }

  function Flatten(batches: seq<Batch>): seq<Encoded> {
    if |batches| == 0 then [] else batches[0] + Flatten(batches[1..])
  }

  lemma CellsMonotone(n: nat, m: nat, a: nat, b: nat)
    requires n <= m && a <= b
    ensures n * a * a <= m * b * b
  {
  }

  /** On a sorted list every part of an admissible batch is admissible. */
  lemma AdmissibleIsHereditary(batch: Batch, size: int, i: nat, j: nat)
    requires Sorted(batch) && Admissible(batch, size) && i < j <= |batch|
    ensures Admissible(batch[i..j], size)
  {
    var part := batch[i..j];
    assert part[0] == batch[i] && part[|part| - 1] == batch[j - 1];
    if |part| > 1 {
      CellsMonotone(|part|, |batch|, Length(batch[j - 1]), Length(batch[|batch| - 1]));
    }
  }

  /** What admits a sorted batch, asked of its items alone: no more than `size` of
      them; and if there are several, none longer than twice another, and none so
      long that the batch padded to it would leave the cell budget. */
  lemma AdmissibleIsPairwise(batch: Batch, size: int)
    requires Sorted(batch) && batch != []
    ensures Admissible(batch, size) <==>
      && |batch| <= size
      && (|batch| > 1 ==>
        && (forall x, y :: x in batch && y in batch ==> |x.ids| <= 2 * |y.ids|)
        && (forall x :: x in batch ==> |batch| * |x.ids| * |x.ids| <= 33_554_432))
  {
    var first, last := batch[0], batch[|batch| - 1];
    assert first in batch && last in batch;
    forall x | x in batch
      ensures Length(first) <= Length(x) <= Length(last)
      ensures |batch| * |x.ids| * |x.ids| <= |batch| * Length(last) * Length(last)
    {
      CellsMonotone(|batch|, |batch|, Length(x), Length(last));
    }
  }

  // ------------------------------------------------------------------- greedy

  /** The greedy cut of `rest`, with `current` already collected. */
  function Greedy(current: Batch, rest: seq<Encoded>, size: int): seq<Batch>
    decreases |rest|
  {
    if rest == [] then
      if current == [] then [] else [current]
    else
      var proposed := current + [rest[0]];
      if Exceeds(proposed, size) && current != [] then [current] + Greedy([rest[0]], rest[1..], size)
      else Greedy(proposed, rest[1..], size)
  }

  /** Every item enters exactly one batch, in order, and every batch is
      admissible. */
  lemma {:induction false} GreedySplits(current: Batch, rest: seq<Encoded>, size: int)
    requires 1 <= size && (current == [] || Admissible(current, size))
    ensures Splits(current + rest, Greedy(current, rest, size), size)
    decreases |rest|
  {
    if rest == [] {
      assert current + rest == current;
      if current != [] {
        assert Flatten([current]) == current + Flatten([]);
      }
    } else {
      var proposed := current + [rest[0]];
      if Exceeds(proposed, size) && current != [] {
        GreedySplits([rest[0]], rest[1..], size);
        assert [rest[0]] + rest[1..] == rest;
        var tail := Greedy([rest[0]], rest[1..], size);
        assert ([current] + tail)[1..] == tail;
      } else {
        GreedySplits(proposed, rest[1..], size);
        assert proposed + rest[1..] == current + rest;
      }
    }
  }

  lemma SortedPart(xs: seq<Encoded>, i: nat, j: nat)
    requires Sorted(xs) && i <= j <= |xs|
    ensures Sorted(xs[i..j])
  {
  }

  lemma SplitsTail(xs: seq<Encoded>, batches: seq<Batch>, size: int)
    requires Sorted(xs) && Splits(xs, batches, size) && batches != []
    ensures Admissible(batches[0], size) && Sorted(batches[0])
    ensures xs == batches[0] + Flatten(batches[1..])
    ensures Sorted(xs[|batches[0]|..]) && Splits(xs[|batches[0]|..], batches[1..], size)
  {
    hide Admissible;
    var first, tail := batches[0], batches[1..];
    assert first == xs[0..|first|] && Flatten(tail) == xs[|first|..];
    SortedPart(xs, 0, |first|);
    SortedPart(xs, |first|, |xs|);
    assert forall i :: 0 <= i < |tail| ==> tail[i] == batches[i + 1];
  }

  lemma SplitsCons(first: Batch, xs: seq<Encoded>, batches: seq<Batch>, size: int)
    requires Admissible(first, size) && Splits(xs, batches, size)
    ensures Splits(first + xs, [first] + batches, size)
  {
  }

  lemma SplitsNothing(xs: seq<Encoded>, size: int, k: nat)
    requires Splits(xs, [], size) && k <= |xs|
    ensures Splits(xs[k..], [], size)
  {
  }

  /** A cut of the whole gives a cut of any suffix with no more batches, and
      with one batch fewer once its first batch is gone. */
  lemma {:induction false} DropFront(xs: seq<Encoded>, batches: seq<Batch>, size: int, k: nat)
    returns (rest: seq<Batch>)
    requires Sorted(xs) && Splits(xs, batches, size) && k <= |xs|
    ensures Splits(xs[k..], rest, size) && |rest| <= |batches|
    ensures batches != [] && |batches[0]| <= k ==> |rest| < |batches|
  {
    hide *;
    if batches == [] {
      rest := [];
      SplitsNothing(xs, size, k);
    } else {
      var first, tail := batches[0], batches[1..];
      SplitsTail(xs, batches, size);
      if k < |first| {
        AdmissibleIsHereditary(first, size, k, |first|);
        assert first[k..|first|] == first[k..];
        SplitsCons(first[k..], xs[|first|..], tail, size);
        rest := [first[k..]] + tail;
        assert xs[k..] == first[k..] + xs[|first|..];
      } else {
        rest := DropFront(xs[|first|..], tail, size, k - |first|);
        assert xs[|first|..][k - |first|..] == xs[k..];
      }
    }
  }

  /** Greedy stays ahead: no cut into admissible batches is shorter. */
  lemma {:induction false} GreedyIsShortest(
    current: Batch, rest: seq<Encoded>, batches: seq<Batch>, size: int)
    requires 1 <= size && (current == [] || Admissible(current, size))
    requires Sorted(current + rest) && Splits(current + rest, batches, size)
    ensures |Greedy(current, rest, size)| <= |batches|
    decreases |rest|
  {
    var xs := current + rest;
    if rest == [] {
      assert current != [] ==> batches != [];
    } else {
      var proposed := current + [rest[0]];
      assert xs == proposed + rest[1..];
      if Exceeds(proposed, size) && current != [] {
        var first := batches[0];
        if |first| > |current| {
          assert first == xs[0..|first|];
          SortedPart(xs, 0, |first|);
          assert first[0..|proposed|] == proposed;
          AdmissibleIsHereditary(first, size, 0, |proposed|);
          assert false;
        }
        var others := DropFront(xs, batches, size, |current|);
        assert xs[|current|..] == rest == [rest[0]] + rest[1..];
        SortedPart(xs, |current|, |xs|);
        GreedyIsShortest([rest[0]], rest[1..], others, size);
      } else {
        GreedyIsShortest(proposed, rest[1..], batches, size);
      }
    }
  }

  /** One turn of the greedy cut. */
  lemma GreedyNow(current: Batch, rest: seq<Encoded>, size: int)
    ensures rest == [] ==> Greedy(current, rest, size) == if current == [] then [] else [current]
    ensures rest != [] ==>
      var proposed := current + [rest[0]];
      Greedy(current, rest, size) ==
        if Exceeds(proposed, size) && current != [] then [current] + Greedy([rest[0]], rest[1..], size)
        else Greedy(proposed, rest[1..], size)
  {
  }

  lemma SortedExtended(xs: seq<Encoded>, i: nat)
    requires i < |xs| && Sorted(xs[..i]) && Positive(xs[..i]) && 1 <= Length(xs[i])
    requires i > 0 ==> Length(xs[i - 1]) <= Length(xs[i])
    ensures Sorted(xs[..i + 1]) && Positive(xs[..i + 1])
  {
  }

  lemma SortedNothing(xs: seq<Encoded>)
    ensures Sorted(xs[..0]) && Positive(xs[..0])
  {
  }

  lemma NotPositiveAt(xs: seq<Encoded>, i: nat)
    requires i < |xs| && Length(xs[i]) < 1
    ensures !Positive(xs)
  {
  }

  lemma NotSortedAt(xs: seq<Encoded>, i: nat)
    requires 0 < i < |xs| && Length(xs[i]) < Length(xs[i - 1])
    ensures !Sorted(xs)
  {
  }

  /** The batching loop: it refuses exactly a non-positive batch size, an empty
      input and an unsorted list, never for want of room for a single item, and
      otherwise returns the fewest admissible batches. */
  method PaddingAwareBatches(encoded: seq<Encoded>, size: int) returns (r: Result<seq<Batch>, BatchError>)
    ensures r.Success? <==> 1 <= size && Positive(encoded) && Sorted(encoded)
    ensures r.Success? ==> r.value == Greedy([], encoded, size)
    ensures r.Success? ==> Splits(encoded, r.value, size)
    ensures r.Success? ==> forall other :: Splits(encoded, other, size) ==> |r.value| <= |other|
    ensures r.Failure? ==> r.error != SingletonNotAdmitted
    ensures r.Failure? && r.error.EmptyInput? ==> !Positive(encoded)
    ensures r.Failure? && r.error.NotSorted? ==> !Sorted(encoded)
    ensures r.Failure? && r.error.BatchSizeNotPositive? <==> size < 1
  {
    hide *;
    if size < 1 {
      return Failure(BatchSizeNotPositive);
    }
    var batches: seq<Batch>, current: Batch := [], [];
    var prior := 0;
    SortedNothing(encoded);
    assert encoded[0..] == encoded;
    for i := 0 to |encoded|
      invariant Positive(encoded[..i]) && Sorted(encoded[..i])
      invariant prior == if i == 0 then 0 else Length(encoded[i - 1])
      invariant current == [] || Admissible(current, size)
      invariant batches + Greedy(current, encoded[i..], size) == Greedy([], encoded, size)
    {
      var item := encoded[i];
      var length := Length(item);
      if length < 1 {
        NotPositiveAt(encoded, i);
        return Failure(EmptyInput);
      }
      if length < prior {
        NotSortedAt(encoded, i);
        return Failure(NotSorted);
      }
      prior := length;
      SortedExtended(encoded, i);
      var proposed := current + [item];
      assert encoded[i..][0] == item && encoded[i..][1..] == encoded[i + 1..];
      GreedyNow(current, encoded[i..], size);
      AdmissibleMeans(proposed, size);
      SingletonFits(item, size);
      if Exceeds(proposed, size) {
        if current == [] {
          return Failure(SingletonNotAdmitted);
        }
        batches, current := batches + [current], [item];
      } else {
        current := proposed;
      }
    }
    assert encoded[..|encoded|] == encoded && encoded[|encoded|..] == [];
    GreedyNow(current, [], size);
    if current != [] {
      batches := batches + [current];
    }
    assert batches == Greedy([], encoded, size);
    assert [] + encoded == encoded;
    GreedySplits([], encoded, size);
    forall other | Splits(encoded, other, size) ensures |batches| <= |other| {
      GreedyIsShortest([], encoded, other, size);
    }
    r := Success(batches);
  }

  lemma AdmissibleMeans(batch: Batch, size: int)
    requires batch != []
    ensures Admissible(batch, size) <==> !Exceeds(batch, size)
  {
  }

  lemma SingletonFits(item: Encoded, size: int)
    requires 1 <= size
    ensures !Exceeds([item], size) && Admissible([item], size)
    ensures [] + [item] == [item]
  {
  }
}
