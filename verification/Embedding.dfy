/** The embedder around the batcher: sort by length, run the model batch by
    batch, retry non-finite rows alone, scatter back to input order
    (scripts/run_longmemeval_e1_external.py, lines 760-858). */
module Embedding {
  import opened Wrappers
  import opened Batching

  /** The model as a function on a padded batch: one row per item, None when
      the pooled row is not finite. */
  type Model<!V> = seq<Tokens> -> seq<Option<V>>

  datatype Embedded<V> = Embedded(
    vectors: seq<V>, tokenCounts: seq<nat>, truncated: seq<bool>, retries: set<nat>,
    plan: seq<seq<nat>>, modelBatches: nat, paddedTokens: nat, paddedCells: nat)

  datatype EmbedError = NoTexts | Unbatchable(error: BatchError) | NonFinite(position: nat)

  // ------------------------------------------------------------ sorted inputs

  function EncodeAt(encode: string -> Tokens, texts: seq<string>, i: nat): (e: Encoded)
    requires i < |texts|
    ensures e.position == i && e.ids <= encode(texts[i]) && |e.ids| <= 8192
    ensures e.truncated <==> e.ids != encode(texts[i])
    ensures e.truncated ==> |e.ids| == 8192
  {
    var ids := encode(texts[i]);
    if |ids| > MAX_LENGTH then Encoded(i, ids[..MAX_LENGTH], true) else Encoded(i, ids, false)
  }

  /** The sort key is the pair (length, position). */
  predicate Before(a: Encoded, b: Encoded) {
    Length(a) < Length(b) || (Length(a) == Length(b) && a.position <= b.position)
  }

  function Insert(e: Encoded, xs: seq<Encoded>): seq<Encoded> {
    if xs == [] then [e]
    else if Before(e, xs[0]) then [e] + xs
    else [xs[0]] + Insert(e, xs[1..])
  }

  function SortedInputs(encode: string -> Tokens, texts: seq<string>, n: nat): seq<Encoded>
    requires n <= |texts|
  {
    if n == 0 then [] else Insert(EncodeAt(encode, texts, n - 1), SortedInputs(encode, texts, n - 1))
  }

  function Positions(xs: seq<Encoded>): seq<nat> {
    if xs == [] then [] else [xs[0].position] + Positions(xs[1..])
  }

  lemma {:induction false} InsertKeeps(e: Encoded, xs: seq<Encoded>)
    ensures |Insert(e, xs)| == |xs| + 1
    ensures multiset(Insert(e, xs)) == multiset(xs) + multiset{e}
  {
    if xs != [] && !Before(e, xs[0]) {
      InsertKeeps(e, xs[1..]);
      hide *;
      InsertLater(e, xs);
      assert xs == [xs[0]] + xs[1..];
    }
  }

  lemma InsertLater(e: Encoded, xs: seq<Encoded>)
    requires xs != [] && !Before(e, xs[0])
    ensures Insert(e, xs) == [xs[0]] + Insert(e, xs[1..])
  {
  }

  lemma PositionsCons(x: Encoded, xs: seq<Encoded>)
    ensures Positions([x] + xs) == [x.position] + Positions(xs)
  {
  }

  lemma {:induction false} InsertPositions(e: Encoded, xs: seq<Encoded>)
    ensures multiset(Positions(Insert(e, xs))) == multiset(Positions(xs)) + multiset{e.position}
  {
    hide *;
    if xs == [] || Before(e, xs[0]) {
      InsertHere(e, xs);
      PositionsCons(e, xs);
    } else {
      InsertPositions(e, xs[1..]);
      InsertLater(e, xs);
      PositionsCons(xs[0], Insert(e, xs[1..]));
      PositionsCons(xs[0], xs[1..]);
      assert xs == [xs[0]] + xs[1..];
    }
  }

  lemma InsertHere(e: Encoded, xs: seq<Encoded>)
    requires xs == [] || Before(e, xs[0])
    ensures Insert(e, xs) == [e] + xs
  {
  }

  lemma InsertMembers(e: Encoded, xs: seq<Encoded>)
    ensures forall x :: x in Insert(e, xs) <==> x == e || x in xs
  {
  }

  lemma SortedCons(x: Encoded, xs: seq<Encoded>)
    requires Sorted(xs) && forall y :: y in xs ==> Length(x) <= Length(y)
    ensures Sorted([x] + xs)
  {
  }

  lemma {:induction false} InsertSorts(e: Encoded, xs: seq<Encoded>)
    requires Sorted(xs)
    ensures Sorted(Insert(e, xs))
  {
    if xs == [] {
    } else if Before(e, xs[0]) {
      SortedCons(e, xs);
    } else {
      SortedPart(xs, 1, |xs|);
      InsertSorts(e, xs[1..]);
      InsertMembers(e, xs[1..]);
      forall y | y in Insert(e, xs[1..]) ensures Length(xs[0]) <= Length(y) {
        if y != e {
          var i :| 0 <= i < |xs[1..]| && xs[1..][i] == y;
          assert xs[i + 1] == y;
        }
      }
      SortedCons(xs[0], Insert(e, xs[1..]));
    }
  }

  /** The sort key decides: shorter first, and among equals the earlier input. */
  ghost predicate InOrder(xs: seq<Encoded>) {
    forall i, j :: 0 <= i < j < |xs| ==>
      |xs[i].ids| < |xs[j].ids| || (|xs[i].ids| == |xs[j].ids| && xs[i].position <= xs[j].position)
  }

  lemma InOrderCons(x: Encoded, xs: seq<Encoded>)
    requires InOrder(xs) && forall y :: y in xs ==> Before(x, y)
    ensures InOrder([x] + xs)
  {
    var all := [x] + xs;
    forall i, j | 0 <= i < j < |all| ensures Before(all[i], all[j]) {
      assert all[j] == xs[j - 1] && all[j] in xs;
      assert i > 0 ==> all[i] == xs[i - 1];
    }
  }

  lemma InOrderTail(xs: seq<Encoded>)
    requires InOrder(xs) && xs != []
    ensures InOrder(xs[1..]) && forall y :: y in xs[1..] ==> Before(xs[0], y)
  {
  }

  lemma {:induction false} InsertKeepsOrder(e: Encoded, xs: seq<Encoded>)
    requires InOrder(xs)
    ensures InOrder(Insert(e, xs))
  {
    if xs == [] {
    } else {
      InOrderTail(xs);
      if Before(e, xs[0]) {
        assert forall y :: y in xs ==> y == xs[0] || y in xs[1..];
        hide InOrder;
        InOrderCons(e, xs);
      } else {
        hide InOrder;
        InsertKeepsOrder(e, xs[1..]);
        InsertMembers(e, xs[1..]);
        InOrderCons(xs[0], Insert(e, xs[1..]));
      }
    }
  }

  /** The batches are cut from the inputs in the order of their sort key. */
  lemma {:induction false} SortedInputsInOrder(encode: string -> Tokens, texts: seq<string>, n: nat)
    requires n <= |texts|
    ensures InOrder(SortedInputs(encode, texts, n))
  {
    if n > 0 {
      SortedInputsInOrder(encode, texts, n - 1);
      InsertKeepsOrder(EncodeAt(encode, texts, n - 1), SortedInputs(encode, texts, n - 1));
    }
  }

  function UpTo(n: nat): seq<nat> {
    seq(n, i => i)
  }

  /** Sorting keeps every input, once. */
  lemma {:induction false} SortedInputsAreInputs(encode: string -> Tokens, texts: seq<string>, n: nat)
    requires n <= |texts|
    ensures var xs := SortedInputs(encode, texts, n);
      && Sorted(xs) && |xs| == n
      && (forall i :: 0 <= i < n ==> EncodeAt(encode, texts, i) in xs)
      && (forall e :: e in xs ==> e.position < n && e == EncodeAt(encode, texts, e.position))
      && multiset(Positions(xs)) == multiset(UpTo(n))
  {
    hide Insert, Sorted, Positions, EncodeAt;
    if n > 0 {
      var xs, e := SortedInputs(encode, texts, n - 1), EncodeAt(encode, texts, n - 1);
      SortedInputsAreInputs(encode, texts, n - 1);
      InsertSorts(e, xs);
      InsertKeeps(e, xs);
      InsertPositions(e, xs);
      InsertMembers(e, xs);
      assert UpTo(n) == UpTo(n - 1) + [n - 1];
    } else {
      NothingSorted();
    }
  }

  lemma NothingSorted()
    ensures Sorted([]) && Positions([]) == []
  {
  }

  lemma {:induction false} PositionsAppend(xs: seq<Encoded>, ys: seq<Encoded>)
    ensures Positions(xs + ys) == Positions(xs) + Positions(ys)
  {
    if xs == [] {
      assert xs + ys == ys;
    } else {
      assert (xs + ys)[1..] == xs[1..] + ys;
      PositionsAppend(xs[1..], ys);
    }
  }

  function Plan(batches: seq<Batch>): seq<seq<nat>> {
    if batches == [] then [] else [Positions(batches[0])] + Plan(batches[1..])
  }

  function FlattenPlan(plan: seq<seq<nat>>): seq<nat> {
    if plan == [] then [] else plan[0] + FlattenPlan(plan[1..])
  }

  lemma {:induction false} PlanCovers(batches: seq<Batch>)
    ensures FlattenPlan(Plan(batches)) == Positions(Flatten(batches))
  {
    if batches != [] {
      PlanCovers(batches[1..]);
      PositionsAppend(batches[0], Flatten(batches[1..]));
    }
  }

  // --------------------------------------------------------------- accounting

  function MaxLength(batch: Batch): nat {
    if batch == [] then 0
    else
      var rest := MaxLength(batch[1..]);
      if Length(batch[0]) < rest then rest else Length(batch[0])
  }

  function Lengths(xs: seq<Encoded>): nat {
    if xs == [] then 0 else Length(xs[0]) + Lengths(xs[1..])
  }

  function Squares(xs: seq<Encoded>): nat {
    if xs == [] then 0 else Length(xs[0]) * Length(xs[0]) + Squares(xs[1..])
  }

  function BatchTokens(batch: Batch): nat {
    |batch| * MaxLength(batch)
  }

  function BatchCells(batch: Batch): nat {
    |batch| * MaxLength(batch) * MaxLength(batch)
  }

  /** Tokens of all padded batches. */
  function PaddedTokens(batches: seq<Batch>): nat {
    if batches == [] then 0 else BatchTokens(batches[0]) + PaddedTokens(batches[1..])
  }

  /** Attention cells of all padded batches. */
  function PaddedCells(batches: seq<Batch>): nat {
    if batches == [] then 0 else BatchCells(batches[0]) + PaddedCells(batches[1..])
  }

  lemma {:induction false} MaxIsLast(batch: Batch)
    requires Sorted(batch) && batch != []
    ensures MaxLength(batch) == Length(batch[|batch| - 1])
  {
    if |batch| > 1 {
      SortedPart(batch, 1, |batch|);
      MaxIsLast(batch[1..]);
    }
  }

  lemma {:induction false} SumsAppend(xs: seq<Encoded>, ys: seq<Encoded>)
    ensures Lengths(xs + ys) == Lengths(xs) + Lengths(ys)
    ensures Squares(xs + ys) == Squares(xs) + Squares(ys)
  {
    if xs == [] {
      assert xs + ys == ys;
    } else {
      assert (xs + ys)[1..] == xs[1..] + ys;
      SumsAppend(xs[1..], ys);
    }
  }

  lemma SquareBound(m: nat, a: nat)
    requires m <= 2 * a
    ensures m * m <= 4 * (a * a)
  {
  }

  lemma {:induction false} PaddingBound(xs: seq<Encoded>, m: nat)
    requires forall i :: 0 <= i < |xs| ==> m <= 2 * Length(xs[i])
    ensures |xs| * m <= 2 * Lengths(xs)
    ensures |xs| * (m * m) <= 4 * Squares(xs)
  {
    if xs != [] {
      PaddingBound(xs[1..], m);
      SquareBound(m, Length(xs[0]));
      assert |xs| * m == m + |xs[1..]| * m;
      assert |xs| * (m * m) == m * m + |xs[1..]| * (m * m);
    }
  }

  /** A batch is padded to its longest item. */
  lemma BatchSizes(batch: Batch)
    requires Sorted(batch) && batch != []
    ensures var longest := |batch[|batch| - 1].ids|;
      BatchTokens(batch) == |batch| * longest && BatchCells(batch) == |batch| * longest * longest
    ensures Lengths(batch) <= BatchTokens(batch)
  {
    MaxIsLast(batch);
    LengthsBound(batch, Length(batch[|batch| - 1]));
  }

  lemma {:induction false} LengthsBound(xs: seq<Encoded>, m: nat)
    requires forall i :: 0 <= i < |xs| ==> Length(xs[i]) <= m
    ensures Lengths(xs) <= |xs| * m
  {
    if xs != [] {
      LengthsBound(xs[1..], m);
      assert |xs| * m == m + |xs[1..]| * m;
    }
  }

  /** Padding at most doubles the tokens and quadruples the attention cells. */
  lemma {:induction false} PaddingIsBounded(xs: seq<Encoded>, batches: seq<Batch>, size: int)
    requires Sorted(xs) && Splits(xs, batches, size)
    ensures PaddedTokens(batches) <= 2 * Lengths(xs)
    ensures PaddedCells(batches) <= 4 * Squares(xs)
    ensures forall b :: b in batches && |b| > 1 ==> BatchCells(b) <= CELL_BUDGET
  {
    if batches != [] {
      var first, tail := batches[0], batches[1..];
      assert first == xs[..|first|] && Flatten(tail) == xs[|first|..];
      SortedPart(xs, 0, |first|);
      SortedPart(xs, |first|, |xs|);
      assert Admissible(first, size);
      assert forall i :: 0 <= i < |tail| ==> tail[i] == batches[i + 1];
      PaddingIsBounded(xs[|first|..], tail, size);
      BatchPadding(first, size);
      SumsAppend(first, Flatten(tail));
      assert batches == [first] + tail;
    }
  }

  lemma BatchPadding(batch: Batch, size: int)
    requires Sorted(batch) && Admissible(batch, size)
    ensures BatchTokens(batch) <= 2 * Lengths(batch)
    ensures BatchCells(batch) <= 4 * Squares(batch)
    ensures |batch| > 1 ==> BatchCells(batch) <= CELL_BUDGET
  {
    hide MaxLength, Lengths, Squares;
    var m := MaxLength(batch);
    MaxIsLast(batch);
    HalfOfMax(batch, size, m);
    hide *;
    PaddingBound(batch, m);
    Associate(|batch|, m);
  }

  lemma HalfOfMax(batch: Batch, size: int, m: nat)
    requires Sorted(batch) && Admissible(batch, size) && m == Length(batch[|batch| - 1])
    ensures forall i :: 0 <= i < |batch| ==> m <= 2 * Length(batch[i])
    ensures |batch| > 1 ==> |batch| * m * m <= CELL_BUDGET
  {
  }

  lemma Associate(n: nat, m: nat)
    ensures n * m * m == n * (m * m)
  {
  }

  // ---------------------------------------------------------------- the model

  function Ids(batch: Batch): (ids: seq<Tokens>)
    ensures |ids| == |batch| && forall i :: 0 <= i < |batch| ==> ids[i] == batch[i].ids
  {
    seq(|batch|, i requires 0 <= i < |batch| => batch[i].ids)
  }

  /** The model answers every batch with one row per item. */
  ghost predicate OneRowPerItem<V(!new)>(model: Model<V>) {
    forall b :: |model(b)| == |b|
  }

  /** The vector of one text by itself, if finite. */
  function Single<V(!new)>(model: Model<V>, ids: Tokens): Option<V>
    requires OneRowPerItem(model)
  {
    assert |model([ids])| == 1;
    model([ids])[0]
  }

  /** Padding does not change a row: what comes out finite in a batch is what
      the item gives alone. */
  ghost predicate RowWise<V(!new)>(model: Model<V>)
    requires OneRowPerItem(model)
  {
    forall b: seq<Tokens>, i {:trigger model(b)[i]} :: 0 <= i < |b| && |model(b)| == |b| ==>
      model(b)[i].None? || model(b)[i] == Single(model, b[i])
  }

  /** The vector the embedder keeps for row i of a batch: the batch's own row,
      or the singleton retry when that row is not finite. */
  function KeptRow<V(!new)>(model: Model<V>, batch: Batch, i: nat): Option<V>
    requires OneRowPerItem(model) && i < |batch|
  {
    assert |model(Ids(batch))| == |batch|;
    if model(Ids(batch))[i].Some? then model(Ids(batch))[i] else Single(model, batch[i].ids)
  }

  lemma KeptRowIsSingle<V(!new)>(model: Model<V>, batch: Batch, i: nat)
    requires OneRowPerItem(model) && i < |batch|
    ensures KeptRow(model, batch, i).None? ==> Single(model, batch[i].ids).None?
    ensures RowWise(model) ==> KeptRow(model, batch, i) == Single(model, batch[i].ids)
  {
  }

  /** The items of a batch that are run again alone. */
  function Retried<V>(rows: seq<Option<V>>, batch: Batch): Batch
    requires |rows| == |batch|
  {
    if batch == [] then []
    else
      var n := |batch| - 1;
      Retried(rows[..n], batch[..n]) + if rows[n].None? then [batch[n]] else []
  }

  function RetriedIn<V(!new)>(model: Model<V>, batches: seq<Batch>): seq<Encoded>
    requires OneRowPerItem(model)
  {
    if batches == [] then []
    else
      assert |model(Ids(batches[|batches| - 1]))| == |Ids(batches[|batches| - 1])|;
      RetriedIn(model, batches[..|batches| - 1])
      + Retried(model(Ids(batches[|batches| - 1])), batches[|batches| - 1])
  }

  lemma {:induction false} RetriedBound<V>(rows: seq<Option<V>>, batch: Batch)
    requires |rows| == |batch|
    ensures Lengths(Retried(rows, batch)) <= Lengths(batch)
    ensures Squares(Retried(rows, batch)) <= Squares(batch)
  {
    if batch != [] {
      var n := |batch| - 1;
      RetriedBound(rows[..n], batch[..n]);
      assert batch == batch[..n] + [batch[n]];
      SumsAppend(batch[..n], [batch[n]]);
      SumsAppend(Retried(rows[..n], batch[..n]), if rows[n].None? then [batch[n]] else []);
    }
  }

  lemma {:induction false} FlattenAppend(batches: seq<Batch>, last: Batch)
    ensures Flatten(batches + [last]) == Flatten(batches) + last
  {
    if batches == [] {
      assert [last][1..] == [];
    } else {
      assert (batches + [last])[1..] == batches[1..] + [last];
      FlattenAppend(batches[1..], last);
    }
  }

  lemma {:induction false} PaddedAppend(batches: seq<Batch>, last: Batch)
    ensures PaddedTokens(batches + [last]) == PaddedTokens(batches) + BatchTokens(last)
    ensures PaddedCells(batches + [last]) == PaddedCells(batches) + BatchCells(last)
  {
    if batches == [] {
      assert [last][1..] == [];
    } else {
      assert (batches + [last])[1..] == batches[1..] + [last];
      PaddedAppend(batches[1..], last);
    }
  }

  lemma {:induction false} RetriedInBound<V(!new)>(model: Model<V>, batches: seq<Batch>)
    requires OneRowPerItem(model)
    ensures Lengths(RetriedIn(model, batches)) <= Lengths(Flatten(batches))
    ensures Squares(RetriedIn(model, batches)) <= Squares(Flatten(batches))
  {
    if batches != [] {
      var front, last := batches[..|batches| - 1], batches[|batches| - 1];
      assert batches == front + [last];
      assert |model(Ids(last))| == |last|;
      RetriedInBound(model, front);
      RetriedBound(model(Ids(last)), last);
      FlattenAppend(front, last);
      SumsAppend(Flatten(front), last);
      SumsAppend(RetriedIn(model, front), Retried(model(Ids(last)), last));
    }
  }

  /** Some row of some batch is not finite, and not finite alone either. */
  ghost predicate LosesARow<V(!new)>(model: Model<V>, batches: seq<Batch>)
    requires OneRowPerItem(model)
  {
    exists b :: 0 <= b < |batches| && LosesRowIn(model, batches[b])
  }

  ghost predicate LosesRowIn<V(!new)>(model: Model<V>, batch: Batch)
    requires OneRowPerItem(model)
  {
    exists i :: 0 <= i < |batch| && KeptRow(model, batch, i).None?
  }

  lemma NoRowLost<V(!new)>(model: Model<V>, batch: Batch, rows: seq<V>)
    requires OneRowPerItem(model) && |rows| == |batch|
    requires forall i :: 0 <= i < |batch| ==> KeptRow(model, batch, i) == Some(rows[i])
    ensures !LosesRowIn(model, batch)
  {
  }

  lemma RowLost<V(!new)>(model: Model<V>, batches: seq<Batch>, b: nat, i: nat)
    requires OneRowPerItem(model) && b < |batches| && i < |batches[b]| && KeptRow(model, batches[b], i).None?
    ensures LosesARow(model, batches)
  {
    assert LosesRowIn(model, batches[b]);
  }

  lemma NothingLost<V(!new)>(model: Model<V>, batches: seq<Batch>)
    requires OneRowPerItem(model) && forall b :: 0 <= b < |batches| ==> !LosesRowIn(model, batches[b])
    ensures !LosesARow(model, batches)
  {
  }

  /** One batch: every non-finite row is run again alone, and a row that is
      still not finite is an error. */
  method RunBatch<V(!new)>(model: Model<V>, batch: Batch) returns (r: Result<seq<V>, nat>, retried: Batch)
    requires OneRowPerItem(model)
    ensures r.Success? ==> |r.value| == |batch|
    ensures r.Success? ==> forall i :: 0 <= i < |batch| ==> KeptRow(model, batch, i) == Some(r.value[i])
    ensures r.Success? ==> |model(Ids(batch))| == |batch| && retried == Retried(model(Ids(batch)), batch)
    ensures r.Failure? ==>
      exists i :: 0 <= i < |batch| && KeptRow(model, batch, i).None? && batch[i].position == r.error
  {
    var pooled := model(Ids(batch));
    assert |pooled| == |Ids(batch)|;
    var vectors: seq<V> := [];
    retried := [];
    for i := 0 to |batch|
      invariant |vectors| == i
      invariant forall j :: 0 <= j < i ==> KeptRow(model, batch, j) == Some(vectors[j])
      invariant retried == Retried(pooled[..i], batch[..i])
    {
      assert pooled[..i + 1][..i] == pooled[..i] && batch[..i + 1][..i] == batch[..i];
      var row := pooled[i];
      if row.None? {
        row := model([batch[i].ids])[0];
        if row.None? {
          assert KeptRow(model, batch, i).None?;
          return Failure(batch[i].position), retried;
        }
        retried := retried + [batch[i]];
      }
      vectors := vectors + [row.value];
    }
    assert pooled[..|batch|] == pooled && batch[..|batch|] == batch;
    r := Success(vectors);
  }

  // ------------------------------------------------------------- the embedder

  /** Everything scattered so far is the per-text result of its position, and
      every item of `done` has been scattered. */
  ghost predicate Scattered<V(!new)>(
    model: Model<V>, encode: string -> Tokens, texts: seq<string>, done: seq<Encoded>,
    vectors: map<nat, V>, tokenCounts: seq<nat>, truncated: seq<bool>)
    requires OneRowPerItem(model)
  {
    && |tokenCounts| == |truncated| == |texts|
    && (forall e :: e in done ==> e.position < |texts| && e == EncodeAt(encode, texts, e.position))
    && (forall e :: e in done ==>
      e.position in vectors && tokenCounts[e.position] == |e.ids| && truncated[e.position] == e.truncated)
    && (RowWise(model) ==> forall e :: e in done ==> Single(model, e.ids) == Some(vectors[e.position]))
  }

  lemma ScatterOne<V(!new)>(
    model: Model<V>, encode: string -> Tokens, texts: seq<string>, done: seq<Encoded>,
    vectors: map<nat, V>, tokenCounts: seq<nat>, truncated: seq<bool>, batch: Batch, i: nat, v: V)
    requires OneRowPerItem(model)
    requires Scattered(model, encode, texts, done, vectors, tokenCounts, truncated)
    requires i < |batch| && KeptRow(model, batch, i) == Some(v)
    requires batch[i].position < |texts| && batch[i] == EncodeAt(encode, texts, batch[i].position)
    ensures var e := batch[i];
      Scattered(model, encode, texts, done + [e],
        vectors[e.position := v], tokenCounts[e.position := |e.ids|], truncated[e.position := e.truncated])
  {
  }

  /** Position by position the result is the one that the first 8192 tokens of the
      text get by themselves, whatever the batches were. */
  ghost predicate RefinesPerText<V(!new)>(
    model: Model<V>, encode: string -> Tokens, texts: seq<string>, r: Embedded<V>)
    requires OneRowPerItem(model)
  {
    && |r.vectors| == |r.tokenCounts| == |r.truncated| == |texts|
    && forall i :: 0 <= i < |texts| ==>
      var ids := encode(texts[i]);
      && r.tokenCounts[i] == (if |ids| > 8192 then 8192 else |ids|)
      && r.truncated[i] == (|ids| > 8192)
      && (RowWise(model) ==> Single(model, if |ids| > 8192 then ids[..8192] else ids) == Some(r.vectors[i]))
  }

  lemma EncodeMeans(encode: string -> Tokens, texts: seq<string>, i: nat)
    requires i < |texts|
    ensures var ids := encode(texts[i]);
      EncodeAt(encode, texts, i) == Encoded(i, if |ids| > 8192 then ids[..8192] else ids, |ids| > 8192)
  {
  }

  /** The plan and the totals are those of a shortest admissible split of the
      sorted inputs, plus one singleton run per retried item. */
  ghost predicate Accounted<V(!new)>(
    model: Model<V>, encode: string -> Tokens, size: int, texts: seq<string>, batches: seq<Batch>, r: Embedded<V>)
    requires OneRowPerItem(model)
  {
    var retried := RetriedIn(model, batches);
    && Splits(SortedInputs(encode, texts, |texts|), batches, size)
    && (forall other :: Splits(SortedInputs(encode, texts, |texts|), other, size) ==> |batches| <= |other|)
    && r.plan == Plan(batches)
    && r.retries == (set p | p in Positions(retried))
    && r.modelBatches == |batches| + |retried|
    && r.paddedTokens == PaddedTokens(batches) + Lengths(retried)
    && r.paddedCells == PaddedCells(batches) + Squares(retried)
  }

  lemma InputsPositive(encode: string -> Tokens, texts: seq<string>)
    ensures Positive(SortedInputs(encode, texts, |texts|))
      <==> forall i :: 0 <= i < |texts| ==> encode(texts[i]) != []
  {
    SortedInputsAreInputs(encode, texts, |texts|);
    var xs := SortedInputs(encode, texts, |texts|);
    if Positive(xs) {
      forall i | 0 <= i < |texts| ensures encode(texts[i]) != [] {
        assert EncodeAt(encode, texts, i) in xs;
      }
    } else {
      var j :| 0 <= j < |xs| && Length(xs[j]) < 1;
      assert xs[j] in xs;
    }
  }

  lemma ScatteredEverything<V(!new)>(
    model: Model<V>, encode: string -> Tokens, texts: seq<string>,
    vectors: map<nat, V>, tokenCounts: seq<nat>, truncated: seq<bool>)
    requires OneRowPerItem(model)
    requires Scattered(model, encode, texts, SortedInputs(encode, texts, |texts|), vectors, tokenCounts, truncated)
    ensures forall i :: 0 <= i < |texts| ==>
      var ids := encode(texts[i]);
      && i in vectors
      && tokenCounts[i] == (if |ids| > 8192 then 8192 else |ids|)
      && truncated[i] == (|ids| > 8192)
      && (RowWise(model) ==> Single(model, if |ids| > 8192 then ids[..8192] else ids) == Some(vectors[i]))
  {
    SortedInputsAreInputs(encode, texts, |texts|);
    hide SortedInputs, EncodeAt, OneRowPerItem, Single, RowWise;
    forall i | 0 <= i < |texts|
      ensures var ids := encode(texts[i]);
        && i in vectors
        && tokenCounts[i] == (if |ids| > 8192 then 8192 else |ids|)
        && truncated[i] == (|ids| > 8192)
        && (RowWise(model) ==> Single(model, if |ids| > 8192 then ids[..8192] else ids) == Some(vectors[i]))
    {
      EncodeMeans(encode, texts, i);
      assert EncodeAt(encode, texts, i) in SortedInputs(encode, texts, |texts|);
    }
  }

  /** Items of a batch of the split come from the sorted inputs. */
  lemma {:induction false} BatchItems(xs: seq<Encoded>, batches: seq<Batch>, b: nat)
    requires Flatten(batches) == xs && b < |batches|
    ensures forall e :: e in batches[b] ==> e in xs
    decreases b
  {
    if b > 0 {
      BatchItems(Flatten(batches[1..]), batches[1..], b - 1);
    }
  }

  method ScatterBatch<V(!new)>(
    model: Model<V>, encode: string -> Tokens, texts: seq<string>, ghost done: seq<Encoded>,
    batch: Batch, rows: seq<V>, vectors: map<nat, V>, tokenCounts: array<nat>, truncated: array<bool>)
    returns (vectors': map<nat, V>)
    requires OneRowPerItem(model) && |rows| == |batch| && tokenCounts.Length == truncated.Length == |texts|
    requires forall i :: 0 <= i < |batch| ==> KeptRow(model, batch, i) == Some(rows[i])
    requires forall e :: e in batch ==> e.position < |texts| && e == EncodeAt(encode, texts, e.position)
    requires Scattered(model, encode, texts, done, vectors, tokenCounts[..], truncated[..])
    modifies tokenCounts, truncated
    ensures Scattered(model, encode, texts, done + batch, vectors', tokenCounts[..], truncated[..])
  {
    hide *;
    vectors' := vectors;
    assert done + batch[..0] == done;
    for i := 0 to |batch|
      invariant tokenCounts.Length == truncated.Length == |texts|
      invariant Scattered(model, encode, texts, done + batch[..i], vectors', tokenCounts[..], truncated[..])
    {
      var e := batch[i];
      assert e in batch;
      ScatterOne(model, encode, texts, done + batch[..i], vectors', tokenCounts[..], truncated[..], batch, i, rows[i]);
      assert done + batch[..i] + [e] == done + batch[..i + 1];
      vectors' := vectors'[e.position := rows[i]];
      tokenCounts[e.position] := |e.ids|;
      truncated[e.position] := e.truncated;
    }
    assert done + batch[..|batch|] == done + batch;
  }

  /** The accounting totals after the first batches. */
  ghost predicate Totals<V(!new)>(
    model: Model<V>, done: seq<Batch>, retries: set<nat>, modelBatches: nat, tokens: nat, cells: nat)
    requires OneRowPerItem(model)
  {
    var retried := RetriedIn(model, done);
    && retries == (set p | p in Positions(retried))
    && modelBatches == |retried|
    && tokens == PaddedTokens(done) + Lengths(retried)
    && cells == PaddedCells(done) + Squares(retried)
  }

  lemma TotalsStep<V(!new)>(
    model: Model<V>, done: seq<Batch>, batch: Batch, retried: Batch,
    retries: set<nat>, modelBatches: nat, tokens: nat, cells: nat)
    requires OneRowPerItem(model) && |model(Ids(batch))| == |batch|
    requires Totals(model, done, retries, modelBatches, tokens, cells)
    requires retried == Retried(model(Ids(batch)), batch)
    ensures Totals(model, done + [batch], retries + (set p | p in Positions(retried)), modelBatches + |retried|,
      tokens + BatchTokens(batch) + Lengths(retried),
      cells + BatchCells(batch) + Squares(retried))
  {
    hide *;
    var before := RetriedIn(model, done);
    RetriedInStep(model, done, batch);
    TotalsMean(model, done, retries, modelBatches, tokens, cells);
    SumsAppend(before, retried);
    PositionsAppend(before, retried);
    PaddedAppend(done, batch);
    assert (set p | p in Positions(before) + Positions(retried))
      == (set p | p in Positions(before)) + (set p | p in Positions(retried));
    TotalsMean(model, done + [batch], retries + (set p | p in Positions(retried)), modelBatches + |retried|,
      tokens + BatchTokens(batch) + Lengths(retried),
      cells + BatchCells(batch) + Squares(retried));
  }

  lemma RetriedInStep<V(!new)>(model: Model<V>, done: seq<Batch>, batch: Batch)
    requires OneRowPerItem(model) && |model(Ids(batch))| == |batch|
    ensures RetriedIn(model, done + [batch]) == RetriedIn(model, done) + Retried(model(Ids(batch)), batch)
  {
  }

  lemma TotalsMean<V(!new)>(
    model: Model<V>, done: seq<Batch>, retries: set<nat>, modelBatches: nat, tokens: nat, cells: nat)
    requires OneRowPerItem(model)
    ensures Totals(model, done, retries, modelBatches, tokens, cells) <==>
      var retried := RetriedIn(model, done);
      && retries == (set p | p in Positions(retried))
      && modelBatches == |retried|
      && tokens == PaddedTokens(done) + Lengths(retried)
      && cells == PaddedCells(done) + Squares(retried)
  {
  }

  lemma NothingRun<V(!new)>(
    model: Model<V>, encode: string -> Tokens, texts: seq<string>, tokenCounts: seq<nat>, truncated: seq<bool>)
    requires OneRowPerItem(model) && |tokenCounts| == |truncated| == |texts|
    ensures Scattered(model, encode, texts, Flatten([]), map[], tokenCounts, truncated)
    ensures Totals(model, [], {}, 0, 0, 0)
  {
  }

  /** The longest item of a batch. */
  method Longest(batch: Batch) returns (longest: nat)
    ensures longest == MaxLength(batch)
  {
    longest := 0;
    var i := |batch|;
    assert batch[i..] == [];
    while i > 0
      invariant 0 <= i <= |batch| && longest == MaxLength(batch[i..])
    {
      i := i - 1;
      assert batch[i..][1..] == batch[i + 1..];
      if |batch[i].ids| >= longest {
        longest := |batch[i].ids|;
      }
    }
  }

  lemma PaddedTo(batch: Batch)
    ensures BatchTokens(batch) == |batch| * MaxLength(batch)
    ensures BatchCells(batch) == |batch| * MaxLength(batch) * MaxLength(batch)
  {
  }

  method RunBatches<V(!new)>(
    model: Model<V>, encode: string -> Tokens, texts: seq<string>, batches: seq<Batch>,
    tokenCounts: array<nat>, truncated: array<bool>)
    returns (r: Result<map<nat, V>, nat>, retries: set<nat>, extraBatches: nat, tokens: nat, cells: nat)
    requires OneRowPerItem(model) && tokenCounts.Length == truncated.Length == |texts|
    requires forall e :: e in Flatten(batches) ==> e.position < |texts| && e == EncodeAt(encode, texts, e.position)
    modifies tokenCounts, truncated
    ensures r.Success? ==>
      Scattered(model, encode, texts, Flatten(batches), r.value, tokenCounts[..], truncated[..])
    ensures r.Success? ==> Totals(model, batches, retries, extraBatches, tokens, cells)
    ensures r.Failure? ==>
      r.error < |texts| && Single(model, EncodeAt(encode, texts, r.error).ids).None?
    ensures r.Failure? <==> LosesARow(model, batches)
  {
    hide *;
    NothingRun(model, encode, texts, tokenCounts[..], truncated[..]);
    var vectors: map<nat, V> := map[];
    assert batches[..0] == [];
    retries, extraBatches, tokens, cells := {}, 0, 0, 0;
    for b := 0 to |batches|
      invariant Scattered(model, encode, texts, Flatten(batches[..b]), vectors, tokenCounts[..], truncated[..])
      invariant Totals(model, batches[..b], retries, extraBatches, tokens, cells)
      invariant forall j :: 0 <= j < b ==> !LosesRowIn(model, batches[j])
    {
      var batch := batches[b];
      BatchItems(Flatten(batches), batches, b);
      FlattenAppend(batches[..b], batch);
      assert batches[..b + 1] == batches[..b] + [batch];
      var rows, retried := RunBatch(model, batch);
      if rows.Failure? {
        var i :| 0 <= i < |batch| && KeptRow(model, batch, i).None? && batch[i].position == rows.error;
        KeptRowIsSingle(model, batch, i);
        RowLost(model, batches, b, i);
        assert batch[i] in batch;
        return Failure(rows.error), retries, extraBatches, tokens, cells;
      }
      NoRowLost(model, batch, rows.value);
      TotalsStep(model, batches[..b], batch, retried, retries, extraBatches, tokens, cells);
      var longest := Longest(batch);
      PaddedTo(batch);
      tokens := tokens + |batch| * longest + Lengths(retried);
      cells := cells + |batch| * longest * longest + Squares(retried);
      retries := retries + set p | p in Positions(retried);
      extraBatches := extraBatches + |retried|;
      vectors := ScatterBatch(
        model, encode, texts, Flatten(batches[..b]), batch, rows.value, vectors, tokenCounts, truncated);
    }
    assert batches[..|batches|] == batches;
    NothingLost(model, batches);
    r := Success(vectors);
  }

  /** The embedder: per-text results in input order, a plan that is a
      permutation of all positions, and exact padding totals. */
  method Embed<V(!new)>(model: Model<V>, encode: string -> Tokens, size: int, texts: seq<string>)
    returns (r: Result<Embedded<V>, EmbedError>, ghost batches: seq<Batch>)
    requires OneRowPerItem(model)
    ensures r.Failure? && r.error.NoTexts? <==> texts == []
    ensures r.Failure? && r.error.Unbatchable? <==>
      texts != [] && (size < 1 || exists i :: 0 <= i < |texts| && encode(texts[i]) == [])
    ensures r.Failure? && r.error.NonFinite? ==>
      r.error.position < |texts|
      && var ids := encode(texts[r.error.position]);
        Single(model, if |ids| > 8192 then ids[..8192] else ids).None?
    ensures r.Failure? && r.error.NonFinite? <==>
      && texts != [] && 1 <= size && (forall i :: 0 <= i < |texts| ==> encode(texts[i]) != [])
      && LosesARow(model, Greedy([], SortedInputs(encode, texts, |texts|), size))
    ensures r.Success? ==> RefinesPerText(model, encode, texts, r.value)
    ensures r.Success? ==> multiset(FlattenPlan(r.value.plan)) == multiset(UpTo(|texts|))
    ensures r.Success? ==> Accounted(model, encode, size, texts, batches, r.value)
  {
    hide *;
    batches := [];
    if texts == [] {
      return Failure(NoTexts), batches;
    }
    var encoded := SortedInputs(encode, texts, |texts|);
    SortedInputsAreInputs(encode, texts, |texts|);
    InputsPositive(encode, texts);
    var attempt := PaddingAwareBatches(encoded, size);
    if attempt.Failure? {
      return Failure(Unbatchable(attempt.error)), batches;
    }
    batches := attempt.value;
    assert Flatten(batches) == encoded by {
      SplitsFlatten(encoded, batches, size);
    }
    var tokenCounts, truncated := new nat[|texts|](_ => 0), new bool[|texts|](_ => false);
    var run, retries, extra, tokens, cells := RunBatches(model, encode, texts, attempt.value, tokenCounts, truncated);
    if run.Failure? {
      EncodeMeans(encode, texts, run.error);
      return Failure(NonFinite(run.error)), batches;
    }
    ScatteredEverything(model, encode, texts, run.value, tokenCounts[..], truncated[..]);
    PlanCovers(batches);
    var vectors := seq(|texts|, i requires 0 <= i < |texts| && i in run.value => run.value[i]);
    var e := Embedded(vectors, tokenCounts[..], truncated[..], retries, Plan(attempt.value),
      |attempt.value| + extra, tokens, cells);
    assert RefinesPerText(model, encode, texts, e) by {
      Refines(model, encode, texts, run.value, e);
    }
    assert Accounted(model, encode, size, texts, batches, e) by {
      TotalsAccount(model, encode, size, texts, batches, extra, e);
    }
    r := Success(e);
  }

  lemma SplitsFlatten(xs: seq<Encoded>, batches: seq<Batch>, size: int)
    requires Splits(xs, batches, size)
    ensures Flatten(batches) == xs
  {
  }

  lemma Refines<V(!new)>(
    model: Model<V>, encode: string -> Tokens, texts: seq<string>, vectors: map<nat, V>, e: Embedded<V>)
    requires OneRowPerItem(model)
    requires |e.vectors| == |e.tokenCounts| == |e.truncated| == |texts|
    requires forall i :: 0 <= i < |texts| ==> i in vectors && e.vectors[i] == vectors[i]
    requires forall i :: 0 <= i < |texts| ==>
      var ids := encode(texts[i]);
      && e.tokenCounts[i] == (if |ids| > 8192 then 8192 else |ids|)
      && e.truncated[i] == (|ids| > 8192)
      && (RowWise(model) ==> Single(model, if |ids| > 8192 then ids[..8192] else ids) == Some(vectors[i]))
    ensures RefinesPerText(model, encode, texts, e)
  {
  }

  lemma TotalsAccount<V(!new)>(
    model: Model<V>, encode: string -> Tokens, size: int, texts: seq<string>, batches: seq<Batch>,
    extra: nat, e: Embedded<V>)
    requires OneRowPerItem(model)
    requires Splits(SortedInputs(encode, texts, |texts|), batches, size)
    requires forall other :: Splits(SortedInputs(encode, texts, |texts|), other, size) ==> |batches| <= |other|
    requires Totals(model, batches, e.retries, extra, e.paddedTokens, e.paddedCells)
    requires e.plan == Plan(batches) && e.modelBatches == |batches| + extra
    ensures Accounted(model, encode, size, texts, batches, e)
  {
  }

  // ------------------------------------------------------------ main theorems

  /** Two row-wise runs over the same texts agree, whatever their batch sizes. */
  lemma BatchingIsInvisible<V(!new)>(
    model: Model<V>, encode: string -> Tokens, texts: seq<string>, r: Embedded<V>, s: Embedded<V>)
    requires OneRowPerItem(model) && RowWise(model)
    requires RefinesPerText(model, encode, texts, r) && RefinesPerText(model, encode, texts, s)
    ensures r.vectors == s.vectors && r.tokenCounts == s.tokenCounts && r.truncated == s.truncated
  {
  }

  function InputTokens(encode: string -> Tokens, texts: seq<string>, n: nat): nat
    requires n <= |texts|
  {
    if n == 0 then 0 else InputTokens(encode, texts, n - 1) + Length(EncodeAt(encode, texts, n - 1))
  }

  function InputSquares(encode: string -> Tokens, texts: seq<string>, n: nat): nat
    requires n <= |texts|
  {
    if n == 0 then 0
    else
      var length := Length(EncodeAt(encode, texts, n - 1));
      InputSquares(encode, texts, n - 1) + length * length
  }

  lemma {:induction false} InsertSums(e: Encoded, xs: seq<Encoded>)
    ensures Lengths(Insert(e, xs)) == Length(e) + Lengths(xs)
    ensures Squares(Insert(e, xs)) == Length(e) * Length(e) + Squares(xs)
  {
    if xs != [] {
      if Before(e, xs[0]) {
        assert ([e] + xs)[1..] == xs;
      } else {
        InsertSums(e, xs[1..]);
        assert ([xs[0]] + Insert(e, xs[1..]))[1..] == Insert(e, xs[1..]);
      }
    }
  }

  lemma {:induction false} SortedSums(encode: string -> Tokens, texts: seq<string>, n: nat)
    requires n <= |texts|
    ensures Lengths(SortedInputs(encode, texts, n)) == InputTokens(encode, texts, n)
    ensures Squares(SortedInputs(encode, texts, n)) == InputSquares(encode, texts, n)
  {
    if n > 0 {
      SortedSums(encode, texts, n - 1);
      InsertSums(EncodeAt(encode, texts, n - 1), SortedInputs(encode, texts, n - 1));
    }
  }

  /** With every singleton retry counted, a run never processes more than three
      times the input tokens or five times the squared input lengths, and
      every shared batch stays within the attention budget. */
  lemma EmbedBounds<V(!new)>(
    model: Model<V>, encode: string -> Tokens, size: int, texts: seq<string>, batches: seq<Batch>, r: Embedded<V>)
    requires OneRowPerItem(model) && Accounted(model, encode, size, texts, batches, r)
    ensures r.paddedTokens <= 3 * InputTokens(encode, texts, |texts|)
    ensures r.paddedCells <= 5 * InputSquares(encode, texts, |texts|)
    ensures forall b :: b in batches && |b| > 1 ==> BatchCells(b) <= CELL_BUDGET
    ensures r.modelBatches <= 2 * |texts|
  {
    var xs := SortedInputs(encode, texts, |texts|);
    SortedInputsAreInputs(encode, texts, |texts|);
    PaddingIsBounded(xs, batches, size);
    SplitsFlatten(xs, batches, size);
    RetriedInBound(model, batches);
    SortedSums(encode, texts, |texts|);
    RetriedCount(model, batches);
    assert |batches| <= |xs| by {
      BatchesAtMostItems(xs, batches, size);
    }
  }

  lemma {:induction false} BatchesAtMostItems(xs: seq<Encoded>, batches: seq<Batch>, size: int)
    requires Splits(xs, batches, size)
    ensures |batches| <= |xs|
    decreases |batches|
  {
    if batches != [] {
      assert Admissible(batches[0], size);
      assert forall i :: 0 <= i < |batches| - 1 ==> batches[1..][i] == batches[i + 1];
      BatchesAtMostItems(Flatten(batches[1..]), batches[1..], size);
    }
  }

  lemma {:induction false} RetriedCountOne<V>(rows: seq<Option<V>>, batch: Batch)
    requires |rows| == |batch|
    ensures |Retried(rows, batch)| <= |batch|
  {
    if batch != [] {
      RetriedCountOne(rows[..|batch| - 1], batch[..|batch| - 1]);
    }
  }

  lemma {:induction false} RetriedCount<V(!new)>(model: Model<V>, batches: seq<Batch>)
    requires OneRowPerItem(model)
    ensures |RetriedIn(model, batches)| <= |Flatten(batches)|
  {
    if batches != [] {
      var front, last := batches[..|batches| - 1], batches[|batches| - 1];
      assert batches == front + [last];
      assert |model(Ids(last))| == |last|;
      RetriedCount(model, front);
      RetriedCountOne(model(Ids(last)), last);
      FlattenAppend(front, last);
    }
  }

  // ------------------------------------------------------- what was run again

  lemma {:induction false} RetriedMembers<V>(rows: seq<Option<V>>, batch: Batch, e: Encoded)
    requires |rows| == |batch|
    ensures e in Retried(rows, batch) <==> exists i :: 0 <= i < |batch| && rows[i].None? && batch[i] == e
  {
    if batch != [] {
      var n := |batch| - 1;
      RetriedMembers(rows[..n], batch[..n], e);
      assert forall i :: 0 <= i < n ==> rows[..n][i] == rows[i] && batch[..n][i] == batch[i];
    }
  }

  lemma {:induction false} RetriedOnce<V>(rows: seq<Option<V>>, batch: Batch)
    requires |rows| == |batch|
    ensures multiset(Positions(Retried(rows, batch))) <= multiset(Positions(batch))
  {
    if batch != [] {
      var n := |batch| - 1;
      var front, again := Retried(rows[..n], batch[..n]), if rows[n].None? then [batch[n]] else [];
      RetriedOnce(rows[..n], batch[..n]);
      assert batch == batch[..n] + [batch[n]] && Retried(rows, batch) == front + again;
      assert again == [] || again == [batch[n]];
      hide *;
      PositionsAppend(batch[..n], [batch[n]]);
      PositionsAppend(front, again);
      NothingSorted();
      SubSums(Positions(front), Positions(again), Positions(batch[..n]), Positions([batch[n]]));
    }
  }

  lemma SubSums(a: seq<nat>, b: seq<nat>, c: seq<nat>, d: seq<nat>)
    requires multiset(a) <= multiset(c) && (b == [] || b == d)
    ensures multiset(a + b) <= multiset(c + d)
  {
  }

  /** Item i of batch b came out not finite. */
  ghost predicate NotFinite<V(!new)>(model: Model<V>, batches: seq<Batch>, b: int, i: int)
    requires OneRowPerItem(model)
  {
    && 0 <= b < |batches| && 0 <= i < |batches[b]|
    && |model(Ids(batches[b]))| == |batches[b]| && model(Ids(batches[b]))[i].None?
  }

  lemma {:induction false} RetriedInMembers<V(!new)>(model: Model<V>, batches: seq<Batch>, e: Encoded)
    requires OneRowPerItem(model)
    ensures e in RetriedIn(model, batches) <==> exists b, i :: NotFinite(model, batches, b, i) && batches[b][i] == e
  {
    if batches != [] {
      var n := |batches| - 1;
      var front, last := batches[..n], batches[n];
      assert batches == front + [last];
      assert |model(Ids(last))| == |Ids(last)| == |last|;
      RetriedInMembers(model, front, e);
      RetriedMembers(model(Ids(last)), last, e);
      RetriedInStep(model, front, last);
      hide RetriedIn, Retried, OneRowPerItem;
      if e in RetriedIn(model, front) {
        var b, i :| NotFinite(model, front, b, i) && front[b][i] == e;
        assert NotFinite(model, batches, b, i);
      }
      if e in Retried(model(Ids(last)), last) {
        var i :| 0 <= i < |last| && model(Ids(last))[i].None? && last[i] == e;
        assert NotFinite(model, batches, n, i);
      }
      if b, i :| NotFinite(model, batches, b, i) && batches[b][i] == e {
        if b < n {
          assert NotFinite(model, front, b, i);
        }
      }
    }
  }

  lemma {:induction false} RetriedInOnce<V(!new)>(model: Model<V>, batches: seq<Batch>)
    requires OneRowPerItem(model)
    ensures multiset(Positions(RetriedIn(model, batches))) <= multiset(Positions(Flatten(batches)))
  {
    if batches != [] {
      var n := |batches| - 1;
      var front, last := batches[..n], batches[n];
      assert batches == front + [last];
      assert |model(Ids(last))| == |Ids(last)| == |last|;
      RetriedInOnce(model, front);
      RetriedOnce(model(Ids(last)), last);
      RetriedInStep(model, front, last);
      hide *;
      FlattenAppend(front, last);
      PositionsAppend(Flatten(front), last);
      PositionsAppend(RetriedIn(model, front), Retried(model(Ids(last)), last));
    }
  }

  ghost predicate Once(ps: seq<nat>) {
    forall p: nat :: multiset(ps)[p] <= 1
  }

  lemma {:induction false} EachOnce(ps: seq<nat>, all: set<nat>)
    requires Once(ps) && forall p :: p in all <==> p in ps
    ensures |all| == |ps|
  {
    if ps == [] {
      assert all == {};
    } else {
      var n := |ps| - 1;
      var front: seq<nat>, last: seq<nat> := ps[..n], [ps[n]];
      assert ps == front + last;
      forall p: nat ensures multiset(front)[p] <= 1 && (p == ps[n] ==> p !in front) {
        assert multiset(ps)[p] == multiset(front)[p] + multiset(last)[p];
        assert p in front <==> p in multiset(front);
      }
      EachOnce(front, all - {ps[n]});
    }
  }

  lemma {:induction false} UpToOnce(n: nat, p: nat)
    ensures multiset(UpTo(n))[p] <= 1 && (p in UpTo(n) <==> p < n)
  {
    if n > 0 {
      UpToOnce(n - 1, p);
      assert UpTo(n) == UpTo(n - 1) + [n - 1];
      assert (n - 1 in multiset(UpTo(n - 1))) == (n - 1 in UpTo(n - 1));
    }
  }

  /** The retries are exactly the positions whose row was not finite in its
      batch, and each costs one model run of its own. */
  lemma RetriesAre<V(!new)>(
    model: Model<V>, encode: string -> Tokens, size: int, texts: seq<string>, batches: seq<Batch>, r: Embedded<V>,
    p: nat)
    requires OneRowPerItem(model) && Accounted(model, encode, size, texts, batches, r)
    ensures p in r.retries <==> exists b, i :: NotFinite(model, batches, b, i) && batches[b][i].position == p
    ensures r.modelBatches == |batches| + |r.retries|
  {
    var retried := RetriedIn(model, batches);
    SplitsFlatten(SortedInputs(encode, texts, |texts|), batches, size);
    SortedInputsAreInputs(encode, texts, |texts|);
    assert r.retries == (set q | q in Positions(retried)) && r.modelBatches == |batches| + |retried|;
    hide *;
    if e: Encoded :| e in retried && e.position == p {
      RetriedInMembers(model, batches, e);
    }
    if b, i :| NotFinite(model, batches, b, i) && batches[b][i].position == p {
      NotFiniteMeans(model, batches, b, i);
      RetriedInMembers(model, batches, batches[b][i]);
    }
    PositionsAre(retried, p);
    RetriedInOnce(model, batches);
    SubUpToOnce(Positions(retried), |texts|);
    EachOnce(Positions(retried), r.retries);
  }

  lemma SubUpToOnce(ps: seq<nat>, n: nat)
    requires multiset(ps) <= multiset(UpTo(n))
    ensures Once(ps)
  {
    forall p: nat ensures multiset(ps)[p] <= 1 {
      UpToOnce(n, p);
    }
  }

  lemma NotFiniteMeans<V(!new)>(model: Model<V>, batches: seq<Batch>, b: int, i: int)
    requires OneRowPerItem(model)
    ensures NotFinite(model, batches, b, i) ==> 0 <= b < |batches| && 0 <= i < |batches[b]|
  {
  }

  lemma {:induction false} PositionsAre(xs: seq<Encoded>, p: nat)
    ensures |Positions(xs)| == |xs|
    ensures p in Positions(xs) <==> exists e :: e in xs && e.position == p
  {
    if xs != [] {
      PositionsAre(xs[1..], p);
      assert xs == [xs[0]] + xs[1..];
    }
  }
}
