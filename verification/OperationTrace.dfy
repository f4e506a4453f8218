/** The operation traces of one tier: which recall and read-expand sequences
    prove a query, and the set of invocation ids that all queries of the tier
    share. */
module OperationTrace {

  const MAX_OPERATIONS: nat := 16
  const MAX_RECALL_IDS: nat := 100
  const MAX_EXPAND_SEEDS: nat := 8
  const MAX_EXPAND_RESULTS: nat := 100
  const MAX_EXPAND_DEPTH: nat := 2
  const MAX_DELIVERED_TOKENS: nat := 16384

  /** An opaque pseudonym: of an invocation or of a memory. */
  datatype Id = Id(text: string)

  datatype Kind = Recall | ReadExpand | Unknown(name: string)

  datatype Operation = Operation(
    sequence: int, invocation: Id, kind: Kind, success: bool, depth: int,
    seeds: seq<Id>, results: seq<Id>, tokens: int, latency: real)

  /** One query of an operating point, with what the official record says. */
  datatype Query = Query(point: string, question: string, tokens: int, latency: real,
                         officialTokens: int, boundProof: string)

  /** What an invocation id is the digest of. */
  datatype Slot = Slot(tier: string, point: string, question: string, sequence: nat, kind: Kind)

  /** The two digests, and the pattern of an opaque memory id. */
  datatype World = World(digest: Slot -> Id, proof: seq<Operation> -> string, isMemoryId: Id -> bool) {
    ghost predicate Injective() {
      forall a: Slot, b: Slot :: digest(a) == digest(b) ==> a == b
    }
  }

  function SetOf(ids: seq<Id>): set<Id> {
    set id | id in ids
  }

  predicate Unique(ids: seq<Id>) {
    forall i, j :: 0 <= i < j < |ids| ==> ids[i] != ids[j]
  }

  /** Python's `len(ids) == len(set(ids))`. */
  lemma {:induction false} UniqueIsCounted(ids: seq<Id>)
    ensures |SetOf(ids)| <= |ids| && (|SetOf(ids)| == |ids| <==> Unique(ids))
  {
    if ids != [] {
      hide *;
      var front, last := ids[..|ids| - 1], ids[|ids| - 1];
      UniqueIsCounted(front);
      LastId(ids, front, last);
    } else {
      assert SetOf(ids) == {};
    }
  }

  lemma LastId(ids: seq<Id>, front: seq<Id>, last: Id)
    requires ids == front + [last]
    ensures SetOf(ids) == SetOf(front) + {last}
    ensures Unique(ids) <==> Unique(front) && last !in SetOf(front)
  {
    assert forall i :: 0 <= i < |front| ==> ids[i] == front[i];
    assert ids[|front|] == last;
    if Unique(ids) {
      assert forall i :: 0 <= i < |front| ==> ids[i] != ids[|front|];
    }
  }

  predicate OpaqueIds(w: World, ids: seq<Id>, minimum: nat, maximum: nat) {
    minimum <= |ids| <= maximum && (forall i :: 0 <= i < |ids| ==> w.isMemoryId(ids[i])) && Unique(ids)
  }

  function Tokens(ops: seq<Operation>): int {
    if ops == [] then 0 else Tokens(ops[..|ops| - 1]) + ops[|ops| - 1].tokens
  }

  function Latency(ops: seq<Operation>): real {
    if ops == [] then 0.0 else Latency(ops[..|ops| - 1]) + ops[|ops| - 1].latency
  }

  function SlotOf(tier: string, q: Query, i: nat, kind: Kind): Slot {
    Slot(tier, q.point, q.question, i, kind)
  }

  // ------------------------------------------------------------- what is accepted

  /** A search that something may be expanded from. */
  predicate Search(op: Operation) {
    op.kind.Recall? && op.success && op.results != []
  }

  predicate Expands(op: Operation) {
    op.kind.ReadExpand? && op.success
  }

  /** The fields that one operation must have by itself. */
  predicate FieldsOk(w: World, tier: string, q: Query, i: nat, op: Operation) {
    && op.sequence == i
    && !op.kind.Unknown?
    && op.invocation == w.digest(SlotOf(tier, q, i, op.kind))
    && 0 <= op.tokens <= MAX_DELIVERED_TOKENS
    && 0.0 <= op.latency <= q.latency
    && (if op.kind.Recall? then
          op.depth == 0 && op.seeds == [] && OpaqueIds(w, op.results, 0, MAX_RECALL_IDS)
        else
          && 1 <= op.depth <= MAX_EXPAND_DEPTH
          && OpaqueIds(w, op.seeds, 1, MAX_EXPAND_SEEDS)
          && OpaqueIds(w, op.results, if op.success then 1 else 0, MAX_EXPAND_RESULTS))
    && (!op.success ==> op.results == [] && op.tokens == 0)
  }

  /** All seeds of operation `i` come out of one search before it. */
  ghost predicate Linked(ops: seq<Operation>, i: nat)
    requires i < |ops|
  {
    exists j: nat :: j < i && Search(ops[j]) && SetOf(ops[i].seeds) <= SetOf(ops[j].results)
  }

  ghost predicate OperationOk(w: World, tier: string, q: Query, ops: seq<Operation>, i: nat)
    requires i < |ops|
  {
    FieldsOk(w, tier, q, i, ops[i]) && (ops[i].kind.ReadExpand? ==> Linked(ops, i))
  }

  /** A trace that proves its query, other queries aside. */
  ghost predicate Proves(w: World, tier: string, q: Query, ops: seq<Operation>) {
    && 2 <= |ops| <= MAX_OPERATIONS
    && (forall i: nat :: i < |ops| ==> OperationOk(w, tier, q, ops, i))
    && (exists i: nat :: i < |ops| && Expands(ops[i]))
    && Tokens(ops) == q.tokens == q.officialTokens
    && Latency(ops) <= q.latency
    && w.proof(ops) == q.boundProof
  }

  function Invocations(ops: seq<Operation>): set<Id> {
    set i | 0 <= i < |ops| :: ops[i].invocation
  }

  ghost predicate DistinctInvocations(ops: seq<Operation>) {
    forall i, j :: 0 <= i < j < |ops| ==> ops[i].invocation != ops[j].invocation
  }

  ghost predicate Accepts(w: World, tier: string, q: Query, ops: seq<Operation>, seen: set<Id>) {
    Proves(w, tier, q, ops) && DistinctInvocations(ops) && Invocations(ops) !! seen
  }

  // --------------------------------------------------------------- what it implies

  /** A trace that proves anything opens with a recall, and a successful search
      stands before its successful expansion. */
  lemma OpensWithRecall(w: World, tier: string, q: Query, ops: seq<Operation>)
    requires Proves(w, tier, q, ops)
    ensures ops[0].kind.Recall?
    ensures exists j: nat, i: nat :: j < i < |ops| && Search(ops[j]) && Expands(ops[i])
                                     && SetOf(ops[i].seeds) <= SetOf(ops[j].results)
  {
    assert OperationOk(w, tier, q, ops, 0);
    var i: nat :| i < |ops| && Expands(ops[i]);
    assert OperationOk(w, tier, q, ops, i);
  }

  /** Delivered tokens are the tokens of the successful operations, and what the
      official record counts. */
  lemma {:induction false} TokensOfSuccesses(w: World, tier: string, q: Query, ops: seq<Operation>)
    requires forall i: nat :: i < |ops| ==> FieldsOk(w, tier, q, i, ops[i])
    ensures Tokens(ops) == Tokens(Successes(ops)) && 0 <= Tokens(ops) <= |Successes(ops)| * 16384
  {
    if ops != [] {
      var front, last := ops[..|ops| - 1], ops[|ops| - 1];
      TokensOfSuccesses(w, tier, q, front);
      assert FieldsOk(w, tier, q, |ops| - 1, last);
      if last.success {
        assert Successes(ops)[..|Successes(ops)| - 1] == Successes(front);
      } else {
        assert Successes(ops) == Successes(front);
      }
    }
  }

  /** The totals add up over the parts of a trace, and one operation's total is
      its own. */
  lemma {:induction false} TotalsAdd(a: seq<Operation>, b: seq<Operation>)
    ensures Tokens(a + b) == Tokens(a) + Tokens(b)
    ensures Latency(a + b) == Latency(a) + Latency(b)
    ensures forall op: Operation :: Tokens([op]) == op.tokens && Latency([op]) == op.latency
  {
    if b == [] {
      assert a + b == a;
    } else {
      assert (a + b)[..|a + b| - 1] == a + b[..|b| - 1];
      TotalsAdd(a, b[..|b| - 1]);
    }
    forall op: Operation ensures Tokens([op]) == op.tokens && Latency([op]) == op.latency {
      assert [op][..0] == [];
    }
  }

  /** No operation's tokens are lost: each is within the total, and nothing is
      delivered exactly when no operation delivers. */
  lemma {:induction false} TokensCoverAll(w: World, tier: string, q: Query, ops: seq<Operation>)
    requires forall i: nat :: i < |ops| ==> FieldsOk(w, tier, q, i, ops[i])
    ensures forall op :: op in ops ==> 0 <= op.tokens <= Tokens(ops) && 0.0 <= op.latency <= Latency(ops)
    ensures 0 <= Tokens(ops) && 0.0 <= Latency(ops)
    ensures Tokens(ops) == 0 <==> forall op :: op in ops ==> op.tokens == 0
  {
    if ops != [] {
      var front, last := ops[..|ops| - 1], ops[|ops| - 1];
      TokensCoverAll(w, tier, q, front);
      assert FieldsOk(w, tier, q, |ops| - 1, last);
      assert ops == front + [last];
      hide FieldsOk;
      assert forall op :: op in ops <==> op in front || op == last;
    }
  }

  function Successes(ops: seq<Operation>): seq<Operation> {
    if ops == [] then
      []
    else
      Successes(ops[..|ops| - 1]) + if ops[|ops| - 1].success then [ops[|ops| - 1]] else []
  }

  lemma {:induction false} CountInvocations(ops: seq<Operation>)
    requires DistinctInvocations(ops)
    ensures |Invocations(ops)| == |ops|
  {
    if ops != [] {
      var front, last := ops[..|ops| - 1], ops[|ops| - 1];
      CountInvocations(front);
      InvocationsGrow(ops, |ops| - 1);
      assert last.invocation !in Invocations(front);
      assert ops[..|ops|] == ops;
    }
  }

  lemma InvocationsGrow(ops: seq<Operation>, k: nat)
    requires k < |ops|
    ensures Invocations(ops[..k + 1]) == Invocations(ops[..k]) + {ops[k].invocation}
    ensures DistinctInvocations(ops[..k + 1]) <==>
      DistinctInvocations(ops[..k]) && ops[k].invocation !in Invocations(ops[..k])
  {
  }

  /** Under an injective digest no two operations of one proved trace share an
      id, and traces of different queries share none either. */
  lemma SlotsSeparate(w: World, tier: string, q: Query, ops: seq<Operation>)
    requires w.Injective() && forall i: nat :: i < |ops| ==> OperationOk(w, tier, q, ops, i)
    ensures DistinctInvocations(ops)
  {
    forall i, j | 0 <= i < j < |ops| ensures ops[i].invocation != ops[j].invocation {
      assert OperationOk(w, tier, q, ops, i) && OperationOk(w, tier, q, ops, j);
    }
  }

  // ----------------------------------------------------------------- the validator

  /** The result sets of the searches so far, in order. */
  function Searches(ops: seq<Operation>): seq<set<Id>> {
    if ops == [] then
      []
    else
      Searches(ops[..|ops| - 1]) + if Search(ops[|ops| - 1]) then [SetOf(ops[|ops| - 1].results)] else []
  }

  lemma {:induction false} SearchesAre(ops: seq<Operation>, seeds: set<Id>)
    ensures (exists s :: s in Searches(ops) && seeds <= s)
      <==> (exists j: nat :: j < |ops| && Search(ops[j]) && seeds <= SetOf(ops[j].results))
  {
    if ops != [] {
      var front, last := ops[..|ops| - 1], ops[|ops| - 1];
      SearchesAre(front, seeds);
      if j: nat :| j < |ops| && Search(ops[j]) && seeds <= SetOf(ops[j].results) {
        if j < |front| {
          assert Search(front[j]);
        } else {
          assert SetOf(last.results) in Searches(ops);
        }
      }
      if s :| s in Searches(ops) && seeds <= s {
        if s in Searches(front) {
          var j: nat :| j < |front| && Search(front[j]) && seeds <= SetOf(front[j].results);
          assert Search(ops[j]);
        } else {
          assert Search(ops[|ops| - 1]);
        }
      }
    }
  }

  method LinkedToSearch(seeds: set<Id>, searches: seq<set<Id>>) returns (linked: bool)
    ensures linked <==> exists s :: s in searches && seeds <= s
  {
    for i := 0 to |searches|
      invariant forall j :: 0 <= j < i ==> !(seeds <= searches[j])
    {
      if seeds <= searches[i] {
        assert searches[i] in searches;
        return true;
      }
    }
    return false;
  }

  datatype Key = Key(point: string, question: string)

  function KeyOf(q: Query): Key {
    Key(q.point, q.question)
  }

  ghost predicate DifferentQueries(queries: seq<(Query, seq<Operation>)>) {
    forall i, j :: 0 <= i < j < |queries| ==> KeyOf(queries[i].0) != KeyOf(queries[j].0)
  }

  ghost function KeysOf(queries: seq<(Query, seq<Operation>)>): set<Key> {
    set i | 0 <= i < |queries| :: KeyOf(queries[i].0)
  }

  lemma NoKeys(queries: seq<(Query, seq<Operation>)>)
    ensures queries == [] ==> KeysOf(queries) == {}
  {
  }

  lemma KeysGrow(queries: seq<(Query, seq<Operation>)>, i: nat)
    requires i < |queries| && DifferentQueries(queries)
    ensures KeysOf(queries[..i + 1]) == KeysOf(queries[..i]) + {KeyOf(queries[i].0)}
    ensures KeyOf(queries[i].0) !in KeysOf(queries[..i])
  {
  }

  /** The id is the digest of a slot of this query. */
  ghost predicate SlotOfKey(w: World, tier: string, k: Key, id: Id) {
    exists s: Slot :: w.digest(s) == id && s.tier == tier && Key(s.point, s.question) == k
  }

  function OpeningId(w: World, tier: string, k: Key): Id {
    w.digest(Slot(tier, k.point, k.question, 0, Recall))
  }

  /** Every seen id belongs to an accepted query, and every accepted query has
      left the id of its opening recall. */
  ghost predicate Accounted(w: World, tier: string, seen: set<Id>, accepted: set<Key>) {
    && (forall id :: id in seen ==> exists k :: k in accepted && SlotOfKey(w, tier, k, id))
    && (forall k :: k in accepted ==> OpeningId(w, tier, k) in seen)
  }

  /** The ids of an accepted trace keep the set what it should be. */
  lemma AcceptedTrace(w: World, tier: string, q: Query, ops: seq<Operation>)
    requires Proves(w, tier, q, ops)
    ensures forall id :: id in Invocations(ops) ==> SlotOfKey(w, tier, KeyOf(q), id)
    ensures OpeningId(w, tier, KeyOf(q)) in Invocations(ops)
  {
    forall id | id in Invocations(ops) ensures SlotOfKey(w, tier, KeyOf(q), id) {
      var i: nat :| i < |ops| && ops[i].invocation == id;
      assert OperationOk(w, tier, q, ops, i);
      assert w.digest(SlotOf(tier, q, i, ops[i].kind)) == id;
    }
    OpensWithRecall(w, tier, q, ops);
    assert OperationOk(w, tier, q, ops, 0);
    assert ops[0].invocation in Invocations(ops);
  }

  /** Under an injective digest, an otherwise good trace reuses an id exactly
      when its query has been accepted before. */
  lemma ReuseIsRepetition(w: World, tier: string, q: Query, ops: seq<Operation>, seen: set<Id>, accepted: set<Key>)
    requires Accounted(w, tier, seen, accepted)
    ensures w.Injective() ==> (Accepts(w, tier, q, ops, seen) <==> Proves(w, tier, q, ops) && KeyOf(q) !in accepted)
    ensures Accepts(w, tier, q, ops, seen) ==> Proves(w, tier, q, ops)
  {
    if w.Injective() && Proves(w, tier, q, ops) {
      AcceptedTrace(w, tier, q, ops);
      SlotsSeparate(w, tier, q, ops);
      hide Proves, Invocations, SlotOfKey, OpeningId, Accounted, DistinctInvocations;
      SameKeySameIds(w, tier, KeyOf(q), Invocations(ops), seen, accepted);
    }
  }

  lemma SameKeySameIds(w: World, tier: string, k: Key, ids: set<Id>, seen: set<Id>, accepted: set<Key>)
    requires w.Injective() && Accounted(w, tier, seen, accepted) && OpeningId(w, tier, k) in ids
    requires forall id :: id in ids ==> SlotOfKey(w, tier, k, id)
    ensures ids !! seen <==> k !in accepted
  {
  }

  lemma AcceptingAccounts(w: World, tier: string, q: Query, ops: seq<Operation>, seen: set<Id>, accepted: set<Key>)
    requires Accounted(w, tier, seen, accepted)
    ensures Proves(w, tier, q, ops) ==> Accounted(w, tier, seen + Invocations(ops), accepted + {KeyOf(q)})
  {
    hide Proves, Invocations, SlotOfKey, OpeningId;
    if Proves(w, tier, q, ops) {
      AcceptedTrace(w, tier, q, ops);
      assert Accounted(w, tier, seen + Invocations(ops), accepted + {KeyOf(q)});
    }
  }

  ghost predicate GrowsBy(a: set<Id>, b: set<Id>, n: nat) {
    a <= b && |b| == |a| + n
  }

  lemma Counted(w: World, tier: string, q: Query, ops: seq<Operation>, seen: set<Id>)
    ensures Accepts(w, tier, q, ops, seen) ==> GrowsBy(seen, seen + Invocations(ops), |ops|)
  {
    if Accepts(w, tier, q, ops, seen) {
      hide Proves;
      CountInvocations(ops);
    }
  }

  class Tier {
    const w: World
    const tier: string
    var seen: set<Id>
    /** The queries accepted so far, by operating point and question. */
    ghost var accepted: set<Key>

    ghost predicate Valid()
      reads this
    {
      Accounted(w, tier, seen, accepted)
    }

    constructor (w: World, tier: string)
      ensures Valid() && this.w == w && this.tier == tier && seen == {} && accepted == {}
    {
      this.w, this.tier := w, tier;
      seen, accepted := {}, {};
    }

    /** One list of opaque ids: its length, its ids, and that none is repeated. */
    method ReadIds(ids: seq<Id>, minimum: nat, maximum: nat) returns (ok: bool)
      ensures ok <==> OpaqueIds(w, ids, minimum, maximum)
    {
      if |ids| < minimum || maximum < |ids| {
        return false;
      }
      var identifiers: set<Id> := {};
      for k := 0 to |ids|
        invariant identifiers == SetOf(ids[..k])
        invariant forall j :: 0 <= j < k ==> w.isMemoryId(ids[j])
      {
        if !w.isMemoryId(ids[k]) {
          return false;
        }
        identifiers := identifiers + {ids[k]};
      }
      assert ids[..|ids|] == ids;
      UniqueIsCounted(ids);
      ok := |identifiers| == |ids|;
    }

    /** The fields of one operation, in the order of the source's tests. */
    method CheckFields(q: Query, i: nat, op: Operation) returns (ok: bool)
      ensures ok <==> FieldsOk(w, tier, q, i, op)
    {
      if op.sequence != i || op.kind.Unknown? {
        return false;
      }
      if op.invocation != w.digest(Slot(tier, q.point, q.question, i, op.kind)) {
        return false;
      }
      if op.tokens < 0 || op.tokens > MAX_DELIVERED_TOKENS || op.latency < 0.0 || op.latency > q.latency {
        return false;
      }
      var seeds, results;
      if op.kind.Recall? {
        if op.depth != 0 {
          return false;
        }
        seeds := ReadIds(op.seeds, 0, 0);
        results := ReadIds(op.results, 0, MAX_RECALL_IDS);
      } else {
        if op.depth < 1 || op.depth > MAX_EXPAND_DEPTH {
          return false;
        }
        seeds := ReadIds(op.seeds, 1, MAX_EXPAND_SEEDS);
        results := ReadIds(op.results, if op.success then 1 else 0, MAX_EXPAND_RESULTS);
      }
      ok := seeds && results && (op.success || (op.results == [] && op.tokens == 0));
    }

    /** One operation after those already checked. */
    method CheckOperation(q: Query, ops: seq<Operation>, i: nat, searches: seq<set<Id>>) returns (ok: bool)
      requires i < |ops| && searches == Searches(ops[..i])
      ensures ok <==> OperationOk(w, tier, q, ops, i)
    {
      ok := CheckFields(q, i, ops[i]);
      if ok && ops[i].kind.ReadExpand? {
        var seeds := set id | id in ops[i].seeds;
        ok := LinkedToSearch(seeds, searches);
        SearchesAre(ops[..i], SetOf(ops[i].seeds));
        LinkedInPrefix(ops, i);
      }
    }

    /** The pass over the operations. */
    method Scan(q: Query, ops: seq<Operation>) returns (ok: bool, local: set<Id>)
      ensures ok <==>
        && (forall i: nat :: i < |ops| ==> OperationOk(w, tier, q, ops, i))
        && (exists i: nat :: i < |ops| && Expands(ops[i]))
        && DistinctInvocations(ops) && Invocations(ops) !! seen
      ensures ok ==> local == Invocations(ops)
    {
      hide OperationOk, Invocations, DistinctInvocations;
      var searches, linked := [], 0;
      local := {};
      NoInvocations(ops[..0]);
      for i := 0 to |ops|
        invariant searches == Searches(ops[..i])
        invariant forall j: nat :: j < i ==> OperationOk(w, tier, q, ops, j)
        invariant linked >= 0 && (linked > 0 <==> exists j: nat :: j < i && Expands(ops[j]))
        invariant local == Invocations(ops[..i]) && DistinctInvocations(ops[..i]) && local !! seen
      {
        var fine := CheckOperation(q, ops, i, searches);
        if !fine {
          return false, local;
        }
        InvocationsGrow(ops, i);
        if ops[i].invocation in local || ops[i].invocation in seen {
          RepeatedInvocation(ops, i, seen);
          return false, local;
        }
        local := local + {ops[i].invocation};
        SearchesGrow(ops, i);
        var op := ops[i];
        if op.kind.Recall? && op.success && op.results != [] {
          searches := searches + [set id | id in op.results];
        }
        if op.kind.ReadExpand? && op.success {
          linked := linked + 1;
        }
      }
      assert ops[..|ops|] == ops;
      if linked > 0 {
        ExpandsNeedSearches(w, tier, q, ops);
      }
      ok := !(searches == [] || linked == 0);
    }

    /** All tests of one trace; nothing is recorded yet. */
    method Check(q: Query, ops: seq<Operation>) returns (ok: bool, local: set<Id>)
      ensures ok <==> Accepts(w, tier, q, ops, seen)
      ensures ok ==> local == Invocations(ops)
    {
      if !(2 <= |ops| <= MAX_OPERATIONS) {
        return false, {};
      }
      ok, local := Scan(q, ops);
      hide OperationOk, Invocations, DistinctInvocations, Expands, Tokens, Latency;
      var tokens, latency := Totals(ops);
      ok := ok && tokens == q.tokens && tokens == q.officialTokens && latency <= q.latency
        && w.proof(ops) == q.boundProof;
    }

    /** The two sums over the operations. */
    method Totals(ops: seq<Operation>) returns (tokens: int, latency: real)
      ensures tokens == Tokens(ops) && latency == Latency(ops)
    {
      tokens, latency := 0, 0.0;
      for i := 0 to |ops|
        invariant tokens == Tokens(ops[..i]) && latency == Latency(ops[..i])
      {
        assert ops[..i + 1][..i] == ops[..i];
        tokens, latency := tokens + ops[i].tokens, latency + ops[i].latency;
      }
      assert ops[..|ops|] == ops;
    }

    /** Accepts exactly the traces that prove their query with ids not seen
        before; then, and only then, the shared set grows, by one id for every
        operation. Under an injective digest that is: the trace proves its query
        and the query has not been accepted before. */
    method Validate(q: Query, ops: seq<Operation>) returns (ok: bool)
      requires Valid()
      modifies this
      ensures Valid()
      ensures ok <==> Accepts(w, tier, q, ops, old(seen))
      ensures ok ==> seen == old(seen) + Invocations(ops) && GrowsBy(old(seen), seen, |ops|)
      ensures !ok ==> seen == old(seen)
      ensures accepted == old(accepted) + if ok then {KeyOf(q)} else {}
      ensures w.Injective() ==> (ok <==> Proves(w, tier, q, ops) && KeyOf(q) !in old(accepted))
    {
      hide Accounted, Proves, Accepts, Invocations, KeyOf, GrowsBy;
      ReuseIsRepetition(w, tier, q, ops, seen, accepted);
      AcceptingAccounts(w, tier, q, ops, seen, accepted);
      Counted(w, tier, q, ops, seen);
      var local;
      ok, local := Check(q, ops);
      if ok {
        seen, accepted := seen + local, accepted + {KeyOf(q)};
      }
    }

    /** A tier whose queries are all different never meets the reuse test:
        under an injective digest it goes through exactly if every trace proves
        its query. */
    method ValidateAll(queries: seq<(Query, seq<Operation>)>) returns (ok: bool)
      requires Valid() && w.Injective() && accepted == {} && DifferentQueries(queries)
      modifies this
      ensures Valid()
      ensures ok <==> forall i :: 0 <= i < |queries| ==> Proves(w, tier, queries[i].0, queries[i].1)
    {
      hide *;
      NoKeys(queries[..0]);
      for i := 0 to |queries|
        invariant Valid()
        invariant forall j :: 0 <= j < i ==> Proves(w, tier, queries[j].0, queries[j].1)
        invariant accepted == KeysOf(queries[..i])
      {
        KeysGrow(queries, i);
        ok := Validate(queries[i].0, queries[i].1);
        if !ok {
          return;
        }
      }
      ok := true;
    }
  }

  lemma LinkedInPrefix(ops: seq<Operation>, i: nat)
    requires i < |ops|
    ensures Linked(ops, i) <==> exists j: nat ::
      j < |ops[..i]| && Search(ops[..i][j]) && SetOf(ops[i].seeds) <= SetOf(ops[..i][j].results)
  {
    if Linked(ops, i) {
      var j: nat :| j < i && Search(ops[j]) && SetOf(ops[i].seeds) <= SetOf(ops[j].results);
      assert Search(ops[..i][j]);
    }
    if j: nat :| j < |ops[..i]| && Search(ops[..i][j]) && SetOf(ops[i].seeds) <= SetOf(ops[..i][j].results) {
      assert Search(ops[j]);
    }
  }

  lemma SearchesGrow(ops: seq<Operation>, i: nat)
    requires i < |ops|
    ensures Searches(ops[..i + 1]) == Searches(ops[..i]) + if Search(ops[i]) then [SetOf(ops[i].results)] else []
  {
    assert ops[..i + 1][..i] == ops[..i];
  }

  lemma NoInvocations(ops: seq<Operation>)
    requires ops == []
    ensures Invocations(ops) == {} && DistinctInvocations(ops)
  {
  }

  lemma RepeatedInvocation(ops: seq<Operation>, i: nat, seen: set<Id>)
    requires i < |ops| && (ops[i].invocation in Invocations(ops[..i]) || ops[i].invocation in seen)
    ensures !(DistinctInvocations(ops) && Invocations(ops) !! seen)
  {
  }

  /** The test for a search is redundant: a linked expansion needs one. */
  lemma ExpandsNeedSearches(w: World, tier: string, q: Query, ops: seq<Operation>)
    requires forall i: nat :: i < |ops| ==> OperationOk(w, tier, q, ops, i)
    requires exists i: nat :: i < |ops| && Expands(ops[i])
    ensures Searches(ops) != []
  {
    var i: nat :| i < |ops| && Expands(ops[i]);
    assert OperationOk(w, tier, q, ops, i);
    var j: nat :| j < i && Search(ops[j]) && SetOf(ops[i].seeds) <= SetOf(ops[j].results);
    SearchesAre(ops, {});
    assert {} <= SetOf(ops[j].results);
  }
}
