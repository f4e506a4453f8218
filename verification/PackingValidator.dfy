/** The validator itself: five dictionaries and sets that every row shares
    (scripts/build_longmemeval_retrieval_report.py, lines 219-276 and 419-608). */
module PackingValidator {
  import opened Wrappers
  import opened Packing

  class Registry {
    const rules: Rules
    var observations: map<int, Observation>
    var observationStates: map<int, State>
    var stateObservations: map<State, Observation>
    var textSizes: map<int, (nat, nat)>
    var providerIds: set<string>
    ghost var log: Log

    /** Request ids are exactly 1..n, in bijection with prompt states and with
        provider ids; the five containers are five views of one log. */
    ghost predicate Valid()
      reads this
    {
      && ValidLog(rules, log)
      && RequestView(rules, log, observations, observationStates, textSizes)
      && StateView(log, stateObservations)
      && ProviderView(log, providerIds)
    }

    constructor (rules: Rules)
      ensures Valid() && log == [] && this.rules == rules
    {
      this.rules := rules;
      observations, observationStates, stateObservations := map[], map[], map[];
      textSizes, providerIds, log := map[], {}, [];
    }

    /** Enter a new request in all five containers. */
    method Insert(v: Observation, s: State)
      requires Valid() && Find(log, s).None? && Fresh(rules, log, v, s)
      modifies this
      ensures Valid() && log == old(log) + [Entry(s, v)]
    {
      hide RequestView, StateView, ProviderView;
      assert ValidLog(rules, log + [Entry(s, v)]) by {
        RecordKeepsLog(rules, log, v, s);
      }
      RequestViewExtended(rules, log, observations, observationStates, textSizes, v, s);
      StateViewExtended(rules, log, stateObservations, v, s);
      ProviderViewExtended(log, providerIds, v, s);
      observations := observations[v.requestId := v];
      observationStates := observationStates[v.requestId := s];
      textSizes := textSizes[v.requestId := SizesOf(rules, s)];
      providerIds := providerIds + {v.providerId};
      stateObservations := stateObservations[s := v];
      log := log + [Entry(s, v)];
    }

    /** What the containers say about a request id that is already in use. */
    lemma Existing(id: int)
      requires Valid() && id in observations
      ensures id in observationStates && 1 <= id <= |log|
      ensures log[id - 1] == Entry(observationStates[id], observations[id])
      ensures Find(log, observationStates[id]) == Some(observations[id])
    {
      FindAt(rules, log, id - 1);
    }

    lemma KnownIsFresh(s: State)
      requires Valid() && Find(log, s).Some?
      ensures var v := Find(log, s).value;
        && v.requestId in observations && observations[v.requestId] == v && observationStates[v.requestId] == s
        && 1 <= v.requestId && 1 <= v.tokens && rules.providerSyntax(v.providerId)
        && v.digest == rules.sha(rules.render(s)) && v.identity == rules.identity
    {
      var i := FindIsAt(log, s);
      assert Genuine(rules, log[i].observation, log[i].state, i + 1);
      assert observations[i + 1] == log[i].observation;
    }

    /** One tokenizer observation: accepted exactly when the log accepts it,
        and then the registry is the extended log. */
    method Observe(v: Observation, s: State) returns (ok: bool)
      requires Valid()
      modifies this
      ensures Valid()
      ensures ok <==> Record(rules, old(log), v, s).Some?
      ensures log == if ok then Record(rules, old(log), v, s).value else old(log)
    {
      if Find(log, s).Some? {
        KnownIsFresh(s);
      }
      var prompt := rules.render(s);
      if v.requestId < 1 || !rules.providerSyntax(v.providerId) || v.digest != rules.sha(prompt)
        || v.tokens < 1 || v.identity != rules.identity
      {
        return false;
      }
      if s in stateObservations && stateObservations[s] != v {
        return false;
      }
      if v.requestId in observations {
        Existing(v.requestId);
        return observations[v.requestId] == v && observationStates[v.requestId] == s;
      }
      RequestIdCount(|log|);
      assert |observations.Keys| == |log|;
      if v.requestId != |observations| + 1 || v.providerId in providerIds {
        return false;
      }
      Insert(v, s);
      ok := true;
    }

    /** One budget row: the greedy lineage of a bounded row, or the direct
        trace of the unbounded one. */
    method Replay(t: Task, row: Row) returns (ok: bool)
      requires Valid()
      modifies this
      ensures Valid()
      ensures ok <==> CheckRow(rules, Item(t, row), old(log)).Some?
      ensures ok ==> log == CheckRow(rules, Item(t, row), old(log)).value
    {
      hide Valid, Record, CheckDecisions;
      if row.budget != t.budget || row.policy != POLICY {
        return false;
      }
      if t.budget.Unbounded? {
        if row.initial.Some? || row.decisions != [] || row.kept != t.candidates {
          return false;
        }
        ok := Observe(row.final, State(t.caseIndex, t.candidates));
        return;
      }
      if row.initial.None? {
        return false;
      }
      var initial := row.initial.value;
      ok := Observe(initial, State(t.caseIndex, []));
      if !ok || |row.decisions| != |t.candidates| {
        return false;
      }
      ok := ReplayDecisions(t, row, initial);
    }

    method ReplayDecisions(t: Task, row: Row, initial: Observation) returns (ok: bool)
      requires Valid() && t.budget.Bounded? && |row.decisions| == |t.candidates|
      modifies this
      ensures Valid()
      ensures ok <==> CheckSelection(rules, t, row, Walk([], initial, old(log))).Some?
      ensures ok ==> log == CheckSelection(rules, t, row, Walk([], initial, old(log))).value
    {
      hide Valid, Record;
      ghost var start := Walk([], initial, log);
      var selected: seq<Id>, current := [], initial;
      for i := 0 to |t.candidates|
        invariant Valid()
        invariant CheckDecisions(
          rules, t.caseIndex, t.budget.limit, t.candidates[..i], row.decisions[..i], start)
          == Some(Walk(selected, current, log))
      {
        DecisionStep(rules, t, row.decisions, start, i);
        var candidate, d := t.candidates[i], row.decisions[i];
        if d.candidate != candidate || d.before != selected || d.proposed != selected + [candidate] {
          return false;
        }
        ok := Observe(d.observation, State(t.caseIndex, selected + [candidate]));
        if !ok {
          return false;
        }
        var accepted := d.observation.tokens <= t.budget.limit;
        if d.accepted != accepted {
          return false;
        }
        if accepted {
          selected, current := selected + [candidate], d.observation;
        }
      }
      assert t.candidates[..|t.candidates|] == t.candidates;
      assert row.decisions[..|t.candidates|] == row.decisions;
      ok := Observe(row.final, State(t.caseIndex, selected));
      if !ok || row.kept != selected || row.final != current {
        return false;
      }
    }

    /** The two sums over the recorded text sizes. */
    method TextTotals() returns (characters: nat, bytes: nat)
      requires Valid()
      ensures characters == Total(CharactersIn(rules), log) && bytes == Total(BytesIn(rules), log)
    {
      characters, bytes := 0, 0;
      RequestIdCount(|log|);
      assert |textSizes.Keys| == |log|;
      for i := 0 to |textSizes|
        invariant characters == Total(CharactersIn(rules), log[..i]) && bytes == Total(BytesIn(rules), log[..i])
      {
        assert textSizes[i + 1] == SizesOf(rules, log[i].state);
        assert log[..i + 1][..i] == log[..i];
        characters, bytes := characters + textSizes[i + 1].0, bytes + textSizes[i + 1].1;
      }
      assert log[..|log|] == log;
    }

    /** The accounting block is the registry's. The source also tests that the
        request ids are contiguous; Valid() says that they are. */
    method CheckAccounting(a: Accounting) returns (ok: bool)
      requires Valid()
      ensures ok <==> a == AccountingOf(rules, log)
    {
      RequestIdCount(|log|);
      assert |observations.Keys| == |log|;
      var requests := |observations|;
      var characters, bytes := TextTotals();
      ok := a.source == SOURCE && a.requests == requests && a.responses == requests
        && a.providers == |providerIds| && a.verified && a.characters == characters && a.bytes == bytes;
    }
  }

  /** The rest of a bounded row once its initial observation is recorded. */
  function CheckSelection(rules: Rules, t: Task, row: Row, start: Walk): Option<Log>
    requires t.budget.Bounded? && |row.decisions| == |t.candidates|
  {
    var walk :- CheckDecisions(rules, t.caseIndex, t.budget.limit, t.candidates, row.decisions, start);
    var log :- Record(rules, walk.log, row.final, State(t.caseIndex, walk.selected));
    if row.kept == walk.selected && row.final == walk.current then Some(log) else None
  }

  /** Once a decision is refused, so is the row. */
  lemma {:induction false} DecisionsRefused(
    rules: Rules, t: Task, decisions: seq<Decision>, start: Walk, n: nat, m: nat)
    requires t.budget.Bounded? && n <= m <= |t.candidates| == |decisions|
    requires CheckDecisions(rules, t.caseIndex, t.budget.limit, t.candidates[..n], decisions[..n], start).None?
    ensures CheckDecisions(rules, t.caseIndex, t.budget.limit, t.candidates[..m], decisions[..m], start).None?
  {
    if n < m {
      hide CheckDecision;
      DecisionsRefused(rules, t, decisions, start, n, m - 1);
      assert t.candidates[..m][..m - 1] == t.candidates[..m - 1];
      assert decisions[..m][..m - 1] == decisions[..m - 1];
    }
  }

  /** What the i-th turn of the decision loop decides. */
  lemma DecisionStep(rules: Rules, t: Task, decisions: seq<Decision>, start: Walk, i: nat)
    requires t.budget.Bounded? && i < |t.candidates| == |decisions|
    ensures var walk := CheckDecisions(
        rules, t.caseIndex, t.budget.limit, t.candidates[..i], decisions[..i], start);
      var next := CheckDecisions(
        rules, t.caseIndex, t.budget.limit, t.candidates[..i + 1], decisions[..i + 1], start);
      && (walk.Some? ==>
        next == CheckDecision(rules, t.caseIndex, t.budget.limit, t.candidates[i], decisions[i], walk.value))
      && (next.None? ==>
        CheckDecisions(rules, t.caseIndex, t.budget.limit, t.candidates, decisions, start).None?)
  {
    assert t.candidates[..i + 1][..i] == t.candidates[..i];
    assert decisions[..i + 1][..i] == decisions[..i];
    assert t.candidates[..|t.candidates|] == t.candidates && decisions[..|decisions|] == decisions;
    if CheckDecisions(
      rules, t.caseIndex, t.budget.limit, t.candidates[..i + 1], decisions[..i + 1], start).None?
    {
      DecisionsRefused(rules, t, decisions, start, i + 1, |decisions|);
    }
  }

  ghost function RequestIds(n: nat): (ids: set<int>)
    ensures forall i {:trigger i in ids} :: i in ids <==> 1 <= i <= n
  {
    if n == 0 then {} else RequestIds(n - 1) + {n}
  }

  lemma {:induction false} RequestIdCount(n: nat)
    ensures |RequestIds(n)| == n
  {
    if n > 0 {
      RequestIdCount(n - 1);
      assert n !in RequestIds(n - 1);
    }
  }

  function SizesOf(rules: Rules, s: State): (nat, nat) {
    (|rules.render(s)|, rules.utf8Length(rules.render(s)))
  }

  /** Three dictionaries keyed by exactly the request ids 1..n. */
  ghost predicate RequestView(
    rules: Rules, log: Log, observations: map<int, Observation>, states: map<int, State>,
    sizes: map<int, (nat, nat)>)
  {
    && observations.Keys == states.Keys == sizes.Keys == RequestIds(|log|)
    && forall i {:trigger log[i]} :: 0 <= i < |log| ==>
      && observations[i + 1] == log[i].observation
      && states[i + 1] == log[i].state
      && sizes[i + 1] == SizesOf(rules, log[i].state)
  }

  /** One dictionary keyed by exactly the observed prompt states. */
  ghost predicate StateView(log: Log, stateObservations: map<State, Observation>) {
    && (forall s :: s in stateObservations <==> Find(log, s).Some?)
    && (forall s :: s in stateObservations ==> Find(log, s) == Some(stateObservations[s]))
  }

  /** The provider ids, as many as there are requests. */
  ghost predicate ProviderView(log: Log, providerIds: set<string>) {
    && (forall p :: p in providerIds <==> ProviderUsed(log, p))
    && |providerIds| == |log|
  }

  lemma RequestViewExtended(
    rules: Rules, log: Log, observations: map<int, Observation>, states: map<int, State>,
    sizes: map<int, (nat, nat)>, v: Observation, s: State)
    requires RequestView(rules, log, observations, states, sizes) && v.requestId == |log| + 1
    ensures RequestView(rules, log + [Entry(s, v)], observations[v.requestId := v],
      states[v.requestId := s], sizes[v.requestId := SizesOf(rules, s)])
  {
  }

  lemma StateViewExtended(
    rules: Rules, log: Log, stateObservations: map<State, Observation>, v: Observation, s: State)
    requires ValidLog(rules, log) && StateView(log, stateObservations)
    ensures StateView(log + [Entry(s, v)], stateObservations[s := v])
  {
  }

  lemma ProviderViewExtended(log: Log, providerIds: set<string>, v: Observation, s: State)
    requires ProviderView(log, providerIds) && !ProviderUsed(log, v.providerId)
    ensures ProviderView(log + [Entry(s, v)], providerIds + {v.providerId})
  {
    var log' := log + [Entry(s, v)];
    forall p ensures ProviderUsed(log', p) <==> ProviderUsed(log, p) || p == v.providerId {
      if ProviderUsed(log, p) {
        var i :| 0 <= i < |log| && log[i].observation.providerId == p;
        assert log'[i].observation.providerId == p;
      }
      assert log'[|log|].observation.providerId == v.providerId;
    }
  }

  // -------------------------------------------------------------- the loop nest

  lemma {:induction false} DepthTasksPrefix(
    caseIndex: nat, ranking: seq<Id>, depths: seq<nat>, budgets: seq<Budget>, n: nat)
    requires n <= |depths|
    ensures DepthTasks(caseIndex, ranking, depths[..n], budgets) <= DepthTasks(caseIndex, ranking, depths, budgets)
  {
    if n == |depths| {
      assert depths[..n] == depths;
    } else {
      var m := |depths| - 1;
      assert depths[..m][..n] == depths[..n];
      DepthTasksPrefix(caseIndex, ranking, depths[..m], budgets, n);
    }
  }

  lemma {:induction false} TasksPrefix(rankings: seq<seq<Id>>, budgets: seq<Budget>, n: nat)
    requires n <= |rankings|
    ensures Tasks(rankings[..n], budgets) <= Tasks(rankings, budgets)
  {
    if n == |rankings| {
      assert rankings[..n] == rankings;
    } else {
      var m := |rankings| - 1;
      assert rankings[..m][..n] == rankings[..n];
      TasksPrefix(rankings[..m], budgets, n);
    }
  }

  /** The tasks done before budget `b` of depth `k` of case `c`. */
  ghost function Done(rankings: seq<seq<Id>>, budgets: seq<Budget>, depths: seq<nat>, c: nat, k: nat, b: nat)
    : seq<Task>
    requires c < |rankings| && k < |depths| && b <= |budgets|
  {
    Tasks(rankings[..c], budgets) + DepthTasks(c, rankings[c], depths[..k], budgets)
    + BudgetTasks(c, rankings[c], depths[k], budgets[..b])
  }

  lemma DoneStep(rankings: seq<seq<Id>>, budgets: seq<Budget>, depths: seq<nat>, c: nat, k: nat, b: nat)
    requires c < |rankings| && k < |depths| && b < |budgets|
    ensures Done(rankings, budgets, depths, c, k, b + 1) == Done(rankings, budgets, depths, c, k, b)
      + [Task(c, depths[k], Take(rankings[c], depths[k]), budgets[b])]
  {
  }

  lemma DoneDepth(rankings: seq<seq<Id>>, budgets: seq<Budget>, depths: seq<nat>, c: nat, k: nat)
    requires c < |rankings| && k < |depths|
    ensures Done(rankings, budgets, depths, c, k, |budgets|)
      == Tasks(rankings[..c], budgets) + DepthTasks(c, rankings[c], depths[..k + 1], budgets)
  {
    assert budgets[..|budgets|] == budgets;
    assert depths[..k + 1][..k] == depths[..k];
    var before := DepthTasks(c, rankings[c], depths[..k], budgets);
    var here := BudgetTasks(c, rankings[c], depths[k], budgets);
    assert DepthTasks(c, rankings[c], depths[..k + 1], budgets) == before + here;
  }

  lemma DoneCase(rankings: seq<seq<Id>>, budgets: seq<Budget>, c: nat)
    requires c < |rankings|
    ensures Tasks(rankings[..c], budgets) + DepthTasks(c, rankings[c], DEPTHS[..|DEPTHS|], budgets)
      == Tasks(rankings[..c + 1], budgets)
  {
    assert DEPTHS[..|DEPTHS|] == DEPTHS;
    assert rankings[..c + 1][..c] == rankings[..c];
  }

  lemma DoneInDepth(rankings: seq<seq<Id>>, budgets: seq<Budget>, depths: seq<nat>, c: nat, k: nat, b: nat)
    requires c < |rankings| && k < |depths| && b <= |budgets|
    ensures Done(rankings, budgets, depths, c, k, b) <= Done(rankings, budgets, depths, c, k, |budgets|)
  {
  }

  lemma DoneIsPrefix(rankings: seq<seq<Id>>, budgets: seq<Budget>, c: nat, k: nat, b: nat)
    requires c < |rankings| && k < |DEPTHS| && b <= |budgets|
    ensures Done(rankings, budgets, DEPTHS, c, k, b) <= Tasks(rankings, budgets)
  {
    hide *;
    DoneInDepth(rankings, budgets, DEPTHS, c, k, b);
    DoneDepth(rankings, budgets, DEPTHS, c, k);
    DepthTasksPrefix(c, rankings[c], DEPTHS, budgets, k + 1);
    DoneCase(rankings, budgets, c);
    assert DEPTHS[..|DEPTHS|] == DEPTHS;
    TasksPrefix(rankings, budgets, c + 1);
  }

  /** The rows visited so far have led the registry to `log`. */
  ghost predicate Reached(rules: Rules, cases: seq<Case>, done: seq<Task>, log: Log) {
    && (forall i :: 0 <= i < |done| ==> Located(cases, done[i]))
    && CheckItems(rules, ItemsAt(cases, done)) == Some(log)
  }

  lemma ReachedStep(rules: Rules, cases: seq<Case>, done: seq<Task>, t: Task, log: Log)
    requires Reached(rules, cases, done, log) && Located(cases, t)
    ensures var log' := CheckRow(rules, Item(t, RowAt(cases, t)), log);
      && CheckItems(rules, ItemsAt(cases, done + [t])) == log'
      && (log'.Some? ==> Reached(rules, cases, done + [t], log'.value))
  {
    hide CheckRow;
    var items := ItemsAt(cases, done + [t]);
    assert items[..|done|] == ItemsAt(cases, done);
    assert items[|done|] == Item(t, RowAt(cases, t));
  }

  lemma ShapedLocates(rules: Rules, cases: seq<Case>, t: Task)
    requires t.caseIndex < |cases| && Shaped(rules, cases[t.caseIndex])
    requires t.depth in DEPTHS && t.budget in rules.budgets
    ensures Located(cases, t)
  {
  }

  lemma AllShapedStep(rules: Rules, cases: seq<Case>, c: nat)
    requires c < |cases| && AllShaped(rules, cases[..c]) && Shaped(rules, cases[c])
    ensures AllShaped(rules, cases[..c + 1])
  {
  }

  /** When every row has passed, the accounting block decides. */
  lemma ReachedEnd(rules: Rules, payload: Payload, log: Log)
    requires AllShaped(rules, payload.cases)
    requires Reached(rules, payload.cases, Tasks(Rankings(payload.cases), rules.budgets), log)
    ensures Accepts(rules, payload) <==> payload.accounting == AccountingOf(rules, log)
  {
  }

  /** A refused row refuses the payload, whatever comes after it. */
  lemma Refused(rules: Rules, payload: Payload, done: seq<Task>)
    requires done <= Tasks(Rankings(payload.cases), rules.budgets)
    requires forall i :: 0 <= i < |done| ==> Located(payload.cases, done[i])
    requires CheckItems(rules, ItemsAt(payload.cases, done)).None?
    ensures !Accepts(rules, payload)
  {
    if Accepts(rules, payload) {
      var items := Items(rules, payload.cases);
      ItemsPrefix(rules, payload.cases, done);
      hide Items, ItemsAt, Tasks;
      CheckItemsKeepsLog(rules, items, |done|);
    }
  }

  lemma ItemsPrefix(rules: Rules, cases: seq<Case>, done: seq<Task>)
    requires AllShaped(rules, cases) && done <= Tasks(Rankings(cases), rules.budgets)
    requires forall i :: 0 <= i < |done| ==> Located(cases, done[i])
    ensures Items(rules, cases)[..|done|] == ItemsAt(cases, done)
  {
    TasksLocated(cases, rules, |cases|);
    assert Rankings(cases)[..|cases|] == Rankings(cases);
    hide Tasks, Shaped, Located, Rankings;
  }

  method ValidateRow(registry: Registry, payload: Payload, t: Task, ghost done: seq<Task>) returns (ok: bool)
    requires registry.Valid() && Located(payload.cases, t)
    requires Reached(registry.rules, payload.cases, done, registry.log)
    requires done + [t] <= Tasks(Rankings(payload.cases), registry.rules.budgets)
    modifies registry
    ensures registry.Valid()
    ensures ok ==> Reached(registry.rules, payload.cases, done + [t], registry.log)
    ensures !ok ==> !Accepts(registry.rules, payload)
  {
    ReachedStep(registry.rules, payload.cases, done, t, registry.log);
    ok := registry.Replay(t, payload.cases[t.caseIndex].packing[t.depth][t.budget]);
    if !ok {
      Refused(registry.rules, payload, done + [t]);
    }
  }

  /** All budget rows of one case at one depth. */
  method ValidateDepth(registry: Registry, payload: Payload, c: nat, k: nat) returns (ok: bool)
    requires registry.Valid() && c < |payload.cases| && Shaped(registry.rules, payload.cases[c]) && k < |DEPTHS|
    requires Reached(registry.rules, payload.cases,
      Done(Rankings(payload.cases), registry.rules.budgets, DEPTHS, c, k, 0), registry.log)
    modifies registry
    ensures registry.Valid()
    ensures ok ==> Reached(registry.rules, payload.cases,
      Done(Rankings(payload.cases), registry.rules.budgets, DEPTHS, c, k, |registry.rules.budgets|), registry.log)
    ensures !ok ==> !Accepts(registry.rules, payload)
  {
    hide *;
    var rules, ranking := registry.rules, payload.cases[c].ranking;
    for b := 0 to |rules.budgets|
      invariant registry.Valid()
      invariant Reached(rules, payload.cases,
        Done(Rankings(payload.cases), rules.budgets, DEPTHS, c, k, b), registry.log)
    {
      var candidates := if |ranking| < DEPTHS[k] then ranking else ranking[..DEPTHS[k]];
      TakeMeans(ranking, DEPTHS[k]);
      var t := Task(c, DEPTHS[k], candidates, rules.budgets[b]);
      ShapedLocates(rules, payload.cases, t);
      DoneStep(Rankings(payload.cases), rules.budgets, DEPTHS, c, k, b);
      DoneIsPrefix(Rankings(payload.cases), rules.budgets, c, k, b + 1);
      ok := ValidateRow(registry, payload, t, Done(Rankings(payload.cases), rules.budgets, DEPTHS, c, k, b));
      if !ok {
        return;
      }
    }
    ok := true;
  }

  lemma TakeMeans(xs: seq<Id>, n: nat)
    ensures Take(xs, n) == if |xs| < n then xs else xs[..n]
  {
  }

  lemma DoneStart(rankings: seq<seq<Id>>, budgets: seq<Budget>, depths: seq<nat>, c: nat, k: nat)
    requires c < |rankings| && k < |depths|
    ensures Done(rankings, budgets, depths, c, k, 0)
      == Tasks(rankings[..c], budgets) + DepthTasks(c, rankings[c], depths[..k], budgets)
  {
  }

  /** All rows of one case. */
  method ValidateCase(registry: Registry, payload: Payload, c: nat) returns (ok: bool)
    requires registry.Valid() && c < |payload.cases| && Shaped(registry.rules, payload.cases[c])
    requires Reached(registry.rules, payload.cases,
      Tasks(Rankings(payload.cases)[..c], registry.rules.budgets), registry.log)
    modifies registry
    ensures registry.Valid()
    ensures ok ==> Reached(registry.rules, payload.cases,
      Tasks(Rankings(payload.cases)[..c + 1], registry.rules.budgets), registry.log)
    ensures !ok ==> !Accepts(registry.rules, payload)
  {
    var rules := registry.rules;
    ghost var rankings := Rankings(payload.cases);
    ghost var before := Tasks(rankings[..c], rules.budgets);
    assert before + DepthTasks(c, rankings[c], DEPTHS[..0], rules.budgets) == before;
    for k := 0 to |DEPTHS|
      invariant registry.Valid()
      invariant Reached(rules, payload.cases,
        before + DepthTasks(c, rankings[c], DEPTHS[..k], rules.budgets), registry.log)
    {
      DoneStart(rankings, rules.budgets, DEPTHS, c, k);
      DoneDepth(rankings, rules.budgets, DEPTHS, c, k);
      ok := ValidateDepth(registry, payload, c, k);
      if !ok {
        return;
      }
    }
    DoneCase(rankings, rules.budgets, c);
    ok := true;
  }

  /** The material of one case and the keys of its packing evidence. */
  method CheckShape(rules: Rules, c: Case) returns (ok: bool)
    ensures ok <==> Shaped(rules, c)
  {
    var expected := if |c.ranking| < 10 then c.ranking else c.ranking[..10];
    if |c.material| != |expected| {
      return false;
    }
    var sessions: set<Id> := {};
    for i := 0 to |c.material|
      invariant forall id :: id in sessions <==> id in c.material[..i]
      invariant Distinct(c.material[..i]) && forall j :: 0 <= j < i ==> c.material[j] != ""
    {
      var id := c.material[i];
      if id == "" {
        return false;
      }
      DistinctExtended(c.material, i);
      if id in sessions {
        return false;
      }
      sessions := sessions + {id};
    }
    assert c.material[..|c.material|] == c.material;
    if c.material != expected || c.packing.Keys != {5, 10} {
      return false;
    }
    var budgets := set b | b in rules.budgets;
    assert Elements(DEPTHS) == {5, 10} && Elements(rules.budgets) == budgets;
    ok := c.packing[5].Keys == budgets && c.packing[10].Keys == budgets;
  }

  lemma DistinctExtended(ids: seq<Id>, i: nat)
    requires i < |ids| && Distinct(ids[..i])
    ensures Distinct(ids[..i + 1]) <==> ids[i] !in ids[..i]
    ensures Distinct(ids) ==> Distinct(ids[..i + 1])
    ensures forall id :: id in ids[..i + 1] <==> id in ids[..i] || id == ids[i]
  {
    assert ids[..i + 1] == ids[..i] + [ids[i]];
    if Distinct(ids[..i + 1]) {
      forall j | 0 <= j < i ensures ids[..i][j] != ids[i] {
        assert ids[..i + 1][j] != ids[..i + 1][i];
      }
    }
  }

  /** The validator accepts a payload exactly when Packing.Accepts holds. */
  method Validate(rules: Rules, payload: Payload) returns (ok: bool)
    ensures ok <==> Accepts(rules, payload)
  {
    var registry := new Registry(rules);
    for c := 0 to |payload.cases|
      invariant registry.Valid() && registry.rules == rules && fresh(registry)
      invariant AllShaped(rules, payload.cases[..c])
      invariant Reached(rules, payload.cases, Tasks(Rankings(payload.cases)[..c], rules.budgets), registry.log)
    {
      ok := CheckShape(rules, payload.cases[c]);
      if !ok {
        return false;
      }
      AllShapedStep(rules, payload.cases, c);
      ok := ValidateCase(registry, payload, c);
      if !ok {
        return;
      }
    }
    assert Rankings(payload.cases)[..|payload.cases|] == Rankings(payload.cases);
    assert payload.cases[..|payload.cases|] == payload.cases;
    ReachedEnd(rules, payload, registry.log);
    ok := registry.CheckAccounting(payload.accounting);
  }
}
