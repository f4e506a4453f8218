/** The exact-context packing evidence: the greedy packer that writes it
    (scripts/run_retrieval_eval.py) and the validator that replays it against
    one registry of tokenizer observations
    (scripts/build_longmemeval_retrieval_report.py). */
module Packing {
  import opened Wrappers

  type Id = string

  const DEPTHS: seq<nat> := [5, 10]
  const POLICY := "exact_serialized_greedy"
  const SOURCE := "provider-observed"

  /** A prompt state: which case, and which sessions are in the prompt. */
  datatype State = State(caseIndex: nat, ids: seq<Id>)

  datatype Observation = Observation(
    requestId: int, providerId: string, identity: string, digest: string, tokens: int)

  datatype Budget = Unbounded | Bounded(limit: int)

  datatype Decision = Decision(
    candidate: Id, before: seq<Id>, proposed: seq<Id>, observation: Observation, accepted: bool)

  datatype Row = Row(
    budget: Budget, policy: string, initial: Option<Observation>, decisions: seq<Decision>,
    kept: seq<Id>, final: Observation)

  /** One case of a run: its final ranking, the session ids of its prompt
      material, and its packing rows by depth and budget. */
  datatype Case = Case(ranking: seq<Id>, material: seq<Id>, packing: map<nat, map<Budget, Row>>)

  datatype Accounting = Accounting(
    source: string, requests: int, responses: int, providers: int,
    characters: int, bytes: int, verified: bool)

  datatype Payload = Payload(cases: seq<Case>, accounting: Accounting)

  /** What the evidence is checked against: prompt rendering, the text digest,
      the provider-id syntax, UTF-8 length, the expected response identity and
      the budget list. */
  datatype Rules = Rules(
    render: State -> string, sha: string -> string, providerSyntax: string -> bool,
    utf8Length: string -> nat, identity: string, budgets: seq<Budget>)

  /** What the tokenizer answers to one fresh prompt. */
  datatype Reply = Reply(providerId: string, tokens: int)

  datatype Entry = Entry(state: State, observation: Observation)

  type Log = seq<Entry>

  // ---------------------------------------------------------------- the log

  /** The observation first made for a prompt state. */
  function Find(log: Log, s: State): Option<Observation> {
    if |log| == 0 then None
    else if log[|log| - 1].state == s then Some(log[|log| - 1].observation)
    else Find(log[..|log| - 1], s)
  }

  lemma {:induction false} FindNone(log: Log, s: State)
    requires Find(log, s).None?
    ensures forall i :: 0 <= i < |log| ==> log[i].state != s
  {
    if |log| > 0 {
      FindNone(log[..|log| - 1], s);
      forall i | 0 <= i < |log| ensures log[i].state != s {
        if i < |log| - 1 {
          assert log[i] == log[..|log| - 1][i];
        }
      }
    }
  }

  predicate ProviderUsed(log: Log, p: string) {
    exists i :: 0 <= i < |log| && log[i].observation.providerId == p
  }

  /** `v` is an answer to request number `n`, which asked for the prompt of `s`. */
  predicate Genuine(rules: Rules, v: Observation, s: State, n: int) {
    && v.requestId == n
    && 1 <= v.tokens
    && rules.providerSyntax(v.providerId)
    && v.digest == rules.sha(rules.render(s))
    && v.identity == rules.identity
  }

  /** `v` may be the next observation, made for the new state `s`. */
  predicate Fresh(rules: Rules, log: Log, v: Observation, s: State) {
    Genuine(rules, v, s, |log| + 1) && !ProviderUsed(log, v.providerId)
  }

  /** Accept `v` for `s`: the recorded observation of a known state, or the
      next request of a new one. */
  function Record(rules: Rules, log: Log, v: Observation, s: State): Option<Log> {
    var known := Find(log, s);
    if known.Some? then
      if known.value == v then Some(log) else None
    else if Fresh(rules, log, v, s) then Some(log + [Entry(s, v)])
    else None
  }

  /** Requests are numbered 1..n in order, no two of them share a prompt state
      or a provider id, and each carries the digest of its own prompt. */
  ghost predicate ValidLog(rules: Rules, log: Log) {
    && (forall i :: 0 <= i < |log| ==> Genuine(rules, log[i].observation, log[i].state, i + 1))
    && (forall i, j :: 0 <= i < j < |log| ==> log[i].state != log[j].state)
    && (forall i, j :: 0 <= i < j < |log| ==> log[i].observation.providerId != log[j].observation.providerId)
  }

  lemma FindAt(rules: Rules, log: Log, i: nat)
    requires ValidLog(rules, log) && i < |log|
    ensures Find(log, log[i].state) == Some(log[i].observation)
  {
  }

  lemma FindIsAt(log: Log, s: State) returns (i: nat)
    requires Find(log, s).Some?
    ensures i < |log| && log[i] == Entry(s, Find(log, s).value)
  {
    if log[|log| - 1].state == s {
      i := |log| - 1;
    } else {
      i := FindIsAt(log[..|log| - 1], s);
    }
  }

  /** The validator's step keeps the log well numbered and only appends. */
  lemma RecordKeepsLog(rules: Rules, log: Log, v: Observation, s: State)
    requires ValidLog(rules, log) && Record(rules, log, v, s).Some?
    ensures ValidLog(rules, Record(rules, log, v, s).value)
    ensures log <= Record(rules, log, v, s).value
    ensures Find(Record(rules, log, v, s).value, s) == Some(v)
  {
    if Find(log, s).None? {
      FindNone(log, s);
      assert (log + [Entry(s, v)])[..|log|] == log;
    }
  }

  /** A state that is known stays known, with the same observation. */
  lemma FindMonotone(rules: Rules, log: Log, log': Log, s: State)
    requires ValidLog(rules, log') && log <= log' && Find(log, s).Some?
    ensures Find(log', s) == Find(log, s)
  {
  }

  // ------------------------------------------------- what the validator checks

  datatype Walk = Walk(selected: seq<Id>, current: Observation, log: Log)

  /** One turn of the nested loops: case, depth and budget. */
  datatype Task = Task(caseIndex: nat, depth: nat, candidates: seq<Id>, budget: Budget)

  datatype Item = Item(task: Task, row: Row)

  /** The replay of one greedy decision. */
  function CheckDecision(
    rules: Rules, caseIndex: nat, limit: int, candidate: Id, d: Decision, walk: Walk): Option<Walk>
  {
    var proposed := walk.selected + [candidate];
    if d.candidate != candidate || d.before != walk.selected || d.proposed != proposed then None
    else
      var log :- Record(rules, walk.log, d.observation, State(caseIndex, proposed));
      if d.accepted != (d.observation.tokens <= limit) then None
      else if d.accepted then Some(Walk(proposed, d.observation, log))
      else Some(walk.(log := log))
  }

  function CheckDecisions(
    rules: Rules, caseIndex: nat, limit: int, candidates: seq<Id>, decisions: seq<Decision>, start: Walk)
    : Option<Walk>
    requires |candidates| == |decisions|
  {
    if |candidates| == 0 then Some(start)
    else
      var n := |candidates| - 1;
      var walk :- CheckDecisions(rules, caseIndex, limit, candidates[..n], decisions[..n], start);
      CheckDecision(rules, caseIndex, limit, candidates[n], decisions[n], walk)
  }

  /** One budget row, from the registry state `log` to the next one. */
  function CheckRow(rules: Rules, item: Item, log: Log): Option<Log> {
    var row := item.row;
    if row.budget != item.task.budget || row.policy != POLICY then None
    else if item.task.budget.Unbounded? then
      if row.initial.Some? || row.decisions != [] || row.kept != item.task.candidates then None
      else Record(rules, log, row.final, State(item.task.caseIndex, item.task.candidates))
    else if row.initial.None? then None
    else
      var log1 :- Record(rules, log, row.initial.value, State(item.task.caseIndex, []));
      if |row.decisions| != |item.task.candidates| then None
      else
        var start := Walk([], row.initial.value, log1);
        var walk :- CheckDecisions(
          rules, item.task.caseIndex, item.task.budget.limit, item.task.candidates, row.decisions, start);
        var log2 :- Record(rules, walk.log, row.final, State(item.task.caseIndex, walk.selected));
        if row.kept == walk.selected && row.final == walk.current then Some(log2) else None
  }

  /** All rows in visiting order, through one shared registry. */
  function CheckItems(rules: Rules, items: seq<Item>): Option<Log> {
    if |items| == 0 then Some([])
    else
      var log :- CheckItems(rules, items[..|items| - 1]);
      CheckRow(rules, items[|items| - 1], log)
  }

  // ------------------------------------------------------ what the packer does

  /** The memoised tokenizer: a known state costs no request; a new one is
      request number |log| + 1 and gets the next reply. */
  function Ask(rules: Rules, replies: seq<Reply>, log: Log, s: State): Option<(Observation, Log)> {
    var known := Find(log, s);
    if known.Some? then Some((known.value, log))
    else if |log| < |replies| then
      var reply := replies[|log|];
      var v := Observation(
        |log| + 1, reply.providerId, rules.identity, rules.sha(rules.render(s)), reply.tokens);
      Some((v, log + [Entry(s, v)]))
    else None
  }

  /** Greedy selection: keep the candidate when the longer prompt fits. */
  function PackDecision(
    rules: Rules, caseIndex: nat, limit: int, candidate: Id, replies: seq<Reply>, walk: Walk)
    : Option<(Decision, Walk)>
  {
    var proposed := walk.selected + [candidate];
    var (v, log) :- Ask(rules, replies, walk.log, State(caseIndex, proposed));
    var accepted := v.tokens <= limit;
    var d := Decision(candidate, walk.selected, proposed, v, accepted);
    Some((d, if accepted then Walk(proposed, v, log) else walk.(log := log)))
  }

  function PackDecisions(
    rules: Rules, caseIndex: nat, limit: int, candidates: seq<Id>, replies: seq<Reply>, start: Walk)
    : (r: Option<(seq<Decision>, Walk)>)
    ensures r.Some? ==> |r.value.0| == |candidates|
  {
    if |candidates| == 0 then Some(([], start))
    else
      var n := |candidates| - 1;
      var (decisions, walk) :- PackDecisions(rules, caseIndex, limit, candidates[..n], replies, start);
      var (d, walk') :- PackDecision(rules, caseIndex, limit, candidates[n], replies, walk);
      Some((decisions + [d], walk'))
  }

  function PackRow(rules: Rules, task: Task, replies: seq<Reply>, log: Log): Option<(Row, Log)> {
    if task.budget.Unbounded? then
      var (v, log') :- Ask(rules, replies, log, State(task.caseIndex, task.candidates));
      Some((Row(task.budget, POLICY, None, [], task.candidates, v), log'))
    else
      var (initial, log1) :- Ask(rules, replies, log, State(task.caseIndex, []));
      var (decisions, walk) :- PackDecisions(
        rules, task.caseIndex, task.budget.limit, task.candidates, replies, Walk([], initial, log1));
      Some((Row(task.budget, POLICY, Some(initial), decisions, walk.selected, walk.current), walk.log))
  }

  function PackAll(rules: Rules, tasks: seq<Task>, replies: seq<Reply>): (r: Option<(seq<Row>, Log)>)
    ensures r.Some? ==> |r.value.0| == |tasks|
  {
    if |tasks| == 0 then Some(([], []))
    else
      var (rows, log) :- PackAll(rules, tasks[..|tasks| - 1], replies);
      var (row, log') :- PackRow(rules, tasks[|tasks| - 1], replies, log);
      Some((rows + [row], log'))
  }

  // --------------------------------------------- the two agree, step by step

  function ReplyOf(v: Observation): Reply {
    Reply(v.providerId, v.tokens)
  }

  function RepliesOf(log: Log): (replies: seq<Reply>)
    ensures |replies| == |log|
    ensures forall i :: 0 <= i < |log| ==> replies[i] == ReplyOf(log[i].observation)
  {
    seq(|log|, i requires 0 <= i < |log| => ReplyOf(log[i].observation))
  }

  /** A tokenizer that answers with positive counts and with well-formed,
      never repeated provider ids. */
  ghost predicate HonestReplies(rules: Rules, replies: seq<Reply>) {
    && (forall i :: 0 <= i < |replies| ==> 1 <= replies[i].tokens && rules.providerSyntax(replies[i].providerId))
    && (forall i, j :: 0 <= i < j < |replies| ==> replies[i].providerId != replies[j].providerId)
  }

  /** What the validator accepts for a state is what the packer, fed the
      replies of any later registry, observes for it. */
  lemma AcceptedIsAsked(rules: Rules, replies: seq<Reply>, log: Log, v: Observation, s: State)
    requires ValidLog(rules, log) && Record(rules, log, v, s).Some?
    requires RepliesOf(Record(rules, log, v, s).value) <= replies
    ensures Ask(rules, replies, log, s) == Some((v, Record(rules, log, v, s).value))
  {
  }

  /** What the packer observes from an honest tokenizer, the validator accepts. */
  lemma AskedIsAccepted(rules: Rules, replies: seq<Reply>, log: Log, s: State)
    requires ValidLog(rules, log) && HonestReplies(rules, replies)
    requires RepliesOf(log) <= replies && Ask(rules, replies, log, s).Some?
    ensures var (v, log') := Ask(rules, replies, log, s).value;
      && Record(rules, log, v, s) == Some(log')
      && RepliesOf(log') <= replies
  {
  }

  /** The walk's current observation is the registry's for its selection. */
  ghost predicate WalkValid(rules: Rules, caseIndex: nat, walk: Walk) {
    ValidLog(rules, walk.log) && Find(walk.log, State(caseIndex, walk.selected)) == Some(walk.current)
  }

  lemma CheckDecisionKeepsWalk(
    rules: Rules, caseIndex: nat, limit: int, candidate: Id, d: Decision, walk: Walk)
    requires WalkValid(rules, caseIndex, walk)
    requires CheckDecision(rules, caseIndex, limit, candidate, d, walk).Some?
    ensures var walk' := CheckDecision(rules, caseIndex, limit, candidate, d, walk).value;
      && WalkValid(rules, caseIndex, walk') && walk.log <= walk'.log
      && walk'.log == Record(rules, walk.log, d.observation, State(caseIndex, walk.selected + [candidate])).value
  {
    var s := State(caseIndex, walk.selected + [candidate]);
    RecordKeepsLog(rules, walk.log, d.observation, s);
    var log := Record(rules, walk.log, d.observation, s).value;
    FindMonotone(rules, walk.log, log, State(caseIndex, walk.selected));
  }

  lemma {:induction false} CheckDecisionsKeepWalk(
    rules: Rules, caseIndex: nat, limit: int, candidates: seq<Id>, decisions: seq<Decision>, start: Walk)
    requires WalkValid(rules, caseIndex, start) && |candidates| == |decisions|
    requires CheckDecisions(rules, caseIndex, limit, candidates, decisions, start).Some?
    ensures var walk := CheckDecisions(rules, caseIndex, limit, candidates, decisions, start).value;
      WalkValid(rules, caseIndex, walk) && start.log <= walk.log
  {
    if |candidates| > 0 {
      var n := |candidates| - 1;
      CheckDecisionsKeepWalk(rules, caseIndex, limit, candidates[..n], decisions[..n], start);
      var walk := CheckDecisions(rules, caseIndex, limit, candidates[..n], decisions[..n], start).value;
      CheckDecisionKeepsWalk(rules, caseIndex, limit, candidates[n], decisions[n], walk);
    }
  }

  lemma CheckedDecisionIsPacked(
    rules: Rules, caseIndex: nat, limit: int, candidate: Id, d: Decision, replies: seq<Reply>, walk: Walk)
    requires WalkValid(rules, caseIndex, walk)
    requires CheckDecision(rules, caseIndex, limit, candidate, d, walk).Some?
    requires RepliesOf(CheckDecision(rules, caseIndex, limit, candidate, d, walk).value.log) <= replies
    ensures PackDecision(rules, caseIndex, limit, candidate, replies, walk)
      == Some((d, CheckDecision(rules, caseIndex, limit, candidate, d, walk).value))
    ensures RepliesOf(walk.log) <= replies
  {
  }

  lemma RepliesGrow(log: Log, log': Log)
    requires log <= log'
    ensures RepliesOf(log) <= RepliesOf(log')
  {
  }

  lemma {:induction false} CheckedDecisionsArePacked(
    rules: Rules, caseIndex: nat, limit: int, candidates: seq<Id>, decisions: seq<Decision>,
    replies: seq<Reply>, start: Walk, end: Walk)
    requires WalkValid(rules, caseIndex, start) && |candidates| == |decisions|
    requires CheckDecisions(rules, caseIndex, limit, candidates, decisions, start) == Some(end)
    requires RepliesOf(end.log) <= replies
    ensures PackDecisions(rules, caseIndex, limit, candidates, replies, start) == Some((decisions, end))
  {
    if |candidates| > 0 {
      var n := |candidates| - 1;
      var front, last := decisions[..n], decisions[n];
      assert decisions == front + [last];
      var walk := CheckDecisions(rules, caseIndex, limit, candidates[..n], front, start).value;
      CheckDecisionsKeepWalk(rules, caseIndex, limit, candidates[..n], front, start);
      CheckedDecisionIsPacked(rules, caseIndex, limit, candidates[n], last, replies, walk);
      CheckedDecisionsArePacked(rules, caseIndex, limit, candidates[..n], front, replies, start, walk);
    }
  }

  lemma {:induction false} PackedDecisionsCheck(
    rules: Rules, caseIndex: nat, limit: int, candidates: seq<Id>, replies: seq<Reply>, start: Walk)
    requires WalkValid(rules, caseIndex, start)
    requires HonestReplies(rules, replies) && RepliesOf(start.log) <= replies
    requires PackDecisions(rules, caseIndex, limit, candidates, replies, start).Some?
    ensures var (decisions, walk) := PackDecisions(rules, caseIndex, limit, candidates, replies, start).value;
      && CheckDecisions(rules, caseIndex, limit, candidates, decisions, start) == Some(walk)
      && RepliesOf(walk.log) <= replies
  {
    if |candidates| > 0 {
      var n := |candidates| - 1;
      var (decisions, walk) := PackDecisions(rules, caseIndex, limit, candidates[..n], replies, start).value;
      PackedDecisionsCheck(rules, caseIndex, limit, candidates[..n], replies, start);
      CheckDecisionsKeepWalk(rules, caseIndex, limit, candidates[..n], decisions, start);
      AskedIsAccepted(rules, replies, walk.log, State(caseIndex, walk.selected + [candidates[n]]));
      var full := PackDecisions(rules, caseIndex, limit, candidates, replies, start).value.0;
      assert full[..n] == decisions;
    }
  }

  lemma CheckRowKeepsLog(rules: Rules, item: Item, log: Log)
    requires ValidLog(rules, log) && CheckRow(rules, item, log).Some?
    ensures ValidLog(rules, CheckRow(rules, item, log).value) && log <= CheckRow(rules, item, log).value
  {
    var row := item.row;
    if item.task.budget.Unbounded? {
      RecordKeepsLog(rules, log, row.final, State(item.task.caseIndex, item.task.candidates));
    } else {
      RecordKeepsLog(rules, log, row.initial.value, State(item.task.caseIndex, []));
      var log1 := Record(rules, log, row.initial.value, State(item.task.caseIndex, [])).value;
      var start := Walk([], row.initial.value, log1);
      CheckDecisionsKeepWalk(
        rules, item.task.caseIndex, item.task.budget.limit, item.task.candidates, row.decisions, start);
      var walk := CheckDecisions(
        rules, item.task.caseIndex, item.task.budget.limit, item.task.candidates, row.decisions, start).value;
      RecordKeepsLog(rules, walk.log, row.final, State(item.task.caseIndex, walk.selected));
    }
  }

  /** A row passes exactly when it is the packer's row. */
  lemma RowCheckedIffPacked(rules: Rules, item: Item, replies: seq<Reply>, log: Log, log': Log)
    requires ValidLog(rules, log) && HonestReplies(rules, replies) && RepliesOf(log) <= replies
    ensures CheckRow(rules, item, log) == Some(log') && RepliesOf(log') <= replies
      <==> PackRow(rules, item.task, replies, log) == Some((item.row, log'))
  {
    if CheckRow(rules, item, log) == Some(log') && RepliesOf(log') <= replies {
      CheckedRowIsPacked(rules, item, replies, log);
    }
    if PackRow(rules, item.task, replies, log) == Some((item.row, log')) {
      PackedRowChecks(rules, item, replies, log);
    }
  }

  lemma CheckedRowIsPacked(rules: Rules, item: Item, replies: seq<Reply>, log: Log)
    requires ValidLog(rules, log) && CheckRow(rules, item, log).Some?
    requires RepliesOf(CheckRow(rules, item, log).value) <= replies
    ensures PackRow(rules, item.task, replies, log) == Some((item.row, CheckRow(rules, item, log).value))
  {
    var row := item.row;
    if item.task.budget.Unbounded? {
      AcceptedIsAsked(rules, replies, log, row.final, State(item.task.caseIndex, item.task.candidates));
    } else {
      var s0 := State(item.task.caseIndex, []);
      RecordKeepsLog(rules, log, row.initial.value, s0);
      var log1 := Record(rules, log, row.initial.value, s0).value;
      var start := Walk([], row.initial.value, log1);
      var limit := item.task.budget.limit;
      CheckDecisionsKeepWalk(rules, item.task.caseIndex, limit, item.task.candidates, row.decisions, start);
      var walk := CheckDecisions(rules, item.task.caseIndex, limit, item.task.candidates, row.decisions, start).value;
      // The final observation is the one already recorded for the selection.
      assert CheckRow(rules, item, log).value == walk.log;
      AcceptedIsAsked(rules, replies, log, row.initial.value, s0);
      CheckedDecisionsArePacked(
        rules, item.task.caseIndex, limit, item.task.candidates, row.decisions, replies, start, walk);
    }
  }

  lemma PackedRowChecks(rules: Rules, item: Item, replies: seq<Reply>, log: Log)
    requires ValidLog(rules, log) && HonestReplies(rules, replies) && RepliesOf(log) <= replies
    requires PackRow(rules, item.task, replies, log).Some?
    requires PackRow(rules, item.task, replies, log).value.0 == item.row
    ensures var log' := PackRow(rules, item.task, replies, log).value.1;
      CheckRow(rules, item, log) == Some(log') && RepliesOf(log') <= replies
  {
    if item.task.budget.Unbounded? {
      AskedIsAccepted(rules, replies, log, State(item.task.caseIndex, item.task.candidates));
    } else {
      var s0 := State(item.task.caseIndex, []);
      AskedIsAccepted(rules, replies, log, s0);
      var (initial, log1) := Ask(rules, replies, log, s0).value;
      RecordKeepsLog(rules, log, initial, s0);
      var start := Walk([], initial, log1);
      var limit := item.task.budget.limit;
      PackedDecisionsCheck(rules, item.task.caseIndex, limit, item.task.candidates, replies, start);
      var (decisions, walk) := PackDecisions(
        rules, item.task.caseIndex, limit, item.task.candidates, replies, start).value;
      CheckDecisionsKeepWalk(rules, item.task.caseIndex, limit, item.task.candidates, decisions, start);
    }
  }

  // ------------------------------------------------------------ whole payloads

  function Smaller(a: nat, b: nat): (c: nat)
    ensures c <= a && c <= b && (c == a || c == b)
  {
    if a <= b then a else b
  }

  /** Python's `xs[:n]`. */
  function Take<T>(xs: seq<T>, n: nat): (head: seq<T>)
    ensures head <= xs && |head| == Smaller(n, |xs|)
  {
    if n <= |xs| then xs[..n] else xs
  }

  function BudgetTasks(caseIndex: nat, ranking: seq<Id>, depth: nat, budgets: seq<Budget>): seq<Task> {
    seq(|budgets|, i requires 0 <= i < |budgets| => Task(caseIndex, depth, Take(ranking, depth), budgets[i]))
  }

  function DepthTasks(caseIndex: nat, ranking: seq<Id>, depths: seq<nat>, budgets: seq<Budget>): seq<Task> {
    if |depths| == 0 then []
    else
      var n := |depths| - 1;
      DepthTasks(caseIndex, ranking, depths[..n], budgets) + BudgetTasks(caseIndex, ranking, depths[n], budgets)
  }

  /** The loop nest case, depth, budget, flattened in execution order. It
      depends on the rankings alone, never on the evidence. */
  function Tasks(rankings: seq<seq<Id>>, budgets: seq<Budget>): seq<Task> {
    if |rankings| == 0 then []
    else
      var n := |rankings| - 1;
      Tasks(rankings[..n], budgets) + DepthTasks(n, rankings[n], DEPTHS, budgets)
  }

  function Elements<T(==,!new)>(xs: seq<T>): (s: set<T>)
    ensures forall x :: x in s <==> x in xs
  {
    set x | x in xs
  }

  predicate Distinct<T(==)>(xs: seq<T>) {
    forall i, j :: 0 <= i < j < |xs| ==> xs[i] != xs[j]
  }

  /** The prompt material covers the top ten of the ranking, and the packing
      evidence has exactly the required depths and budgets. */
  predicate Shaped(rules: Rules, c: Case) {
    && c.material == Take(c.ranking, 10)
    && Distinct(c.material)
    && (forall i :: 0 <= i < |c.material| ==> c.material[i] != "")
    && c.packing.Keys == Elements(DEPTHS)
    && forall k :: k in c.packing ==> c.packing[k].Keys == Elements(rules.budgets)
  }

  function Rankings(cases: seq<Case>): (rankings: seq<seq<Id>>)
    ensures |rankings| == |cases|
    ensures forall i :: 0 <= i < |cases| ==> rankings[i] == cases[i].ranking
  {
    seq(|cases|, i requires 0 <= i < |cases| => cases[i].ranking)
  }

  ghost predicate Located(cases: seq<Case>, t: Task) {
    && t.caseIndex < |cases|
    && t.depth in cases[t.caseIndex].packing
    && t.budget in cases[t.caseIndex].packing[t.depth]
  }

  /** The evidence row that a turn of the loops looks at. */
  ghost function RowAt(cases: seq<Case>, t: Task): Row
    requires Located(cases, t)
  {
    cases[t.caseIndex].packing[t.depth][t.budget]
  }

  ghost function ItemsAt(cases: seq<Case>, tasks: seq<Task>): (items: seq<Item>)
    requires forall i :: 0 <= i < |tasks| ==> Located(cases, tasks[i])
    ensures |items| == |tasks|
  {
    seq(|tasks|, i requires 0 <= i < |tasks| => Item(tasks[i], RowAt(cases, tasks[i])))
  }

  lemma DepthTasksLocated(
    cases: seq<Case>, rules: Rules, caseIndex: nat, ranking: seq<Id>, depths: seq<nat>)
    requires caseIndex < |cases| && Shaped(rules, cases[caseIndex])
    requires forall k :: k in depths ==> k in DEPTHS
    ensures forall t :: t in DepthTasks(caseIndex, ranking, depths, rules.budgets) ==>
      Located(cases, t) && t.caseIndex == caseIndex
  {
  }

  lemma TasksLocated(cases: seq<Case>, rules: Rules, n: nat)
    requires n <= |cases| && forall i :: 0 <= i < n ==> Shaped(rules, cases[i])
    ensures forall t :: t in Tasks(Rankings(cases)[..n], rules.budgets) ==> Located(cases, t) && t.caseIndex < n
  {
    if n > 0 {
      TasksLocated(cases, rules, n - 1);
      assert Rankings(cases)[..n][..n - 1] == Rankings(cases)[..n - 1];
      DepthTasksLocated(cases, rules, n - 1, cases[n - 1].ranking, DEPTHS);
    }
  }

  ghost predicate AllShaped(rules: Rules, cases: seq<Case>) {
    forall i :: 0 <= i < |cases| ==> Shaped(rules, cases[i])
  }

  /** Every row of the payload in the order the validator visits it. */
  ghost function Items(rules: Rules, cases: seq<Case>): (items: seq<Item>)
    requires AllShaped(rules, cases)
    ensures |items| == |Tasks(Rankings(cases), rules.budgets)|
    ensures forall i :: 0 <= i < |items| ==> items[i].task == Tasks(Rankings(cases), rules.budgets)[i]
  {
    TasksLocated(cases, rules, |cases|);
    assert Rankings(cases)[..|cases|] == Rankings(cases);
    ItemsAt(cases, Tasks(Rankings(cases), rules.budgets))
  }

  function CharactersIn(rules: Rules): State -> nat {
    s => |rules.render(s)|
  }

  function BytesIn(rules: Rules): State -> nat {
    s => rules.utf8Length(rules.render(s))
  }

  function Total(size: State -> nat, log: Log): nat {
    if |log| == 0 then 0 else Total(size, log[..|log| - 1]) + size(log[|log| - 1].state)
  }

  function AccountingOf(rules: Rules, log: Log): Accounting {
    Accounting(SOURCE, |log|, |log|, |log|, Total(CharactersIn(rules), log), Total(BytesIn(rules), log), true)
  }

  /** The validator's verdict on a whole payload. */
  ghost predicate Accepts(rules: Rules, payload: Payload) {
    && AllShaped(rules, payload.cases)
    && var log := CheckItems(rules, Items(rules, payload.cases));
    && log.Some?
    && payload.accounting == AccountingOf(rules, log.value)
  }

  // ----------------------------------------------- accepted means packer's run

  lemma {:induction false} CheckItemsKeepsLog(rules: Rules, items: seq<Item>, n: nat)
    requires CheckItems(rules, items).Some? && n <= |items|
    ensures ValidLog(rules, CheckItems(rules, items).value)
    ensures CheckItems(rules, items[..n]).Some?
    ensures ValidLog(rules, CheckItems(rules, items[..n]).value)
    ensures CheckItems(rules, items[..n]).value <= CheckItems(rules, items).value
  {
    if |items| == n {
      assert items[..n] == items;
      if n > 0 {
        CheckItemsKeepsLog(rules, items[..n - 1], n - 1);
        CheckRowKeepsLog(rules, items[n - 1], CheckItems(rules, items[..n - 1]).value);
      }
    } else {
      var front := items[..|items| - 1];
      assert front[..n] == items[..n];
      CheckItemsKeepsLog(rules, front, n);
      CheckRowKeepsLog(rules, items[|items| - 1], CheckItems(rules, front).value);
    }
  }

  lemma ValidLogIsHonest(rules: Rules, log: Log)
    requires ValidLog(rules, log)
    ensures HonestReplies(rules, RepliesOf(log))
  {
  }

  /** The rows are, one for one, what the packer writes for these tasks. */
  ghost predicate Packed(rules: Rules, items: seq<Item>, tasks: seq<Task>, replies: seq<Reply>, log: Log) {
    var run := PackAll(rules, tasks, replies);
    && run.Some? && run.value.1 == log
    && |items| == |tasks|
    && forall i :: 0 <= i < |items| ==> items[i] == Item(tasks[i], run.value.0[i])
  }

  lemma {:induction false} CheckedItemsArePacked(
    rules: Rules, items: seq<Item>, tasks: seq<Task>, replies: seq<Reply>, log: Log)
    requires |tasks| == |items| && forall i :: 0 <= i < |items| ==> items[i].task == tasks[i]
    requires CheckItems(rules, items) == Some(log)
    requires HonestReplies(rules, replies) && RepliesOf(log) <= replies
    ensures Packed(rules, items, tasks, replies, log)
  {
    hide *;
    if |items| == 0 {
      PackedNothing(rules, items, tasks, replies, log);
    } else {
      CheckItemsStep(rules, items);
      var n := |items| - 1;
      var front, last := items[..n], items[n];
      CheckItemsKeepsLog(rules, items, n);
      var mid := CheckItems(rules, front).value;
      RepliesGrow(mid, log);
      CheckedItemsArePacked(rules, front, tasks[..n], replies, mid);
      CheckedRowIsPacked(rules, last, replies, mid);
      PackedExtends(rules, front, last, tasks, replies, mid, log);
      assert items == front + [last];
    }
  }

  lemma CheckItemsStep(rules: Rules, items: seq<Item>)
    requires |items| > 0 && CheckItems(rules, items).Some?
    ensures var n := |items| - 1;
      var mid := CheckItems(rules, items[..n]);
      mid.Some? && CheckRow(rules, items[n], mid.value) == CheckItems(rules, items)
  {
  }

  lemma PackedNothing(rules: Rules, items: seq<Item>, tasks: seq<Task>, replies: seq<Reply>, log: Log)
    requires |items| == |tasks| == 0 && CheckItems(rules, items) == Some(log)
    ensures Packed(rules, items, tasks, replies, log)
  {
  }

  lemma PackedExtends(
    rules: Rules, front: seq<Item>, last: Item, tasks: seq<Task>, replies: seq<Reply>, mid: Log, log: Log)
    requires |tasks| == |front| + 1 && tasks[|front|] == last.task
    requires Packed(rules, front, tasks[..|front|], replies, mid)
    requires PackRow(rules, last.task, replies, mid) == Some((last.row, log))
    ensures Packed(rules, front + [last], tasks, replies, log)
  {
  }

  lemma {:induction false} PackedItemsCheck(
    rules: Rules, items: seq<Item>, tasks: seq<Task>, replies: seq<Reply>, log: Log)
    requires HonestReplies(rules, replies) && Packed(rules, items, tasks, replies, log)
    ensures CheckItems(rules, items) == Some(log) && RepliesOf(log) <= replies
  {
    if |items| > 0 {
      var n := |items| - 1;
      var (rows, mid) := PackAll(rules, tasks[..n], replies).value;
      forall i | 0 <= i < n ensures items[..n][i] == Item(tasks[..n][i], rows[i]) {
        assert items[i] == Item(tasks[i], PackAll(rules, tasks, replies).value.0[i]);
      }
      PackedItemsCheck(rules, items[..n], tasks[..n], replies, mid);
      CheckItemsKeepsLog(rules, items[..n], n);
      assert items[n] == Item(tasks[n], PackAll(rules, tasks, replies).value.0[n]);
      PackedRowChecks(rules, items[n], replies, mid);
    }
  }

  /** The payload is the trace of one memoised greedy packer, whose tokenizer
      gave exactly `replies`, in this order. */
  ghost predicate PackerRun(rules: Rules, payload: Payload, replies: seq<Reply>) {
    && AllShaped(rules, payload.cases)
    && HonestReplies(rules, replies)
    && exists log {:trigger AccountingOf(rules, log)} ::
      && Packed(rules, Items(rules, payload.cases), Tasks(Rankings(payload.cases), rules.budgets), replies, log)
      && |log| == |replies|
      && payload.accounting == AccountingOf(rules, log)
  }

  /** The validator accepts exactly the traces of one memoised greedy run. */
  lemma AcceptsIffPackerRun(rules: Rules, payload: Payload)
    ensures Accepts(rules, payload) <==> exists replies :: PackerRun(rules, payload, replies)
  {
    if Accepts(rules, payload) {
      var items := Items(rules, payload.cases);
      var log := CheckItems(rules, items).value;
      CheckItemsKeepsLog(rules, items, |items|);
      ValidLogIsHonest(rules, log);
      CheckedItemsArePacked(
        rules, items, Tasks(Rankings(payload.cases), rules.budgets), RepliesOf(log), log);
      assert payload.accounting == AccountingOf(rules, log);
      assert PackerRun(rules, payload, RepliesOf(log));
    }
    forall replies | PackerRun(rules, payload, replies) ensures Accepts(rules, payload) {
      var tasks := Tasks(Rankings(payload.cases), rules.budgets);
      var log :| Packed(rules, Items(rules, payload.cases), tasks, replies, log)
        && |log| == |replies| && payload.accounting == AccountingOf(rules, log);
      PackedItemsCheck(rules, Items(rules, payload.cases), tasks, replies, log);
    }
  }

  // ------------------------------------------- one count per state, everywhere

  /** Greedy selection when every state has one count: the registry's. */
  ghost function Greedy(log: Log, caseIndex: nat, limit: int, candidates: seq<Id>): (kept: seq<Id>)
  {
    if |candidates| == 0 then []
    else
      var n := |candidates| - 1;
      var kept := Greedy(log, caseIndex, limit, candidates[..n]);
      var v := Find(log, State(caseIndex, kept + [candidates[n]]));
      if v.Some? && v.value.tokens <= limit then kept + [candidates[n]] else kept
  }

  lemma {:induction false} GreedyPrefix(log: Log, caseIndex: nat, limit: int, candidates: seq<Id>, n: nat)
    requires n <= |candidates|
    ensures Greedy(log, caseIndex, limit, candidates[..n]) <= Greedy(log, caseIndex, limit, candidates)
  {
    if n < |candidates| {
      var m := |candidates| - 1;
      assert candidates[..m][..n] == candidates[..n];
      GreedyPrefix(log, caseIndex, limit, candidates[..m], n);
    } else {
      assert candidates[..n] == candidates;
    }
  }

  lemma {:induction false} GreedyFits(log: Log, caseIndex: nat, limit: int, candidates: seq<Id>)
    ensures var kept := Greedy(log, caseIndex, limit, candidates);
      kept != [] ==>
        var v := Find(log, State(caseIndex, kept));
        v.Some? && v.value.tokens <= limit
  {
    if |candidates| > 0 {
      GreedyFits(log, caseIndex, limit, candidates[..|candidates| - 1]);
    }
  }

  /** A checked walk selects greedily by the counts of any later registry. */
  lemma {:induction false} WalkIsGreedy(
    rules: Rules, caseIndex: nat, limit: int, candidates: seq<Id>, decisions: seq<Decision>,
    start: Walk, end: Walk, later: Log)
    requires WalkValid(rules, caseIndex, start) && |candidates| == |decisions| && start.selected == []
    requires CheckDecisions(rules, caseIndex, limit, candidates, decisions, start) == Some(end)
    requires ValidLog(rules, later) && end.log <= later
    ensures end.selected == Greedy(later, caseIndex, limit, candidates)
  {
    if |candidates| > 0 {
      var n := |candidates| - 1;
      var walk := CheckDecisions(rules, caseIndex, limit, candidates[..n], decisions[..n], start).value;
      CheckDecisionsKeepWalk(rules, caseIndex, limit, candidates[..n], decisions[..n], start);
      CheckDecisionKeepsWalk(rules, caseIndex, limit, candidates[n], decisions[n], walk);
      WalkIsGreedy(rules, caseIndex, limit, candidates[..n], decisions[..n], start, walk, later);
      var s := State(caseIndex, walk.selected + [candidates[n]]);
      RecordKeepsLog(rules, walk.log, decisions[n].observation, s);
      FindMonotone(rules, end.log, later, s);
    }
  }

  /** After the decisions, the only observation that the registry takes for the
      selection is the walk's current one, and it takes it without a change: the
      source's test of the final observation never decides. */
  lemma FinalObservationIsCurrent(rules: Rules, caseIndex: nat, walk: Walk, v: Observation)
    requires WalkValid(rules, caseIndex, walk)
    ensures Record(rules, walk.log, v, State(caseIndex, walk.selected)) ==
      if v == walk.current then Some(walk.log) else None
  {
  }

  /** In an accepted row the kept ids are the greedy selection by the final
      registry, and its final observation is the registry's for those ids. */
  lemma RowIsGreedy(rules: Rules, item: Item, log: Log, later: Log)
    requires ValidLog(rules, log) && CheckRow(rules, item, log).Some?
    requires ValidLog(rules, later) && CheckRow(rules, item, log).value <= later
    ensures Find(later, State(item.task.caseIndex, item.row.kept)) == Some(item.row.final)
    ensures item.task.budget.Unbounded? ==> item.row.kept == item.task.candidates
    ensures item.task.budget.Bounded? ==>
      item.row.kept == Greedy(later, item.task.caseIndex, item.task.budget.limit, item.task.candidates)
  {
    var row, ci := item.row, item.task.caseIndex;
    var log' := CheckRow(rules, item, log).value;
    if item.task.budget.Unbounded? {
      RecordKeepsLog(rules, log, row.final, State(ci, item.task.candidates));
    } else {
      var s0 := State(ci, []);
      RecordKeepsLog(rules, log, row.initial.value, s0);
      var start := Walk([], row.initial.value, Record(rules, log, row.initial.value, s0).value);
      var limit := item.task.budget.limit;
      CheckDecisionsKeepWalk(rules, ci, limit, item.task.candidates, row.decisions, start);
      var walk := CheckDecisions(rules, ci, limit, item.task.candidates, row.decisions, start).value;
      assert log' == walk.log;
      WalkIsGreedy(rules, ci, limit, item.task.candidates, row.decisions, start, walk, later);
    }
    FindMonotone(rules, log', later, State(ci, row.kept));
  }

  lemma ItemIsGreedy(rules: Rules, items: seq<Item>, i: nat)
    requires CheckItems(rules, items).Some? && i < |items|
    ensures var later := CheckItems(rules, items).value;
      var item := items[i];
      && Find(later, State(item.task.caseIndex, item.row.kept)) == Some(item.row.final)
      && (item.task.budget.Unbounded? ==> item.row.kept == item.task.candidates)
      && (item.task.budget.Bounded? ==>
        item.row.kept == Greedy(later, item.task.caseIndex, item.task.budget.limit, item.task.candidates))
  {
    CheckItemsKeepsLog(rules, items, i);
    CheckItemsKeepsLog(rules, items, i + 1);
    assert items[..i + 1][..i] == items[..i];
    RowIsGreedy(rules, items[i], CheckItems(rules, items[..i]).value, CheckItems(rules, items).value);
  }

  lemma {:induction false} DepthTaskListed(
    caseIndex: nat, ranking: seq<Id>, depths: seq<nat>, budgets: seq<Budget>, k: nat, b: nat) returns (i: nat)
    requires k < |depths| && b < |budgets|
    ensures i < |DepthTasks(caseIndex, ranking, depths, budgets)|
    ensures DepthTasks(caseIndex, ranking, depths, budgets)[i]
      == Task(caseIndex, depths[k], Take(ranking, depths[k]), budgets[b])
  {
    var n := |depths| - 1;
    if k == n {
      i := |DepthTasks(caseIndex, ranking, depths[..n], budgets)| + b;
    } else {
      i := DepthTaskListed(caseIndex, ranking, depths[..n], budgets, k, b);
    }
  }

  /** Every case, depth and budget is visited. */
  lemma {:induction false} TaskListed(rankings: seq<seq<Id>>, budgets: seq<Budget>, c: nat, k: nat, b: nat)
    returns (i: nat)
    requires c < |rankings| && k < |DEPTHS| && b < |budgets|
    ensures i < |Tasks(rankings, budgets)|
    ensures Tasks(rankings, budgets)[i] == Task(c, DEPTHS[k], Take(rankings[c], DEPTHS[k]), budgets[b])
    ensures Tasks(rankings, budgets)[i].candidates == rankings[c][..Smaller(DEPTHS[k], |rankings[c]|)]
  {
    var n := |rankings| - 1;
    if c == n {
      var j := DepthTaskListed(n, rankings[n], DEPTHS, budgets, k, b);
      i := |Tasks(rankings[..n], budgets)| + j;
    } else {
      i := TaskListed(rankings[..n], budgets, c, k, b);
    }
  }

  /** The row that the loops reach for a case, a depth and a budget. */
  ghost predicate RowFound(rules: Rules, payload: Payload, c: nat, k: nat, b: nat, i: nat) {
    && AllShaped(rules, payload.cases)
    && c < |payload.cases| && k < |DEPTHS| && b < |rules.budgets| && i < |Items(rules, payload.cases)|
    && var t := Task(c, DEPTHS[k], Take(payload.cases[c].ranking, DEPTHS[k]), rules.budgets[b]);
      Located(payload.cases, t) && Items(rules, payload.cases)[i] == Item(t, RowAt(payload.cases, t))
  }

  lemma FindRow(rules: Rules, payload: Payload, c: nat, k: nat, b: nat) returns (i: nat)
    requires AllShaped(rules, payload.cases)
    requires c < |payload.cases| && k < |DEPTHS| && b < |rules.budgets|
    ensures RowFound(rules, payload, c, k, b, i)
  {
    TasksLocated(payload.cases, rules, |payload.cases|);
    assert Rankings(payload.cases)[..|payload.cases|] == Rankings(payload.cases);
    i := TaskListed(Rankings(payload.cases), rules.budgets, c, k, b);
  }

  /** The kept ids of every row, and the count of what was kept: without a budget
      the first k of the ranking, with one the greedy selection from them. */
  lemma RowKept(rules: Rules, payload: Payload, c: nat, k: nat, b: nat)
    requires Accepts(rules, payload) && c < |payload.cases| && k < |DEPTHS| && b < |rules.budgets|
    ensures DEPTHS[k] in payload.cases[c].packing && rules.budgets[b] in payload.cases[c].packing[DEPTHS[k]]
    ensures var ranking := payload.cases[c].ranking;
      var candidates := ranking[..Smaller(DEPTHS[k], |ranking|)];
      var row := payload.cases[c].packing[DEPTHS[k]][rules.budgets[b]];
      var log := CheckItems(rules, Items(rules, payload.cases)).value;
      match rules.budgets[b]
      case Unbounded => row.kept == candidates
      case Bounded(limit) =>
        row.kept == Greedy(log, c, limit, candidates) && (row.kept != [] ==> row.final.tokens <= limit)
  {
    var items := Items(rules, payload.cases);
    var candidates := Take(payload.cases[c].ranking, DEPTHS[k]);
    assert candidates == payload.cases[c].ranking[..Smaller(DEPTHS[k], |payload.cases[c].ranking|)];
    var i := FindRow(rules, payload, c, k, b);
    ItemIsGreedy(rules, items, i);
    if rules.budgets[b].Bounded? {
      GreedyFits(CheckItems(rules, items).value, c, rules.budgets[b].limit, candidates);
    }
  }

  /** The candidates that were accepted, in order. */
  function Accepted(decisions: seq<Decision>): seq<Id> {
    if decisions == [] then []
    else
      var last := decisions[|decisions| - 1];
      Accepted(decisions[..|decisions| - 1]) + if last.accepted then [last.candidate] else []
  }

  /** Decision i is about candidate i: it proposes that candidate after those
      accepted so far, and takes it exactly if the count fits. */
  ghost predicate Traces(limit: int, candidates: seq<Id>, decisions: seq<Decision>) {
    && |decisions| == |candidates|
    && forall i :: 0 <= i < |decisions| ==>
      && decisions[i].candidate == candidates[i]
      && decisions[i].before == Accepted(decisions[..i])
      && decisions[i].proposed == decisions[i].before + [candidates[i]]
      && decisions[i].accepted == (decisions[i].observation.tokens <= limit)
  }

  lemma {:induction false} DecisionsTrace(
    rules: Rules, caseIndex: nat, limit: int, candidates: seq<Id>, decisions: seq<Decision>, start: Walk)
    requires |candidates| == |decisions| && start.selected == []
    requires CheckDecisions(rules, caseIndex, limit, candidates, decisions, start).Some?
    ensures Traces(limit, candidates, decisions)
    ensures CheckDecisions(rules, caseIndex, limit, candidates, decisions, start).value.selected == Accepted(decisions)
  {
    if |candidates| > 0 {
      var n := |candidates| - 1;
      DecisionsTrace(rules, caseIndex, limit, candidates[..n], decisions[..n], start);
      var walk := CheckDecisions(rules, caseIndex, limit, candidates[..n], decisions[..n], start).value;
      DecisionFields(rules, caseIndex, limit, candidates[n], decisions[n], walk);
      hide CheckDecision, Traces;
      TracesStep(limit, candidates, decisions);
    }
  }

  lemma DecisionFields(rules: Rules, caseIndex: nat, limit: int, candidate: Id, d: Decision, walk: Walk)
    requires CheckDecision(rules, caseIndex, limit, candidate, d, walk).Some?
    ensures d.candidate == candidate && d.before == walk.selected && d.proposed == d.before + [candidate]
    ensures d.accepted == (d.observation.tokens <= limit)
    ensures CheckDecision(rules, caseIndex, limit, candidate, d, walk).value.selected
      == walk.selected + if d.accepted then [candidate] else []
  {
    hide Record;
  }

  lemma TracesStep(limit: int, candidates: seq<Id>, decisions: seq<Decision>)
    requires |candidates| == |decisions| > 0
    requires var n := |candidates| - 1;
      && Traces(limit, candidates[..n], decisions[..n])
      && decisions[n].candidate == candidates[n] && decisions[n].before == Accepted(decisions[..n])
      && decisions[n].proposed == decisions[n].before + [candidates[n]]
      && decisions[n].accepted == (decisions[n].observation.tokens <= limit)
    ensures Traces(limit, candidates, decisions)
  {
    hide Accepted;
    var n := |candidates| - 1;
    forall i | 0 <= i < n ensures decisions[..n][i] == decisions[i] && decisions[..n][..i] == decisions[..i] {
    }
  }

  lemma RowTraces(rules: Rules, item: Item, log: Log)
    requires CheckRow(rules, item, log).Some?
    ensures item.row.budget == item.task.budget && item.row.policy == "exact_serialized_greedy"
    ensures item.task.budget.Unbounded? ==>
      item.row.initial.None? && item.row.decisions == [] && item.row.kept == item.task.candidates
    ensures item.task.budget.Bounded? ==>
      && item.row.initial.Some? && item.row.kept == Accepted(item.row.decisions)
      && Traces(item.task.budget.limit, item.task.candidates, item.row.decisions)
  {
    hide Record;
    if item.task.budget.Bounded? {
      var ci, row := item.task.caseIndex, item.row;
      var start := Walk([], row.initial.value, Record(rules, log, row.initial.value, State(ci, [])).value);
      DecisionsTrace(rules, ci, item.task.budget.limit, item.task.candidates, row.decisions, start);
    }
  }

  /** An accepted payload walks down its rankings: the material is the top ten,
      and every row is about the first k ids, one decision each, in order. */
  lemma RankingIsFollowed(rules: Rules, payload: Payload, c: nat, k: nat, b: nat)
    requires Accepts(rules, payload) && c < |payload.cases| && k < |DEPTHS| && b < |rules.budgets|
    ensures var ranking := payload.cases[c].ranking;
      payload.cases[c].material == if |ranking| < 10 then ranking else ranking[..10]
    ensures DEPTHS[k] in payload.cases[c].packing && rules.budgets[b] in payload.cases[c].packing[DEPTHS[k]]
    ensures var ranking := payload.cases[c].ranking;
      var candidates := if |ranking| < DEPTHS[k] then ranking else ranking[..DEPTHS[k]];
      var row := payload.cases[c].packing[DEPTHS[k]][rules.budgets[b]];
      && row.budget == rules.budgets[b] && row.policy == "exact_serialized_greedy"
      && match rules.budgets[b]
        case Unbounded => row.initial.None? && row.decisions == [] && row.kept == candidates
        case Bounded(limit) =>
          row.initial.Some? && row.kept == Accepted(row.decisions) && Traces(limit, candidates, row.decisions)
  {
    var items := Items(rules, payload.cases);
    var i := FindRow(rules, payload, c, k, b);
    assert Shaped(rules, payload.cases[c]);
    CheckItemsKeepsLog(rules, items, i);
    CheckItemsKeepsLog(rules, items, i + 1);
    assert items[..i + 1][..i] == items[..i];
    RowTraces(rules, items[i], CheckItems(rules, items[..i]).value);
  }

  /** Under each budget, depth ten keeps everything depth five kept, in the
      same order, and a non-empty selection fits its budget. */
  lemma KeptIdsNest(rules: Rules, payload: Payload, c: nat, b: nat)
    requires Accepts(rules, payload) && c < |payload.cases| && b < |rules.budgets|
    ensures Shaped(rules, payload.cases[c])
    ensures var row5 := payload.cases[c].packing[5][rules.budgets[b]];
      var row10 := payload.cases[c].packing[10][rules.budgets[b]];
      && row5.kept <= row10.kept
      && (rules.budgets[b].Bounded? && row5.kept != [] ==> row5.final.tokens <= rules.budgets[b].limit)
      && (rules.budgets[b].Bounded? && row10.kept != [] ==> row10.final.tokens <= rules.budgets[b].limit)
  {
    assert DEPTHS[0] == 5 && DEPTHS[1] == 10;
    assert Shaped(rules, payload.cases[c]);
    hide Accepts, Shaped, CheckItems, Greedy;
    RowKept(rules, payload, c, 0, b);
    RowKept(rules, payload, c, 1, b);
    var ranking := payload.cases[c].ranking;
    var few, many := ranking[..Smaller(5, |ranking|)], ranking[..Smaller(10, |ranking|)];
    assert few == many[..|few|];
    if rules.budgets[b].Bounded? {
      GreedyPrefix(CheckItems(rules, Items(rules, payload.cases)).value, c, rules.budgets[b].limit, many, |few|);
    }
  }

  // ---------------------------------------------- what the accounting adds up

  function LogStates(log: Log): set<State> {
    set i | 0 <= i < |log| :: log[i].state
  }

  /** The prompt states that one evidence row talks about. */
  function Mentioned(item: Item): set<State> {
    var ci, row := item.task.caseIndex, item.row;
    (set d | d in row.decisions :: State(ci, d.proposed)) + {State(ci, row.kept)}
    + if row.initial.Some? then {State(ci, [])} else {}
  }

  function AllMentioned(items: seq<Item>): set<State> {
    if |items| == 0 then {}
    else AllMentioned(items[..|items| - 1]) + Mentioned(items[|items| - 1])
  }

  lemma RecordStates(rules: Rules, log: Log, v: Observation, s: State)
    requires Record(rules, log, v, s).Some?
    ensures LogStates(Record(rules, log, v, s).value) == LogStates(log) + {s}
  {
    if Find(log, s).Some? {
      var i := FindIsAt(log, s);
      assert log[i].state in LogStates(log);
    } else {
      var log' := log + [Entry(s, v)];
      assert log'[|log|].state == s;
      forall t | t in LogStates(log) ensures t in LogStates(log') {
        var i :| 0 <= i < |log| && log[i].state == t;
        assert log'[i].state == t;
      }
    }
  }

  lemma {:induction false} DecisionStates(
    rules: Rules, caseIndex: nat, limit: int, candidates: seq<Id>, decisions: seq<Decision>, start: Walk)
    requires |candidates| == |decisions|
    requires CheckDecisions(rules, caseIndex, limit, candidates, decisions, start).Some?
    ensures LogStates(CheckDecisions(rules, caseIndex, limit, candidates, decisions, start).value.log)
      == LogStates(start.log) + set d | d in decisions :: State(caseIndex, d.proposed)
  {
    if |candidates| > 0 {
      var n := |candidates| - 1;
      var front, last := decisions[..n], decisions[n];
      DecisionStates(rules, caseIndex, limit, candidates[..n], front, start);
      var walk := CheckDecisions(rules, caseIndex, limit, candidates[..n], front, start).value;
      RecordStates(rules, walk.log, last.observation, State(caseIndex, walk.selected + [candidates[n]]));
      assert decisions == front + [last];
      hide *;
      assert (set d | d in front + [last] :: State(caseIndex, d.proposed))
        == (set d | d in front :: State(caseIndex, d.proposed)) + {State(caseIndex, last.proposed)};
    }
  }

  lemma RowStates(rules: Rules, item: Item, log: Log)
    requires CheckRow(rules, item, log).Some?
    ensures LogStates(CheckRow(rules, item, log).value) == LogStates(log) + Mentioned(item)
  {
    hide LogStates, Record;
    var row, ci := item.row, item.task.caseIndex;
    if item.task.budget.Unbounded? {
      RecordStates(rules, log, row.final, State(ci, item.task.candidates));
    } else {
      var s0 := State(ci, []);
      RecordStates(rules, log, row.initial.value, s0);
      var start := Walk([], row.initial.value, Record(rules, log, row.initial.value, s0).value);
      var limit := item.task.budget.limit;
      DecisionStates(rules, ci, limit, item.task.candidates, row.decisions, start);
      var walk := CheckDecisions(rules, ci, limit, item.task.candidates, row.decisions, start).value;
      RecordStates(rules, walk.log, row.final, State(ci, walk.selected));
    }
  }

  /** The registry holds exactly the states the evidence talks about. */
  lemma {:induction false} RegistryStates(rules: Rules, items: seq<Item>)
    requires CheckItems(rules, items).Some?
    ensures LogStates(CheckItems(rules, items).value) == AllMentioned(items)
  {
    if |items| > 0 {
      RegistryStates(rules, items[..|items| - 1]);
      RowStates(rules, items[|items| - 1], CheckItems(rules, items[..|items| - 1]).value);
    }
  }

  ghost function SumOver(size: State -> nat, states: set<State>): nat {
    if states == {} then 0
    else
      var s :| s in states;
      size(s) + SumOver(size, states - {s})
  }

  lemma {:induction false} SumOverTakesOut(size: State -> nat, states: set<State>, s: State)
    requires s in states
    ensures SumOver(size, states) == size(s) + SumOver(size, states - {s})
  {
    var t :| t in states && SumOver(size, states) == size(t) + SumOver(size, states - {t});
    if t != s {
      SumOverTakesOut(size, states - {t}, s);
      SumOverTakesOut(size, states - {s}, t);
      assert states - {t} - {s} == states - {s} - {t};
    }
  }

  lemma LastStateIsNew(rules: Rules, log: Log)
    requires ValidLog(rules, log) && |log| > 0
    ensures ValidLog(rules, log[..|log| - 1])
    ensures log[|log| - 1].state !in LogStates(log[..|log| - 1])
    ensures LogStates(log) == LogStates(log[..|log| - 1]) + {log[|log| - 1].state}
  {
  }

  /** Summing over the requests is summing once over each distinct state. */
  lemma {:induction false} TotalIsSumOver(rules: Rules, size: State -> nat, log: Log)
    requires ValidLog(rules, log)
    ensures Total(size, log) == SumOver(size, LogStates(log))
    ensures |LogStates(log)| == |log|
  {
    hide ValidLog, SumOver;
    if |log| == 0 {
      assert LogStates(log) == {};
      SumOverNothing(size);
    } else {
      hide LogStates;
      var front, last := log[..|log| - 1], log[|log| - 1].state;
      LastStateIsNew(rules, log);
      TotalIsSumOver(rules, size, front);
      assert LogStates(log) - {last} == LogStates(front);
      SumOverTakesOut(size, LogStates(log), last);
    }
  }

  lemma SumOverNothing(size: State -> nat)
    ensures SumOver(size, {}) == 0
  {
  }

  /** An accepted payload claims one request per distinct prompt state, and
      the text sizes of those states, each counted once. */
  lemma AccountingCountsDistinctStates(rules: Rules, payload: Payload)
    requires Accepts(rules, payload)
    ensures payload.accounting.source == "provider-observed" && payload.accounting.verified
    ensures var states := AllMentioned(Items(rules, payload.cases));
      && payload.accounting.requests == payload.accounting.responses == payload.accounting.providers == |states|
      && payload.accounting.characters == SumOver(CharactersIn(rules), states)
      && payload.accounting.bytes == SumOver(BytesIn(rules), states)
  {
    var items := Items(rules, payload.cases);
    CheckItemsKeepsLog(rules, items, |items|);
    RegistryStates(rules, items);
    TotalIsSumOver(rules, CharactersIn(rules), CheckItems(rules, items).value);
    TotalIsSumOver(rules, BytesIn(rules), CheckItems(rules, items).value);
  }
}
