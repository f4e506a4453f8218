/** The crash-safe, gated experiment workflow: what is on disk, what every
    reachable disk satisfies, and which single writes keep it so
    (scripts/run_longmemeval_e6c_v2_merged_lane_external.py, with the question
    loops it inherits from run_longmemeval_e6c_merged_lane_external.py and
    run_longmemeval_e6b_head20_external.py). */
module Workflow {
  import opened Wrappers

  type Blob = string

  /** One reader or judge call: the even routes of a question are reader calls,
      each odd route judges the reply before it. */
  datatype Route = Route(question: nat, index: nat)

  datatype Diagnostic = Diagnostic(g1: bool, g2: Option<bool>, body: Blob)

  datatype Evidence = Evidence(
    selections: map<nat, Blob>, packs: map<nat, Blob>, prompts: map<nat, Blob>, cases: map<nat, Blob>)

  /** The pre-QA gates: G0, G1, and what they bind. */
  datatype Seal = Seal(g0: bool, g1: bool, diagnostic: Diagnostic, evidence: Evidence)

  datatype Verdict = RejectAtContext | RejectAtQa | Confirm

  datatype Report = Report(verdict: Verdict, seal: Seal, diagnostic: Diagnostic, withQa: bool)

  /** Everything the run keeps in files. */
  datatype Disk = Disk(
    evidence: Evidence,
    contextDiagnostic: Option<Diagnostic>,
    seal: Option<Seal>,
    reservations: map<Route, Blob>,
    responses: map<Route, Blob>,
    settlements: map<Route, Blob>,
    receipts: map<nat, seq<Blob>>,
    qa: map<nat, Blob>,
    completion: Option<Blob>,
    finalCases: map<nat, Blob>,
    finalDiagnostic: Option<Diagnostic>,
    report: Option<Report>)

  const EMPTY := Disk(
    Evidence(map[], map[], map[], map[]), None, None, map[], map[], map[], map[], map[], None, map[], None, None)

  /** Deterministic replay: what each artifact must be, given what it is built
      from. A provider response is tested twice, against the replies before it
      in its question: `readable` before its settlement (it parses, and its cost
      fits the reservation), `accepted` after it (content, model, request id,
      attempts, prompt tokens). A judge request quotes the reader's reply, and a
      QA artifact quotes all replies; either may be impossible to write, for
      instance when a reply's text has no UTF-8 form, and is then None. `callId`
      is the provider's id of a response, and `usedIds` are the ids of the
      extraction journals. */
  datatype World = World(
    questions: nat, routes: nat,
    selection: nat -> Blob, pack: nat -> Blob, prompt: nat -> Blob, contextCase: nat -> Blob,
    finalCase: (nat, seq<Blob>) -> Blob, body: map<nat, seq<Blob>> -> Blob,
    g1: bool, g2: map<nat, seq<Blob>> -> bool,
    reservation: (Route, seq<Blob>) -> Option<Blob>, settlement: (Route, Blob) -> Blob,
    readable: (Route, seq<Blob>, Blob) -> bool, accepted: (Route, seq<Blob>, Blob) -> bool,
    callId: Blob -> string, usedIds: set<string>,
    qa: (nat, seq<Blob>) -> Option<Blob>, completion: Blob)
  {
    /** A reader's request is made of its packed prompt alone. */
    ghost predicate Sound() {
      && 1 <= questions && 1 <= routes
      && forall at: Route, before :: at.index % 2 == 0 ==> reservation(at, before).Some?
    }

    function ContextDiagnostic(): Diagnostic {
      Diagnostic(g1, None, body(map[]))
    }

    function FinalDiagnostic(receipts: map<nat, seq<Blob>>): Diagnostic {
      Diagnostic(g1, Some(g2(receipts)), body(receipts))
    }

    function SealOf(evidence: Evidence): Seal {
      Seal(true, g1, ContextDiagnostic(), evidence)
    }
  }

  /** Reader or judge activity has left a trace on disk. */
  predicate QaState(d: Disk) {
    d.reservations != map[] || d.responses != map[] || d.settlements != map[]
    || d.receipts != map[] || d.qa != map[] || d.completion.Some?
  }

  function ReceiptsOf(receipts: map<nat, seq<Blob>>, q: nat): seq<Blob> {
    if q in receipts then receipts[q] else []
  }

  // ------------------------------------------------------------- never rewritten

  ghost predicate Grows<K(!new), V>(m: map<K, V>, m': map<K, V>) {
    forall k :: k in m ==> k in m' && m'[k] == m[k]
  }

  ghost predicate Keeps<T>(o: Option<T>, o': Option<T>) {
    o.Some? ==> o' == o
  }

  /** Nothing on disk is removed or replaced by another value; receipt files
      only get longer. */
  ghost predicate Extends(d: Disk, d': Disk) {
    && Grows(d.evidence.selections, d'.evidence.selections)
    && Grows(d.evidence.packs, d'.evidence.packs)
    && Grows(d.evidence.prompts, d'.evidence.prompts)
    && Grows(d.evidence.cases, d'.evidence.cases)
    && Keeps(d.contextDiagnostic, d'.contextDiagnostic)
    && Keeps(d.seal, d'.seal)
    && Grows(d.reservations, d'.reservations)
    && Grows(d.responses, d'.responses)
    && Grows(d.settlements, d'.settlements)
    && (forall q :: q in d.receipts ==> q in d'.receipts && d.receipts[q] <= d'.receipts[q])
    && Grows(d.qa, d'.qa)
    && Keeps(d.completion, d'.completion)
    && Grows(d.finalCases, d'.finalCases)
    && Keeps(d.finalDiagnostic, d'.finalDiagnostic)
    && Keeps(d.report, d'.report)
  }

  lemma GrowsTransitive<K(!new), V>(a: map<K, V>, b: map<K, V>, c: map<K, V>)
    requires Grows(a, b) && Grows(b, c)
    ensures Grows(a, c)
  {
  }

  lemma ExtendsTransitive(a: Disk, b: Disk, c: Disk)
    requires Extends(a, b) && Extends(b, c)
    ensures Extends(a, c)
  {
    GrowsTransitive(a.evidence.selections, b.evidence.selections, c.evidence.selections);
    GrowsTransitive(a.evidence.packs, b.evidence.packs, c.evidence.packs);
    GrowsTransitive(a.evidence.prompts, b.evidence.prompts, c.evidence.prompts);
    GrowsTransitive(a.evidence.cases, b.evidence.cases, c.evidence.cases);
    GrowsTransitive(a.reservations, b.reservations, c.reservations);
    GrowsTransitive(a.responses, b.responses, c.responses);
    GrowsTransitive(a.settlements, b.settlements, c.settlements);
    GrowsTransitive(a.qa, b.qa, c.qa);
    GrowsTransitive(a.finalCases, b.finalCases, c.finalCases);
    forall q | q in a.receipts ensures q in c.receipts && a.receipts[q] <= c.receipts[q] {
      assert q in b.receipts && a.receipts[q] <= b.receipts[q];
    }
  }

  lemma ExtendsItself(d: Disk)
    ensures Extends(d, d)
  {
  }

  // --------------------------------------------------------------- the invariant

  ghost predicate Replays(n: nat, m: map<nat, Blob>, f: nat -> Blob) {
    forall q :: q in m ==> q < n && m[q] == f(q)
  }

  ghost predicate Complete<V>(n: nat, m: map<nat, V>) {
    forall q: nat :: q < n ==> q in m
  }

  /** Context artifacts are exactly their replay; a pack or prompt has its
      selection, a case has both. */
  ghost predicate EvidenceInv(w: World, e: Evidence) {
    && Replays(w.questions, e.selections, w.selection)
    && Replays(w.questions, e.packs, w.pack)
    && Replays(w.questions, e.prompts, w.prompt)
    && Replays(w.questions, e.cases, w.contextCase)
    && (forall q :: q in e.packs ==> q in e.selections)
    && (forall q :: q in e.prompts ==> q in e.selections)
    && (forall q :: q in e.cases ==> q in e.packs && q in e.prompts)
  }

  ghost predicate EvidenceComplete(w: World, e: Evidence) {
    Complete(w.questions, e.selections) && Complete(w.questions, e.packs)
    && Complete(w.questions, e.prompts) && Complete(w.questions, e.cases)
  }

  /** The context diagnostic needs all cases; the seal needs the diagnostic and
      binds all evidence. */
  ghost predicate SealInv(w: World, e: Evidence, diagnostic: Option<Diagnostic>, seal: Option<Seal>) {
    && (diagnostic.Some? ==> diagnostic.value == w.ContextDiagnostic() && EvidenceComplete(w, e))
    && (seal.Some? ==> diagnostic.Some? && seal.value == w.SealOf(e))
  }

  /** A call that went all the way: reserved, answered, settled and accepted. */
  ghost predicate RouteDone(w: World, d: Disk, at: Route, before: seq<Blob>, reply: Blob) {
    && at in d.reservations && w.reservation(at, before) == Some(d.reservations[at])
    && at in d.responses && d.responses[at] == reply
    && w.readable(at, before, reply) && w.accepted(at, before, reply)
    && at in d.settlements && d.settlements[at] == w.settlement(at, reply)
  }

  ghost predicate RouteUntouched(d: Disk, at: Route) {
    at !in d.reservations && at !in d.responses && at !in d.settlements
  }

  /** The one call that may be in flight: journal files appear in order. */
  ghost predicate RouteOpen(w: World, d: Disk, at: Route, before: seq<Blob>) {
    && (at in d.reservations ==> w.reservation(at, before) == Some(d.reservations[at]))
    && (at in d.responses ==> at in d.reservations)
    && (at in d.settlements ==>
      at in d.responses && w.readable(at, before, d.responses[at])
      && d.settlements[at] == w.settlement(at, d.responses[at]))
  }

  /** One question: the receipts are the replies of its first routes, at most
      the next route is open, and the QA artifact needs all of them. */
  ghost predicate QuestionInv(w: World, d: Disk, q: nat) {
    var rows := ReceiptsOf(d.receipts, q);
    && |rows| <= w.routes
    && (q in d.receipts ==> rows != [])
    && (forall i: nat :: i < |rows| ==> RouteDone(w, d, Route(q, i), rows[..i], rows[i]))
    && (|rows| < w.routes ==> RouteOpen(w, d, Route(q, |rows|), rows))
    && (forall i: nat :: |rows| < i || w.routes <= i ==> RouteUntouched(d, Route(q, i)))
    && (q in d.qa ==> |rows| == w.routes && w.qa(q, rows) == Some(d.qa[q]))
  }

  ghost predicate QuestionsInv(w: World, d: Disk) {
    && (forall q :: QuestionInv(w, d, q))
    && (forall q :: w.questions <= q ==> q !in d.receipts && q !in d.qa)
    && (forall at: Route :: w.questions <= at.question ==> RouteUntouched(d, at))
  }

  /** The reply that a receipt file holds for a route. */
  predicate Recorded(receipts: map<nat, seq<Blob>>, at: Route) {
    at.index < |ReceiptsOf(receipts, at.question)|
  }

  function IdAt(w: World, receipts: map<nat, seq<Blob>>, at: Route): string
    requires Recorded(receipts, at)
  {
    w.callId(ReceiptsOf(receipts, at.question)[at.index])
  }

  /** From these receipts every request and every QA artifact can be written. */
  ghost predicate Writable(w: World, receipts: map<nat, seq<Blob>>) {
    forall q: nat :: q < w.questions ==> WritableAt(w, q, ReceiptsOf(receipts, q))
  }

  ghost predicate WritableAt(w: World, q: nat, rows: seq<Blob>) {
    && (forall r: nat {:trigger Route(q, r)} ::
      r < w.routes && r <= |rows| ==> w.reservation(Route(q, r), rows[..r]).Some?)
    && (|rows| == w.routes ==> w.qa(q, rows).Some?)
  }

  /** No provider request id crosses routes, nor comes from the extraction. */
  ghost predicate UniqueIds(w: World, receipts: map<nat, seq<Blob>>) {
    && (forall a: Route :: Recorded(receipts, a) ==> IdAt(w, receipts, a) !in w.usedIds)
    && (forall a: Route, b: Route :: Recorded(receipts, a) && Recorded(receipts, b) && a != b ==>
      IdAt(w, receipts, a) != IdAt(w, receipts, b))
  }

  /** QA only after a passing seal; the completion only after all QA. */
  ghost predicate GateInv(w: World, d: Disk) {
    && (QaState(d) ==> d.seal.Some? && w.g1)
    && (d.completion.Some? ==> d.completion.value == w.completion && Complete(w.questions, d.qa))
  }

  ghost predicate FinalInv(w: World, d: Disk) {
    && (forall q :: q in d.finalCases ==>
      q < w.questions && Complete(w.questions, d.qa)
      && d.finalCases[q] == w.finalCase(q, ReceiptsOf(d.receipts, q)))
    && (d.finalDiagnostic.Some? ==>
      && Complete(w.questions, d.qa) && Complete(w.questions, d.finalCases)
      && d.finalDiagnostic.value == w.FinalDiagnostic(d.receipts))
    && (d.report.Some? ==> ReportInv(w, d, d.report.value))
  }

  /** A report is terminal: G1 failed and nothing was asked, or G1 passed and
      everything was asked, completed and diagnosed. */
  ghost predicate ReportInv(w: World, d: Disk, r: Report) {
    && d.seal == Some(r.seal)
    && if w.g1 then
        && d.completion.Some? && Complete(w.questions, d.qa) && d.finalDiagnostic == Some(r.diagnostic) && r.withQa
        && r.verdict == (if w.g2(d.receipts) then Confirm else RejectAtQa)
        && UniqueIds(w, d.receipts)
      else
        !QaState(d) && d.contextDiagnostic == Some(r.diagnostic) && !r.withQa && r.verdict == RejectAtContext
  }

  ghost predicate Inv(w: World, d: Disk) {
    && EvidenceInv(w, d.evidence)
    && SealInv(w, d.evidence, d.contextDiagnostic, d.seal)
    && QuestionsInv(w, d)
    && GateInv(w, d)
    && FinalInv(w, d)
  }

  // ----------------------------------------------------- every write keeps it so

  lemma EmptyInv(w: World)
    requires w.Sound()
    ensures Inv(w, EMPTY)
  {
  }

  /** The QA side of two disks is the same. */
  ghost predicate SameQa(d: Disk, d': Disk) {
    && d.reservations == d'.reservations && d.responses == d'.responses && d.settlements == d'.settlements
    && d.receipts == d'.receipts && d.qa == d'.qa
  }

  /** Progress that leaves the QA side alone. */
  ghost predicate QuietStep(d: Disk, d': Disk) {
    Extends(d, d') && SameQa(d, d') && d.completion == d'.completion && (QaState(d) <==> QaState(d'))
  }

  lemma QuietTransitive(a: Disk, b: Disk, c: Disk)
    requires QuietStep(a, b) && QuietStep(b, c)
    ensures QuietStep(a, c)
  {
  }

  lemma QuietItself(d: Disk)
    ensures QuietStep(d, d)
  {
  }

  lemma SameQaKeeps(w: World, d: Disk, d': Disk)
    requires QuestionsInv(w, d) && SameQa(d, d')
    ensures QuestionsInv(w, d')
    ensures d.completion == d'.completion ==> QaState(d) == QaState(d')
  {
    hide RouteDone, RouteOpen;
    forall q ensures QuestionInv(w, d', q) {
      assert QuestionInv(w, d, q);
      SameRoutes(w, d, d');
    }
    forall at: Route | w.questions <= at.question ensures RouteUntouched(d', at) {
      assert RouteUntouched(d, at);
    }
  }

  lemma SameRoutes(w: World, d: Disk, d': Disk)
    requires SameQa(d, d')
    ensures forall at, before, reply :: RouteDone(w, d, at, before, reply) <==> RouteDone(w, d', at, before, reply)
    ensures forall at, before :: RouteOpen(w, d, at, before) <==> RouteOpen(w, d', at, before)
  {
  }

  /** Writes of missing context evidence. */
  lemma PutSelection(w: World, d: Disk, q: nat)
    requires Inv(w, d) && q < w.questions && q !in d.evidence.selections
    ensures var d' := d.(evidence := d.evidence.(selections := d.evidence.selections[q := w.selection(q)]));
      Inv(w, d') && Extends(d, d')
  {
    var d' := d.(evidence := d.evidence.(selections := d.evidence.selections[q := w.selection(q)]));
    assert d.seal.None? && d.contextDiagnostic.None?;
    SameQaKeeps(w, d, d');
    hide QuestionsInv;
  }

  lemma PutPack(w: World, d: Disk, q: nat)
    requires Inv(w, d) && q < w.questions && q in d.evidence.selections && q !in d.evidence.packs
    ensures var d' := d.(evidence := d.evidence.(packs := d.evidence.packs[q := w.pack(q)]));
      Inv(w, d') && Extends(d, d')
  {
    var d' := d.(evidence := d.evidence.(packs := d.evidence.packs[q := w.pack(q)]));
    assert d.seal.None? && d.contextDiagnostic.None?;
    SameQaKeeps(w, d, d');
    hide QuestionsInv;
  }

  lemma PutPrompt(w: World, d: Disk, q: nat)
    requires Inv(w, d) && q < w.questions && q in d.evidence.selections && q !in d.evidence.prompts
    ensures var d' := d.(evidence := d.evidence.(prompts := d.evidence.prompts[q := w.prompt(q)]));
      Inv(w, d') && Extends(d, d')
  {
    var d' := d.(evidence := d.evidence.(prompts := d.evidence.prompts[q := w.prompt(q)]));
    assert d.seal.None? && d.contextDiagnostic.None?;
    SameQaKeeps(w, d, d');
    hide QuestionsInv;
  }

  lemma PutContextCase(w: World, d: Disk, q: nat)
    requires Inv(w, d) && q < w.questions && q in d.evidence.packs && q in d.evidence.prompts
    requires q !in d.evidence.cases
    ensures var d' := d.(evidence := d.evidence.(cases := d.evidence.cases[q := w.contextCase(q)]));
      Inv(w, d') && Extends(d, d')
  {
    var d' := d.(evidence := d.evidence.(cases := d.evidence.cases[q := w.contextCase(q)]));
    assert d.seal.None? && d.contextDiagnostic.None?;
    SameQaKeeps(w, d, d');
    hide QuestionsInv;
  }

  lemma PutContextDiagnostic(w: World, d: Disk)
    requires Inv(w, d) && EvidenceComplete(w, d.evidence) && d.contextDiagnostic.None?
    ensures var d' := d.(contextDiagnostic := Some(w.ContextDiagnostic()));
      Inv(w, d') && Extends(d, d')
  {
    var d' := d.(contextDiagnostic := Some(w.ContextDiagnostic()));
    SameQaKeeps(w, d, d');
    hide QuestionsInv, EvidenceInv;
  }

  lemma PutSeal(w: World, d: Disk)
    requires Inv(w, d) && d.contextDiagnostic.Some? && d.seal.None? && !QaState(d)
    ensures var d' := d.(seal := Some(w.SealOf(d.evidence)));
      Inv(w, d') && Extends(d, d')
  {
  }

  /** A write that only touches question q leaves the other questions alone. */
  ghost predicate OnlyQuestion(d: Disk, d': Disk, q: nat) {
    && (forall at: Route :: at.question != q ==>
      && (at in d.reservations <==> at in d'.reservations)
      && (at in d.reservations ==> d.reservations[at] == d'.reservations[at])
      && (at in d.responses <==> at in d'.responses)
      && (at in d.responses ==> d.responses[at] == d'.responses[at])
      && (at in d.settlements <==> at in d'.settlements)
      && (at in d.settlements ==> d.settlements[at] == d'.settlements[at]))
    && (forall p :: p != q ==>
      && (p in d.receipts <==> p in d'.receipts) && (p in d.receipts ==> d.receipts[p] == d'.receipts[p])
      && (p in d.qa <==> p in d'.qa) && (p in d.qa ==> d.qa[p] == d'.qa[p]))
  }

  lemma OtherQuestions(w: World, d: Disk, d': Disk, q: nat, p: nat)
    requires QuestionInv(w, d, p) && OnlyQuestion(d, d', q) && p != q
    ensures QuestionInv(w, d', p)
  {
    var rows := ReceiptsOf(d.receipts, p);
    assert ReceiptsOf(d'.receipts, p) == rows;
    forall i: nat | i < |rows| ensures RouteDone(w, d', Route(p, i), rows[..i], rows[i]) {
      assert RouteDone(w, d, Route(p, i), rows[..i], rows[i]);
    }
    forall i: nat | |rows| < i || w.routes <= i ensures RouteUntouched(d', Route(p, i)) {
      assert RouteUntouched(d, Route(p, i));
    }
  }

  lemma OneQuestionKeeps(w: World, d: Disk, d': Disk, q: nat)
    requires QuestionsInv(w, d) && OnlyQuestion(d, d', q) && q < w.questions && QuestionInv(w, d', q)
    ensures QuestionsInv(w, d')
  {
    forall p ensures QuestionInv(w, d', p) {
      assert QuestionInv(w, d, p);
      if p != q {
        OtherQuestions(w, d, d', q, p);
      }
    }
    hide QuestionInv;
    forall at: Route | w.questions <= at.question ensures RouteUntouched(d', at) {
      assert RouteUntouched(d, at);
    }
  }

  /** While question q still lacks its artifact, nothing final exists. */
  lemma NothingFinal(w: World, d: Disk, q: nat)
    requires Inv(w, d) && q < w.questions && q !in d.qa && (QaState(d) || w.g1)
    ensures d.completion.None? && d.finalDiagnostic.None? && d.finalCases == map[]
    ensures d.report.None?
  {
  }

  /** d' differs from d only by new journal files of one call. */
  ghost predicate OnlyRoute(d: Disk, d': Disk, at: Route) {
    && d' == d.(reservations := d'.reservations, responses := d'.responses, settlements := d'.settlements)
    && Grows(d.reservations, d'.reservations) && Grows(d.responses, d'.responses)
    && Grows(d.settlements, d'.settlements)
    && forall a: Route :: a != at ==>
      && (a in d'.reservations ==> a in d.reservations)
      && (a in d'.responses ==> a in d.responses)
      && (a in d'.settlements ==> a in d.settlements)
  }

  lemma OnlyRouteIsStep(d: Disk, d': Disk, at: Route)
    requires OnlyRoute(d, d', at)
    ensures QuestionStep(d, d', at.question)
  {
  }

  /** A journal write at the open route of question q. */
  lemma JournalWrite(w: World, d: Disk, d': Disk, q: nat)
    requires QuestionInv(w, d, q) && |ReceiptsOf(d.receipts, q)| < w.routes
    requires var at := Route(q, |ReceiptsOf(d.receipts, q)|);
      RouteOpen(w, d', at, ReceiptsOf(d.receipts, q)) && OnlyRoute(d, d', at)
    ensures QuestionInv(w, d', q) && QuestionStep(d, d', q)
  {
    var rows := ReceiptsOf(d.receipts, q);
    OnlyRouteIsStep(d, d', Route(q, |rows|));
    hide QuestionStep;
    forall i: nat | i < |rows| ensures RouteDone(w, d', Route(q, i), rows[..i], rows[i]) {
      assert RouteDone(w, d, Route(q, i), rows[..i], rows[i]);
    }
    forall i: nat | |rows| < i || w.routes <= i ensures RouteUntouched(d', Route(q, i)) {
      assert RouteUntouched(d, Route(q, i));
    }
  }

  /** d' differs from d only in the calls of question q. */
  ghost predicate QuestionStep(d: Disk, d': Disk, q: nat) {
    && d' == d.(reservations := d'.reservations, responses := d'.responses, settlements := d'.settlements,
      receipts := d'.receipts, qa := d'.qa)
    && OnlyQuestion(d, d', q)
    && Grows(d.reservations, d'.reservations) && Grows(d.responses, d'.responses)
    && Grows(d.settlements, d'.settlements) && Grows(d.qa, d'.qa)
    && (q in d.receipts ==> q in d'.receipts && d.receipts[q] <= d'.receipts[q])
  }

  lemma QuestionStepKeeps(w: World, d: Disk, d': Disk, q: nat)
    requires Inv(w, d) && q < w.questions && q !in d.qa && d.seal.Some? && w.g1
    requires QuestionStep(d, d', q) && QuestionInv(w, d', q)
    ensures Inv(w, d') && Extends(d, d')
  {
    NothingFinal(w, d, q);
    hide EvidenceInv, SealInv, QuestionInv;
    OneQuestionKeeps(w, d, d', q);
    hide QuestionsInv;
  }

  /** What the invariant says about a question that still has a route to go. */
  lemma Underway(w: World, d: Disk, q: nat)
    requires Inv(w, d) && |ReceiptsOf(d.receipts, q)| < w.routes
    ensures QuestionInv(w, d, q) && q !in d.qa
    ensures RouteOpen(w, d, Route(q, |ReceiptsOf(d.receipts, q)|), ReceiptsOf(d.receipts, q))
    ensures d.reservations != map[] ==> d.seal.Some? && w.g1
  {
  }

  /** The durable reservation that precedes every provider call: it needs the
      sealed, passing gates. */
  lemma PutReservation(w: World, d: Disk, q: nat)
    requires Inv(w, d) && q < w.questions && d.seal.Some? && w.g1
    requires |ReceiptsOf(d.receipts, q)| < w.routes && Route(q, |ReceiptsOf(d.receipts, q)|) !in d.reservations
    requires w.reservation(Route(q, |ReceiptsOf(d.receipts, q)|), ReceiptsOf(d.receipts, q)).Some?
    ensures var rows := ReceiptsOf(d.receipts, q);
      var at := Route(q, |rows|);
      var d' := d.(reservations := d.reservations[at := w.reservation(at, rows).value]);
      Inv(w, d') && Extends(d, d') && QuestionStep(d, d', q)
  {
    var rows := ReceiptsOf(d.receipts, q);
    var at := Route(q, |rows|);
    var d' := d.(reservations := d.reservations[at := w.reservation(at, rows).value]);
    hide Inv, QuestionInv, Extends, QuestionStep;
    Underway(w, d, q);
    JournalWrite(w, d, d', q);
    QuestionStepKeeps(w, d, d', q);
  }

  /** The first provider bytes, whatever they are. */
  lemma PutResponse(w: World, d: Disk, q: nat, reply: Blob)
    requires Inv(w, d) && q < w.questions && |ReceiptsOf(d.receipts, q)| < w.routes
    requires var at := Route(q, |ReceiptsOf(d.receipts, q)|); at in d.reservations && at !in d.responses
    ensures var at := Route(q, |ReceiptsOf(d.receipts, q)|);
      var d' := d.(responses := d.responses[at := reply]);
      Inv(w, d') && Extends(d, d') && QuestionStep(d, d', q)
  {
    var at := Route(q, |ReceiptsOf(d.receipts, q)|);
    var d' := d.(responses := d.responses[at := reply]);
    hide Inv, QuestionInv, Extends, QuestionStep;
    Underway(w, d, q);
    JournalWrite(w, d, d', q);
    QuestionStepKeeps(w, d, d', q);
  }

  lemma PutSettlement(w: World, d: Disk, q: nat)
    requires Inv(w, d) && q < w.questions && |ReceiptsOf(d.receipts, q)| < w.routes
    requires var at := Route(q, |ReceiptsOf(d.receipts, q)|);
      at in d.responses && at !in d.settlements && w.readable(at, ReceiptsOf(d.receipts, q), d.responses[at])
    ensures var at := Route(q, |ReceiptsOf(d.receipts, q)|);
      var d' := d.(settlements := d.settlements[at := w.settlement(at, d.responses[at])]);
      Inv(w, d') && Extends(d, d') && QuestionStep(d, d', q)
  {
    var at := Route(q, |ReceiptsOf(d.receipts, q)|);
    var d' := d.(settlements := d.settlements[at := w.settlement(at, d.responses[at])]);
    hide Inv, QuestionInv, Extends, QuestionStep;
    Underway(w, d, q);
    JournalWrite(w, d, d', q);
    QuestionStepKeeps(w, d, d', q);
  }

  lemma ReceiptWrite(w: World, d: Disk, d': Disk, q: nat)
    requires QuestionInv(w, d, q) && |ReceiptsOf(d.receipts, q)| < w.routes
    requires Route(q, |ReceiptsOf(d.receipts, q)|) in d.settlements
    requires var rows := ReceiptsOf(d.receipts, q);
      var at := Route(q, |rows|);
      at in d.responses && w.accepted(at, rows, d.responses[at])
      && d' == d.(receipts := d.receipts[q := rows + [d.responses[at]]])
    ensures QuestionInv(w, d', q)
  {
    var rows := ReceiptsOf(d.receipts, q);
    var at := Route(q, |rows|);
    var rows' := rows + [d.responses[at]];
    assert ReceiptsOf(d'.receipts, q) == rows';
    assert RouteOpen(w, d, at, rows);
    forall i: nat | i < |rows'| ensures RouteDone(w, d', Route(q, i), rows'[..i], rows'[i]) {
      if i < |rows| {
        assert RouteDone(w, d, Route(q, i), rows[..i], rows[i]);
        assert rows'[..i] == rows[..i];
      } else {
        assert rows'[..i] == rows;
      }
    }
    forall i: nat | |rows| < i || w.routes <= i ensures RouteUntouched(d', Route(q, i)) {
      assert RouteUntouched(d, Route(q, i));
    }
  }

  /** The receipt file is extended by the settled and accepted reply. */
  lemma PutReceipt(w: World, d: Disk, q: nat)
    requires Inv(w, d) && q < w.questions && |ReceiptsOf(d.receipts, q)| < w.routes
    requires var at := Route(q, |ReceiptsOf(d.receipts, q)|);
      at in d.settlements && at in d.responses && w.accepted(at, ReceiptsOf(d.receipts, q), d.responses[at])
    ensures var rows := ReceiptsOf(d.receipts, q);
      var d' := d.(receipts := d.receipts[q := rows + [d.responses[Route(q, |rows|)]]]);
      Inv(w, d') && Extends(d, d') && QuestionStep(d, d', q)
  {
    var rows := ReceiptsOf(d.receipts, q);
    var d' := d.(receipts := d.receipts[q := rows + [d.responses[Route(q, |rows|)]]]);
    hide Inv, QuestionInv, Extends;
    Underway(w, d, q);
    ReceiptWrite(w, d, d', q);
    QuestionStepKeeps(w, d, d', q);
  }

  lemma AnswersAreGated(w: World, d: Disk, q: nat)
    requires Inv(w, d) && q in d.receipts
    ensures QuestionInv(w, d, q) && d.seal.Some? && w.g1
  {
  }

  lemma PutQa(w: World, d: Disk, q: nat)
    requires Inv(w, d) && q < w.questions && q !in d.qa && q in d.receipts
    requires |d.receipts[q]| == w.routes && w.qa(q, d.receipts[q]).Some?
    ensures var d' := d.(qa := d.qa[q := w.qa(q, d.receipts[q]).value]);
      Inv(w, d') && Extends(d, d') && QuestionStep(d, d', q)
  {
    var d' := d.(qa := d.qa[q := w.qa(q, d.receipts[q]).value]);
    hide Inv, QuestionInv, Extends, QuestionStep;
    AnswersAreGated(w, d, q);
    QaWrite(w, d, d', q);
    QuestionStepKeeps(w, d, d', q);
  }

  lemma QaWrite(w: World, d: Disk, d': Disk, q: nat)
    requires QuestionInv(w, d, q) && q in d.receipts && |d.receipts[q]| == w.routes
    requires q !in d.qa && w.qa(q, d.receipts[q]).Some? && d' == d.(qa := d.qa[q := w.qa(q, d.receipts[q]).value])
    ensures QuestionInv(w, d', q) && QuestionStep(d, d', q)
  {
  }

  lemma CompleteIsQaState(w: World, d: Disk)
    requires w.Sound() && Complete(w.questions, d.qa)
    ensures QaState(d)
  {
    assert 0 in d.qa;
  }

  lemma PutCompletion(w: World, d: Disk)
    requires w.Sound() && Inv(w, d) && Complete(w.questions, d.qa) && d.completion.None?
    ensures var d' := d.(completion := Some(w.completion));
      Inv(w, d') && Extends(d, d')
  {
    var d' := d.(completion := Some(w.completion));
    CompleteIsQaState(w, d);
    SameQaKeeps(w, d, d');
    hide QuestionsInv, EvidenceInv, SealInv;
  }

  lemma CompleteGrows<V>(n: nat, m: map<nat, V>, q: nat, v: V)
    ensures Complete(n, m) ==> Complete(n, m[q := v])
  {
  }

  lemma PutFinalCase(w: World, d: Disk, q: nat)
    requires w.Sound() && Inv(w, d) && Complete(w.questions, d.qa) && q < w.questions && q !in d.finalCases
    ensures var d' := d.(finalCases := d.finalCases[q := w.finalCase(q, ReceiptsOf(d.receipts, q))]);
      Inv(w, d') && Extends(d, d')
  {
    var d' := d.(finalCases := d.finalCases[q := w.finalCase(q, ReceiptsOf(d.receipts, q))]);
    hide QuestionsInv, EvidenceInv, SealInv, Complete, QaState, ReceiptsOf;
    CompleteIsQaState(w, d);
    SameQaKeeps(w, d, d');
    CompleteGrows(w.questions, d.finalCases, q, w.finalCase(q, ReceiptsOf(d.receipts, q)));
  }

  lemma PutFinalDiagnostic(w: World, d: Disk)
    requires w.Sound() && Inv(w, d) && Complete(w.questions, d.qa) && Complete(w.questions, d.finalCases)
    requires d.finalDiagnostic.None?
    ensures var d' := d.(finalDiagnostic := Some(w.FinalDiagnostic(d.receipts)));
      Inv(w, d') && Extends(d, d')
  {
    var d' := d.(finalDiagnostic := Some(w.FinalDiagnostic(d.receipts)));
    CompleteIsQaState(w, d);
    SameQaKeeps(w, d, d');
    hide QuestionsInv, EvidenceInv, SealInv, Complete;
  }

  lemma PutReport(w: World, d: Disk, r: Report)
    requires Inv(w, d) && d.report.None? && ReportInv(w, d, r)
    ensures var d' := d.(report := Some(r));
      Inv(w, d') && Extends(d, d')
  {
    var d' := d.(report := Some(r));
    SameQaKeeps(w, d, d');
    hide QuestionsInv, EvidenceInv, SealInv, Complete;
  }

  // ------------------------------------------------------------- reading a disk

  function QaCount(qa: map<nat, Blob>, n: nat): (c: nat)
    ensures c <= n
  {
    if n == 0 then 0 else QaCount(qa, n - 1) + if n - 1 in qa then 1 else 0
  }

  lemma {:induction false} QaCountMeans(qa: map<nat, Blob>, n: nat)
    ensures QaCount(qa, n) == n <==> Complete(n, qa)
    ensures QaCount(qa, n) == 0 <==> forall q: nat :: q < n ==> q !in qa
  {
    if n > 0 {
      QaCountMeans(qa, n - 1);
    }
  }

  /** What the context artifacts of one question are, if they are there. */
  lemma EvidenceAt(w: World, d: Disk, q: nat)
    requires Inv(w, d)
    ensures var e := d.evidence;
      && (q in e.selections ==> e.selections[q] == w.selection(q))
      && (q in e.packs ==> e.packs[q] == w.pack(q) && q in e.selections)
      && (q in e.prompts ==> e.prompts[q] == w.prompt(q) && q in e.selections)
      && (q in e.cases ==> e.cases[q] == w.contextCase(q))
    ensures d.seal.Some? ==> EvidenceComplete(w, d.evidence)
  {
  }

  /** A reply that passes both tests. */
  predicate Usable(w: World, at: Route, before: seq<Blob>, reply: Blob) {
    w.readable(at, before, reply) && w.accepted(at, before, reply)
  }

  /** A call that was reserved and has no usable response. It is never reissued. */
  ghost predicate Unanswered(w: World, d: Disk, q: nat) {
    var rows := ReceiptsOf(d.receipts, q);
    var at := Route(q, |rows|);
    && at.index < w.routes
    && at in d.reservations
    && (at !in d.responses || !Usable(w, at, rows, d.responses[at]))
  }

  /** What comes next, a request or the QA artifact, cannot be written from the
      replies that are there. */
  ghost predicate Unwritable(w: World, d: Disk, q: nat) {
    var rows := ReceiptsOf(d.receipts, q);
    if |rows| < w.routes then w.reservation(Route(q, |rows|), rows).None? else w.qa(q, rows).None?
  }

  /** Nothing but outside help can move the question on. */
  ghost predicate Stuck(w: World, d: Disk, q: nat) {
    Unanswered(w, d, q) || Unwritable(w, d, q)
  }

  ghost predicate StuckAnywhere(w: World, d: Disk) {
    exists q: nat :: q < w.questions && Stuck(w, d, q)
  }

  ghost predicate UnwritableAnywhere(w: World, d: Disk) {
    exists q: nat :: q < w.questions && Unwritable(w, d, q)
  }

  /** Everything answered so far has its receipt; no call is in flight. */
  ghost predicate Clean(w: World, d: Disk, q: nat) {
    var at := Route(q, |ReceiptsOf(d.receipts, q)|);
    at.index < w.routes ==> RouteUntouched(d, at)
  }

  lemma OtherQuestionsUnmoved(w: World, d: Disk, d': Disk, q: nat, p: nat)
    requires OnlyQuestion(d, d', q) && p != q
    ensures Unanswered(w, d, p) <==> Unanswered(w, d', p)
    ensures Unwritable(w, d, p) <==> Unwritable(w, d', p)
    ensures Clean(w, d, p) <==> Clean(w, d', p)
    ensures (p in d.qa <==> p in d'.qa) && ReceiptsOf(d.receipts, p) == ReceiptsOf(d'.receipts, p)
  {
  }

  lemma OnlyQuestionTransitive(a: Disk, b: Disk, c: Disk, q: nat)
    requires OnlyQuestion(a, b, q) && OnlyQuestion(b, c, q)
    ensures OnlyQuestion(a, c, q)
  {
  }

  /** When every question is clean, every reservation is settled. */
  lemma CleanIsSettled(w: World, d: Disk)
    requires Inv(w, d) && forall q: nat :: q < w.questions ==> Clean(w, d, q)
    ensures d.reservations.Keys <= d.settlements.Keys
  {
    hide EvidenceInv, SealInv, GateInv, FinalInv;
    forall at: Route | at in d.reservations ensures at in d.settlements {
      ReservedIsSettled(w, d, at);
    }
  }

  lemma ReservedIsSettled(w: World, d: Disk, at: Route)
    requires QuestionsInv(w, d) && at in d.reservations
    requires at.question < w.questions ==> Clean(w, d, at.question)
    ensures at in d.settlements
  {
    var q := at.question;
    assert QuestionInv(w, d, q);
    assert !RouteUntouched(d, at);
    var rows := ReceiptsOf(d.receipts, q);
    assert at == Route(q, at.index);
    if at.index < |rows| {
      assert RouteDone(w, d, Route(q, at.index), rows[..at.index], rows[at.index]);
    }
  }

  /** A question with a QA artifact has all its receipts. */
  lemma AnsweredHasReceipts(w: World, d: Disk, q: nat)
    requires w.Sound() && Inv(w, d)
    ensures q in d.qa ==> q in d.receipts && |d.receipts[q]| == w.routes && w.qa(q, d.receipts[q]) == Some(d.qa[q])
    ensures q in d.finalCases ==> d.finalCases[q] == w.finalCase(q, ReceiptsOf(d.receipts, q))
    ensures q in d.receipts || q in d.qa ==> q < w.questions
  {
    hide EvidenceInv, SealInv, GateInv;
    assert QuestionInv(w, d, q);
  }

  /** What the run-wide artifacts are, if they are there. */
  lemma RunArtifacts(w: World, d: Disk)
    requires Inv(w, d)
    ensures d.contextDiagnostic.Some? ==>
      d.contextDiagnostic.value == w.ContextDiagnostic() && EvidenceComplete(w, d.evidence)
    ensures d.finalDiagnostic.Some? ==> d.finalDiagnostic.value == w.FinalDiagnostic(d.receipts)
    ensures d.seal.Some? ==> d.seal.value == w.SealOf(d.evidence) && d.contextDiagnostic.Some?
    ensures d.completion.Some? ==> d.completion.value == w.completion && Complete(w.questions, d.qa)
    ensures QaState(d) ==> d.seal.Some? && w.g1
    ensures d.report.Some? ==> ReportInv(w, d, d.report.value)
  {
  }

  lemma StepItself(d: Disk, q: nat)
    ensures QuestionStep(d, d, q)
  {
  }

  lemma StepTransitive(a: Disk, b: Disk, c: Disk, q: nat)
    requires QuestionStep(a, b, q) && QuestionStep(b, c, q)
    ensures QuestionStep(a, c, q)
  {
    OnlyQuestionTransitive(a, b, c, q);
    GrowsTransitive(a.reservations, b.reservations, c.reservations);
    GrowsTransitive(a.responses, b.responses, c.responses);
    GrowsTransitive(a.settlements, b.settlements, c.settlements);
    GrowsTransitive(a.qa, b.qa, c.qa);
    hide OnlyQuestion, Grows;
  }

  lemma StepExtends(d: Disk, d': Disk, q: nat)
    requires QuestionStep(d, d', q)
    ensures Extends(d, d') && OnlyQuestion(d, d', q)
    ensures d'.seal == d.seal && d'.completion == d.completion && d'.evidence == d.evidence
  {
  }

  /** Route r of a question, by its place relative to the receipts. */
  lemma RouteFacts(w: World, d: Disk, q: nat, r: nat)
    requires Inv(w, d) && r < w.routes
    ensures var rows := ReceiptsOf(d.receipts, q);
      var at := Route(q, r);
      && |rows| <= w.routes
      && (r < |rows| ==> RouteDone(w, d, at, rows[..r], rows[r]))
      && (r == |rows| ==> RouteOpen(w, d, at, rows))
      && (r > |rows| ==> RouteUntouched(d, at))
  {
    hide EvidenceInv, SealInv, GateInv, FinalInv, RouteDone, RouteOpen;
    assert QuestionInv(w, d, q);
  }
}
