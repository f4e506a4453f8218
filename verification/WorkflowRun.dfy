/** The phases as processes over the durable files. A process has a life: a
    number of durable writes after which it is killed, or no limit; so a crash
    may fall between any two writes of any phase. */
module WorkflowRun {
  import opened Wrappers
  import opened Workflow

  datatype Life = Forever | Writes(left: nat)

  datatype Outcome = Done | Raised | Crashed

  /** What becomes of one call: it is refused before the reservation (endpoint,
      key or spend cap), never answered, or answered. */
  datatype Answer = Refused | Silent | Answered(reply: Blob)

  /** The answer may depend on the replies before it in its question, which a
      judge prompt quotes. */
  type Provider = (Route, seq<Blob>) -> Answer

  datatype Phase = Select | Pack | PreQa | Qa | ReportPhase

  datatype Command = Only(phase: Phase) | All

  /** A provider call and the disk it was made on. */
  datatype Call = Call(at: Route, disk: Disk)

  class Workspace {
    const w: World
    var disk: Disk
    var life: Life
    ghost var calls: seq<Call>

    /** Every call ever made was made with the gates sealed and passing and with
        its reservation durable, and no route was called twice. */
    static ghost predicate CallsInv(w: World, disk: Disk, calls: seq<Call>) {
      && (forall c :: c in calls ==>
        && c.disk.seal.Some? && c.disk.seal.value.g0 && c.disk.seal.value.g1
        && c.at in c.disk.reservations
        && c.at in disk.reservations)
      && forall i, j :: 0 <= i < j < |calls| ==> calls[i].at != calls[j].at
    }

    ghost predicate Valid()
      reads this
    {
      w.Sound() && Inv(w, disk) && CallsInv(w, disk, calls)
    }

    constructor (w: World)
      requires w.Sound()
      ensures Valid() && this.w == w && disk == EMPTY && calls == [] && life.Forever?
    {
      this.w := w;
      disk, life, calls := EMPTY, Forever, [];
      EmptyInv(w);
    }

    lemma CallsSurvive(d: Disk)
      requires Valid() && Extends(disk, d)
      ensures CallsInv(w, d, calls)
    {
    }

    /** One durable write, or the end of the process. */
    method Put(d: Disk) returns (alive: bool)
      requires Valid() && Inv(w, d) && Extends(disk, d)
      modifies `disk, `life
      ensures Valid()
      ensures disk == if alive then d else old(disk)
      ensures alive <==> old(life) != Writes(0)
      ensures life == if alive && old(life).Writes? then Writes(old(life).left - 1) else old(life)
    {
      CallsSurvive(d);
      match life
      case Forever =>
        disk := d;
        alive := true;
      case Writes(n) =>
        if n == 0 {
          alive := false;
        } else {
          disk, life := d, Writes(n - 1);
          alive := true;
        }
    }

    lemma Reveal()
      requires Valid()
      ensures w.Sound() && Inv(w, disk)
    {
    }

    // -------------------------------------------------- selection and packing

    /** The write_or_verify of one selection. */
    method EnsureSelection(q: nat) returns (o: Outcome)
      requires Valid() && q < w.questions
      modifies `disk, `life
      ensures Valid() && QuietStep(old(disk), disk)
      ensures o != Raised && (old(life).Forever? ==> life.Forever? && o == Done)
      ensures o == Crashed ==> life == Writes(0)
      ensures o == Done ==> q in disk.evidence.selections
      ensures disk.evidence.packs == old(disk).evidence.packs && disk.evidence.prompts == old(disk).evidence.prompts
    {
      hide Inv, Extends, Valid;
      Reveal();
      QuietItself(disk);
      EvidenceAt(w, disk, q);
      var e := disk.evidence;
      var artifact := w.selection(q);
      if q in e.selections {
        return if e.selections[q] == artifact then Done else Raised;
      }
      PutSelection(w, disk, q);
      var alive := Put(disk.(evidence := e.(selections := e.selections[q := artifact])));
      o := if alive then Done else Crashed;
    }

    method SelectPhase() returns (o: Outcome)
      requires Valid()
      modifies `disk, `life
      ensures Valid() && QuietStep(old(disk), disk)
      ensures o != Raised && (old(life).Forever? ==> life.Forever? && o == Done)
      ensures o == Crashed ==> life == Writes(0)
      ensures o == Done ==> Complete(w.questions, disk.evidence.selections)
    {
      hide *;
      QuietItself(disk);
      for q := 0 to w.questions
        invariant Valid() && QuietStep(old(disk), disk)
        invariant old(life).Forever? ==> life.Forever?
        invariant forall p: nat :: p < q ==> p in disk.evidence.selections
      {
        ghost var before := disk;
        o := EnsureSelection(q);
        QuietTransitive(old(disk), before, disk);
        if o != Done {
          return;
        }
        EvidencePersists(before, disk);
      }
      CompleteMeans(w.questions, disk.evidence.selections);
      o := Done;
    }

    method WritePack(q: nat) returns (alive: bool)
      requires Valid() && q < w.questions && q in disk.evidence.selections && q !in disk.evidence.packs
      modifies `disk, `life
      ensures Valid() && QuietStep(old(disk), disk)
      ensures old(life).Forever? ==> alive && life.Forever?
      ensures !alive ==> life == Writes(0)
      ensures !alive ==> disk == old(disk)
      ensures alive ==>
        disk.evidence == old(disk).evidence.(packs := old(disk).evidence.packs[q := w.pack(q)])
    {
      PutPack(w, disk, q);
      hide Inv, Extends;
      alive := Put(disk.(evidence := disk.evidence.(packs := disk.evidence.packs[q := w.pack(q)])));
    }

    method WritePrompt(q: nat) returns (alive: bool)
      requires Valid() && q < w.questions && q in disk.evidence.selections && q !in disk.evidence.prompts
      modifies `disk, `life
      ensures Valid() && QuietStep(old(disk), disk)
      ensures old(life).Forever? ==> alive && life.Forever?
      ensures !alive ==> life == Writes(0)
      ensures !alive ==> disk == old(disk)
      ensures alive ==>
        disk.evidence == old(disk).evidence.(prompts := old(disk).evidence.prompts[q := w.prompt(q)])
    {
      PutPrompt(w, disk, q);
      hide Inv, Extends;
      alive := Put(disk.(evidence := disk.evidence.(prompts := disk.evidence.prompts[q := w.prompt(q)])));
    }

    /** Complete a lone half of the pack-prompt pair, after checking the half
        that is there. */
    method RepairPair(q: nat) returns (o: Outcome)
      requires Valid() && q < w.questions
      modifies `disk, `life
      ensures Valid() && QuietStep(old(disk), disk) && SamePairsBut(old(disk), disk, q)
      ensures o != Raised && (old(life).Forever? ==> life.Forever? && o == Done)
      ensures o == Crashed ==> life == Writes(0)
      ensures o == Done ==> Paired(disk, q)
    {
      Reveal();
      EvidenceAt(w, disk, q);
      QuietItself(disk);
      hide Valid, Inv, QuietStep;
      var e := disk.evidence;
      if (q in e.packs) == (q in e.prompts) {
        return Done;
      }
      var pack, prompt := w.pack(q), w.prompt(q);
      var alive: bool;
      if q in e.prompts {
        if e.prompts[q] != prompt {
          return Raised;
        }
        alive := WritePack(q);
      } else {
        if e.packs[q] != pack {
          return Raised;
        }
        alive := WritePrompt(q);
      }
      o := if alive then Done else Crashed;
    }

    method RepairPairs() returns (o: Outcome)
      requires Valid()
      modifies `disk, `life
      ensures Valid() && QuietStep(old(disk), disk)
      ensures o != Raised && (old(life).Forever? ==> life.Forever? && o == Done)
      ensures o == Crashed ==> life == Writes(0)
      ensures o == Done ==> forall q: nat :: q < w.questions ==> Paired(disk, q)
    {
      hide *;
      QuietItself(disk);
      for q := 0 to w.questions
        invariant Valid() && QuietStep(old(disk), disk)
        invariant old(life).Forever? ==> life.Forever?
        invariant forall p: nat :: p < q ==> Paired(disk, p)
      {
        ghost var before := disk;
        o := RepairPair(q);
        QuietTransitive(old(disk), before, disk);
        if o != Done {
          return;
        }
        PairsStay(before, disk, q);
      }
      o := Done;
    }

    /** The replay check of one pair: selection, pack and prompt are there and
        equal their replay. */
    method ReplayPair(q: nat) returns (ok: bool)
      requires Valid()
      ensures ok <==> q in disk.evidence.packs && q in disk.evidence.prompts
    {
      EvidenceAt(w, disk, q);
      hide Inv;
      var e := disk.evidence;
      if q !in e.selections || e.selections[q] != w.selection(q) {
        return false;
      }
      if (q in e.packs) != (q in e.prompts) || q !in e.packs {
        return false;
      }
      ok := e.packs[q] == w.pack(q) && e.prompts[q] == w.prompt(q);
    }

    /** The inherited pack step: verify a pair, or build it, prompt first. */
    method EnsurePair(q: nat) returns (o: Outcome)
      requires Valid() && q < w.questions
      modifies `disk, `life
      ensures Valid() && QuietStep(old(disk), disk) && SamePairsBut(old(disk), disk, q)
      ensures o == Raised <==> !Paired(old(disk), q)
      ensures old(life).Forever? ==> life.Forever? && o != Crashed
      ensures o == Crashed ==> life == Writes(0)
      ensures o == Done ==> q in disk.evidence.packs && q in disk.evidence.prompts && Paired(disk, q)
    {
      hide Valid, Inv, QuietStep;
      QuietItself(disk);
      if q in disk.evidence.packs || q in disk.evidence.prompts {
        var ok := ReplayPair(q);
        return if ok then Done else Raised;
      }
      ghost var d0 := disk;
      o := EnsureSelection(q);
      if o != Done {
        return;
      }
      ghost var d1 := disk;
      var alive := WritePrompt(q);
      QuietTransitive(d0, d1, disk);
      if !alive {
        return Crashed;
      }
      ghost var d2 := disk;
      alive := WritePack(q);
      QuietTransitive(d0, d2, disk);
      if !alive {
        return Crashed;
      }
      var ok := ReplayPair(q);
      o := Done;
      if !ok {
        return Raised;
      }
    }

    method PackPhase() returns (o: Outcome)
      requires Valid()
      modifies `disk, `life
      ensures Valid() && QuietStep(old(disk), disk)
      ensures o != Raised && (old(life).Forever? ==> life.Forever? && o == Done)
      ensures o == Crashed ==> life == Writes(0)
      ensures o == Done ==> Complete(w.questions, disk.evidence.packs) && Complete(w.questions, disk.evidence.prompts)
    {
      hide *;
      o := RepairPairs();
      if o != Done {
        return;
      }
      for q := 0 to w.questions
        invariant Valid() && QuietStep(old(disk), disk)
        invariant old(life).Forever? ==> life.Forever?
        invariant forall p: nat :: p < w.questions ==> Paired(disk, p)
        invariant forall p: nat :: p < q ==> p in disk.evidence.packs && p in disk.evidence.prompts
      {
        ghost var before := disk;
        o := EnsurePair(q);
        QuietTransitive(old(disk), before, disk);
        if o != Done {
          return;
        }
        PairsStay(before, disk, q);
        EvidencePersists(before, disk);
      }
      CompleteMeans(w.questions, disk.evidence.packs);
      CompleteMeans(w.questions, disk.evidence.prompts);
      o := Done;
    }

    // ------------------------------------------------------------ diagnostics

    /** The case artifact of one question, in the context or the final phase. */
    method EnsureCase(q: nat, final: bool) returns (o: Outcome)
      requires Valid() && q < w.questions
      requires if final then Complete(w.questions, disk.qa) else q !in disk.qa
      modifies `disk, `life
      ensures Valid() && QuietStep(old(disk), disk) && SamePairs(old(disk), disk)
      ensures o == Raised ==> !Packed(old(disk), q) || (q in disk.receipts && q !in disk.qa)
      ensures old(life).Forever? ==> life.Forever? && o != Crashed
      ensures o == Crashed ==> life == Writes(0)
      ensures o == Done ==> Packed(old(disk), q)
      ensures o == Done ==> if final then q in disk.finalCases else q in disk.evidence.cases
    {
      Reveal();
      QuietItself(disk);
      EvidenceAt(w, disk, q);
      AnsweredHasReceipts(w, disk, q);
      var ok := ReplayPair(q);
      if !ok {
        return Raised;
      }
      if (q in disk.qa) != (q in disk.receipts) {
        return Raised;
      }
      if final {
        hide Complete;
        var artifact := w.finalCase(q, ReceiptsOf(disk.receipts, q));
        if q in disk.finalCases {
          return if disk.finalCases[q] == artifact then Done else Raised;
        }
        PutFinalCase(w, disk, q);
        hide Inv, Extends;
        var alive := Put(disk.(finalCases := disk.finalCases[q := artifact]));
        o := if alive then Done else Crashed;
      } else {
        var e := disk.evidence;
        var artifact := w.contextCase(q);
        if q in e.cases {
          return if e.cases[q] == artifact then Done else Raised;
        }
        PutContextCase(w, disk, q);
        hide Inv, Extends;
        var alive := Put(disk.(evidence := e.(cases := e.cases[q := artifact])));
        o := if alive then Done else Crashed;
      }
    }

    method EnsureCases(final: bool) returns (o: Outcome)
      requires Valid()
      requires if final then Complete(w.questions, disk.qa) else QaCount(disk.qa, w.questions) == 0
      modifies `disk, `life
      ensures Valid() && QuietStep(old(disk), disk) && SamePairs(old(disk), disk)
      ensures o == Raised ==> !Ready(w, old(disk))
      ensures old(life).Forever? ==> life.Forever? && o != Crashed
      ensures o == Crashed ==> life == Writes(0)
      ensures o == Done ==> forall q: nat :: q < w.questions ==> Packed(old(disk), q)
      ensures o == Done ==>
        if final then Complete(w.questions, disk.finalCases) else Complete(w.questions, disk.evidence.cases)
    {
      hide *;
      QuietItself(disk);
      SamePairsItself(disk);
      QaCountMeans(disk.qa, w.questions);
      for q := 0 to w.questions
        invariant Valid() && QuietStep(old(disk), disk) && SamePairs(old(disk), disk)
        invariant forall p: nat :: p < q ==> Packed(old(disk), p)
        invariant old(life).Forever? ==> life.Forever?
        invariant forall p: nat :: p < q ==> if final then p in disk.finalCases else p in disk.evidence.cases
      {
        ghost var before := disk;
        QuietKeepsQa(old(disk), disk);
        o := EnsureCase(q, final);
        QuietTransitive(old(disk), before, disk);
        SamePairsTransitive(old(disk), before, disk);
        if o != Done {
          if o == Raised {
            QuietKeepsQa(before, disk);
            NotReady(w, old(disk), before, q);
          }
          return;
        }
        SamePacked(old(disk), before, q);
        EvidencePersists(before, disk);
      }
      if final {
        CompleteMeans(w.questions, disk.finalCases);
      } else {
        CompleteMeans(w.questions, disk.evidence.cases);
      }
      o := Done;
    }

    /** Cases, then the diagnostic over them: of the context phase before any
        QA artifact, of the final phase once all are there, and of nothing in
        between. */
    method BuildDiagnostic() returns (o: Outcome, d: Option<Diagnostic>)
      requires Valid()
      modifies `disk, `life
      ensures Valid() && QuietStep(old(disk), disk) && SamePairs(old(disk), disk)
      ensures o == Raised ==> !Ready(w, old(disk))
      ensures old(life).Forever? ==> life.Forever? && o != Crashed
      ensures o == Crashed ==> life == Writes(0)
      ensures o == Done ==> d.Some? && d.value.g1 == w.g1
      ensures o == Done ==> forall q: nat :: q < w.questions ==> Packed(old(disk), q)
      ensures o == Done && Complete(w.questions, disk.qa) ==> disk.finalDiagnostic == d
      ensures o == Done && !Complete(w.questions, disk.qa) ==>
        QaCount(disk.qa, w.questions) == 0 && disk.contextDiagnostic == d
    {
      hide *;
      d := None;
      var count := QaCount(disk.qa, w.questions);
      QaCountMeans(disk.qa, w.questions);
      SamePairsItself(disk);
      QuietItself(disk);
      Reveal();
      if count != 0 && count != w.questions {
        PartialIsNotReady(w, disk);
        return Raised, None;
      }
      ghost var d0 := disk;
      var final := count == w.questions;
      o := EnsureCases(final);
      QuietKeepsQa(d0, disk);
      if o != Done {
        return o, None;
      }
      ghost var d1 := disk;
      var alive: bool;
      if final {
        alive, d := EnsureFinalDiagnostic();
      } else {
        alive, d := EnsureContextDiagnostic();
      }
      QuietTransitive(d0, d1, disk);
      SamePairsTransitive(d0, d1, disk);
      QuietKeepsQa(d1, disk);
      o := if alive then Done else Crashed;
    }

    method EnsureFinalDiagnostic() returns (alive: bool, d: Option<Diagnostic>)
      requires Valid() && Complete(w.questions, disk.qa) && Complete(w.questions, disk.finalCases)
      modifies `disk, `life
      ensures Valid() && QuietStep(old(disk), disk) && SamePairs(old(disk), disk)
      ensures old(life).Forever? ==> alive && life.Forever?
      ensures !alive ==> life == Writes(0)
      ensures alive ==> d.Some? && d.value.g1 == w.g1 && disk.finalDiagnostic == d
    {
      RunArtifacts(w, disk);
      QuietItself(disk);
      hide Inv, Complete;
      d := Some(w.FinalDiagnostic(disk.receipts));
      if disk.finalDiagnostic.Some? {
        return true, d;
      }
      PutFinalDiagnostic(w, disk);
      hide Extends;
      alive := Put(disk.(finalDiagnostic := d));
    }

    method EnsureContextDiagnostic() returns (alive: bool, d: Option<Diagnostic>)
      requires Valid() && Complete(w.questions, disk.evidence.cases)
      modifies `disk, `life
      ensures Valid() && QuietStep(old(disk), disk) && SamePairs(old(disk), disk)
      ensures old(life).Forever? ==> alive && life.Forever?
      ensures !alive ==> life == Writes(0)
      ensures alive ==> d.Some? && d.value.g1 == w.g1 && disk.contextDiagnostic == d
    {
      RunArtifacts(w, disk);
      CasesComplete(w, disk);
      QuietItself(disk);
      hide Inv, Complete;
      d := Some(w.ContextDiagnostic());
      if disk.contextDiagnostic.Some? {
        return true, d;
      }
      PutContextDiagnostic(w, disk);
      hide Extends;
      alive := Put(disk.(contextDiagnostic := d));
    }

    // ------------------------------------------------------------------ gates

    /** Compile and seal the pre-QA gates: never once QA state exists. */
    method BuildSeal() returns (o: Outcome, seal: Option<Seal>)
      requires Valid()
      modifies `disk, `life
      ensures Valid() && QuietStep(old(disk), disk)
      ensures o != Crashed ==> (o == Raised <==> QaState(old(disk)) || !Ready(w, old(disk)))
      ensures old(life).Forever? ==> life.Forever? && o != Crashed
      ensures o == Crashed ==> life == Writes(0)
      ensures o == Done ==> !QaState(old(disk)) && seal.Some? && disk.seal == seal && seal.value.g1 == w.g1
      ensures o == Done ==> disk.contextDiagnostic.Some?
    {
      hide Valid, Inv, QuietStep, Extends, SamePairs, Complete, EvidenceComplete, EvidenceInv;
      QuietItself(disk);
      if QaState(disk) {
        return Raised, None;
      }
      ghost var d0 := disk;
      var diagnostic: Option<Diagnostic>;
      o, diagnostic := BuildDiagnostic();
      ReadyMeans(w, d0);
      if o != Done {
        return o, None;
      }
      ghost var d1 := disk;
      QuietKeepsQa(d0, d1);
      Reveal();
      NoQaIsIncomplete(w, disk);
      RunArtifacts(w, disk);
      seal := Some(w.SealOf(disk.evidence));
      if disk.seal.Some? {
        return Done, seal;
      }
      var alive := WriteSeal();
      QuietTransitive(d0, d1, disk);
      o := if alive then Done else Crashed;
    }

    method WriteSeal() returns (alive: bool)
      requires Valid() && !QaState(disk) && disk.contextDiagnostic.Some? && disk.seal.None?
      modifies `disk, `life
      ensures Valid() && QuietStep(old(disk), disk)
      ensures old(life).Forever? ==> alive && life.Forever?
      ensures !alive ==> life == Writes(0)
      ensures alive ==> disk == old(disk).(seal := Some(w.SealOf(old(disk).evidence)))
    {
      PutSeal(w, disk);
      QuietItself(disk);
      hide Inv, Extends;
      alive := Put(disk.(seal := Some(w.SealOf(disk.evidence))));
    }

    /** Load the seal: it must be there, passing, and bind today's evidence. */
    method LoadSeal() returns (seal: Option<Seal>)
      requires Valid()
      ensures seal == disk.seal
      ensures seal.Some? ==>
        seal.value.g0 && seal.value.g1 == w.g1 && disk.contextDiagnostic == Some(seal.value.diagnostic)
    {
      RunArtifacts(w, disk);
      hide Inv;
      if disk.seal.None? || !disk.seal.value.g0 {
        return None;
      }
      if disk.contextDiagnostic != Some(disk.seal.value.diagnostic) || disk.seal.value.evidence != disk.evidence {
        return None;
      }
      seal := disk.seal;
    }

    // ------------------------------------------------------------------- calls

    method WriteSettlement(q: nat) returns (alive: bool)
      requires Valid() && q < w.questions && |ReceiptsOf(disk.receipts, q)| < w.routes
      requires var at := Route(q, |ReceiptsOf(disk.receipts, q)|);
        at in disk.responses && at !in disk.settlements
        && w.readable(at, ReceiptsOf(disk.receipts, q), disk.responses[at])
      modifies `disk, `life
      ensures Valid() && QuestionStep(old(disk), disk, q)
      ensures old(life).Forever? ==> alive && life.Forever?
      ensures !alive ==> life == Writes(0)
      ensures !alive ==> disk == old(disk)
      ensures alive ==> var at := Route(q, |ReceiptsOf(old(disk).receipts, q)|);
        disk == old(disk).(settlements := old(disk).settlements[at := w.settlement(at, old(disk).responses[at])])
    {
      var at := Route(q, |ReceiptsOf(disk.receipts, q)|);
      PutSettlement(w, disk, q);
      StepItself(disk, q);
      hide *;
      alive := Put(disk.(settlements := disk.settlements[at := w.settlement(at, disk.responses[at])]));
    }

    method WriteReceipt(q: nat) returns (alive: bool)
      requires Valid() && q < w.questions && |ReceiptsOf(disk.receipts, q)| < w.routes
      requires var at := Route(q, |ReceiptsOf(disk.receipts, q)|);
        at in disk.settlements && at in disk.responses
        && w.accepted(at, ReceiptsOf(disk.receipts, q), disk.responses[at])
      modifies `disk, `life
      ensures Valid() && QuestionStep(old(disk), disk, q)
      ensures old(life).Forever? ==> alive && life.Forever?
      ensures !alive ==> life == Writes(0)
      ensures !alive ==> disk == old(disk)
      ensures disk == old(disk).(receipts := disk.receipts)
      ensures alive ==> Clean(w, disk, q)
      ensures alive ==> |ReceiptsOf(disk.receipts, q)| == |ReceiptsOf(old(disk).receipts, q)| + 1 <= w.routes
    {
      var rows := ReceiptsOf(disk.receipts, q);
      PutReceipt(w, disk, q);
      StepItself(disk, q);
      Reveal();
      hide *;
      var d := disk.(receipts := disk.receipts[q := rows + [disk.responses[Route(q, |rows|)]]]);
      ReceiptCleans(w, disk, d, q);
      alive := Put(d);
    }

    /** One route of the reconciliation: only the next route can change
        anything, or stop it. It stops for a request that cannot be written, and
        for a reserved call without a usable response, which may gain its
        settlement but stays stuck. */
    method ReconcileRoute(q: nat, r: nat) returns (o: Outcome)
      requires Valid() && q < w.questions && r < w.routes
      modifies `disk, `life
      ensures Valid() && QuestionStep(old(disk), disk, q)
      ensures old(life).Forever? ==> life.Forever? && o != Crashed
      ensures o == Crashed ==> life == Writes(0)
      ensures r != |ReceiptsOf(old(disk).receipts, q)| ==> o == Done && disk == old(disk)
      ensures Clean(w, old(disk), q) || Unwritable(w, old(disk), q) ==> o != Crashed && disk == old(disk)
      ensures o == Raised ==> Stuck(w, old(disk), q)
      ensures Stuck(w, old(disk), q) ==> Stuck(w, disk, q)
      ensures o == Done && r == |ReceiptsOf(old(disk).receipts, q)| ==>
        !Stuck(w, old(disk), q) && Clean(w, disk, q)
      ensures o == Done ==>
        disk == old(disk) || |ReceiptsOf(disk.receipts, q)| == |ReceiptsOf(old(disk).receipts, q)| + 1
      ensures disk.qa == old(disk).qa && disk.reservations == old(disk).reservations
      ensures disk.responses == old(disk).responses
    {
      RouteFacts(w, disk, q, r);
      StepItself(disk, q);
      NextCallMeans(w, disk, q);
      hide Valid, Inv, QuestionStep, Stuck, Unanswered, Unwritable, Clean;
      var at, rows := Route(q, r), ReceiptsOf(disk.receipts, q);
      assert rows[..|rows|] == rows;
      o := Done;
      if r % 2 == 1 && |rows| < r {
        // The judge prompt is not known yet.
        if at in disk.reservations || at in disk.responses || at in disk.settlements {
          return Raised;
        }
      } else if r <= |rows| && w.reservation(at, rows[..r]).None? {
        return Raised;
      } else if at !in disk.reservations {
        if at in disk.responses || at in disk.settlements || r < |rows| {
          return Raised;
        }
      } else if r > |rows| || Some(disk.reservations[at]) != w.reservation(at, rows[..r]) {
        return Raised;
      } else if at !in disk.responses || !w.readable(at, rows[..r], disk.responses[at]) {
        return Raised;
      } else if r < |rows| {
        if at !in disk.settlements || disk.settlements[at] != w.settlement(at, disk.responses[at])
          || !w.accepted(at, rows[..r], disk.responses[at]) || rows[r] != disk.responses[at]
        {
          return Raised;
        }
      } else {
        o := SettleAndAppend(q);
        NextCallMeans(w, disk, q);
      }
    }

    /** Bring the journal of one question to a clean state: settle a response
        that was only written, append an accepted reply to the receipts, and
        give up on a reservation without a usable response and on a request that
        cannot be written. */
    method Reconcile(q: nat) returns (o: Outcome)
      requires Valid() && q < w.questions
      modifies `disk, `life
      ensures Valid() && QuestionStep(old(disk), disk, q)
      ensures old(life).Forever? ==> life.Forever? && o != Crashed
      ensures o == Crashed ==> life == Writes(0)
      ensures o == Raised ==> Stuck(w, disk, q) && (Unanswered(w, old(disk), q) || Unwritable(w, disk, q))
      ensures Stuck(w, old(disk), q) ==> Stuck(w, disk, q)
      ensures o == Done ==> !Unanswered(w, old(disk), q) && Clean(w, disk, q)
      ensures o == Done && |ReceiptsOf(disk.receipts, q)| < w.routes ==> !Stuck(w, disk, q)
      ensures disk.qa == old(disk).qa && disk.reservations == old(disk).reservations
      ensures disk.responses == old(disk).responses
    {
      hide *;
      Reveal();
      StepItself(disk, q);
      RoutesBound(w, disk, q);
      NextCallMeans(w, disk, q);
      ghost var n := |ReceiptsOf(disk.receipts, q)|;
      for r := 0 to w.routes
        invariant Valid() && QuestionStep(old(disk), disk, q)
        invariant old(life).Forever? ==> life.Forever?
        invariant disk.qa == old(disk).qa && disk.reservations == old(disk).reservations
        invariant disk.responses == old(disk).responses
        invariant r <= n ==> disk == old(disk)
        invariant r > n ==> !Stuck(w, old(disk), q) && Clean(w, disk, q)
        invariant r > |ReceiptsOf(disk.receipts, q)| ==> !Stuck(w, disk, q)
      {
        ghost var before := disk;
        NextCallMeans(w, before, q);
        o := ReconcileRoute(q, r);
        NextCallMeans(w, disk, q);
        StepTransitive(old(disk), before, disk, q);
        if o != Done {
          return;
        }
      }
      o := Done;
    }

    /** The settlement is written before the response is accepted or not. */
    method SettleAndAppend(q: nat) returns (o: Outcome)
      requires Valid() && q < w.questions && |ReceiptsOf(disk.receipts, q)| < w.routes
      requires var at := Route(q, |ReceiptsOf(disk.receipts, q)|);
        at in disk.responses && at in disk.reservations
        && w.readable(at, ReceiptsOf(disk.receipts, q), disk.responses[at])
      modifies `disk, `life
      ensures Valid() && QuestionStep(old(disk), disk, q)
      ensures old(life).Forever? ==> life.Forever? && o != Crashed
      ensures o == Crashed ==> life == Writes(0)
      ensures o == Raised ==> Unanswered(w, old(disk), q)
      ensures Unanswered(w, old(disk), q) ==> Unanswered(w, disk, q)
      ensures o == Done ==> !Unanswered(w, old(disk), q) && Clean(w, disk, q)
      ensures disk.qa == old(disk).qa && disk.reservations == old(disk).reservations
      ensures disk.responses == old(disk).responses
      ensures |ReceiptsOf(disk.receipts, q)| == |ReceiptsOf(old(disk).receipts, q)| + if o == Done then 1 else 0
    {
      hide *;
      ghost var d0 := disk;
      var rows := ReceiptsOf(disk.receipts, q);
      var at := Route(q, |rows|);
      StepItself(disk, q);
      NextCallMeans(w, disk, q);
      if at !in disk.settlements {
        var alive := WriteSettlement(q);
        NextCallMeans(w, disk, q);
        if !alive {
          return Crashed;
        }
      }
      ghost var d1 := disk;
      if !w.accepted(at, rows, disk.responses[at]) {
        return Raised;
      }
      var alive := WriteReceipt(q);
      StepTransitive(d0, d1, disk, q);
      o := if alive then Done else Crashed;
    }

    method WriteReservation(q: nat) returns (alive: bool)
      requires Valid() && q < w.questions && disk.seal.Some? && w.g1 && |ReceiptsOf(disk.receipts, q)| < w.routes
      requires Clean(w, disk, q) && !Unwritable(w, disk, q)
      modifies `disk, `life
      ensures Valid() && QuestionStep(old(disk), disk, q)
      ensures alive <==> old(life) != Writes(0)
      ensures life == if alive && old(life).Writes? then Writes(old(life).left - 1) else old(life)
      ensures disk == if alive then Reserved(w, old(disk), q) else old(disk)
    {
      hide *;
      Reveal();
      NextCallMeans(w, disk, q);
      PutReservation(w, disk, q);
      StepItself(disk, q);
      alive := Put(Reserved(w, disk, q));
    }

    method WriteResponse(q: nat, reply: Blob) returns (alive: bool)
      requires Valid() && q < w.questions && |ReceiptsOf(disk.receipts, q)| < w.routes
      requires var at := Route(q, |ReceiptsOf(disk.receipts, q)|); at in disk.reservations && at !in disk.responses
      modifies `disk, `life
      ensures Valid() && QuestionStep(old(disk), disk, q)
      ensures old(life).Forever? ==> alive && life.Forever?
      ensures !alive ==> life == Writes(0)
      ensures old(life) == Writes(0) ==> !alive
      ensures !alive ==> disk == old(disk)
      ensures alive ==> var at := Route(q, |ReceiptsOf(old(disk).receipts, q)|);
        disk == old(disk).(responses := old(disk).responses[at := reply])
    {
      var at := Route(q, |ReceiptsOf(disk.receipts, q)|);
      PutResponse(w, disk, q, reply);
      StepItself(disk, q);
      hide *;
      alive := Put(disk.(responses := disk.responses[at := reply]));
    }

    /** The moment of contact: the reservation is durable and the gates are
        sealed. */
    ghost method Record(at: Route)
      requires Valid() && at in disk.reservations && disk.seal.Some? && w.g1
      requires forall c :: c in calls ==> c.at != at
      modifies `calls
      ensures Valid() && calls == old(calls) + [Call(at, disk)]
    {
      RunArtifacts(w, disk);
      hide Inv;
      calls := calls + [Call(at, disk)];
    }

    lemma NeverCalled(at: Route)
      requires Valid() && at !in disk.reservations
      ensures forall c :: c in calls ==> c.at != at
    {
    }

    /** Keep the raw response, settle it if it is readable, then test whether it
        is accepted. */
    method KeepAnswer(q: nat, reply: Blob) returns (o: Outcome)
      requires Valid() && q < w.questions && |ReceiptsOf(disk.receipts, q)| < w.routes
      requires var at := Route(q, |ReceiptsOf(disk.receipts, q)|);
        at in disk.reservations && at !in disk.responses && at !in disk.settlements
      modifies `disk, `life
      ensures Valid() && QuestionStep(old(disk), disk, q)
      ensures old(life).Forever? ==> life.Forever? && o != Crashed
      ensures o == Crashed ==> life == Writes(0)
      ensures o == Raised ==> Unanswered(w, disk, q)
      ensures var rows := ReceiptsOf(disk.receipts, q);
        o == Raised ==> !Usable(w, Route(q, |rows|), rows, reply)
      ensures o == Done ==> CallDone(w, disk, q)
      ensures old(life) == Writes(0) ==> disk == old(disk)
      ensures var at := Route(q, |ReceiptsOf(disk.receipts, q)|);
        disk.responses == old(disk).responses || disk.responses == old(disk).responses[at := reply]
      ensures disk.receipts == old(disk).receipts && disk.qa == old(disk).qa && disk.seal == old(disk).seal
    {
      hide *;
      ghost var d0 := disk;
      var rows := ReceiptsOf(disk.receipts, q);
      var at := Route(q, |rows|);
      StepItself(disk, q);
      var alive := WriteResponse(q, reply);
      if !alive {
        return Crashed;
      }
      ghost var d1 := disk;
      NextCallMeans(w, disk, q);
      if !w.readable(at, rows, reply) {
        return Raised;
      }
      alive := WriteSettlement(q);
      StepTransitive(d0, d1, disk, q);
      if !alive {
        return Crashed;
      }
      NextCallMeans(w, disk, q);
      o := if w.accepted(at, rows, reply) then Done else Raised;
    }

    /** Reserve durably, contact the provider, keep what comes back. Whatever
        goes wrong after the reservation leaves the question stuck. */
    method Issue(q: nat, answer: Answer) returns (o: Outcome)
      requires Valid() && q < w.questions && disk.seal.Some? && w.g1 && |ReceiptsOf(disk.receipts, q)| < w.routes
      requires Clean(w, disk, q) && !Unwritable(w, disk, q) && !answer.Refused?
      modifies this
      ensures Valid() && QuestionStep(old(disk), disk, q) && old(calls) <= calls
      ensures old(life).Forever? ==> life.Forever? && o != Crashed
      ensures o == Crashed ==> life == Writes(0)
      ensures o == Raised ==> Unanswered(w, disk, q)
      ensures var rows := ReceiptsOf(disk.receipts, q);
        o == Raised ==> answer.Silent? || !Usable(w, Route(q, |rows|), rows, answer.reply)
      ensures (o == Raised && answer.Silent?) || old(life) == Writes(1) ==> disk == Reserved(w, old(disk), q)
      ensures o == Done ==> CallDone(w, disk, q)
      ensures var at := Route(q, |ReceiptsOf(disk.receipts, q)|);
        disk.responses == old(disk).responses
        || (answer.Answered? && disk.responses == old(disk).responses[at := answer.reply])
      ensures disk.receipts == old(disk).receipts && disk.qa == old(disk).qa && disk.seal == old(disk).seal
    {
      hide *;
      var at := Route(q, |ReceiptsOf(disk.receipts, q)|);
      ghost var d0 := disk;
      NextCallMeans(w, disk, q);
      StepItself(disk, q);
      NeverCalled(at);
      var alive := WriteReservation(q);
      if !alive {
        return Crashed;
      }
      ghost var d1 := disk;
      Record(at);
      NextCallMeans(w, disk, q);
      if answer.Silent? {
        return Raised;
      }
      o := KeepAnswer(q, answer.reply);
      StepTransitive(d0, d1, disk, q);
    }

    /** One provider call. It is given up when its request cannot be written, and
        refused when the route has any journal state. */
    method CompleteCall(provider: Provider, q: nat) returns (o: Outcome)
      requires Valid() && q < w.questions && disk.seal.Some? && w.g1 && |ReceiptsOf(disk.receipts, q)| < w.routes
      modifies this
      ensures Valid() && QuestionStep(old(disk), disk, q) && old(calls) <= calls
      ensures old(life).Forever? ==> life.Forever? && o != Crashed
      ensures o == Crashed ==> life == Writes(0)
      ensures o == Raised ==> !Clean(w, old(disk), q) || !Answers(w, provider) || Unwritable(w, disk, q)
      ensures o == Raised && Clean(w, old(disk), q) && Contacts(provider) ==> Stuck(w, disk, q)
      ensures Stuck(w, old(disk), q) ==> disk == old(disk) && o == Raised
      ensures o == Done ==> CallDone(w, disk, q)
      ensures SameDestiny(w, provider, old(disk), disk)
      ensures disk.receipts == old(disk).receipts && disk.qa == old(disk).qa && disk.seal == old(disk).seal
    {
      hide *;
      Reveal();
      var rows := ReceiptsOf(disk.receipts, q);
      var at := Route(q, |rows|);
      NextCallMeans(w, disk, q);
      StepItself(disk, q);
      DestinyMeans(w, provider, disk, disk);
      if w.reservation(at, rows).None? {
        return Raised;
      }
      if at in disk.reservations || at in disk.responses || at in disk.settlements {
        return Raised;
      }
      var answer := provider(at, rows);
      ProviderMeans(w, provider, at, rows);
      if answer.Refused? {
        return Raised;
      }
      if answer.Answered? {
        AnswerIsDestined(w, provider, disk, q, answer.reply);
      }
      ghost var d0 := disk;
      o := Issue(q, answer);
      NextCallMeans(w, disk, q);
      DestinyMeans(w, provider, d0, disk);
    }

    /** The QA of one question: verify what is sealed, or make the remaining
        calls, each followed by its receipt, and seal the artifact if the replies
        can be written into it. */
    method AnswerQuestion(provider: Provider, q: nat) returns (o: Outcome)
      requires Valid() && q < w.questions && disk.seal.Some? && w.g1
      modifies this
      ensures Valid() && QuestionStep(old(disk), disk, q) && old(calls) <= calls
      ensures old(life).Forever? ==> life.Forever? && o != Crashed
      ensures o == Crashed ==> life == Writes(0)
      ensures o == Raised ==> !Clean(w, old(disk), q) || !Answers(w, provider) || Unwritable(w, disk, q)
      ensures o == Raised && Clean(w, old(disk), q) && Contacts(provider) ==> Stuck(w, disk, q)
      ensures Stuck(w, old(disk), q) ==> disk == old(disk) && o == Raised
      ensures SameDestiny(w, provider, old(disk), disk)
      ensures o == Done ==> q in disk.qa
    {
      hide *;
      StepItself(disk, q);
      Reveal();
      AnsweredIsUnstuck(w, disk, q);
      SealedHasPair(w, disk, q);
      DestinyMeans(w, provider, disk, disk);
      if q in disk.qa {
        if q !in disk.receipts || Some(disk.qa[q]) != w.qa(q, disk.receipts[q]) {
          return Raised;
        }
        return Done;
      }
      if q !in disk.evidence.packs || q !in disk.evidence.prompts {
        return Raised;
      }
      o := MakeCalls(provider, q);
      if o != Done {
        return;
      }
      ghost var d1 := disk;
      NextCallMeans(w, disk, q);
      if w.qa(q, ReceiptsOf(disk.receipts, q)).None? {
        return Raised;
      }
      var alive := WriteQa(q);
      StepTransitive(old(disk), d1, disk, q);
      DestinyMeans(w, provider, d1, disk);
      DestinyTransitive(w, provider, old(disk), d1, disk);
      o := if alive then Done else Crashed;
    }

    method WriteQa(q: nat) returns (alive: bool)
      requires Valid() && q < w.questions && q !in disk.qa && |ReceiptsOf(disk.receipts, q)| == w.routes
      requires w.qa(q, ReceiptsOf(disk.receipts, q)).Some?
      modifies `disk, `life
      ensures Valid() && QuestionStep(old(disk), disk, q)
      ensures old(life).Forever? ==> alive && life.Forever?
      ensures !alive ==> life == Writes(0)
      ensures alive ==> q in disk.qa
      ensures disk == old(disk).(qa := disk.qa)
    {
      FullHasKey(w, disk, q);
      PutQa(w, disk, q);
      StepItself(disk, q);
      hide *;
      alive := Put(disk.(qa := disk.qa[q := w.qa(q, disk.receipts[q]).value]));
    }

    /** One call and its receipt. */
    method CallAndReceipt(provider: Provider, q: nat) returns (o: Outcome)
      requires Valid() && q < w.questions && disk.seal.Some? && w.g1 && |ReceiptsOf(disk.receipts, q)| < w.routes
      modifies this
      ensures Valid() && QuestionStep(old(disk), disk, q) && old(calls) <= calls
      ensures old(life).Forever? ==> life.Forever? && o != Crashed
      ensures o == Crashed ==> life == Writes(0)
      ensures o == Raised ==> !Clean(w, old(disk), q) || !Answers(w, provider) || Unwritable(w, disk, q)
      ensures o == Raised && Clean(w, old(disk), q) && Contacts(provider) ==> Stuck(w, disk, q)
      ensures Stuck(w, old(disk), q) ==> disk == old(disk) && o == Raised
      ensures SameDestiny(w, provider, old(disk), disk)
      ensures disk.qa == old(disk).qa && disk.seal == old(disk).seal
      ensures o == Done ==> Clean(w, disk, q)
      ensures o == Done ==> |ReceiptsOf(disk.receipts, q)| == |ReceiptsOf(old(disk).receipts, q)| + 1 <= w.routes
    {
      hide *;
      o := CompleteCall(provider, q);
      if o != Done {
        return;
      }
      ghost var d1 := disk;
      NextCallMeans(w, disk, q);
      var alive := WriteReceipt(q);
      StepTransitive(old(disk), d1, disk, q);
      DestinyMeans(w, provider, d1, disk);
      DestinyTransitive(w, provider, old(disk), d1, disk);
      o := if alive then Done else Crashed;
    }

    method MakeCalls(provider: Provider, q: nat) returns (o: Outcome)
      requires Valid() && q < w.questions && disk.seal.Some? && w.g1 && q !in disk.qa
      modifies this
      ensures Valid() && QuestionStep(old(disk), disk, q) && old(calls) <= calls
      ensures old(life).Forever? ==> life.Forever? && o != Crashed
      ensures o == Crashed ==> life == Writes(0)
      ensures o == Raised ==> !Clean(w, old(disk), q) || !Answers(w, provider) || Unwritable(w, disk, q)
      ensures o == Raised && Clean(w, old(disk), q) && Contacts(provider) ==> Stuck(w, disk, q)
      ensures Stuck(w, old(disk), q) ==> disk == old(disk) && o != Crashed
      ensures SameDestiny(w, provider, old(disk), disk)
      ensures o == Done ==> q !in disk.qa && |ReceiptsOf(disk.receipts, q)| == w.routes
    {
      hide *;
      Reveal();
      StepItself(disk, q);
      RoutesBound(w, disk, q);
      DestinyMeans(w, provider, disk, disk);
      while |ReceiptsOf(disk.receipts, q)| < w.routes
        invariant Valid() && QuestionStep(old(disk), disk, q) && old(calls) <= calls
        invariant disk.seal.Some? && q !in disk.qa
        invariant old(life).Forever? ==> life.Forever?
        invariant Clean(w, old(disk), q) ==> Clean(w, disk, q)
        invariant Stuck(w, old(disk), q) ==> disk == old(disk)
        invariant SameDestiny(w, provider, old(disk), disk)
        invariant |ReceiptsOf(disk.receipts, q)| <= w.routes
        decreases w.routes - |ReceiptsOf(disk.receipts, q)|
      {
        ghost var d0 := disk;
        o := CallAndReceipt(provider, q);
        StepTransitive(old(disk), d0, disk, q);
        DestinyTransitive(w, provider, old(disk), d0, disk);
        if o != Done {
          return;
        }
      }
      o := Done;
    }

    method ReconcileAll() returns (o: Outcome)
      requires Valid()
      modifies `disk, `life
      ensures Valid() && QaOnly(old(disk), disk)
      ensures old(life).Forever? ==> life.Forever? && o != Crashed
      ensures o == Crashed ==> life == Writes(0)
      ensures o == Raised ==> StuckAnywhere(w, disk) && (StuckAnywhere(w, old(disk)) || UnwritableAnywhere(w, disk))
      ensures o == Done ==> AllClean(w, disk, w.questions)
      ensures StuckAnywhere(w, old(disk)) ==> StuckAnywhere(w, disk)
      ensures disk.qa == old(disk).qa && disk.responses == old(disk).responses
    {
      hide *;
      QaOnlyItself(disk);
      NoneReconciled(w, disk);
      for q := 0 to w.questions
        invariant Valid() && QaOnly(old(disk), disk)
        invariant old(life).Forever? ==> life.Forever?
        invariant AllClean(w, disk, q) && SameCalls(w, old(disk), disk, q)
        invariant StuckAnywhere(w, old(disk)) ==> StuckAnywhere(w, disk)
        invariant disk.qa == old(disk).qa && disk.responses == old(disk).responses
      {
        ghost var d0 := disk;
        o := Reconcile(q);
        StepIsQaOnly(d0, disk, q);
        QaOnlyTransitive(old(disk), d0, disk);
        ReconciledOne(w, old(disk), d0, disk, q, o == Done);
        StuckStays(w, d0, disk, q);
        StuckSomewhere(w, disk, q);
        if o != Done {
          return;
        }
      }
      o := Done;
    }

    /** All questions in order: reconcile first, then answer. */
    method RunQa(provider: Provider) returns (o: Outcome)
      requires Valid() && disk.seal.Some? && w.g1
      modifies this
      ensures Valid() && QaOnly(old(disk), disk) && old(calls) <= calls
      ensures old(life).Forever? ==> life.Forever? && o != Crashed
      ensures o == Crashed ==> life == Writes(0)
      ensures o == Raised ==>
        StuckAnywhere(w, old(disk)) || !Answers(w, provider)
        || !Writable(w, Destiny(w, old(disk).responses, provider))
      ensures StuckAnywhere(w, old(disk)) ==> StuckAnywhere(w, disk)
      ensures o == Raised && Contacts(provider) ==> StuckAnywhere(w, disk)
      ensures SameDestiny(w, provider, old(disk), disk)
      ensures o == Done ==> !StuckAnywhere(w, old(disk)) && Complete(w.questions, disk.qa)
    {
      hide *;
      o := ReconcileAll();
      DestinyMeans(w, provider, old(disk), disk);
      Reveal();
      Doomed(w, old(disk), disk, provider);
      if o != Done {
        return;
      }
      AllCleanIsSettled(w, disk);
      if !(disk.reservations.Keys <= disk.settlements.Keys) {
        return Raised;
      }
      QaOnlySeal(old(disk), disk);
      for q := 0 to w.questions
        invariant Valid() && QaOnly(old(disk), disk) && old(calls) <= calls && disk.seal.Some?
        invariant old(life).Forever? ==> life.Forever?
        invariant CleanFrom(w, disk, q)
        invariant SameDestiny(w, provider, old(disk), disk)
        invariant StuckAnywhere(w, old(disk)) ==> StuckAnywhere(w, disk)
        invariant forall p: nat :: p < q ==> p in disk.qa
      {
        ghost var d0 := disk;
        CleanAt(w, disk, q);
        o := AnswerQuestion(provider, q);
        StepIsQaOnly(d0, disk, q);
        QaOnlyTransitive(old(disk), d0, disk);
        DestinyTransitive(w, provider, old(disk), d0, disk);
        StuckStays(w, d0, disk, q);
        StuckSomewhere(w, disk, q);
        Reveal();
        Doomed(w, old(disk), disk, provider);
        if o != Done {
          return;
        }
        QaOnlySeal(d0, disk);
        CleanOn(w, d0, disk, q);
      }
      CompleteMeans(w.questions, disk.qa);
      Reveal();
      CompleteIsUnstuck(w, disk);
      o := Done;
    }

    // ------------------------------------------------------ completion and QA

    method EnsureCompletion() returns (alive: bool)
      requires Valid() && Complete(w.questions, disk.qa)
      modifies `disk, `life
      ensures Valid() && Extends(old(disk), disk)
      ensures old(life).Forever? ==> alive && life.Forever?
      ensures !alive ==> life == Writes(0)
      ensures alive ==> disk.completion.Some?
      ensures disk == old(disk).(completion := disk.completion)
    {
      Reveal();
      RunArtifacts(w, disk);
      ExtendsItself(disk);
      if disk.completion.Some? {
        return true;
      }
      PutCompletion(w, disk);
      hide *;
      alive := Put(disk.(completion := Some(w.completion)));
    }

    /** Completion and the final diagnostic, once all QA artifacts are there. */
    method FinishQa() returns (o: Outcome)
      requires Valid() && disk.seal.Some? && Complete(w.questions, disk.qa)
      modifies `disk, `life
      ensures Valid() && Extends(old(disk), disk)
      ensures o != Raised && (old(life).Forever? ==> life.Forever? && o == Done)
      ensures o == Crashed ==> life == Writes(0)
      ensures StuckAnywhere(w, old(disk)) ==> StuckAnywhere(w, disk)
      ensures disk.responses == old(disk).responses && disk.qa == old(disk).qa
      ensures o == Done ==> disk.completion.Some? && disk.finalDiagnostic.Some? && disk.seal.Some?
    {
      hide *;
      Reveal();
      CompleteIsUnstuck(w, disk);
      var alive := EnsureCompletion();
      if !alive {
        return Crashed;
      }
      ghost var d1 := disk;
      Reveal();
      SealedIsReady(w, disk);
      var diagnostic: Option<Diagnostic>;
      o, diagnostic := BuildDiagnostic();
      QuietKeepsQa(d1, disk);
      ExtendsTransitive(old(disk), d1, disk);
      ExtendsKeepsSeal(d1, disk);
    }

    /** All QA artifacts are there: reconcile, replay each, and finish without
        any call. */
    method FinalizeOffline() returns (o: Outcome)
      requires Valid() && disk.seal.Some? && Complete(w.questions, disk.qa)
      modifies `disk, `life
      ensures Valid() && Extends(old(disk), disk)
      ensures o != Raised && (old(life).Forever? ==> life.Forever? && o == Done)
      ensures o == Crashed ==> life == Writes(0)
      ensures StuckAnywhere(w, old(disk)) ==> StuckAnywhere(w, disk)
      ensures disk.responses == old(disk).responses && disk.qa == old(disk).qa
      ensures o == Done ==> disk.completion.Some? && disk.finalDiagnostic.Some? && disk.seal.Some?
    {
      hide *;
      Reveal();
      CompleteIsUnstuck(w, disk);
      o := ReconcileAll();
      Reveal();
      CompleteIsUnstuck(w, disk);
      QaOnlySeal(old(disk), disk);
      if o != Done {
        return;
      }
      ghost var d1 := disk;
      Reveal();
      AllCleanIsSettled(w, disk);
      if !(disk.reservations.Keys <= disk.settlements.Keys) {
        return Raised;
      }
      for q := 0 to w.questions
        invariant disk == d1 && Valid()
        invariant old(life).Forever? ==> life.Forever?
      {
        CompleteMeans(w.questions, disk.qa);
        AnsweredHasReceipts(w, disk, q);
        if q !in disk.qa || q !in disk.receipts || Some(disk.qa[q]) != w.qa(q, disk.receipts[q]) {
          return Raised;
        }
      }
      o := FinishQa();
      ExtendsTransitive(old(disk), d1, disk);
    }

    /** The conditional QA phase. */
    method QaPhase(provider: Provider) returns (o: Outcome)
      requires Valid()
      modifies this
      ensures Valid() && Extends(old(disk), disk) && old(calls) <= calls
      ensures old(life).Forever? ==> life.Forever? && o != Crashed
      ensures o == Crashed ==> life == Writes(0)
      ensures o == Raised ==>
        StuckAnywhere(w, old(disk)) || !Answers(w, provider)
        || (w.g1 && !Writable(w, Destiny(w, old(disk).responses, provider)))
        || (!QaState(old(disk)) && !Ready(w, old(disk)))
      ensures o == Raised && Contacts(provider) ==>
        StuckAnywhere(w, disk) || (!QaState(old(disk)) && !Ready(w, old(disk)))
      ensures StuckAnywhere(w, old(disk)) ==> StuckAnywhere(w, disk)
      ensures SameDestiny(w, provider, old(disk), disk)
      ensures o == Done ==> !StuckAnywhere(w, old(disk)) && disk.seal.Some?
      ensures o == Done && w.g1 ==> disk.completion.Some? && disk.finalDiagnostic.Some?
      ensures !w.g1 ==> calls == old(calls)
    {
      hide *;
      Reveal();
      RunArtifacts(w, disk);
      QaCountMeans(disk.qa, w.questions);
      ExtendsItself(disk);
      NoQaIsUnstuck(w, disk);
      DestinyMeans(w, provider, disk, disk);
      if disk.completion.Some?
        && (QaCount(disk.qa, w.questions) != w.questions || disk.completion.value != w.completion)
      {
        return Raised;
      }
      var durable := QaState(disk);
      var seal: Option<Seal>;
      if durable {
        seal := LoadSeal();
        if seal.None? {
          return Raised;
        }
      } else {
        o, seal := BuildSeal();
        QuietKeepsQa(old(disk), disk);
        DestinyMeans(w, provider, old(disk), disk);
        if o != Done {
          return;
        }
      }
      ghost var d1 := disk;
      if !seal.value.g1 {
        if durable {
          return Raised;
        }
        return Done;
      }
      o := Conduct(provider);
      DestinyMeans(w, provider, old(disk), d1);
      ExtendsTransitive(old(disk), d1, disk);
      SameStuckness(w, old(disk), d1);
      DestinyTransitive(w, provider, old(disk), d1, disk);
    }

    /** With the gates passed: finish what is complete, or make the calls. */
    method Conduct(provider: Provider) returns (o: Outcome)
      requires Valid() && disk.seal.Some? && w.g1
      modifies this
      ensures Valid() && Extends(old(disk), disk) && old(calls) <= calls
      ensures old(life).Forever? ==> life.Forever? && o != Crashed
      ensures o == Crashed ==> life == Writes(0)
      ensures o == Raised ==>
        StuckAnywhere(w, old(disk)) || !Answers(w, provider)
        || !Writable(w, Destiny(w, old(disk).responses, provider))
      ensures StuckAnywhere(w, old(disk)) ==> StuckAnywhere(w, disk)
      ensures o == Raised && Contacts(provider) ==> StuckAnywhere(w, disk)
      ensures SameDestiny(w, provider, old(disk), disk)
      ensures o == Done ==> !StuckAnywhere(w, old(disk)) && disk.seal.Some?
      ensures o == Done ==> disk.completion.Some? && disk.finalDiagnostic.Some?
    {
      hide *;
      Reveal();
      QaCountMeans(disk.qa, w.questions);
      if QaCount(disk.qa, w.questions) == w.questions {
        CompleteIsUnstuck(w, disk);
        o := FinalizeOffline();
        DestinyMeans(w, provider, old(disk), disk);
        return;
      }
      o := RunQa(provider);
      QaOnlySeal(old(disk), disk);
      if o != Done {
        return;
      }
      QaCountMeans(disk.qa, w.questions);
      if QaCount(disk.qa, w.questions) != w.questions {
        return Raised;
      }
      ghost var d1 := disk;
      o := FinishQa();
      ExtendsTransitive(old(disk), d1, disk);
      DestinyMeans(w, provider, d1, disk);
      DestinyTransitive(w, provider, old(disk), d1, disk);
    }

    // ------------------------------------------------------------------ report

    /** The audit of the provider request ids over all questions and routes,
        begun with the ids of the extraction. */
    method AuditIds() returns (ok: bool)
      requires Valid() && Complete(w.questions, disk.qa)
      ensures ok <==> UniqueIds(w, disk.receipts)
    {
      hide *;
      Reveal();
      ReceiptsBound(w, disk);
      var receipts, seen := disk.receipts, w.usedIds;
      NothingAudited(w, receipts);
      for q := 0 to w.questions
        invariant Audited(w, receipts, q, 0, seen)
      {
        var rows := ReceiptsOf(receipts, q);
        for r := 0 to |rows|
          invariant Audited(w, receipts, q, r, seen)
        {
          AuditOne(w, receipts, q, r, seen);
          var id := w.callId(rows[r]);
          if id in seen {
            return false;
          }
          seen := seen + {id};
        }
        AuditedRow(w, receipts, q, seen);
      }
      AuditedAll(w, receipts, seen);
      ok := true;
    }

    /** The terminal report: exactly with the gates sealed and, when G1 passed,
        with QA complete, completed and diagnosed, and no provider request id
        repeated. */
    method BuildReport() returns (o: Outcome)
      requires Valid()
      modifies `disk, `life
      ensures Valid() && Extends(old(disk), disk)
      ensures old(life).Forever? ==> life.Forever? && o != Crashed
      ensures o == Crashed ==> life == Writes(0)
      ensures StuckAnywhere(w, old(disk)) ==> StuckAnywhere(w, disk)
      ensures disk.receipts == old(disk).receipts && disk.responses == old(disk).responses
      ensures o == Done ==> disk.report.Some? && Reportable(w, old(disk))
      ensures o == Raised ==> !Reportable(w, old(disk))
    {
      hide *;
      Reveal();
      RunArtifacts(w, disk);
      QaCountMeans(disk.qa, w.questions);
      ExtendsItself(disk);
      ReportableMeans(w, disk);
      var seal := LoadSeal();
      if seal.None? {
        return Raised;
      }
      var count := QaCount(disk.qa, w.questions);
      var state := QaState(disk);
      if (count != 0 && count != w.questions) || (seal.value.g1 && count != w.questions) || (!seal.value.g1 && state) {
        CannotReport(w, disk);
        return Raised;
      }
      ghost var d0 := disk;
      ReportableIsReady(w, disk);
      var diagnostic: Option<Diagnostic>;
      o, diagnostic := BuildDiagnostic();
      QuietKeepsQa(d0, disk);
      QuietStuck(w, d0, disk);
      ExtendsKeepsSeal(d0, disk);
      if o != Done {
        return;
      }
      if diagnostic.value.g1 != seal.value.g1 {
        return Raised;
      }
      Reveal();
      RunArtifacts(w, disk);
      if count != 0 {
        var unique := AuditIds();
        if !unique || disk.completion.None? || disk.completion.value != w.completion {
          return Raised;
        }
      }
      UnresolvedBlocks(w, disk);
      if !(disk.reservations.Keys <= disk.settlements.Keys) {
        return Raised;
      }
      ghost var d1 := disk;
      if w.g1 {
        DiagnosticOf(w, disk, diagnostic);
      }
      o := WriteReport(seal.value, diagnostic.value, count != 0);
      QuietStuck(w, d1, disk);
      ExtendsTransitive(old(disk), d1, disk);
    }

    method WriteReport(seal: Seal, diagnostic: Diagnostic, withQa: bool) returns (o: Outcome)
      requires Valid() && disk.seal == Some(seal) && seal.g1 == w.g1 && withQa == w.g1
      requires if w.g1 then
          && disk.completion.Some? && Complete(w.questions, disk.qa)
          && disk.finalDiagnostic == Some(diagnostic) && diagnostic.g2 == Some(w.g2(disk.receipts))
          && UniqueIds(w, disk.receipts)
        else !QaState(disk) && disk.contextDiagnostic == Some(diagnostic)
      modifies `disk, `life
      ensures Valid() && Extends(old(disk), disk)
      ensures o != Raised && (old(life).Forever? ==> life.Forever? && o == Done)
      ensures o == Crashed ==> life == Writes(0)
      ensures SameQa(old(disk), disk)
      ensures o == Done ==> disk.report.Some?
    {
      hide *;
      Reveal();
      ExtendsItself(disk);
      SameQaItself(disk);
      ReportIsDue(w, disk, seal, diagnostic, withQa);
      var verdict;
      if !seal.g1 {
        verdict := RejectAtContext;
      } else if diagnostic.g2.None? {
        return Raised;
      } else if !diagnostic.g2.value {
        verdict := RejectAtQa;
      } else {
        verdict := Confirm;
      }
      var report := Report(verdict, seal, diagnostic, withQa);
      if disk.report.Some? {
        return if disk.report.value == report then Done else Raised;
      }
      PutReport(w, disk, report);
      SameQaWithReport(disk, report);
      var alive := Put(disk.(report := Some(report)));
      o := if alive then Done else Crashed;
    }

    // ------------------------------------------------------------- whole runs

    method PreQaPhase() returns (o: Outcome)
      requires Valid()
      modifies `disk, `life
      ensures Valid() && Extends(old(disk), disk)
      ensures old(life).Forever? ==> life.Forever? && o != Crashed
      ensures o == Crashed ==> life == Writes(0)
      ensures o != Crashed ==> (o == Raised <==> !QaState(old(disk)) && !Ready(w, old(disk)))
      ensures !QaState(old(disk)) ==> QuietStep(old(disk), disk)
      ensures StuckAnywhere(w, old(disk)) ==> StuckAnywhere(w, disk)
      ensures o == Done ==> disk.seal.Some?
    {
      Reveal();
      RunArtifacts(w, disk);
      hide *;
      ExtendsItself(disk);
      var seal: Option<Seal>;
      if QaState(disk) {
        seal := LoadSeal();
        o := if seal.Some? then Done else Raised;
      } else {
        o, seal := BuildSeal();
        QuietKeepsQa(old(disk), disk);
        QuietStuck(w, old(disk), disk);
      }
    }

    method RunPhase(phase: Phase, provider: Provider) returns (o: Outcome)
      requires Valid()
      modifies this
      ensures Valid() && Extends(old(disk), disk) && old(calls) <= calls
      ensures old(life).Forever? ==> life.Forever? && o != Crashed
      ensures o == Crashed ==> life == Writes(0)
      ensures StuckAnywhere(w, old(disk)) ==> StuckAnywhere(w, disk)
      ensures !w.g1 ==> calls == old(calls)
      ensures phase != Qa ==> calls == old(calls)
      ensures o == Done ==>
        match phase
        case Select => Complete(w.questions, disk.evidence.selections)
        case Pack => Complete(w.questions, disk.evidence.packs) && Complete(w.questions, disk.evidence.prompts)
        case PreQa => disk.seal.Some? && (QaState(old(disk)) || Ready(w, old(disk)))
        case Qa =>
          && !StuckAnywhere(w, old(disk)) && disk.seal.Some?
          && (w.g1 ==> disk.completion.Some? && disk.finalDiagnostic.Some?)
        case ReportPhase => disk.report.Some? && Reportable(w, old(disk))
      ensures o == Raised ==>
        match phase
        case Select => false
        case Pack => false
        case PreQa => !QaState(old(disk)) && !Ready(w, old(disk))
        case Qa =>
          && (Contacts(provider) ==> StuckAnywhere(w, disk) || (!QaState(old(disk)) && !Ready(w, old(disk))))
          && (Answers(w, provider) ==>
            || StuckAnywhere(w, old(disk)) || (!QaState(old(disk)) && !Ready(w, old(disk)))
            || (w.g1 && !Writable(w, Destiny(w, old(disk).responses, provider))))
        case ReportPhase => !Reportable(w, old(disk))
    {
      hide *;
      match phase
      case Select =>
        o := SelectPhase();
        QuietKeepsQa(old(disk), disk);
        QuietStuck(w, old(disk), disk);
      case Pack =>
        o := PackPhase();
        QuietKeepsQa(old(disk), disk);
        QuietStuck(w, old(disk), disk);
      case PreQa => o := PreQaPhase();
      case Qa => o := QaPhase(provider);
      case ReportPhase => o := BuildReport();
    }

    /** The all-phase driver. An uninterrupted run with an answering provider
        ends with the report if and only if no question is stuck and, among the
        replies that it is heading for, no provider request id is repeated and
        none makes the next request or a QA artifact impossible to write; from
        every other disk it recovers. A run that fails with a provider that is
        at least contacted leaves a stuck question or a repeated id. */
    method RunAll(provider: Provider) returns (o: Outcome)
      requires Valid()
      modifies this
      ensures Valid() && Extends(old(disk), disk) && old(calls) <= calls
      ensures StuckAnywhere(w, old(disk)) ==> StuckAnywhere(w, disk)
      ensures SameDestiny(w, provider, old(disk), disk)
      ensures !w.g1 ==> calls == old(calls)
      ensures o == Done ==> disk.report.Some? && !StuckAnywhere(w, old(disk))
      ensures o == Done ==>
        Reports(w, disk.evidence, Destiny(w, old(disk).responses, provider), disk.report.value)
      ensures var destiny := Destiny(w, old(disk).responses, provider);
        o == Done && w.g1 ==> UniqueIds(w, destiny) && Writable(w, destiny)
      ensures var destiny := Destiny(w, old(disk).responses, provider);
        old(life).Forever? && Answers(w, provider) ==>
          (o == Done <==>
            !StuckAnywhere(w, old(disk)) && (w.g1 ==> UniqueIds(w, destiny) && Writable(w, destiny)))
      ensures o == Raised && Contacts(provider) ==>
        StuckAnywhere(w, disk) || (w.g1 && Complete(w.questions, disk.qa) && !UniqueIds(w, disk.receipts))
      ensures o == Raised && Answers(w, provider) && !StuckAnywhere(w, old(disk)) ==>
        w.g1
        && (!Writable(w, Destiny(w, old(disk).responses, provider))
          || (Complete(w.questions, disk.qa) && !UniqueIds(w, disk.receipts)))
      ensures old(life).Forever? ==> o != Crashed
      ensures o == Crashed ==> life == Writes(0)
    {
      hide *;
      Reveal();
      ExtendsItself(disk);
      NoQaIsUnstuck(w, disk);
      DestinyMeans(w, provider, disk, disk);
      if !QaState(disk) {
        o := Prepare();
        QuietKeepsQa(old(disk), disk);
        DestinyMeans(w, provider, old(disk), disk);
        if o != Done {
          return;
        }
        SameStuckness(w, old(disk), disk);
      }
      ghost var d1 := disk;
      o := QaPhase(provider);
      DestinyMeans(w, provider, old(disk), d1);
      ExtendsTransitive(old(disk), d1, disk);
      DestinyTransitive(w, provider, old(disk), d1, disk);
      if o != Done {
        return;
      }
      ghost var d2 := disk;
      Reveal();
      CompletedIsDestined(w, provider, d2);
      ReportableMeans(w, d2);
      o := BuildReport();
      ExtendsTransitive(old(disk), d2, disk);
      DestinyMeans(w, provider, d2, disk);
      DestinyTransitive(w, provider, old(disk), d2, disk);
      DestinyMeans(w, provider, old(disk), d2);
      StillComplete(w, d2, disk);
      if o == Done {
        Reveal();
        ReportIsSpelledOut(w, provider, disk);
        DestinyMeans(w, provider, old(disk), disk);
      }
    }

    /** The phases before QA. */
    method Prepare() returns (o: Outcome)
      requires Valid() && !QaState(disk)
      modifies `disk, `life
      ensures Valid() && QuietStep(old(disk), disk)
      ensures o != Raised && (old(life).Forever? ==> life.Forever? && o == Done)
      ensures o == Crashed ==> life == Writes(0)
      ensures o == Done ==> Ready(w, disk) && disk.seal.Some?
    {
      hide *;
      o := SelectPhase();
      QuietKeepsQa(old(disk), disk);
      if o != Done {
        return;
      }
      ghost var d1 := disk;
      o := PackPhase();
      QuietKeepsQa(d1, disk);
      QuietTransitive(old(disk), d1, disk);
      if o != Done {
        return;
      }
      ReadyMeans(w, disk);
      ghost var d2 := disk;
      o := PreQaPhase();
      QuietTransitive(old(disk), d2, disk);
      QuietKeepsReady(w, d2, disk);
    }

    /** Any schedule of invocations, each with its own life and provider: the
        invariant holds throughout and nothing is ever rewritten. */
    method Schedule(invocations: seq<(Command, Life, Provider)>) returns (outcomes: seq<Outcome>)
      requires Valid()
      modifies this
      ensures Valid() && Extends(old(disk), disk) && old(calls) <= calls
      ensures StuckAnywhere(w, old(disk)) ==> StuckAnywhere(w, disk)
      ensures !w.g1 ==> calls == old(calls)
      ensures |outcomes| == |invocations|
    {
      hide *;
      ExtendsItself(disk);
      outcomes := [];
      for i := 0 to |invocations|
        invariant Valid() && Extends(old(disk), disk) && old(calls) <= calls
        invariant !w.g1 ==> calls == old(calls)
        invariant StuckAnywhere(w, old(disk)) ==> StuckAnywhere(w, disk)
        invariant |outcomes| == i
      {
        ghost var before := disk;
        var (command, span, provider) := invocations[i];
        Restart(span);
        var o;
        match command {
          case Only(phase) => o := RunPhase(phase, provider);
          case All => o := RunAll(provider);
        }
        ExtendsTransitive(old(disk), before, disk);
        outcomes := outcomes + [o];
      }
    }

    /** A new process on the same files. */
    method Restart(span: Life)
      requires Valid()
      modifies `life
      ensures Valid() && life == span
    {
      life := span;
    }
  }

  ghost predicate Paired(d: Disk, q: nat) {
    q in d.evidence.packs <==> q in d.evidence.prompts
  }

  ghost predicate SamePairsBut(d: Disk, d': Disk, q: nat) {
    forall p :: p != q ==>
      && (p in d.evidence.packs <==> p in d'.evidence.packs)
      && (p in d.evidence.prompts <==> p in d'.evidence.prompts)
  }

  ghost predicate Packed(d: Disk, q: nat) {
    q in d.evidence.packs && q in d.evidence.prompts
  }

  ghost predicate SamePairs(d: Disk, d': Disk) {
    d.evidence.packs == d'.evidence.packs && d.evidence.prompts == d'.evidence.prompts
  }

  lemma PairsStay(d: Disk, d': Disk, q: nat)
    requires SamePairsBut(d, d', q)
    ensures forall p :: p != q ==> (Paired(d, p) <==> Paired(d', p))
  {
  }

  lemma CompleteMeans<V>(n: nat, m: map<nat, V>)
    ensures Complete(n, m) <==> forall p: nat :: p < n ==> p in m
  {
  }

  /** The diagnostic has all it needs: every pair, and either no QA trace or
      every QA artifact. */
  ghost predicate Ready(w: World, d: Disk) {
    && Complete(w.questions, d.evidence.packs) && Complete(w.questions, d.evidence.prompts)
    && (Complete(w.questions, d.qa) || (d.qa == map[] && d.receipts == map[]))
  }

  lemma SamePairsItself(d: Disk)
    ensures SamePairs(d, d)
  {
  }

  lemma SamePairsTransitive(a: Disk, b: Disk, c: Disk)
    requires SamePairs(a, b) && SamePairs(b, c)
    ensures SamePairs(a, c)
  {
  }

  lemma QuietKeepsQa(d: Disk, d': Disk)
    requires QuietStep(d, d')
    ensures SameQa(d, d') && d.qa == d'.qa && d.responses == d'.responses && d.receipts == d'.receipts
    ensures d.completion == d'.completion
    ensures QaState(d) <==> QaState(d')
    ensures Extends(d, d')
  {
  }

  lemma EvidencePersists(d: Disk, d': Disk)
    requires QuietStep(d, d')
    ensures forall p :: p in d.evidence.selections ==> p in d'.evidence.selections
    ensures forall p :: p in d.evidence.packs ==> p in d'.evidence.packs
    ensures forall p :: p in d.evidence.prompts ==> p in d'.evidence.prompts
    ensures forall p :: p in d.evidence.cases ==> p in d'.evidence.cases
    ensures forall p :: p in d.finalCases ==> p in d'.finalCases
  {
  }

  lemma SamePacked(d: Disk, d': Disk, q: nat)
    requires SamePairs(d, d')
    ensures Packed(d, q) <==> Packed(d', q)
  {
  }

  lemma NotReady(w: World, d0: Disk, d: Disk, q: nat)
    requires SamePairs(d0, d) && q < w.questions && d0.qa == d.qa && d0.receipts == d.receipts
    requires !Packed(d, q) || (q in d.receipts && q !in d.qa)
    ensures !Ready(w, d0)
  {
  }

  lemma PartialIsNotReady(w: World, d: Disk)
    requires QaCount(d.qa, w.questions) != 0 && QaCount(d.qa, w.questions) != w.questions
    ensures !Ready(w, d)
  {
    QaCountMeans(d.qa, w.questions);
  }

  lemma CasesComplete(w: World, d: Disk)
    requires Inv(w, d) && Complete(w.questions, d.evidence.cases)
    ensures EvidenceComplete(w, d.evidence)
  {
  }

  lemma NoQaIsIncomplete(w: World, d: Disk)
    requires w.Sound() && !QaState(d)
    ensures !Complete(w.questions, d.qa)
  {
    assert 0 !in d.qa;
  }

  /** The route after the open one has no journal files. */
  lemma NextUntouched(w: World, d: Disk, q: nat)
    requires Inv(w, d) && |ReceiptsOf(d.receipts, q)| < w.routes
    ensures RouteUntouched(d, Route(q, |ReceiptsOf(d.receipts, q)| + 1))
  {
    hide EvidenceInv, SealInv, GateInv, FinalInv;
    assert QuestionInv(w, d, q);
  }

  lemma RoutesBound(w: World, d: Disk, q: nat)
    requires Inv(w, d)
    ensures |ReceiptsOf(d.receipts, q)| <= w.routes
  {
    hide EvidenceInv, SealInv, GateInv, FinalInv;
    assert QuestionInv(w, d, q);
  }

  /** No call is refused before it is made. */
  ghost predicate Contacts(provider: Provider) {
    forall at, before :: !provider(at, before).Refused?
  }

  /** Every call is answered, with a reply that passes both tests. */
  ghost predicate Answers(w: World, provider: Provider) {
    forall at, before :: provider(at, before).Answered? && Usable(w, at, before, provider(at, before).reply)
  }

  lemma ProviderMeans(w: World, provider: Provider, at: Route, before: seq<Blob>)
    ensures provider(at, before).Refused? ==> !Contacts(provider)
    ensures Answers(w, provider) ==>
      Contacts(provider) && provider(at, before).Answered? && Usable(w, at, before, provider(at, before).reply)
  {
  }

  // ------------------------------------------------------------ where a run leads

  /** The replies of the first n routes of a question: those on disk, then the
      provider's, up to the first call that it leaves without an answer. */
  function FinalRows(responses: map<Route, Blob>, provider: Provider, q: nat, n: nat): (rows: seq<Blob>)
    ensures |rows| <= n
  {
    if n == 0 then
      []
    else
      var rows, at := FinalRows(responses, provider, q, n - 1), Route(q, n - 1);
      if |rows| < n - 1 then rows
      else if at in responses then rows + [responses[at]]
      else if provider(at, rows).Answered? then rows + [provider(at, rows).reply]
      else rows
  }

  /** Reply r is the response on disk or else the provider's answer after the
      replies before it; the rows only end early where neither is there. */
  lemma {:induction false} RowsAreReplies(responses: map<Route, Blob>, provider: Provider, q: nat, n: nat)
    ensures var rows := FinalRows(responses, provider, q, n);
      && (forall r: nat {:trigger Route(q, r)} :: r < |rows| ==>
        if Route(q, r) in responses then rows[r] == responses[Route(q, r)]
        else provider(Route(q, r), rows[..r]) == Answered(rows[r]))
      && (|rows| < n ==> Route(q, |rows|) !in responses && !provider(Route(q, |rows|), rows).Answered?)
  {
    if n > 0 {
      RowsAreReplies(responses, provider, q, n - 1);
      var front, rows := FinalRows(responses, provider, q, n - 1), FinalRows(responses, provider, q, n);
      assert forall r: nat :: r < |front| ==> rows[..r] == front[..r];
      assert rows[..|front|] == front;
    }
  }

  lemma AnsweredThroughout(w: World, responses: map<Route, Blob>, provider: Provider, q: nat)
    requires Answers(w, provider)
    ensures |FinalRows(responses, provider, q, w.routes)| == w.routes
  {
    RowsAreReplies(responses, provider, q, w.routes);
    hide FinalRows;
  }

  /** The receipts that a run with this provider is heading for. */
  ghost function Destiny(w: World, responses: map<Route, Blob>, provider: Provider): map<nat, seq<Blob>> {
    map q: nat | q < w.questions :: FinalRows(responses, provider, q, w.routes)
  }

  ghost predicate SameDestiny(w: World, provider: Provider, d: Disk, d': Disk) {
    Destiny(w, d.responses, provider) == Destiny(w, d'.responses, provider)
  }

  lemma DestinyMeans(w: World, provider: Provider, d: Disk, d': Disk)
    ensures SameDestiny(w, provider, d, d') <==>
      Destiny(w, d.responses, provider) == Destiny(w, d'.responses, provider)
    ensures d.responses == d'.responses ==> SameDestiny(w, provider, d, d')
  {
  }

  lemma DestinyTransitive(w: World, provider: Provider, a: Disk, b: Disk, c: Disk)
    ensures SameDestiny(w, provider, a, b) && SameDestiny(w, provider, b, c) ==> SameDestiny(w, provider, a, c)
  {
  }

  /** Receipts are the responses of their routes. */
  lemma {:induction false} RowsFromResponses(w: World, d: Disk, provider: Provider, q: nat, n: nat)
    requires QuestionInv(w, d, q) && n <= |ReceiptsOf(d.receipts, q)|
    ensures FinalRows(d.responses, provider, q, n) == ReceiptsOf(d.receipts, q)[..n]
  {
    if n > 0 {
      var rows := ReceiptsOf(d.receipts, q);
      RowsFromResponses(w, d, provider, q, n - 1);
      assert RouteDone(w, d, Route(q, n - 1), rows[..n - 1], rows[n - 1]);
      assert rows[..n] == rows[..n - 1] + [rows[n - 1]];
    }
  }

  lemma {:induction false} OneMoreResponse(
    responses: map<Route, Blob>, provider: Provider, at: Route, reply: Blob, q: nat, n: nat)
    requires at !in responses
    requires var rows := FinalRows(responses, provider, at.question, at.index);
      |rows| == at.index && provider(at, rows) == Answered(reply)
    ensures FinalRows(responses[at := reply], provider, q, n) == FinalRows(responses, provider, q, n)
  {
    if n > 0 {
      OneMoreResponse(responses, provider, at, reply, q, n - 1);
      if Route(q, n - 1) == at {
        assert q == at.question && n - 1 == at.index;
      }
    }
  }

  /** The provider's answer to the next call changes nothing in where the run
      leads. */
  lemma AnswerIsDestined(w: World, provider: Provider, d: Disk, q: nat, reply: Blob)
    requires Inv(w, d)
    requires var rows := ReceiptsOf(d.receipts, q);
      var at := Route(q, |rows|);
      at !in d.responses && provider(at, rows) == Answered(reply)
    ensures var at := Route(q, |ReceiptsOf(d.receipts, q)|);
      Destiny(w, d.responses[at := reply], provider) == Destiny(w, d.responses, provider)
  {
    hide EvidenceInv, SealInv, GateInv, FinalInv, FinalRows;
    var rows := ReceiptsOf(d.receipts, q);
    var at := Route(q, |rows|);
    assert QuestionInv(w, d, q);
    RowsFromResponses(w, d, provider, q, |rows|);
    assert rows[..|rows|] == rows;
    hide *;
    forall p: nat ensures
      FinalRows(d.responses[at := reply], provider, p, w.routes) == FinalRows(d.responses, provider, p, w.routes)
    {
      OneMoreResponse(d.responses, provider, at, reply, p, w.routes);
    }
    SameRowsSameDestiny(w, provider, d.responses[at := reply], d.responses);
  }

  lemma SameRowsSameDestiny(w: World, provider: Provider, a: map<Route, Blob>, b: map<Route, Blob>)
    requires forall p: nat :: FinalRows(a, provider, p, w.routes) == FinalRows(b, provider, p, w.routes)
    ensures Destiny(w, a, provider) == Destiny(w, b, provider)
  {
  }

  /** With all QA artifacts on disk, the receipts are where every run leads. */
  lemma CompleteIsDestined(w: World, provider: Provider, d: Disk)
    requires w.Sound() && Inv(w, d) && Complete(w.questions, d.qa)
    ensures d.receipts == Destiny(w, d.responses, provider)
  {
    forall q: nat | q < w.questions
      ensures q in d.receipts && d.receipts[q] == FinalRows(d.responses, provider, q, w.routes)
    {
      AnsweredHasReceipts(w, d, q);
      assert QuestionInv(w, d, q);
      RowsFromResponses(w, d, provider, q, w.routes);
      assert d.receipts[q][..w.routes] == d.receipts[q];
    }
    forall q | q in d.receipts ensures q < w.questions {
      AnsweredHasReceipts(w, d, q);
    }
    hide Inv, FinalRows, Complete;
  }

  /** A completed run is where every run leads, and all of it was written. */
  lemma CompletedIsDestined(w: World, provider: Provider, d: Disk)
    requires w.Sound() && Inv(w, d)
    ensures d.completion.Some? ==>
      Complete(w.questions, d.qa) && d.receipts == Destiny(w, d.responses, provider) && Writable(w, d.receipts)
  {
    if d.completion.Some? {
      RunArtifacts(w, d);
      CompleteIsWritable(w, d);
      CompleteIsDestined(w, provider, d);
    }
  }

  /** What is there by route n stays there. */
  lemma {:induction false} RowsExtend(responses: map<Route, Blob>, provider: Provider, q: nat, n: nat, m: nat)
    requires n <= m
    ensures FinalRows(responses, provider, q, n) <= FinalRows(responses, provider, q, m)
  {
    if n < m {
      RowsExtend(responses, provider, q, n, m - 1);
    }
  }

  /** A question whose next request or artifact cannot be written now will never
      have it written, whatever the provider answers. */
  lemma UnwritableDooms(w: World, d: Disk, provider: Provider, q: nat)
    requires Inv(w, d) && q < w.questions && Unwritable(w, d, q)
    ensures !Writable(w, Destiny(w, d.responses, provider))
  {
    var rows, final := ReceiptsOf(d.receipts, q), FinalRows(d.responses, provider, q, w.routes);
    assert QuestionInv(w, d, q);
    hide Inv;
    RowsFromResponses(w, d, provider, q, |rows|);
    RowsExtend(d.responses, provider, q, |rows|, w.routes);
    hide FinalRows, QuestionInv;
    assert rows[..|rows|] == rows && final[..|rows|] == rows;
    assert ReceiptsOf(Destiny(w, d.responses, provider), q) == final;
    if |rows| == w.routes {
      assert final == rows;
    }
    assert !WritableAt(w, q, final);
  }

  lemma Doomed(w: World, d0: Disk, d: Disk, provider: Provider)
    requires Inv(w, d) && SameDestiny(w, provider, d0, d)
    ensures UnwritableAnywhere(w, d) ==> !Writable(w, Destiny(w, d0.responses, provider))
  {
    hide Inv, Destiny, Writable, Unwritable;
    if UnwritableAnywhere(w, d) {
      var q: nat :| q < w.questions && Unwritable(w, d, q);
      UnwritableDooms(w, d, provider, q);
    }
  }

  /** What was written could be written. */
  lemma CompleteIsWritable(w: World, d: Disk)
    requires w.Sound() && Inv(w, d) && Complete(w.questions, d.qa)
    ensures Writable(w, d.receipts)
  {
    hide Inv;
    forall q: nat | q < w.questions ensures WritableAt(w, q, ReceiptsOf(d.receipts, q)) {
      AnsweredHasReceipts(w, d, q);
      AnsweredRoutesDone(w, d, q);
      var rows := ReceiptsOf(d.receipts, q);
      forall r: nat | r < w.routes ensures w.reservation(Route(q, r), rows[..r]).Some? {
        assert RouteDone(w, d, Route(q, r), rows[..r], rows[r]);
      }
    }
  }

  /** The code's own reason: a judge request quotes the text of the reader's reply
      before it, a QA artifact quotes the texts of all replies, and both are
      written as UTF-8. The other quoted fields are tested when a response is
      parsed. */
  ghost predicate Quotes(w: World, encodable: Blob -> bool) {
    && (forall at: Route, before: seq<Blob> :: at.index % 2 == 1 && |before| == at.index ==>
      (w.reservation(at, before).Some? <==> encodable(before[at.index - 1])))
    && (forall q: nat, rows: seq<Blob> :: |rows| == w.routes ==>
      (w.qa(q, rows).Some? <==> forall r :: 0 <= r < |rows| ==> encodable(rows[r])))
  }

  /** Then a run with an answering provider can be written down exactly when
      each reply that it is heading for has a UTF-8 form. */
  lemma WritableIsEncodable(w: World, encodable: Blob -> bool, responses: map<Route, Blob>, provider: Provider)
    requires w.Sound() && Quotes(w, encodable) && Answers(w, provider)
    ensures var destiny := Destiny(w, responses, provider);
      Writable(w, destiny) <==>
        forall at: Route :: Recorded(destiny, at) ==> encodable(destiny[at.question][at.index])
  {
    var destiny := Destiny(w, responses, provider);
    hide Answers, FinalRows, Quotes, WritableAt;
    forall q: nat | q < w.questions
      ensures |ReceiptsOf(destiny, q)| == w.routes
      ensures WritableAt(w, q, ReceiptsOf(destiny, q)) <==>
        forall r :: 0 <= r < w.routes ==> encodable(ReceiptsOf(destiny, q)[r])
    {
      AnsweredThroughout(w, responses, provider, q);
      FullRowsWritable(w, encodable, q, ReceiptsOf(destiny, q));
    }
    if Writable(w, destiny) {
      forall at: Route | Recorded(destiny, at) ensures encodable(destiny[at.question][at.index]) {
        assert WritableAt(w, at.question, ReceiptsOf(destiny, at.question));
      }
    }
    if forall at: Route :: Recorded(destiny, at) ==> encodable(destiny[at.question][at.index]) {
      forall q: nat | q < w.questions ensures WritableAt(w, q, ReceiptsOf(destiny, q)) {
        forall r: nat | r < w.routes ensures encodable(ReceiptsOf(destiny, q)[r]) {
          assert Recorded(destiny, Route(q, r));
        }
      }
    }
  }

  lemma FullRowsWritable(w: World, encodable: Blob -> bool, q: nat, rows: seq<Blob>)
    requires w.Sound() && Quotes(w, encodable) && |rows| == w.routes
    ensures WritableAt(w, q, rows) <==> forall r :: 0 <= r < w.routes ==> encodable(rows[r])
  {
    if forall r :: 0 <= r < w.routes ==> encodable(rows[r]) {
      forall r: nat | r < w.routes ensures w.reservation(Route(q, r), rows[..r]).Some? {
        if r % 2 == 1 {
          assert encodable(rows[..r][r - 1]);
        }
      }
    }
  }

  lemma StillComplete(w: World, d: Disk, d': Disk)
    requires Extends(d, d')
    ensures Complete(w.questions, d.qa) ==> Complete(w.questions, d'.qa)
  {
    assert Grows(d.qa, d'.qa);
    hide Extends;
  }

  // -------------------------------------------------------- what a stuck call is

  lemma StuckSomewhere(w: World, d: Disk, q: nat)
    ensures q < w.questions && Stuck(w, d, q) ==> StuckAnywhere(w, d)
    ensures q < w.questions && Unwritable(w, d, q) ==> UnwritableAnywhere(w, d)
  {
  }

  /** The next call of a question is settled and its reply accepted. */
  ghost predicate CallDone(w: World, d: Disk, q: nat) {
    var rows := ReceiptsOf(d.receipts, q);
    var at := Route(q, |rows|);
    at in d.settlements && at in d.responses && w.accepted(at, rows, d.responses[at])
  }

  /** The disk after the reservation of a question's next call. */
  function Reserved(w: World, d: Disk, q: nat): Disk {
    var rows := ReceiptsOf(d.receipts, q);
    var at := Route(q, |rows|);
    match w.reservation(at, rows)
    case Some(request) => d.(reservations := d.reservations[at := request])
    case None => d
  }

  /** What is said of the next call of a question, in terms of its files. */
  lemma NextCallMeans(w: World, d: Disk, q: nat)
    ensures var rows := ReceiptsOf(d.receipts, q);
      var at := Route(q, |rows|);
      && (Stuck(w, d, q) <==> Unanswered(w, d, q) || Unwritable(w, d, q))
      && (Unanswered(w, d, q) <==>
        |rows| < w.routes && at in d.reservations
        && (at !in d.responses || !w.readable(at, rows, d.responses[at]) || !w.accepted(at, rows, d.responses[at])))
      && (|rows| < w.routes ==>
        && (Unwritable(w, d, q) <==> w.reservation(at, rows).None?)
        && (Clean(w, d, q) <==> at !in d.reservations && at !in d.responses && at !in d.settlements))
      && (|rows| >= w.routes ==> Clean(w, d, q) && (Unwritable(w, d, q) <==> w.qa(q, rows).None?))
      && (at in d.responses ==>
        (Usable(w, at, rows, d.responses[at]) <==>
          w.readable(at, rows, d.responses[at]) && w.accepted(at, rows, d.responses[at])))
      && (CallDone(w, d, q) <==> at in d.settlements && at in d.responses && w.accepted(at, rows, d.responses[at]))
      && (w.reservation(at, rows).Some? ==>
        Reserved(w, d, q) == d.(reservations := d.reservations[at := w.reservation(at, rows).value]))
  {
  }

  lemma SealedHasPair(w: World, d: Disk, q: nat)
    requires Inv(w, d) && d.seal.Some? && q < w.questions
    ensures q in d.evidence.packs && q in d.evidence.prompts
  {
  }

  lemma FullHasKey(w: World, d: Disk, q: nat)
    requires w.Sound() && |ReceiptsOf(d.receipts, q)| == w.routes
    ensures q in d.receipts && d.receipts[q] == ReceiptsOf(d.receipts, q)
  {
  }

  /** After a receipt is written the next route is untouched. */
  lemma ReceiptCleans(w: World, d: Disk, d': Disk, q: nat)
    requires Inv(w, d) && |ReceiptsOf(d.receipts, q)| < w.routes
    requires var rows := ReceiptsOf(d.receipts, q);
      Route(q, |rows|) in d.responses
      && d' == d.(receipts := d.receipts[q := rows + [d.responses[Route(q, |rows|)]]])
    ensures Clean(w, d', q) && |ReceiptsOf(d'.receipts, q)| == |ReceiptsOf(d.receipts, q)| + 1
  {
    NextUntouched(w, d, q);
    hide Inv;
  }

  /** Progress of the QA side alone. */
  ghost predicate QaOnly(d: Disk, d': Disk) {
    && Extends(d, d')
    && d' == d.(reservations := d'.reservations, responses := d'.responses, settlements := d'.settlements,
      receipts := d'.receipts, qa := d'.qa)
  }

  lemma QaOnlyItself(d: Disk)
    ensures QaOnly(d, d)
  {
  }

  lemma QaOnlyTransitive(a: Disk, b: Disk, c: Disk)
    requires QaOnly(a, b) && QaOnly(b, c)
    ensures QaOnly(a, c)
  {
  }

  lemma StepIsQaOnly(d: Disk, d': Disk, q: nat)
    requires QuestionStep(d, d', q)
    ensures QaOnly(d, d')
  {
  }

  lemma QaOnlySeal(d: Disk, d': Disk)
    requires QaOnly(d, d')
    ensures d'.seal == d.seal && d'.completion == d.completion && d'.contextDiagnostic == d.contextDiagnostic
    ensures d'.evidence == d.evidence && Extends(d, d')
  {
  }

  ghost predicate AllClean(w: World, d: Disk, n: nat) {
    forall q: nat :: q < n ==> Clean(w, d, q)
  }

  ghost predicate CleanFrom(w: World, d: Disk, n: nat) {
    forall q: nat :: n <= q < w.questions ==> Clean(w, d, q)
  }

  /** The calls of the questions from n on are as they were. */
  ghost predicate SameCalls(w: World, d0: Disk, d: Disk, n: nat) {
    forall q: nat :: n <= q ==> (Unanswered(w, d0, q) <==> Unanswered(w, d, q))
  }

  lemma NoneReconciled(w: World, d: Disk)
    ensures AllClean(w, d, 0) && SameCalls(w, d, d, 0)
  {
  }

  lemma ReconciledOne(w: World, d0: Disk, d1: Disk, d2: Disk, q: nat, done: bool)
    requires AllClean(w, d1, q) && SameCalls(w, d0, d1, q) && QuestionStep(d1, d2, q) && q < w.questions
    requires done ==> Clean(w, d2, q)
    ensures SameCalls(w, d0, d2, q + 1)
    ensures done ==> AllClean(w, d2, q + 1)
    ensures Unanswered(w, d1, q) ==> StuckAnywhere(w, d0)
  {
    StepExtends(d1, d2, q);
    NextCallMeans(w, d0, q);
    StuckSomewhere(w, d0, q);
    hide Stuck, StuckAnywhere, Unanswered, Unwritable, Clean, OnlyQuestion, Extends, QuestionStep;
    forall p: nat | p != q
      ensures (Unanswered(w, d1, p) <==> Unanswered(w, d2, p)) && (Clean(w, d1, p) <==> Clean(w, d2, p))
    {
      OtherQuestionsUnmoved(w, d1, d2, q, p);
    }
  }

  /** A step of one question that leaves it stuck leaves everything else as
      stuck as it was. */
  lemma StuckStays(w: World, d: Disk, d': Disk, q: nat)
    requires QuestionStep(d, d', q)
    requires Stuck(w, d, q) ==> Stuck(w, d', q)
    ensures StuckAnywhere(w, d) ==> StuckAnywhere(w, d')
  {
    StepExtends(d, d', q);
    hide Unanswered, Unwritable, OnlyQuestion, Extends, QuestionStep;
    if StuckAnywhere(w, d) {
      var p: nat :| p < w.questions && Stuck(w, d, p);
      if p != q {
        OtherQuestionsUnmoved(w, d, d', q, p);
      }
      assert Stuck(w, d', p);
    }
  }

  /** The QA side decides what is stuck. */
  lemma QuietStuck(w: World, d: Disk, d': Disk)
    requires SameQa(d, d')
    ensures StuckAnywhere(w, d) <==> StuckAnywhere(w, d')
    ensures d.receipts == d'.receipts && d.responses == d'.responses
  {
    assert forall q: nat :: Stuck(w, d, q) <==> Stuck(w, d', q);
    hide Stuck;
  }

  lemma AllCleanIsSettled(w: World, d: Disk)
    requires Inv(w, d) && AllClean(w, d, w.questions)
    ensures d.reservations.Keys <= d.settlements.Keys && CleanFrom(w, d, 0)
  {
    hide Inv;
    CleanIsSettled(w, d);
  }

  lemma CleanAt(w: World, d: Disk, q: nat)
    requires CleanFrom(w, d, q) && q < w.questions
    ensures Clean(w, d, q)
  {
  }

  lemma CleanOn(w: World, d: Disk, d': Disk, q: nat)
    requires CleanFrom(w, d, q) && QuestionStep(d, d', q)
    ensures CleanFrom(w, d', q + 1)
    ensures forall p :: p in d.qa ==> p in d'.qa
  {
    StepExtends(d, d', q);
    assert Grows(d.qa, d'.qa);
    hide Clean, OnlyQuestion, Extends, QuestionStep;
    forall p: nat | q < p < w.questions ensures Clean(w, d', p) {
      OtherQuestionsUnmoved(w, d, d', q, p);
    }
  }

  lemma SealedIsReady(w: World, d: Disk)
    requires Inv(w, d) && d.seal.Some? && Complete(w.questions, d.qa)
    ensures Ready(w, d)
  {
  }

  lemma ExtendsKeepsSeal(d: Disk, d': Disk)
    requires Extends(d, d')
    ensures d.seal.Some? ==> d'.seal == d.seal
    ensures d.completion.Some? ==> d'.completion == d.completion
    ensures d.finalDiagnostic.Some? ==> d'.finalDiagnostic == d.finalDiagnostic
  {
  }

  lemma AnsweredIsUnstuck(w: World, d: Disk, q: nat)
    requires w.Sound() && Inv(w, d)
    ensures q in d.qa ==>
      q in d.receipts && w.qa(q, d.receipts[q]) == Some(d.qa[q]) && !Stuck(w, d, q) && Clean(w, d, q)
  {
    AnsweredHasReceipts(w, d, q);
    hide Inv;
  }

  /** A complete question has no route left to be stuck on. */
  lemma CompleteIsUnstuck(w: World, d: Disk)
    requires w.Sound() && Inv(w, d) && Complete(w.questions, d.qa)
    ensures !StuckAnywhere(w, d)
  {
    forall q: nat | q < w.questions ensures !Stuck(w, d, q) {
      AnsweredHasReceipts(w, d, q);
    }
  }

  lemma NoQaIsUnstuck(w: World, d: Disk)
    requires w.Sound()
    ensures !QaState(d) ==> !StuckAnywhere(w, d)
  {
  }

  /** Without QA state at the start, nothing is stuck later either, until a
      call is made. */
  lemma SameStuckness(w: World, d: Disk, d': Disk)
    requires w.Sound() && (d' == d || (!QaState(d) && !QaState(d')))
    ensures StuckAnywhere(w, d) <==> StuckAnywhere(w, d')
  {
  }

  /** What a report needs. */
  ghost predicate Reportable(w: World, d: Disk) {
    d.seal.Some? && (w.g1 ==> d.completion.Some? && UniqueIds(w, d.receipts))
  }

  lemma ReportableMeans(w: World, d: Disk)
    ensures Reportable(w, d) <==> d.seal.Some? && (w.g1 ==> d.completion.Some? && UniqueIds(w, d.receipts))
  {
  }

  // --------------------------------------------------------------- the id audit

  predicate Before(a: Route, q: nat, r: nat) {
    a.question < q || (a.question == q && a.index < r)
  }

  /** The replies before route r of question q repeat no id, and `seen` holds
      their ids and those of the extraction. */
  ghost predicate Audited(w: World, receipts: map<nat, seq<Blob>>, q: nat, r: nat, seen: set<string>) {
    && w.usedIds <= seen
    && (forall a: Route :: Recorded(receipts, a) && Before(a, q, r) ==>
      IdAt(w, receipts, a) in seen && IdAt(w, receipts, a) !in w.usedIds)
    && (forall a: Route, b: Route ::
      Recorded(receipts, a) && Recorded(receipts, b) && Before(a, q, r) && Before(b, q, r) && a != b ==>
      IdAt(w, receipts, a) != IdAt(w, receipts, b))
    && (forall id :: id in seen ==> id in w.usedIds || Bearer(w, receipts, q, r, id))
  }

  ghost predicate Bearer(w: World, receipts: map<nat, seq<Blob>>, q: nat, r: nat, id: string) {
    exists a: Route :: Recorded(receipts, a) && Before(a, q, r) && IdAt(w, receipts, a) == id
  }

  lemma NothingAudited(w: World, receipts: map<nat, seq<Blob>>)
    ensures Audited(w, receipts, 0, 0, w.usedIds)
  {
  }

  lemma AuditOne(w: World, receipts: map<nat, seq<Blob>>, q: nat, r: nat, seen: set<string>)
    requires Audited(w, receipts, q, r, seen) && r < |ReceiptsOf(receipts, q)|
    ensures var id := w.callId(ReceiptsOf(receipts, q)[r]);
      if id in seen then !UniqueIds(w, receipts) else Audited(w, receipts, q, r + 1, seen + {id})
  {
    var at := Route(q, r);
    assert Recorded(receipts, at);
    var id := IdAt(w, receipts, at);
    if id in seen {
      if id !in w.usedIds {
        var a: Route :| Recorded(receipts, a) && Before(a, q, r) && IdAt(w, receipts, a) == id;
        assert a != at;
      }
    } else {
      forall i | i in seen + {id} && i !in w.usedIds ensures Bearer(w, receipts, q, r + 1, i) {
        if i != id {
          var a: Route :| Recorded(receipts, a) && Before(a, q, r) && IdAt(w, receipts, a) == i;
          assert Before(a, q, r + 1);
        } else {
          assert Before(at, q, r + 1);
        }
      }
      forall a: Route | Recorded(receipts, a) && Before(a, q, r + 1) ensures a == at || Before(a, q, r) {
      }
    }
  }

  lemma AuditedRow(w: World, receipts: map<nat, seq<Blob>>, q: nat, seen: set<string>)
    requires Audited(w, receipts, q, |ReceiptsOf(receipts, q)|, seen)
    ensures Audited(w, receipts, q + 1, 0, seen)
  {
    var r := |ReceiptsOf(receipts, q)|;
    forall a: Route | Recorded(receipts, a) ensures Before(a, q, r) <==> Before(a, q + 1, 0) {
    }
    forall id | Bearer(w, receipts, q, r, id) ensures Bearer(w, receipts, q + 1, 0, id) {
      var a: Route :| Recorded(receipts, a) && Before(a, q, r) && IdAt(w, receipts, a) == id;
      assert Before(a, q + 1, 0);
    }
  }

  lemma AuditedAll(w: World, receipts: map<nat, seq<Blob>>, seen: set<string>)
    requires Audited(w, receipts, w.questions, 0, seen) && forall q :: q in receipts ==> q < w.questions
    ensures UniqueIds(w, receipts)
  {
    forall a: Route | Recorded(receipts, a) ensures Before(a, w.questions, 0) {
    }
  }

  lemma ReceiptsBound(w: World, d: Disk)
    requires w.Sound() && Inv(w, d)
    ensures forall q :: q in d.receipts ==> q < w.questions
  {
    hide Inv;
    forall q | q in d.receipts ensures q < w.questions {
      AnsweredHasReceipts(w, d, q);
    }
  }

  lemma CannotReport(w: World, d: Disk)
    requires w.Sound() && Inv(w, d)
    requires var count := QaCount(d.qa, w.questions);
      (count != 0 && count != w.questions) || (w.g1 && count != w.questions) || (!w.g1 && QaState(d))
    ensures !Reportable(w, d)
  {
    RunArtifacts(w, d);
    QaCountMeans(d.qa, w.questions);
    hide Inv;
  }

  lemma ReportableIsReady(w: World, d: Disk)
    requires w.Sound() && Inv(w, d) && d.seal.Some?
    requires if w.g1 then QaCount(d.qa, w.questions) == w.questions else !QaState(d)
    ensures Ready(w, d)
    ensures QaCount(d.qa, w.questions) != 0 <==> w.g1
    ensures w.g1 <==> Complete(w.questions, d.qa)
  {
    QaCountMeans(d.qa, w.questions);
    EvidenceAt(w, d, 0);
    hide Inv;
  }

  lemma UnresolvedBlocks(w: World, d: Disk)
    requires w.Sound() && Inv(w, d) && (Complete(w.questions, d.qa) || !QaState(d))
    ensures d.reservations.Keys <= d.settlements.Keys
  {
    if Complete(w.questions, d.qa) {
      forall q: nat | q < w.questions ensures Clean(w, d, q) {
        AnsweredHasReceipts(w, d, q);
      }
      hide Inv;
      CleanIsSettled(w, d);
    }
  }

  /** The one report that a finished disk admits. */
  lemma ReportIsDue(w: World, d: Disk, seal: Seal, diagnostic: Diagnostic, withQa: bool)
    requires Inv(w, d) && d.seal == Some(seal) && seal.g1 == w.g1 && withQa == w.g1
    requires if w.g1 then
        && d.completion.Some? && Complete(w.questions, d.qa)
        && d.finalDiagnostic == Some(diagnostic) && diagnostic.g2 == Some(w.g2(d.receipts)) && UniqueIds(w, d.receipts)
      else !QaState(d) && d.contextDiagnostic == Some(diagnostic)
    ensures w.g1 ==> diagnostic.g2.Some?
    ensures var verdict := if !w.g1 then RejectAtContext else if diagnostic.g2.value then Confirm else RejectAtQa;
      var report := Report(verdict, seal, diagnostic, withQa);
      ReportInv(w, d, report) && (d.report.Some? ==> d.report.value == report)
  {
    RunArtifacts(w, d);
    hide Inv, Complete, QaState;
  }

  lemma SameQaItself(d: Disk)
    ensures SameQa(d, d)
  {
  }

  lemma SameQaWithReport(d: Disk, r: Report)
    ensures SameQa(d, d.(report := Some(r)))
  {
  }

  lemma DiagnosticOf(w: World, d: Disk, diagnostic: Option<Diagnostic>)
    requires Inv(w, d) && diagnostic.Some? && d.finalDiagnostic == diagnostic
    ensures diagnostic.value.g2 == Some(w.g2(d.receipts))
  {
  }

  /** Before any QA trace, only the pairs count. */
  lemma ReadyMeans(w: World, d: Disk)
    ensures var packed := Complete(w.questions, d.evidence.packs) && Complete(w.questions, d.evidence.prompts);
      && (packed <==> forall q: nat :: q < w.questions ==> Packed(d, q))
      && (!QaState(d) ==> (Ready(w, d) <==> packed))
  {
    if forall q: nat :: q < w.questions ==> Packed(d, q) {
      forall q: nat | q < w.questions ensures q in d.evidence.packs && q in d.evidence.prompts {
        assert Packed(d, q);
      }
    }
  }

  lemma QuietKeepsReady(w: World, d: Disk, d': Disk)
    requires QuietStep(d, d') && Ready(w, d)
    ensures Ready(w, d')
  {
  }

  // ------------------------------------------------------------ what it all means

  /** Where recovery ends: a process that dies between the reservation of a call
      and the first bytes of its response leaves a disk that keeps the invariant
      and that no later run brings to a report. */
  lemma LostCallIsStuck(w: World, d: Disk, q: nat)
    requires Inv(w, d) && q < w.questions && d.seal.Some? && w.g1
    requires |ReceiptsOf(d.receipts, q)| < w.routes && Clean(w, d, q) && !Unwritable(w, d, q)
    ensures Inv(w, Reserved(w, d, q)) && Extends(d, Reserved(w, d, q)) && StuckAnywhere(w, Reserved(w, d, q))
  {
    PutReservation(w, d, q);
    hide Inv, Extends;
    assert Unanswered(w, Reserved(w, d, q), q);
    StuckSomewhere(w, Reserved(w, d, q), q);
  }

  lemma {:induction false} FirstReply(provider: Provider, n: nat)
    requires n > 0
    ensures var rows, answer := FinalRows(map[], provider, 0, n), provider(Route(0, 0), []);
      if answer.Answered? then rows != [] && rows[0] == answer.reply else rows == []
  {
    if n > 1 {
      FirstReply(provider, n - 1);
    } else {
      assert FinalRows(map[], provider, 0, 0) == [];
    }
  }

  /** A run from the empty disk gets past the first call only with a usable
      reply to it. */
  lemma FirstReplyIsUsable(w: World, provider: Provider, d: Disk)
    requires w.Sound() && Inv(w, d) && SameDestiny(w, provider, EMPTY, d)
    ensures Complete(w.questions, d.qa) ==>
      var answer := provider(Route(0, 0), []);
      answer.Answered? && Usable(w, Route(0, 0), [], answer.reply)
  {
    if Complete(w.questions, d.qa) {
      CompleteIsDestined(w, provider, d);
      CompleteMeans(w.questions, d.qa);
      AnsweredRoutesDone(w, d, 0);
      FirstReply(provider, w.routes);
      hide Inv, FinalRows, Complete, RouteUntouched;
      var rows := ReceiptsOf(d.receipts, 0);
      assert RouteDone(w, d, Route(0, 0), rows[..0], rows[0]);
      assert rows[..0] == [];
    }
  }

  /** From nothing, a run whose first call goes unanswered, or gets a reply that
      fails one of its two tests, ends on a disk that no run recovers. */
  method FirstCallFails(w: World, provider: Provider) returns (space: Workspace)
    requires w.Sound() && w.g1 && Contacts(provider)
    requires var answer := provider(Route(0, 0), []);
      answer.Answered? ==> !Usable(w, Route(0, 0), [], answer.reply)
    ensures fresh(space) && space.w == w && space.Valid() && StuckAnywhere(w, space.disk)
  {
    hide *;
    space := new Workspace(w);
    var o := space.RunAll(provider);
    space.Reveal();
    FirstReplyIsUsable(w, provider, space.disk);
    if space.disk.report.Some? {
      ReportMeans(w, space.disk);
    }
  }

  /** From nothing, a process that dies right after the reservation of its first
      call, whatever the answer would have been. */
  method FirstCallLost(w: World, answer: Answer) returns (space: Workspace)
    requires w.Sound() && w.g1 && !answer.Refused?
    ensures fresh(space) && space.w == w && space.Valid() && StuckAnywhere(w, space.disk)
  {
    hide *;
    space := new Workspace(w);
    EmptyIsQuiet();
    var o := space.Prepare();
    space.Reveal();
    QuietKeepsQa(EMPTY, space.disk);
    NothingAsked(w, space.disk);
    LostCallIsStuck(w, space.disk, 0);
    space.Restart(Writes(1));
    o := space.Issue(0, answer);
  }

  lemma EmptyIsQuiet()
    ensures !QaState(EMPTY) && EMPTY.responses == map[]
  {
  }

  lemma NothingAsked(w: World, d: Disk)
    requires w.Sound() && !QaState(d)
    ensures 0 < w.questions && |ReceiptsOf(d.receipts, 0)| < w.routes && Clean(w, d, 0) && !Unwritable(w, d, 0)
  {
  }

  /** From nothing, a provider that answers every call, with replies from which
      some request or QA artifact cannot be written: the run ends on a stuck
      disk, and no later sequence of runs, whatever their providers do, writes
      the report. */
  method UnwritableReplyBlocks(w: World, provider: Provider, later: seq<(Command, Life, Provider)>)
    returns (space: Workspace)
    requires w.Sound() && w.g1 && Answers(w, provider) && !Writable(w, Destiny(w, map[], provider))
    ensures fresh(space) && space.w == w && space.Valid()
    ensures StuckAnywhere(w, space.disk) && space.disk.report.None?
  {
    hide *;
    space := new Workspace(w);
    EmptyIsQuiet();
    ProviderMeans(w, provider, Route(0, 0), []);
    var o := space.RunAll(provider);
    space.Reveal();
    UnwritableIsIncomplete(w, space.disk, provider);
    var outcomes := space.Schedule(later);
    space.Reveal();
    if space.disk.report.Some? {
      ReportMeans(w, space.disk);
    }
  }

  /** From nothing, a provider that answers every call but repeats a request id:
      no later sequence of runs, whatever their providers do, writes the report.
      When all replies can be quoted, all of them are sealed nevertheless. */
  method RepeatedIdBlocks(w: World, provider: Provider, later: seq<(Command, Life, Provider)>)
    returns (space: Workspace)
    requires w.Sound() && w.g1 && Answers(w, provider) && !UniqueIds(w, Destiny(w, map[], provider))
    ensures fresh(space) && space.w == w && space.Valid()
    ensures space.disk.report.None?
    ensures Writable(w, Destiny(w, map[], provider)) ==> Complete(w.questions, space.disk.qa)
  {
    hide *;
    space := new Workspace(w);
    EmptyIsQuiet();
    NoQaIsUnstuck(w, EMPTY);
    ProviderMeans(w, provider, Route(0, 0), []);
    var o := space.RunAll(provider);
    space.Reveal();
    ghost var d := space.disk;
    UnwritableIsIncomplete(w, d, provider);
    var outcomes := space.Schedule(later);
    space.Reveal();
    StillComplete(w, d, space.disk);
    ReceiptsStay(w, d, space.disk);
    if space.disk.report.Some? {
      ReportMeans(w, space.disk);
    }
  }

  lemma UnwritableIsIncomplete(w: World, d: Disk, provider: Provider)
    requires w.Sound() && Inv(w, d) && SameDestiny(w, provider, EMPTY, d)
    ensures !Writable(w, Destiny(w, map[], provider)) ==> !Complete(w.questions, d.qa)
  {
    hide *;
    EmptyIsQuiet();
    DestinyMeans(w, provider, EMPTY, d);
    if Complete(w.questions, d.qa) {
      CompleteIsDestined(w, provider, d);
      CompleteIsWritable(w, d);
    }
  }

  lemma ReceiptsStay(w: World, d: Disk, d': Disk)
    requires w.Sound() && Inv(w, d) && Inv(w, d') && Extends(d, d')
    ensures Complete(w.questions, d.qa) ==> d.receipts == d'.receipts
  {
    if !Complete(w.questions, d.qa) {
      return;
    }
    hide Inv;
    StillComplete(w, d, d');
    forall q | q in d.receipts || q in d'.receipts
      ensures q in d.receipts && q in d'.receipts && d.receipts[q] == d'.receipts[q]
    {
      AnsweredHasReceipts(w, d, q);
      AnsweredHasReceipts(w, d', q);
      CompleteMeans(w.questions, d.qa);
      CompleteMeans(w.questions, d'.qa);
    }
  }

  /** The report for these receipts, spelled out: the verdict of the two gates,
      the sealed context diagnostic over the evidence, and the diagnostic that
      the verdict comes from. */
  ghost predicate Reports(w: World, evidence: Evidence, receipts: map<nat, seq<Blob>>, r: Report) {
    if w.g1 then
      && r.verdict == (if w.g2(receipts) then Confirm else RejectAtQa)
      && r.seal == Seal(true, true, Diagnostic(true, None, w.body(map[])), evidence)
      && r.diagnostic == Diagnostic(true, Some(w.g2(receipts)), w.body(receipts)) && r.withQa
    else
      && r.verdict == RejectAtContext
      && r.seal == Seal(true, false, Diagnostic(false, None, w.body(map[])), evidence)
      && r.diagnostic == Diagnostic(false, None, w.body(map[])) && !r.withQa
  }

  lemma ReportIsSpelledOut(w: World, provider: Provider, d: Disk)
    requires w.Sound() && Inv(w, d) && d.report.Some?
    ensures Reports(w, d.evidence, d.receipts, d.report.value)
    ensures Reports(w, d.evidence, Destiny(w, d.responses, provider), d.report.value)
  {
    RunArtifacts(w, d);
    if w.g1 {
      CompleteIsDestined(w, provider, d);
    }
    hide Inv, Destiny, Complete, UniqueIds, QaState;
  }

  /** With the report written nothing is left to do. */
  lemma ReportMeans(w: World, d: Disk)
    requires w.Sound() && Inv(w, d) && d.report.Some?
    ensures !StuckAnywhere(w, d)
    ensures w.g1 ==> Complete(w.questions, d.qa) && UniqueIds(w, d.receipts)
  {
    RunArtifacts(w, d);
    NoQaIsUnstuck(w, d);
    if w.g1 {
      CompleteIsUnstuck(w, d);
    }
    hide Inv, StuckAnywhere, QaState;
  }

  /** Every route of the question was reserved, answered, settled and accepted. */
  ghost predicate RoutesDone(w: World, d: Disk, q: nat) {
    var rows := ReceiptsOf(d.receipts, q);
    |rows| == w.routes
    && forall r: nat {:trigger Route(q, r)} :: r < w.routes ==> RouteDone(w, d, Route(q, r), rows[..r], rows[r])
  }

  lemma AnsweredRoutesDone(w: World, d: Disk, q: nat)
    requires w.Sound() && Inv(w, d) && q in d.qa
    ensures RoutesDone(w, d, q)
  {
    hide Inv, RouteDone;
    AnsweredHasReceipts(w, d, q);
    forall r: nat | r < w.routes
      ensures RouteDone(w, d, Route(q, r), ReceiptsOf(d.receipts, q)[..r], ReceiptsOf(d.receipts, q)[r])
    {
      RouteFacts(w, d, q, r);
    }
  }

  /** Everything that a report rests on is there for the question, and is what it
      is replayed from. */
  ghost predicate Evidenced(w: World, d: Disk, q: nat) {
    var e := d.evidence;
    && q in e.selections && e.selections[q] == w.selection(q)
    && q in e.packs && e.packs[q] == w.pack(q)
    && q in e.prompts && e.prompts[q] == w.prompt(q)
    && q in e.cases && e.cases[q] == w.contextCase(q)
    && (w.g1 ==>
      && q in d.receipts && q in d.qa && w.qa(q, d.receipts[q]) == Some(d.qa[q])
      && q in d.finalCases && d.finalCases[q] == w.finalCase(q, d.receipts[q]))
  }

  lemma EvidencedAt(w: World, d: Disk, q: nat)
    requires w.Sound() && Inv(w, d) && d.report.Some? && q < w.questions
    ensures Evidenced(w, d, q)
  {
    RunArtifacts(w, d);
    EvidenceAt(w, d, q);
    AnsweredHasReceipts(w, d, q);
    FinalCasesDone(w, d);
    hide Inv;
  }

  lemma FinalCasesDone(w: World, d: Disk)
    requires Inv(w, d) && d.report.Some?
    ensures w.g1 ==> Complete(w.questions, d.finalCases)
  {
  }

  lemma CallsNeedQaState(w: World, disk: Disk, calls: seq<Call>)
    requires Workspace.CallsInv(w, disk, calls)
    ensures calls != [] ==> QaState(disk)
  {
    if calls != [] {
      assert calls[0] in calls;
      assert calls[0].at in disk.reservations;
    }
  }

  /** A report is terminal: G1 failed and no call was ever made, or G1 passed
      and every route of every question was reserved, answered, settled and
      accepted, each by at most one call, and no two replies share a provider
      request id. */
  lemma ReportIsTerminal(w: World, disk: Disk, calls: seq<Call>)
    requires w.Sound() && Inv(w, disk) && Workspace.CallsInv(w, disk, calls) && disk.report.Some?
    ensures disk.seal == Some(disk.report.value.seal) && disk.seal.value.g0
    ensures disk.report.value.verdict.RejectAtContext? ==>
      !disk.seal.value.g1 && calls == [] && !QaState(disk)
    ensures !disk.report.value.verdict.RejectAtContext? ==>
      disk.seal.value.g1 && disk.completion.Some? && disk.report.value.withQa
    ensures !disk.report.value.verdict.RejectAtContext? ==>
      forall q: nat :: q < w.questions ==> RoutesDone(w, disk, q)
    ensures !disk.report.value.verdict.RejectAtContext? ==> UniqueIds(w, disk.receipts)
    ensures Reports(w, disk.evidence, disk.receipts, disk.report.value)
    ensures forall q: nat :: q < w.questions ==> Evidenced(w, disk, q)
    ensures !StuckAnywhere(w, disk)
  {
    RunArtifacts(w, disk);
    ReportMeans(w, disk);
    ReportIsSpelledOut(w, (at, before) => Silent, disk);
    forall q: nat | q < w.questions ensures Evidenced(w, disk, q) {
      EvidencedAt(w, disk, q);
    }
    if w.g1 {
      forall q: nat | q < w.questions
        ensures RoutesDone(w, disk, q)
      {
        CompleteMeans(w.questions, disk.qa);
        AnsweredRoutesDone(w, disk, q);
      }
    } else {
      CallsNeedQaState(w, disk, calls);
    }
    hide Inv, RoutesDone, StuckAnywhere, QaState;
  }
}
