/** The resumable append-only trace of the reranker A/B run, and its manifest.
    A process may be killed between any two durable writes and restarted any
    number of times, with other engine answers and another identity. */
module ResumeTrace {
  import opened Splitting
  import opened Wrappers

  type Bytes = seq<bv8>

  const LF: bv8 := 10
  const CR: bv8 := 13

  /** A parsed JSON object; what is in it does not matter here. */
  datatype Json = Json(text: string)

  /** The scorer a run is pinned to, with the policy that belongs to it. */
  datatype Pin = Pin(identity: string, policy: string)

  /** One learned-rerank trace as the engine returns it. */
  datatype Learned = Learned(pin: Pin, requestId: Option<string>, providerId: Option<string>, body: string)

  /** The pinned inputs: how many questions there are, JSON reading and
      writing, the trace inside a row, the row built from a trace, and the row
      check of the offline compiler. */
  datatype World = World(
    rows: nat,
    parse: Bytes -> Option<Json>,
    canonical: Json -> Bytes,
    learned: Json -> Option<Learned>,
    build: (nat, Learned) -> Option<Json>,
    replays: (nat, Json) -> bool)
  {
    /** Canonical JSON is one line that reads back as what was written, and a
        row holds the trace it was built from. */
    ghost predicate Sound() {
      && (forall j: Json :: parse(canonical(j)) == Some(j))
      && (forall j: Json :: LF !in canonical(j) && CR !in canonical(j))
      && (forall i: nat, t: Learned :: build(i, t).Some? ==> learned(build(i, t).value) == Some(t))
    }
  }

  // -------------------------------------------------------------------- JSON lines

  function Texts(w: World, rows: seq<Json>): (lines: seq<Bytes>) {
    seq(|rows|, i requires 0 <= i < |rows| => w.canonical(rows[i]))
  }

  /** The file for a list of rows. */
  function Encode(w: World, rows: seq<Json>): Bytes {
    Terminated(Texts(w, rows), LF)
  }

  /** One more row is one more line at the end of the file. */
  lemma EncodeAppend(w: World, rows: seq<Json>, row: Json)
    ensures Encode(w, rows + [row]) == Encode(w, rows) + (w.canonical(row) + [LF])
  {
    assert Texts(w, rows + [row]) == Texts(w, rows) + [w.canonical(row)];
    TerminatedAppend(Texts(w, rows), w.canonical(row), LF);
  }

  // ------------------------------------------------------------------------- rows

  function RequestId(w: World, row: Json): Option<string> {
    var t := w.learned(row);
    if t.None? then None else t.value.requestId
  }

  function ProviderId(w: World, row: Json): Option<string> {
    var t := w.learned(row);
    if t.None? then None else t.value.providerId
  }

  /** Both ids are there and differ. */
  predicate Receipted(w: World, row: Json) {
    RequestId(w, row).Some? && ProviderId(w, row).Some? && RequestId(w, row) != ProviderId(w, row)
  }

  /** The row at a position is the one that its own trace gives there. */
  predicate BuiltAt(w: World, i: nat, row: Json) {
    i < w.rows && w.learned(row).Some? && w.build(i, w.learned(row).value) == Some(row)
  }

  predicate PinnedTo(w: World, pin: Pin, row: Json) {
    w.learned(row).Some? && w.learned(row).value.pin == pin
  }

  predicate RowOk(w: World, pin: Pin, i: nat, row: Json) {
    PinnedTo(w, pin, row) && BuiltAt(w, i, row) && Receipted(w, row)
  }

  ghost predicate DistinctIds(w: World, rows: seq<Json>) {
    forall i, j :: 0 <= i < j < |rows| ==>
      RequestId(w, rows[i]) != RequestId(w, rows[j]) && ProviderId(w, rows[i]) != ProviderId(w, rows[j])
  }

  predicate Replayed(w: World, rows: seq<Json>) {
    forall i: nat :: i < |rows| ==> w.replays(i, rows[i])
  }

  /** What every process leaves behind. */
  ghost predicate WellBuilt(w: World, rows: seq<Json>) {
    && |rows| <= w.rows
    && (forall i: nat :: i < |rows| ==> BuiltAt(w, i, rows[i]) && Receipted(w, rows[i]))
    && DistinctIds(w, rows)
  }

  /** What a later process pinned to `pin` will take up again. */
  ghost predicate Reloadable(w: World, pin: Pin, rows: seq<Json>) {
    && WellBuilt(w, rows)
    && (forall i: nat :: i < |rows| ==> PinnedTo(w, pin, rows[i]))
    && Replayed(w, rows)
  }

  /** The file of a reloadable list has the required shape, and its lines read
      back as the rows. */
  lemma EncodedReadsBack(w: World, rows: seq<Json>)
    requires w.Sound() && rows != []
    ensures var raw := Encode(w, rows);
      raw != [] && raw[|raw| - 1] == LF && CR !in raw && Split(raw[..|raw| - 1], LF) == Texts(w, rows)
    ensures forall i :: 0 <= i < |rows| ==> w.parse(Texts(w, rows)[i]) == Some(rows[i])
  {
    SplitTerminated(Texts(w, rows), LF);
    TerminatedKeepsOut(Texts(w, rows), LF, CR);
  }

  /** Two lists of rows with the same file are the same list. */
  lemma EncodeIsInjective(w: World, a: seq<Json>, b: seq<Json>)
    requires w.Sound() && Encode(w, a) == Encode(w, b)
    ensures a == b
  {
    if a != [] && b != [] {
      EncodedReadsBack(w, a);
      EncodedReadsBack(w, b);
      assert |a| == |Texts(w, a)| == |b|;
      assert forall i :: 0 <= i < |a| ==> Some(a[i]) == Some(b[i]);
    } else if a != [] {
      EncodedReadsBack(w, a);
    } else if b != [] {
      EncodedReadsBack(w, b);
    }
  }

  // ------------------------------------------------------------- loading a prefix

  datatype Refusal = Unterminated | CarriageReturn | ExceedsCoverage | NotStrict | NotCanonical
                   | NoTrace | OtherPin | NotRebuilt | NoReceipt | ReusedRequest | ReusedProvider | NotReplayed

  datatype Prefix = Prefix(raw: Bytes, rows: seq<Json>, requestIds: set<Option<string>>,
                           providerIds: set<Option<string>>)

  ghost function RequestIds(w: World, rows: seq<Json>): set<Option<string>> {
    set i | 0 <= i < |rows| :: RequestId(w, rows[i])
  }

  ghost function ProviderIds(w: World, rows: seq<Json>): set<Option<string>> {
    set i | 0 <= i < |rows| :: ProviderId(w, rows[i])
  }

  lemma IdsGrow(w: World, rows: seq<Json>, row: Json)
    ensures RequestIds(w, rows + [row]) == RequestIds(w, rows) + {RequestId(w, row)}
    ensures ProviderIds(w, rows + [row]) == ProviderIds(w, rows) + {ProviderId(w, row)}
    ensures DistinctIds(w, rows + [row]) <==>
      DistinctIds(w, rows) && RequestId(w, row) !in RequestIds(w, rows) && ProviderId(w, row) !in ProviderIds(w, rows)
  {
    var all := rows + [row];
    assert forall i :: 0 <= i < |rows| ==> all[i] == rows[i];
    assert all[|rows|] == row;
    if DistinctIds(w, all) {
      assert forall i :: 0 <= i < |rows| ==>
        RequestId(w, all[i]) != RequestId(w, all[|rows|]) && ProviderId(w, all[i]) != ProviderId(w, all[|rows|]);
    }
  }

  /** No process pinned to `pin` can have left these bytes in a state it would
      take up again. */
  ghost predicate NotAReloadableFile(w: World, pin: Pin, raw: Bytes) {
    forall rows :: rows != [] && Reloadable(w, pin, rows) ==> raw != Encode(w, rows)
  }

  /** The first `k` lines are the canonical texts of these rows. */
  ghost predicate ReadSoFar(w: World, lines: seq<Bytes>, rows: seq<Json>) {
    |rows| <= |lines| && forall i :: 0 <= i < |rows| ==> lines[i] == w.canonical(rows[i])
  }

  lemma ReadRowsAreTheRows(w: World, pin: Pin, raw: Bytes, rows: seq<Json>, all: seq<Json>)
    requires w.Sound() && all != [] && raw == Encode(w, all)
    ensures raw != [] && raw[|raw| - 1] == LF && CR !in raw
    ensures var lines := Split(raw[..|raw| - 1], LF);
      |lines| == |all|
      && (forall i :: 0 <= i < |all| ==> w.parse(lines[i]) == Some(all[i]) && lines[i] == w.canonical(all[i]))
      && (ReadSoFar(w, lines, rows) ==> rows <= all)
  {
    EncodedReadsBack(w, all);
    var lines := Split(raw[..|raw| - 1], LF);
    if ReadSoFar(w, lines, rows) {
      forall i | 0 <= i < |rows| ensures rows[i] == all[i] {
        assert w.parse(w.canonical(rows[i])) == Some(rows[i]);
      }
    }
  }

  /** A line that is not the canonical text of an acceptable row refuses the file. */
  lemma BadLineRefuses(w: World, pin: Pin, raw: Bytes, k: nat)
    requires w.Sound() && raw != [] && k < |Split(raw[..|raw| - 1], LF)|
    requires var line := Split(raw[..|raw| - 1], LF)[k];
      w.parse(line).None? || w.canonical(w.parse(line).value) != line || !RowOk(w, pin, k, w.parse(line).value)
    ensures NotAReloadableFile(w, pin, raw)
  {
    forall rows | rows != [] && Reloadable(w, pin, rows) ensures raw != Encode(w, rows) {
      if raw == Encode(w, rows) {
        ReadRowsAreTheRows(w, pin, raw, [], rows);
        assert RowOk(w, pin, k, rows[k]);
      }
    }
  }

  /** Rows that repeat an id, or that the compiler refuses, refuse the file. */
  lemma BadRowsRefuse(w: World, pin: Pin, raw: Bytes, rows: seq<Json>)
    requires w.Sound() && raw != [] && ReadSoFar(w, Split(raw[..|raw| - 1], LF), rows)
    requires !DistinctIds(w, rows) || !Replayed(w, rows)
    ensures NotAReloadableFile(w, pin, raw)
  {
    forall all | all != [] && Reloadable(w, pin, all) ensures raw != Encode(w, all) {
      if raw == Encode(w, all) {
        ReadRowsAreTheRows(w, pin, raw, rows, all);
      }
    }
  }

  lemma BadShapeRefuses(w: World, pin: Pin, raw: Bytes)
    requires w.Sound() && (raw == [] || raw[|raw| - 1] != LF || CR in raw)
    ensures NotAReloadableFile(w, pin, raw)
  {
    forall rows | rows != [] && Reloadable(w, pin, rows) ensures raw != Encode(w, rows) {
      EncodedReadsBack(w, rows);
    }
  }

  /** All lines read: the file is the encoding of the rows. */
  lemma ReadAll(w: World, raw: Bytes, rows: seq<Json>)
    requires raw != [] && raw[|raw| - 1] == LF
    requires var lines := Split(raw[..|raw| - 1], LF); ReadSoFar(w, lines, rows) && |rows| == |lines|
    ensures raw == Encode(w, rows) && rows != []
  {
    var lines := Split(raw[..|raw| - 1], LF);
    assert lines == Texts(w, rows);
    TerminatedSplit(raw[..|raw| - 1], LF);
    assert raw == raw[..|raw| - 1] + [LF];
  }

  /** The live loop writes a row without asking for its identity or replaying
      it, the loader asks for both: such a row is durable and blocks every
      later start with this identity. */
  lemma WrittenButNotTakenUp(w: World, pin: Pin, row: Json)
    requires w.Sound() && BuiltAt(w, 0, row) && Receipted(w, row)
    requires !PinnedTo(w, pin, row) || !w.replays(0, row)
    ensures WellBuilt(w, [row]) && NotAReloadableFile(w, pin, Encode(w, [row]))
  {
    forall rows | rows != [] && Reloadable(w, pin, rows) ensures Encode(w, [row]) != Encode(w, rows) {
      if Encode(w, [row]) == Encode(w, rows) {
        EncodeIsInjective(w, [row], rows);
      }
    }
  }

  /** One line of the checkpoint, in the order of the source's tests. */
  method CheckLine(w: World, pin: Pin, k: nat, line: Bytes) returns (r: Result<Json, Refusal>)
    ensures r.Success? <==> w.parse(line).Some? && w.canonical(w.parse(line).value) == line
                            && RowOk(w, pin, k, w.parse(line).value)
    ensures r.Success? ==> r.value == w.parse(line).value
    ensures k >= w.rows ==> r == Failure(ExceedsCoverage)
    ensures k < w.rows && w.parse(line).None? ==> r == Failure(NotStrict)
    ensures k < w.rows && w.parse(line).Some? && w.canonical(w.parse(line).value) != line ==> r == Failure(NotCanonical)
  {
    if k >= w.rows {
      return Failure(ExceedsCoverage);
    }
    var parsed := w.parse(line);
    if parsed.None? {
      return Failure(NotStrict);
    }
    var row := parsed.value;
    if w.canonical(row) != line {
      return Failure(NotCanonical);
    }
    var trace := w.learned(row);
    if trace.None? {
      return Failure(NoTrace);
    }
    if trace.value.pin != pin {
      return Failure(OtherPin);
    }
    if w.build(k, trace.value) != Some(row) {
      return Failure(NotRebuilt);
    }
    var request, provider := trace.value.requestId, trace.value.providerId;
    if request.None? || provider.None? || request.value == provider.value {
      return Failure(NoReceipt);
    }
    return Success(row);
  }

  /** The offline compiler's check of every row. */
  method ReplayAll(w: World, rows: seq<Json>) returns (ok: bool)
    ensures ok <==> Replayed(w, rows)
  {
    for i := 0 to |rows|
      invariant forall j: nat :: j < i ==> w.replays(j, rows[j])
    {
      if !w.replays(i, rows[i]) {
        return false;
      }
    }
    ok := true;
  }

  /** The closing check that every row has the identity of this start. */
  method SameIdentity(w: World, pin: Pin, rows: seq<Json>) returns (ok: bool)
    ensures ok <==> forall i: nat :: i < |rows| ==> PinnedTo(w, pin, rows[i])
  {
    for i := 0 to |rows|
      invariant forall j: nat :: j < i ==> PinnedTo(w, pin, rows[j])
    {
      var trace := w.learned(rows[i]);
      if trace.None? || trace.value.pin != pin {
        return false;
      }
    }
    ok := true;
  }

  /** Accepts an absent file as the empty prefix, and otherwise exactly the files
      that encode a non-empty reloadable list of rows; then it returns that
      list, with its id sets. */
  method LoadResumePrefix(w: World, pin: Pin, file: Option<Bytes>) returns (r: Result<Prefix, Refusal>)
    requires w.Sound()
    ensures file.None? ==> r == Success(Prefix([], [], {}, {}))
    ensures r.Success? ==> Reloadable(w, pin, r.value.rows) && r.value.raw == Encode(w, r.value.rows)
    ensures r.Success? && file.Some? ==> r.value.rows != [] && r.value.raw == file.value
    ensures r.Success? ==> r.value.requestIds == RequestIds(w, r.value.rows)
    ensures r.Success? ==> r.value.providerIds == ProviderIds(w, r.value.rows)
    ensures r.Failure? ==> file.Some? && NotAReloadableFile(w, pin, file.value)
    ensures file.Some? && (file.value == [] || file.value[|file.value| - 1] != LF) ==> r == Failure(Unterminated)
  {
    hide *;
    NothingRead(w, pin);
    if file.None? {
      return Success(Prefix([], [], {}, {}));
    }
    var raw := file.value;
    if raw == [] || raw[|raw| - 1] != LF {
      BadShapeRefuses(w, pin, raw);
      return Failure(Unterminated);
    }
    if CR in raw {
      BadShapeRefuses(w, pin, raw);
      return Failure(CarriageReturn);
    }
    var lines := Split(raw[..|raw| - 1], LF);
    var rows, requestIds, providerIds := [], {}, {};
    var index := 0;
    while index < |lines|
      invariant 0 <= index == |rows| <= |lines|
      invariant ReadSoFar(w, lines, rows) && DistinctIds(w, rows)
      invariant forall i: nat :: i < index ==> RowOk(w, pin, i, rows[i])
      invariant requestIds == RequestIds(w, rows) && providerIds == ProviderIds(w, rows)
    {
      var checked := CheckLine(w, pin, index, lines[index]);
      if checked.Failure? {
        BadLineRefuses(w, pin, raw, index);
        return Failure(checked.error);
      }
      var row := checked.value;
      IdsGrow(w, rows, row);
      ReadOneMore(w, lines, rows, row);
      if RequestId(w, row) in requestIds {
        BadRowsRefuse(w, pin, raw, rows + [row]);
        return Failure(ReusedRequest);
      }
      if ProviderId(w, row) in providerIds {
        BadRowsRefuse(w, pin, raw, rows + [row]);
        return Failure(ReusedProvider);
      }
      requestIds, providerIds := requestIds + {RequestId(w, row)}, providerIds + {ProviderId(w, row)};
      rows := rows + [row];
      index := index + 1;
    }
    var replayed := ReplayAll(w, rows);
    if !replayed {
      BadRowsRefuse(w, pin, raw, rows);
      return Failure(NotReplayed);
    }
    ReadAll(w, raw, rows);
    ReadIsReloadable(w, pin, rows);
    return Success(Prefix(raw, rows, requestIds, providerIds));
  }

  lemma NothingRead(w: World, pin: Pin)
    ensures Reloadable(w, pin, []) && Encode(w, []) == []
    ensures RequestIds(w, []) == {} && ProviderIds(w, []) == {} && DistinctIds(w, [])
    ensures forall lines :: ReadSoFar(w, lines, [])
  {
  }

  lemma ReadOneMore(w: World, lines: seq<Bytes>, rows: seq<Json>, row: Json)
    requires ReadSoFar(w, lines, rows) && |rows| < |lines| && lines[|rows|] == w.canonical(row)
    ensures ReadSoFar(w, lines, rows + [row])
  {
  }

  lemma ReadIsReloadable(w: World, pin: Pin, rows: seq<Json>)
    requires rows != [] && (forall i: nat :: i < |rows| ==> RowOk(w, pin, i, rows[i]))
    requires DistinctIds(w, rows) && Replayed(w, rows)
    ensures Reloadable(w, pin, rows)
  {
    hide DistinctIds, Replayed;
    assert RowOk(w, pin, |rows| - 1, rows[|rows| - 1]);
  }

  // ---------------------------------------------------------------- the processes

  /** The published manifest; it binds the trace file that it was built from. */
  datatype Manifest = Manifest(pin: Pin, rows: seq<Json>, traceFile: Bytes, created: string)

  datatype Disk = Disk(trace: Option<Bytes>, manifest: Option<Manifest>)

  datatype Life = Forever | Writes(left: nat)

  datatype Outcome = Published | Raised | Crashed

  /** One start of the program: the identity it is pinned to, what its engine
      answers for each question, whether the closing reconciliations of calls,
      inputs and implementation hold, and the clock. */
  datatype Launch = Launch(pin: Pin, engine: nat -> Option<Learned>, undisturbed: bool, created: string)

  /** The row that this launch produces for a question, if it produces one. */
  function Fresh(w: World, launch: Launch, i: nat): Option<Json> {
    var t := launch.engine(i);
    if t.None? then None else w.build(i, t.value)
  }

  /** The rows after the first `from` are this launch's own. */
  ghost predicate FreshFrom(w: World, launch: Launch, from: nat, rows: seq<Json>) {
    forall i: nat :: from <= i < |rows| ==> Fresh(w, launch, i) == Some(rows[i])
  }

  /** `all` is the run that this launch can complete from `rows`. */
  ghost predicate Completes(w: World, launch: Launch, rows: seq<Json>, all: seq<Json>) {
    && rows <= all && |all| == w.rows && all != []
    && FreshFrom(w, launch, |rows|, all)
    && Reloadable(w, launch.pin, all)
  }

  lemma FreshRow(w: World, launch: Launch, i: nat)
    requires w.Sound() && i < w.rows && Fresh(w, launch, i).Some?
    ensures BuiltAt(w, i, Fresh(w, launch, i).value)
  {
  }

  ghost predicate Completable(w: World, launch: Launch, rows: seq<Json>) {
    exists all :: Completes(w, launch, rows, all)
  }

  /** Every run that could be completed goes through the rows reached so far. */
  ghost predicate OnTheWay(w: World, launch: Launch, start: seq<Json>, rows: seq<Json>) {
    forall all :: Completes(w, launch, start, all) ==> rows <= all
  }

  ghost predicate NoNextRow(w: World, launch: Launch, rows: seq<Json>) {
    var row := Fresh(w, launch, |rows|);
    row.None? || !Receipted(w, row.value) || !DistinctIds(w, rows + [row.value])
  }

  lemma StartIsOnTheWay(w: World, launch: Launch, start: seq<Json>)
    ensures OnTheWay(w, launch, start, start)
  {
  }

  lemma StaysOnTheWay(w: World, launch: Launch, start: seq<Json>, rows: seq<Json>)
    requires start <= rows && |rows| < w.rows && OnTheWay(w, launch, start, rows)
    ensures NoNextRow(w, launch, rows) ==> !Completable(w, launch, start)
    ensures !NoNextRow(w, launch, rows) ==> OnTheWay(w, launch, start, rows + [Fresh(w, launch, |rows|).value])
  {
  }

  lemma OnlyOneRunIsLeft(w: World, launch: Launch, start: seq<Json>, rows: seq<Json>)
    requires start <= rows && |rows| == w.rows
    requires OnTheWay(w, launch, start, rows) && FreshFrom(w, launch, |start|, rows)
    ensures Completable(w, launch, start) <==> rows != [] && Reloadable(w, launch.pin, rows)
  {
    forall all | Completes(w, launch, start, all) ensures all == rows {
    }
    if rows != [] && Reloadable(w, launch.pin, rows) {
      assert Completes(w, launch, start, rows);
    }
  }

  lemma StartMustReload(w: World, launch: Launch, start: seq<Json>)
    ensures !Reloadable(w, launch.pin, start) ==> !Completable(w, launch, start)
  {
  }

  lemma FitsCoverage(w: World, rows: seq<Json>)
    requires WellBuilt(w, rows)
    ensures |rows| <= w.rows
  {
  }

  ghost function TraceFile(w: World, rows: seq<Json>): Option<Bytes> {
    if rows == [] then None else Some(Encode(w, rows))
  }

  lemma SameFileSameRows(w: World, a: seq<Json>, b: seq<Json>)
    requires w.Sound()
    ensures TraceFile(w, a) == TraceFile(w, b) ==> a == b
  {
    if Encode(w, a) == Encode(w, b) {
      EncodeIsInjective(w, a, b);
    }
  }

  lemma AppendWellBuilt(w: World, rows: seq<Json>, row: Json)
    requires WellBuilt(w, rows) && BuiltAt(w, |rows|, row) && Receipted(w, row) && DistinctIds(w, rows + [row])
    ensures WellBuilt(w, rows + [row])
  {
  }

  class Checkpoint {
    const w: World
    var disk: Disk
    var life: Life
    /** The rows of the trace file, and every manifest ever published. */
    ghost var completed: seq<Json>
    ghost var published: seq<Manifest>

    /** The file is absent or the encoding of exactly the completed rows, which
        repeat no id, whoever asked for them; a manifest was published at most
        once, over all the rows, and binds the file as it still is. */
    ghost predicate Valid()
      reads this
    {
      && w.Sound()
      && WellBuilt(w, completed)
      && disk.trace == TraceFile(w, completed)
      && published == (if disk.manifest.None? then [] else [disk.manifest.value])
      && (disk.manifest.Some? ==>
        && |completed| == w.rows && completed != []
        && disk.manifest.value.rows == completed
        && disk.manifest.value.traceFile == Encode(w, completed)
        && Reloadable(w, disk.manifest.value.pin, completed))
    }

    constructor (w: World)
      requires w.Sound()
      ensures Valid() && this.w == w && disk == Disk(None, None) && completed == [] && published == []
    {
      this.w := w;
      disk, life, completed, published := Disk(None, None), Forever, [], [];
    }

    method AtomicReplace(raw: Bytes) returns (alive: bool)
      modifies `disk, `life
      ensures disk == if alive then old(disk).(trace := Some(raw)) else old(disk)
      ensures old(life).Forever? ==> alive && life.Forever?
      ensures !alive ==> life == Writes(0)
    {
      if life == Writes(0) {
        return false;
      }
      life := if life.Writes? then Writes(life.left - 1) else life;
      disk := disk.(trace := Some(raw));
      return true;
    }

    method AtomicCreate(manifest: Manifest) returns (o: Outcome)
      modifies `disk, `life
      ensures o == Published ==> old(disk).manifest.None? && disk == old(disk).(manifest := Some(manifest))
      ensures o != Published ==> disk == old(disk)
      ensures o == Raised ==> old(disk).manifest.Some?
      ensures old(life).Forever? ==> life.Forever? && o != Crashed
      ensures o == Crashed ==> life == Writes(0)
    {
      if disk.manifest.Some? {
        return Raised;
      }
      if life == Writes(0) {
        return Crashed;
      }
      life := if life.Writes? then Writes(life.left - 1) else life;
      disk := disk.(manifest := Some(manifest));
      return Published;
    }

    /** One question: ask, check, and replace the file by one with one more
        line. Returns `Published` when the run may go on. */
    method AskNext(launch: Launch, prefix: Prefix) returns (o: Outcome, next: Prefix)
      requires Valid() && disk.manifest.None? && |completed| < w.rows
      requires prefix == Prefix(Encode(w, completed), completed, RequestIds(w, completed), ProviderIds(w, completed))
      modifies `disk, `life, `completed
      ensures Valid() && disk.manifest.None?
      ensures next == Prefix(Encode(w, completed), completed, RequestIds(w, completed), ProviderIds(w, completed))
      ensures old(life).Forever? ==> life.Forever? && o != Crashed
      ensures o == Crashed ==> life == Writes(0)
      ensures o != Published ==> disk == old(disk) && completed == old(completed)
      ensures o == Published ==> |completed| == |old(completed)| + 1 && old(completed) <= completed
                                 && Fresh(w, launch, |old(completed)|) == Some(completed[|old(completed)|])
      ensures o == Raised ==> NoNextRow(w, launch, completed)
      ensures o == Published ==> !NoNextRow(w, launch, old(completed))
    {
      var index := |prefix.rows|;
      next := prefix;
      var trace := launch.engine(index);
      if trace.None? {
        return Raised, next;
      }
      var built := w.build(index, trace.value);
      if built.None? {
        return Raised, next;
      }
      var row := built.value;
      if trace.value.requestId.None? || trace.value.providerId.None?
        || trace.value.requestId.value == trace.value.providerId.value
      {
        return Raised, next;
      }
      IdsGrow(w, completed, row);
      if RequestId(w, row) in prefix.requestIds || ProviderId(w, row) in prefix.providerIds {
        return Raised, next;
      }
      var raw := prefix.raw + (w.canonical(row) + [LF]);
      FreshRow(w, launch, index);
      AppendWellBuilt(w, completed, row);
      EncodeAppend(w, completed, row);
      hide WellBuilt, DistinctIds, RequestIds, ProviderIds, Encode, Reloadable;
      var alive := AtomicReplace(raw);
      if !alive {
        return Crashed, next;
      }
      completed := completed + [row];
      next := Prefix(raw, prefix.rows + [row], prefix.requestIds + {RequestId(w, row)},
                     prefix.providerIds + {ProviderId(w, row)});
      return Published, next;
    }

    /** Closing checks and publication. The manifest is built by reading the
        trace file again; that its rows are the rows in memory is tested, and
        the test cannot fail. */
    method Publish(launch: Launch, rows: seq<Json>) returns (o: Outcome)
      requires Valid() && disk.manifest.None? && rows == completed && |completed| == w.rows
      modifies `disk, `life, `published
      ensures Valid() && disk.trace == old(disk).trace
      ensures o == Published ==>
        disk.manifest == Some(Manifest(launch.pin, completed, Encode(w, completed), launch.created))
      ensures o == Published ==> Reloadable(w, launch.pin, completed) && launch.undisturbed && completed != []
      ensures o != Published ==> disk == old(disk)
      ensures old(life).Forever? ==> life.Forever? && o != Crashed
      ensures o == Crashed ==> life == Writes(0)
      ensures o == Raised ==> !launch.undisturbed || !Reloadable(w, launch.pin, completed) || completed == []
    {
      var replayed := ReplayAll(w, rows);
      var same := SameIdentity(w, launch.pin, rows);
      if !launch.undisturbed || !replayed || !same {
        return Raised;
      }
      if disk.trace.None? {
        return Raised;
      }
      var file := disk.trace.value;
      EncodedReadsBack(w, rows);
      var lines := Split(file[..|file| - 1], LF);
      if |lines| != |rows| || !(forall i: nat :: i < |rows| ==> w.parse(lines[i]) == Some(rows[i])) {
        assert false;
      }
      hide WellBuilt, Encode, PinnedTo, Replayed;
      var manifest := Manifest(launch.pin, rows, file, launch.created);
      o := AtomicCreate(manifest);
      if o == Published {
        published := published + [manifest];
      }
    }

    /** Taking up what the disk holds. */
    method Resume(pin: Pin) returns (r: Option<Prefix>)
      requires Valid()
      ensures r.Some? ==>
        r.value == Prefix(Encode(w, completed), completed, RequestIds(w, completed), ProviderIds(w, completed))
      ensures r.Some? <==> completed == [] || Reloadable(w, pin, completed)
    {
      var loaded := LoadResumePrefix(w, pin, disk.trace);
      if loaded.Failure? {
        return None;
      }
      EncodeIsInjective(w, loaded.value.rows, completed);
      return Some(loaded.value);
    }

    /** One start of the program, from whatever the disk holds. It publishes,
        when it is not killed, exactly if nothing is published yet, the rows on
        disk are taken up by this identity, and its engine answers every
        further question with a fresh receipt and an acceptable row. */
    method Process(launch: Launch) returns (o: Outcome)
      requires Valid()
      modifies this
      ensures Valid() && old(completed) <= completed && old(published) <= published
      ensures old(disk).manifest.Some? ==> o == Raised && disk == old(disk)
      ensures old(completed) != [] && !Reloadable(w, launch.pin, old(completed)) ==> o == Raised && disk == old(disk)
      ensures disk == old(disk) ==> completed == old(completed)
      ensures FreshFrom(w, launch, |old(completed)|, completed)
      ensures disk.manifest != old(disk).manifest <==> o == Published
      ensures old(life).Forever? ==> life.Forever? && o != Crashed
      ensures o == Crashed ==> life == Writes(0)
      ensures old(life).Forever? ==> (o == Published <==>
        old(disk).manifest.None? && launch.undisturbed && Completable(w, launch, old(completed)))
    {
      hide WellBuilt, Encode, RequestIds, ProviderIds, Reloadable, OnTheWay, Completable, NoNextRow;
      if disk.manifest.Some? {
        return Raised;
      }
      StartMustReload(w, launch, completed);
      var resumed := Resume(launch.pin);
      if resumed.None? {
        return Raised;
      }
      var prefix := resumed.value;
      StartIsOnTheWay(w, launch, completed);
      FitsCoverage(w, completed);
      while |prefix.rows| < w.rows
        invariant Valid() && disk.manifest.None? && published == old(published)
        invariant prefix == Prefix(Encode(w, completed), completed, RequestIds(w, completed), ProviderIds(w, completed))
        invariant old(completed) <= completed && FreshFrom(w, launch, |old(completed)|, completed)
        invariant |completed| <= w.rows
        invariant old(life).Forever? ==> life.Forever?
        invariant OnTheWay(w, launch, old(completed), completed)
      {
        StaysOnTheWay(w, launch, old(completed), completed);
        ghost var before := completed;
        o, prefix := AskNext(launch, prefix);
        SameFileSameRows(w, old(completed), completed);
        if o != Published {
          return;
        }
        assert completed == before + [completed[|before|]];
      }
      SameFileSameRows(w, old(completed), completed);
      OnlyOneRunIsLeft(w, launch, old(completed), completed);
      o := Publish(launch, prefix.rows);
    }

    /** Any number of starts, each with its own engine, identity, clock and
        point of death. */
    method Schedule(launches: seq<(Launch, Life)>)
      requires Valid()
      modifies this
      ensures Valid() && old(completed) <= completed && old(published) <= published
      ensures old(disk).manifest.Some? ==> disk == old(disk)
      ensures old(completed) != [] && (forall pin :: !Reloadable(w, pin, old(completed))) ==> disk == old(disk)
    {
      for i := 0 to |launches|
        invariant Valid() && old(completed) <= completed && old(published) <= published
        invariant old(disk).manifest.Some? ==> disk == old(disk)
        invariant old(completed) != [] && (forall pin :: !Reloadable(w, pin, old(completed))) ==>
          disk == old(disk) && completed == old(completed)
        invariant old(disk).manifest.Some? ==> completed == old(completed)
      {
        life := launches[i].1;
        var o := Process(launches[i].0);
      }
    }
  }
}
