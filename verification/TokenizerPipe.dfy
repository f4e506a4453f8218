/** The request/response pipe to the exact tokenizer, with timeouts, and the
    accounting that is published as evidence. */
module TokenizerPipe {
  import opened Wrappers

  type Bytes = seq<bv8>

  /** What every response must repeat besides the request's own fields. */
  datatype Identity = Identity(protocol: string, model: string, revision: string, artifactSha256: string)

  datatype Request = Request(id: nat, text: string)

  datatype Response = Response(identity: Identity, requestId: int, textSha256: string,
                               providerId: ProviderId, tokenCount: int)

  datatype ProviderId = ProviderId(id: string)

  /** One line of output: strict JSON with exactly the response fields, or not. */
  datatype Line = Strict(response: Response) | Junk

  datatype Observation = Observation(requestId: nat, providerId: ProviderId, textSha256: string, tokenCount: int)

  datatype Error = Closed | NotEncodable | BrokenPipe | TimedOut | NoResponse
                 | NotStrict | Mismatch | BadProviderId | BadCount

  /** What the outside does to one call: the write fails, no line is seen within
      the timeout, the worker dies without answering, or its line comes in time. */
  datatype Weather = WriteFails | Late | Dies | InTime

  /** The text encoding, the digest, the provider id pattern, and the worker: the
      one line that it writes for a request. */
  datatype World = World(
    identity: Identity,
    encode: string -> Option<Bytes>,
    sha256: Bytes -> string,
    isProviderId: ProviderId -> bool,
    reply: Request -> Line)
  {
    /** A worker that answers in order names the request that it answers. */
    ghost predicate NamesItsRequest() {
      forall r: Request :: reply(r).Strict? ==> reply(r).response.requestId == r.id
    }
  }

  /** A line is the answer to this request, with a fresh receipt. */
  predicate Answers(w: World, line: Line, request: Request, used: set<ProviderId>) {
    && w.encode(request.text).Some?
    && line.Strict?
    && line.response.identity == w.identity
    && line.response.requestId == request.id
    && line.response.textSha256 == w.sha256(w.encode(request.text).value)
    && w.isProviderId(line.response.providerId) && line.response.providerId !in used
    && line.response.tokenCount >= 1
  }

  function Observed(line: Line, request: Request): Observation
    requires line.Strict?
  {
    Observation(request.id, line.response.providerId, line.response.textSha256, line.response.tokenCount)
  }

  // ------------------------------------------------------------------- the history

  /** One issued request and what came of it. */
  datatype Entry = Entry(text: string, outcome: Option<Observation>)

  function Answered(log: seq<Entry>): seq<Entry> {
    if log == [] then
      []
    else
      Answered(log[..|log| - 1]) + if log[|log| - 1].outcome.Some? then [log[|log| - 1]] else []
  }

  function Receipts(log: seq<Entry>): set<ProviderId> {
    if log == [] then
      {}
    else
      Receipts(log[..|log| - 1])
      + if log[|log| - 1].outcome.Some? then {log[|log| - 1].outcome.value.providerId} else {}
  }

  function Characters(log: seq<Entry>): nat {
    if log == [] then
      0
    else
      Characters(log[..|log| - 1]) + if log[|log| - 1].outcome.Some? then |log[|log| - 1].text| else 0
  }

  function EncodedSize(w: World, text: string): nat {
    if w.encode(text).Some? then |w.encode(text).value| else 0
  }

  function Utf8Bytes(w: World, log: seq<Entry>): nat {
    if log == [] then
      0
    else
      Utf8Bytes(w, log[..|log| - 1])
      + if log[|log| - 1].outcome.Some? then EncodedSize(w, log[|log| - 1].text) else 0
  }

  lemma EncodedSizeMeans(w: World, text: string)
    ensures w.encode(text).Some? ==> EncodedSize(w, text) == |w.encode(text).value|
  {
  }

  ghost predicate AllAnswered(log: seq<Entry>) {
    forall i :: 0 <= i < |log| ==> log[i].outcome.Some?
  }

  lemma LogGrows(w: World, log: seq<Entry>, e: Entry)
    ensures var more := log + [e];
      var n := if e.outcome.Some? then 1 else 0;
      && |Answered(more)| == |Answered(log)| + n
      && Receipts(more) == Receipts(log) + (if e.outcome.Some? then {e.outcome.value.providerId} else {})
      && Characters(more) == Characters(log) + (if e.outcome.Some? then |e.text| else 0)
      && Utf8Bytes(w, more) == Utf8Bytes(w, log) + (if e.outcome.Some? then EncodedSize(w, e.text) else 0)
      && (AllAnswered(more) <==> AllAnswered(log) && e.outcome.Some?)
  {
  }

  lemma {:induction false} AnsweredCounts(log: seq<Entry>)
    ensures |Answered(log)| <= |log|
    ensures |Answered(log)| == |log| <==> AllAnswered(log)
  {
    if log != [] {
      var front := log[..|log| - 1];
      AnsweredCounts(front);
      assert forall i :: 0 <= i < |front| ==> log[i] == front[i];
    }
  }

  // ---------------------------------------------------------------------- the pipe

  /** The published accounting. */
  datatype Accounting = Accounting(requests: nat, responses: nat, receipts: nat, characters: nat, bytes: nat,
                                   exactResponseIdentityVerified: bool)

  function Lines(w: World, pending: seq<Request>): seq<Line> {
    seq(|pending|, i requires 0 <= i < |pending| => w.reply(pending[i]))
  }

  function EntryOf(text: string, r: Result<Observation, Error>): Entry {
    Entry(text, if r.Success? then Some(r.value) else None)
  }

  lemma LinesGrow(w: World, pending: seq<Request>, r: Request)
    ensures Lines(w, pending + [r]) == Lines(w, pending) + [w.reply(r)]
  {
  }

  lemma LinesShrink(w: World, pending: seq<Request>)
    requires pending != []
    ensures Lines(w, pending[1..]) == Lines(w, pending)[1..] && Lines(w, pending)[0] == w.reply(pending[0])
  {
  }

  /** The counters and the receipts are what the history says. */
  ghost predicate Books(w: World, log: seq<Entry>, requests: nat, responses: nat, characters: nat, bytes: nat,
                        receipts: set<ProviderId>)
  {
    && requests == |log|
    && responses == |Answered(log)| == |receipts|
    && receipts == Receipts(log)
    && characters == Characters(log)
    && bytes == Utf8Bytes(w, log)
  }

  lemma CountsRequests(w: World, log: seq<Entry>, requests: nat, responses: nat, characters: nat, bytes: nat,
                       receipts: set<ProviderId>)
    requires Books(w, log, requests, responses, characters, bytes, receipts)
    ensures requests == |log|
  {
  }

  lemma BooksGrow(w: World, log: seq<Entry>, requests: nat, responses: nat, characters: nat, bytes: nat,
                  receipts: set<ProviderId>, e: Entry)
    requires Books(w, log, requests, responses, characters, bytes, receipts)
    ensures e.outcome.None? ==> Books(w, log + [e], requests + 1, responses, characters, bytes, receipts)
    ensures e.outcome.Some? && e.outcome.value.providerId !in receipts ==>
      Books(w, log + [e], requests + 1, responses + 1, characters + |e.text|, bytes + EncodedSize(w, e.text),
            receipts + {e.outcome.value.providerId})
  {
    hide Answered, Receipts, Characters, Utf8Bytes, AllAnswered, EncodedSize;
    LogGrows(w, log, e);
  }

  /** The unread lines are the answers to the pending requests, all issued before. */
  ghost predicate Piped(w: World, pending: seq<Request>, unread: seq<Line>, issued: nat) {
    unread == Lines(w, pending) && forall i :: 0 <= i < |pending| ==> 0 < pending[i].id <= issued
  }

  /** The requests with a line to read once this one is sent: a worker that is
      dead writes none. */
  function Queue(pending: seq<Request>, alive: bool, request: Request, weather: Weather): seq<Request> {
    if weather.WriteFails? || weather.Dies? || !alive then pending else pending + [request]
  }

  /** The line that this call reads: the oldest one there is. */
  function LineRead(w: World, pending: seq<Request>, alive: bool, request: Request, weather: Weather): Option<Line> {
    var queue := Queue(pending, alive, request, weather);
    if weather.WriteFails? || weather.Late? || queue == [] then None else Some(w.reply(queue[0]))
  }

  ghost predicate Accepted(w: World, pending: seq<Request>, alive: bool, used: set<ProviderId>, request: Request,
                           weather: Weather)
  {
    var line := LineRead(w, pending, alive, request, weather);
    line.Some? && Answers(w, line.value, request, used)
  }

  /** No line to come can be the answer to a request to come. */
  predicate Behind(pending: seq<Request>, alive: bool) {
    pending != [] || !alive
  }

  /** A worker that names the request it answers cannot pass an older line off as
      the answer to a newer request. */
  lemma StaleIsRefused(w: World, pending: seq<Request>, unread: seq<Line>, alive: bool, used: set<ProviderId>,
                       request: Request, weather: Weather)
    requires w.NamesItsRequest() && request.id > 0 && Piped(w, pending, unread, request.id - 1)
    requires Accepted(w, pending, alive, used, request, weather)
    ensures !Behind(pending, alive) && LineRead(w, pending, alive, request, weather) == Some(w.reply(request))
    ensures !Missed(w, (request.text, weather))
  {
  }

  class Tokenizer {
    const w: World
    var requestCount: nat
    var responseCount: nat
    var textCharacters: nat
    var textUtf8Bytes: nat
    var providerRequestIds: set<ProviderId>
    var closed: bool
    /** The worker's output that nobody has read yet. */
    var unread: seq<Line>
    /** Whether the worker still answers. */
    var alive: bool
    /** The requests whose lines those are, oldest first. */
    ghost var pending: seq<Request>
    /** Every request ever issued. */
    ghost var log: seq<Entry>

    ghost predicate Valid()
      reads this
    {
      && Books(w, log, requestCount, responseCount, textCharacters, textUtf8Bytes, providerRequestIds)
      && Piped(w, pending, unread, |log|)
    }

    constructor (w: World)
      ensures Valid() && this.w == w && !closed && log == [] && !Behind(pending, alive)
    {
      this.w := w;
      requestCount, responseCount, textCharacters, textUtf8Bytes := 0, 0, 0, 0;
      providerRequestIds, closed, unread, pending, log, alive := {}, false, [], [], [], true;
    }

    /** Writing a request and reading one line, whichever is the oldest. */
    method Exchange(request: Request, weather: Weather) returns (r: Result<Line, Error>)
      requires request.id > 0 && Piped(w, pending, unread, request.id - 1)
      modifies `unread, `pending, `alive
      ensures Piped(w, pending, unread, request.id)
      ensures (if r.Success? then Some(r.value) else None) == LineRead(w, old(pending), old(alive), request, weather)
      ensures Behind(old(pending), old(alive)) || weather.Late? || weather.Dies? ==> Behind(pending, alive)
    {
      if weather.WriteFails? {
        return Failure(BrokenPipe);
      }
      if weather.Dies? {
        alive := false;
      }
      if alive {
        LinesGrow(w, pending, request);
        unread := unread + [w.reply(request)];
        pending := pending + [request];
      }
      if weather.Late? {
        return Failure(TimedOut);
      }
      if unread == [] {
        return Failure(NoResponse);
      }
      var line := unread[0];
      LinesShrink(w, pending);
      unread, pending := unread[1..], pending[1..];
      return Success(line);
    }

    /** The tests on a line that was read. */
    method Check(line: Line, request: Request, textSha256: string) returns (r: Result<Observation, Error>)
      requires w.encode(request.text).Some? && textSha256 == w.sha256(w.encode(request.text).value)
      ensures r.Success? <==> Answers(w, line, request, providerRequestIds)
      ensures r.Success? ==> r.value == Observed(line, request)
    {
      if line.Junk? {
        return Failure(NotStrict);
      }
      var response := line.response;
      if response.identity != w.identity || response.requestId != request.id || response.textSha256 != textSha256 {
        return Failure(Mismatch);
      }
      if !w.isProviderId(response.providerId) || response.providerId in providerRequestIds {
        return Failure(BadProviderId);
      }
      if response.tokenCount < 1 {
        return Failure(BadCount);
      }
      return Success(Observation(request.id, response.providerId, textSha256, response.tokenCount));
    }

    /** From encoding the text to the last test. */
    method Attempt(request: Request, weather: Weather) returns (r: Result<Observation, Error>)
      requires request.id > 0 && Piped(w, pending, unread, request.id - 1)
      modifies `unread, `pending, `alive
      ensures Piped(w, pending, unread, request.id)
      ensures r.Success? <==> Accepted(w, old(pending), old(alive), providerRequestIds, request, weather)
      ensures r.Success? ==> Returned(w, old(pending), old(alive), request, weather, r.value)
      ensures r.Success? ==> r.value.providerId !in providerRequestIds && w.encode(request.text).Some?
      ensures Behind(old(pending), old(alive)) || Missed(w, (request.text, weather)) ==> Behind(pending, alive)
    {
      var encoded := w.encode(request.text);
      if encoded.None? {
        return Failure(NotEncodable);
      }
      var line := Exchange(request, weather);
      if line.Failure? {
        return Failure(line.error);
      }
      r := Check(line.value, request, w.sha256(encoded.value));
    }

    /** One call. It succeeds exactly when the process is open, the text can be
        encoded, a line is read in time and that line answers this request; only
        then do the receipts, the response count and the text sizes move. */
    method Count(text: string, weather: Weather) returns (r: Result<Observation, Error>)
      requires Valid()
      modifies this
      ensures Valid() && closed == old(closed)
      ensures old(closed) ==> r == Failure(Closed) && log == old(log) && pending == old(pending) && alive == old(alive)
      ensures !old(closed) ==> log == old(log) + [EntryOf(text, r)]
      ensures r.Success? <==>
        !old(closed)
        && Accepted(w, old(pending), old(alive), old(providerRequestIds), Request(|old(log)| + 1, text), weather)
      ensures r.Success? ==>
        Returned(w, old(pending), old(alive), Request(|old(log)| + 1, text), weather, r.value)
      ensures Behind(old(pending), old(alive)) || (!old(closed) && Missed(w, (text, weather))) ==>
        Behind(pending, alive)
      ensures w.NamesItsRequest() && r.Success? ==>
        !Behind(old(pending), old(alive)) && !Missed(w, (text, weather))
        && OwnAnswer(w, Request(|old(log)| + 1, text), r)
    {
      hide Books, Piped, Accepted, Behind, LineRead, Missed, EncodedSize, Answers, Observed, Returned, OwnAnswer;
      if closed {
        return Failure(Closed);
      }
      CountsRequests(w, log, requestCount, responseCount, textCharacters, textUtf8Bytes, providerRequestIds);
      requestCount := requestCount + 1;
      var request := Request(requestCount, text);
      EncodedSizeMeans(w, text);
      r := Attempt(request, weather);
      if r.Success? && w.NamesItsRequest() {
        StaleIsRefused(w, old(pending), old(unread), old(alive), providerRequestIds, request, weather);
        OwnAnswerOf(w, old(pending), old(alive), request, weather, r);
      }
      BooksGrow(w, log, requestCount - 1, responseCount, textCharacters, textUtf8Bytes, providerRequestIds,
                EntryOf(text, r));
      if r.Success? {
        providerRequestIds := providerRequestIds + {r.value.providerId};
        responseCount := responseCount + 1;
        textCharacters := textCharacters + |text|;
        textUtf8Bytes := textUtf8Bytes + |w.encode(text).value|;
      }
      log := log + [EntryOf(text, r)];
    }

    /** The identity is reported as verified exactly when no issued request has
        failed; the receipts are as many as the responses, whatever happened. */
    function Evidence(): (a: Accounting)
      requires Valid()
      reads this
      ensures a.exactResponseIdentityVerified <==> AllAnswered(log)
      ensures a.receipts == a.responses <= a.requests == |log|
      ensures a.characters == Characters(log) && a.bytes == Utf8Bytes(w, log)
    {
      AnsweredCounts(log);
      Accounting(requestCount, responseCount, |providerRequestIds|, textCharacters, textUtf8Bytes,
                 requestCount == responseCount == |providerRequestIds|)
    }

    /** Closing twice is closing once; the second time nothing is waited for. */
    method Close(exitsCleanly: bool) returns (ok: bool)
      requires Valid()
      modifies `closed
      ensures Valid() && closed
      ensures ok <==> old(closed) || exitsCleanly
    {
      if closed {
        return true;
      }
      closed := true;
      return exitsCleanly;
    }

    /** Nothing gets through a pipe once it is closed, however the process exits:
        every later call fails without being issued, and the published accounting
        stays as it was. */
    method DriveClosed(exitsCleanly: bool, calls: seq<(string, Weather)>)
      returns (results: seq<Result<Observation, Error>>)
      requires Valid()
      modifies this
      ensures Valid() && closed && |results| == |calls|
      ensures forall i: nat :: i < |calls| ==> results[i] == Failure(Closed)
      ensures log == old(log) && Evidence() == old(Evidence())
    {
      var exited := Close(exitsCleanly);
      results := [];
      for k := 0 to |calls|
        invariant Valid() && closed && |results| == k && log == old(log)
        invariant forall i: nat :: i < k ==> results[i] == Failure(Closed)
      {
        var r := Count(calls[k].0, calls[k].1);
        results := results + [r];
      }
    }

    /** Any run of calls against a worker that answers in order, one line for
        each request. A count that is returned is the worker's own answer to
        that text, never the late answer to another; and after one call whose
        line was not read in time, every later call fails. */
    method Drive(calls: seq<(string, Weather)>) returns (results: seq<Result<Observation, Error>>)
      requires Valid() && !closed && w.NamesItsRequest()
      modifies this
      ensures Valid() && !closed && |results| == |calls| && |log| == |old(log)| + |calls|
      ensures forall i: nat :: i < |calls| ==> OwnAnswer(w, Request(|old(log)| + i + 1, calls[i].0), results[i])
      ensures forall i: nat, j: nat :: i <= j < |calls| && Missed(w, calls[i]) ==> results[j].Failure?
      ensures Behind(old(pending), old(alive)) ==> forall i: nat :: i < |calls| ==> results[i].Failure?
      ensures AllAnswered(log) <==> old(AllAnswered(log)) && forall i: nat :: i < |calls| ==> results[i].Success?
    {
      hide *;
      results := [];
      for k := 0 to |calls|
        invariant Valid() && !closed && |results| == k && |log| == |old(log)| + k
        invariant Behind(old(pending), old(alive)) ==> Behind(pending, alive)
        invariant forall i: nat :: i < k ==> OwnAnswer(w, Request(|old(log)| + i + 1, calls[i].0), results[i])
        invariant forall i: nat :: i < k && Missed(w, calls[i]) ==> Behind(pending, alive)
        invariant forall i: nat, j: nat :: i <= j < k && Missed(w, calls[i]) ==> results[j].Failure?
        invariant Behind(old(pending), old(alive)) ==> forall i: nat :: i < k ==> results[i].Failure?
        invariant AllAnswered(log) <==> old(AllAnswered(log)) && forall i: nat :: i < k ==> results[i].Success?
      {
        ghost var before := log;
        CallIsPair(calls[k]);
        var r := Count(calls[k].0, calls[k].1);
        LogGrows(w, before, EntryOf(calls[k].0, r));
        EntryTells(calls[k].0, r);
        FailureIsOwn(w, Request(|before| + 1, calls[k].0), r);
        results := results + [r];
      }
    }
  }

  lemma CallIsPair(call: (string, Weather))
    ensures (call.0, call.1) == call
  {
  }

  lemma EntryTells(text: string, r: Result<Observation, Error>)
    ensures EntryOf(text, r).outcome.Some? <==> r.Success?
  {
  }

  /** What is returned, if anything, is the worker's line for this very request:
      its count, under this request's number, from the pinned worker and of the
      text that was asked about. */
  ghost predicate OwnAnswer(w: World, request: Request, r: Result<Observation, Error>) {
    r.Success? ==>
      && w.encode(request.text).Some? && w.reply(request).Strict?
      && var response := w.reply(request).response;
        && r.value.tokenCount == response.tokenCount >= 1 && r.value.providerId == response.providerId
        && r.value.requestId == response.requestId == request.id && response.identity == w.identity
        && r.value.textSha256 == response.textSha256 == w.sha256(w.encode(request.text).value)
  }

  lemma FailureIsOwn(w: World, request: Request, r: Result<Observation, Error>)
    ensures r.Failure? ==> OwnAnswer(w, request, r)
  {
  }

  /** The observation is the line that was read. */
  ghost predicate Returned(w: World, pending: seq<Request>, alive: bool, request: Request, weather: Weather,
                           o: Observation)
  {
    var line := LineRead(w, pending, alive, request, weather);
    line.Some? && line.value.Strict? && o == Observed(line.value, request)
  }

  lemma OwnAnswerOf(w: World, pending: seq<Request>, alive: bool, request: Request, weather: Weather,
                    r: Result<Observation, Error>)
    requires r.Success? && Returned(w, pending, alive, request, weather, r.value)
    requires exists used :: Accepted(w, pending, alive, used, request, weather)
    requires LineRead(w, pending, alive, request, weather) == Some(w.reply(request))
    ensures OwnAnswer(w, request, r)
  {
  }

  /** A call that sent its text and did not read a line. */
  predicate Missed(w: World, call: (string, Weather)) {
    w.encode(call.0).Some? && (call.1.Late? || call.1.Dies?)
  }
}
