/** The dispatcher client (lib/Client.ts): validating a batch of tasks,
    building one envelope message and one set of enqueue options per task,
    and sending each message with one trace event per attempt. */
module Client {
  import opened Wrappers
  import opened Js
  import opened Nova
  import opened Errors

  /** A task as handed in by the caller. The fields the client inspects are
      dynamically typed; `Undef` is a missing field. The payload is opaque. */
  datatype Task<P> = Task(name: JsValue, payload: P, ttl: JsValue, delay: JsValue)

  /** The argument of `send`: a falsy value, one task, or an array of tasks. */
  datatype TaskArg<P> = Falsy | Single(task: Task<P>) | Batch(tasks: seq<Task<P>>)

  /** The envelope `{ _meta: { opid }, _data: payload }` that is serialised
      into each message. */
  datatype Meta = Meta(opid: Option<string>)
  datatype Envelope<P> = Envelope(meta: Meta, data: P)

  /** The optional parameters of an enqueue call. */
  datatype EnqueueOptions = EnqueueOptions(visibilityTimeout: JsValue, messageTimeToLive: JsValue, requestId: Option<string>)

  /** One message to be enqueued: the target queue, the encoded message
      text and its options. */
  datatype Request = Request(queue: string, messageText: string, options: EnqueueOptions)

  /** What the queue service did with one enqueue call, and how long the
      attempt took by the clock. */
  datatype EnqueueOutcome = Enqueued | Rejected(cause: Cause)
  datatype Attempt = Attempt(outcome: EnqueueOutcome, elapsedMs: nat)

  /** A client: the trace source, the operation id and whether a logger is
      present (the service handle is abstracted into the enqueue outcomes). */
  datatype DispatcherClient = DispatcherClient(source: TraceSource, operationId: Option<string>, hasLogger: bool)

  /** The observable effect of one or more send attempts: the traces emitted
      and the error raised, if any. */
  datatype AttemptReport = AttemptReport(traces: seq<TraceEvent>, failure: Option<DispatcherError>)

  /** The observable effect of `send`: the enqueue calls issued, the traces
      emitted, and whether the returned promise resolves or rejects. */
  datatype SendReport = SendReport(requests: seq<Request>, traces: seq<TraceEvent>, outcome: Outcome<Exception>)

  const TasksInvalid := "Cannot send task(s): task(s) are invalid"
  const NameInvalid := "Task name is invalid"
  const TtlInvalid := "Task time-to-live is invalid"
  const DelayInvalid := "Task delay is invalid"
  const DelayNotBelowTtl := "Task delay must be smaller than time-to-live"
  const CommandPrefix := "send message: "

  /** The tasks `send` works on: a single task becomes a one-element array. */
  function Tasks<P>(arg: TaskArg<P>): seq<Task<P>> {
    match arg
    case Falsy => []
    case Single(t) => [t]
    case Batch(ts) => ts
  }

  /** A field that is present but not a number. */
  predicate PresentNonNumber(v: JsValue) {
    !v.Undef? && !IsNumber(v)
  }

  /** The task invariant, stated declaratively: the name is a string, ttl and
      delay are numbers or absent, and when both are numbers and ttl is not
      zero the delay is strictly below ttl. */
  predicate ValidTask<P>(t: Task<P>) {
    && IsString(t.name)
    && (t.ttl.Undef? || t.ttl.Num?)
    && (t.delay.Undef? || t.delay.Num?)
    && (t.ttl.Num? && t.ttl.n != 0 && t.delay.Num? ==> t.delay.n < t.ttl.n)
  }

  /** `k` is the first task of `tasks` that breaks the invariant. */
  predicate IsFirstInvalid<P>(tasks: seq<Task<P>>, k: int) {
    && 0 <= k < |tasks|
    && !ValidTask(tasks[k])
    && forall j :: 0 <= j < k ==> ValidTask(tasks[j])
  }

  /** The checks the validation loop makes of one task, in the order it
      makes them, and the exception the first failing check throws. */
  function CheckTask<P>(t: Task<P>): (r: Outcome<Exception>)
    ensures r.Pass? <==> ValidTask(t)
    ensures !IsString(t.name) ==> r == Fail(TypeError(NameInvalid))
    ensures IsString(t.name) && PresentNonNumber(t.ttl) ==> r == Fail(TypeError(TtlInvalid))
    ensures IsString(t.name) && !PresentNonNumber(t.ttl) && PresentNonNumber(t.delay) ==>
      r == Fail(TypeError(DelayInvalid))
    ensures r.Fail? && r.error.DispatchFailed? ==>
      && t.name.Str? && t.ttl.Num? && t.delay.Num? && t.ttl.n != 0 && t.ttl.n <= t.delay.n
      && r.error.error == NewDispatcherError(Cause(DelayNotBelowTtl), t.name.s, None)
    ensures t.name.Str? && t.ttl.Num? && t.delay.Num? && t.ttl.n != 0 && t.ttl.n <= t.delay.n ==>
      r == Fail(DispatchFailed(NewDispatcherError(Cause(DelayNotBelowTtl), t.name.s, None)))
  {
    if !IsString(t.name) then
      Fail(TypeError(NameInvalid))
    else if t.ttl != Undef && !IsNumber(t.ttl) then
      Fail(TypeError(TtlInvalid))
    else if t.delay != Undef && !IsNumber(t.delay) then
      Fail(TypeError(DelayInvalid))
    else if t.delay != Undef && Truthy(t.ttl) && t.ttl.n <= t.delay.n then
      Fail(DispatchFailed(NewDispatcherError(Cause(DelayNotBelowTtl), t.name.s, None)))
    else
      Pass
  }

  /** The serialiser of the envelope (JSON text, then base64). It can throw,
      for instance on a cyclic payload or one holding a BigInt. */
  type Encoder<!P> = Envelope<P> -> Result<string, Exception>

  /** The envelope built for a task under an operation id. */
  function EnvelopeOf<P>(t: Task<P>, opid: Option<string>): Envelope<P> {
    Envelope(Meta(opid), t.payload)
  }

  /** A task the loop gets past: it is valid and its envelope serialises. */
  predicate Accepted<P>(t: Task<P>, opid: Option<string>, encode: Encoder<P>) {
    ValidTask(t) && encode(EnvelopeOf(t, opid)).Success?
  }

  /** `k` is the first task of `tasks` the loop stops at. */
  predicate IsFirstRejected<P>(tasks: seq<Task<P>>, opid: Option<string>, encode: Encoder<P>, k: int) {
    && 0 <= k < |tasks|
    && !Accepted(tasks[k], opid, encode)
    && forall j :: 0 <= j < k ==> Accepted(tasks[j], opid, encode)
  }

  /** One iteration of the validation loop: the checks come first, then the
      envelope is serialised, and either the request or the exception thrown
      results. */
  function Step<P>(t: Task<P>, opid: Option<string>, encode: Encoder<P>): (r: Result<Request, Exception>)
    ensures r.Success? <==> Accepted(t, opid, encode)
    ensures !ValidTask(t) ==> r == Failure(CheckTask(t).error)
    ensures ValidTask(t) && encode(EnvelopeOf(t, opid)).Failure? ==> r == Failure(encode(EnvelopeOf(t, opid)).error)
    ensures r.Success? ==>
      && r.value.queue == t.name.s
      && encode(EnvelopeOf(t, opid)) == Success(r.value.messageText)
      && r.value.options == EnqueueOptions(t.delay, t.ttl, opid)
  {
    match CheckTask(t)
    case Fail(e) => Failure(e)
    case Pass =>
      match encode(EnvelopeOf(t, opid))
      case Failure(e) => Failure(e)
      case Success(text) => Success(Request(t.name.s, text, EnqueueOptions(t.delay, t.ttl, opid)))
  }

  /** The validation-and-build loop of `send`: each task is checked and its
      envelope serialised into its request; the first task at which either
      throws aborts the loop. */
  function Prepare<P>(tasks: seq<Task<P>>, opid: Option<string>, encode: Encoder<P>): (r: Result<seq<Request>, Exception>)
    ensures r.Success? <==> forall i :: 0 <= i < |tasks| ==> Accepted(tasks[i], opid, encode)
    ensures r.Success? ==> |r.value| == |tasks|
    ensures r.Success? ==> forall i :: 0 <= i < |tasks| ==>
      && r.value[i].queue == tasks[i].name.s
      && encode(EnvelopeOf(tasks[i], opid)) == Success(r.value[i].messageText)
      && r.value[i].options == EnqueueOptions(tasks[i].delay, tasks[i].ttl, opid)
    ensures r.Failure? ==>
      exists k :: IsFirstRejected(tasks, opid, encode, k) && Step(tasks[k], opid, encode) == Failure(r.error)
  {
    if |tasks| == 0 then
      Success([])
    else
      match Step(tasks[0], opid, encode)
      case Failure(e) =>
        assert IsFirstRejected(tasks, opid, encode, 0);
        Failure(e)
      case Success(req) =>
        match Prepare(tasks[1..], opid, encode)
        case Failure(e) =>
          FirstRejectedShift(tasks, opid, encode, e);
          Failure(e)
        case Success(rest) =>
          assert forall i :: 1 <= i < |tasks| ==> tasks[1..][i - 1] == tasks[i];
          Success([req] + rest)
  }

  /** If the first task is accepted, the first task the loop stops at in the
      rest is the one it stops at in the whole batch. */
  lemma FirstRejectedShift<P>(tasks: seq<Task<P>>, opid: Option<string>, encode: Encoder<P>, e: Exception)
    requires |tasks| > 0 && Accepted(tasks[0], opid, encode)
    requires exists k :: IsFirstRejected(tasks[1..], opid, encode, k) && Step(tasks[1..][k], opid, encode) == Failure(e)
    ensures exists k :: IsFirstRejected(tasks, opid, encode, k) && Step(tasks[k], opid, encode) == Failure(e)
  {
    var k :| IsFirstRejected(tasks[1..], opid, encode, k) && Step(tasks[1..][k], opid, encode) == Failure(e);
    assert tasks[1..][k] == tasks[k + 1];
    assert forall j :: 1 <= j < k + 1 ==> tasks[1..][j - 1] == tasks[j];
    assert IsFirstRejected(tasks, opid, encode, k + 1);
  }

  /** `sendMessage`: one enqueue attempt, traced once if a logger is present,
      with a rejection rethrown as a dispatcher error for the queue. */
  function SendMessage(client: DispatcherClient, req: Request, attempt: Attempt): (r: AttemptReport)
    ensures |r.traces| == if client.hasLogger then 1 else 0
    ensures client.hasLogger ==>
      r.traces[0] == TraceEvent(client.source, CommandPrefix + req.queue, attempt.elapsedMs, attempt.outcome.Enqueued?)
    ensures r.failure.Some? <==> attempt.outcome.Rejected?
    ensures r.failure.Some? ==>
      && r.failure.value.cause == attempt.outcome.cause
      && QueueOfMessage(r.failure.value.message) == Some(req.queue)
      && r.failure.value.details == Some(Details(req.messageText))
  {
    var command := TraceCommand(CommandPrefix + req.queue, req.messageText);
    var success := attempt.outcome.Enqueued?;
    var traces := if client.hasLogger then [TraceEvent(client.source, command.name, attempt.elapsedMs, success)] else [];
    match attempt.outcome
    case Enqueued => AttemptReport(traces, None)
    case Rejected(cause) => AttemptReport(traces, Some(NewDispatcherError(cause, req.queue, Some(command))))
  }

  /** The dispatch loop and `Promise.all`: every request is attempted (one
      rejection does not stop the others), and the combined promise rejects
      with the error of a failed attempt. The model reports the failed
      attempt with the lowest index. */
  function DispatchAll(client: DispatcherClient, reqs: seq<Request>, attempts: seq<Attempt>): (r: AttemptReport)
    requires |attempts| == |reqs|
    ensures |r.traces| == if client.hasLogger then |reqs| else 0
    ensures client.hasLogger ==> forall j :: 0 <= j < |reqs| ==>
      r.traces[j] == TraceEvent(client.source, CommandPrefix + reqs[j].queue, attempts[j].elapsedMs, attempts[j].outcome.Enqueued?)
    ensures r.failure.None? <==> forall j :: 0 <= j < |reqs| ==> attempts[j].outcome.Enqueued?
    ensures r.failure.Some? ==>
      exists j :: && 0 <= j < |reqs| && attempts[j].outcome.Rejected?
                  && r.failure.value == NewDispatcherError(attempts[j].outcome.cause, reqs[j].queue,
                                          Some(TraceCommand(CommandPrefix + reqs[j].queue, reqs[j].messageText)))
  {
    if |reqs| == 0 then
      AttemptReport([], None)
    else
      var head := SendMessage(client, reqs[0], attempts[0]);
      var tail := DispatchAll(client, reqs[1..], attempts[1..]);
      assert forall j :: 1 <= j < |reqs| ==> reqs[1..][j - 1] == reqs[j] && attempts[1..][j - 1] == attempts[j];
      AttemptReport(head.traces + tail.traces, if head.failure.Some? then head.failure else tail.failure)
  }

  /** `send`: reject a falsy argument, normalise to an array, validate and
      build every request, and only then dispatch them all. `env(i)` is what
      happens to the i-th enqueue call. */
  function Send<P>(client: DispatcherClient, arg: TaskArg<P>, encode: Encoder<P>, env: nat -> Attempt): (r: SendReport)
    ensures arg.Falsy? ==> r == SendReport([], [], Fail(TypeError(TasksInvalid)))
    ensures (!arg.Falsy? && exists i :: 0 <= i < |Tasks(arg)| && !Accepted(Tasks(arg)[i], client.operationId, encode)) ==>
      r.requests == [] && r.traces == [] && r.outcome.Fail?
    ensures !arg.Falsy? ==> forall k :: IsFirstRejected(Tasks(arg), client.operationId, encode, k) ==>
      r.outcome == Fail(Step(Tasks(arg)[k], client.operationId, encode).error)
    ensures (!arg.Falsy? && forall i :: 0 <= i < |Tasks(arg)| ==> Accepted(Tasks(arg)[i], client.operationId, encode)) ==>
      var tasks := Tasks(arg);
      && |r.requests| == |tasks|
      && (forall i :: 0 <= i < |tasks| ==>
            && r.requests[i].queue == tasks[i].name.s
            && encode(EnvelopeOf(tasks[i], client.operationId)) == Success(r.requests[i].messageText)
            && r.requests[i].options == EnqueueOptions(tasks[i].delay, tasks[i].ttl, client.operationId))
      && |r.traces| == (if client.hasLogger then |tasks| else 0)
      && (client.hasLogger ==> forall i :: 0 <= i < |tasks| ==>
            r.traces[i] == TraceEvent(client.source, CommandPrefix + tasks[i].name.s, env(i).elapsedMs, env(i).outcome.Enqueued?))
      && (r.outcome.Pass? <==> forall i :: 0 <= i < |tasks| ==> env(i).outcome.Enqueued?)
      && (r.outcome.Fail? ==>
            exists i :: && 0 <= i < |tasks| && env(i).outcome.Rejected?
                        && r.outcome.error == DispatchFailed(NewDispatcherError(env(i).outcome.cause, tasks[i].name.s,
                                                Some(TraceCommand(CommandPrefix + tasks[i].name.s, r.requests[i].messageText)))))
  {
    if arg.Falsy? then
      SendReport([], [], Fail(TypeError(TasksInvalid)))
    else
      var tasks := Tasks(arg);
      match Prepare(tasks, client.operationId, encode)
      case Failure(e) =>
        FirstRejectedUnique(tasks, client.operationId, encode);
        SendReport([], [], Fail(e))
      case Success(reqs) =>
        var attempts := seq(|reqs|, i requires 0 <= i => env(i));
        assert forall i :: 0 <= i < |reqs| ==> attempts[i] == env(i);
        var d := DispatchAll(client, reqs, attempts);
        SendReport(reqs, d.traces, if d.failure.Some? then Fail(DispatchFailed(d.failure.value)) else Pass)
  }

  /** A batch has at most one first task the loop stops at. */
  lemma FirstRejectedUnique<P>(tasks: seq<Task<P>>, opid: Option<string>, encode: Encoder<P>)
    ensures forall k1, k2 :: IsFirstRejected(tasks, opid, encode, k1) && IsFirstRejected(tasks, opid, encode, k2) ==> k1 == k2
  {
  }
}
