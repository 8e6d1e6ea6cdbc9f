/** Properties of the dispatcher client that relate several calls or hold
    for whole families of inputs. */
module ClientProperties {
  import opened Wrappers
  import opened Js
  import opened Nova
  import opened Errors
  import opened Client

  /** Sending one task is the same as sending the one-element array holding it. */
  lemma SingleIsOneElementBatch<P>(client: DispatcherClient, t: Task<P>, encode: Encoder<P>, env: nat -> Attempt)
    ensures Send(client, Single(t), encode, env) == Send(client, Batch([t]), encode, env)
  {
  }

  /** A batch the loop stops in sends and traces nothing, and the error is
      the one raised at the first task it stops at. */
  lemma RejectedBatchReportsFirstRejected<P>(client: DispatcherClient, arg: TaskArg<P>, encode: Encoder<P>, env: nat -> Attempt)
    requires !arg.Falsy?
    requires exists i :: 0 <= i < |Tasks(arg)| && !Accepted(Tasks(arg)[i], client.operationId, encode)
    ensures var r := Send(client, arg, encode, env);
      && r.requests == [] && r.traces == []
      && exists k :: IsFirstRejected(Tasks(arg), client.operationId, encode, k)
                  && r.outcome == Fail(Step(Tasks(arg)[k], client.operationId, encode).error)
  {
  }

  /** When every payload serialises, an invalid batch fails with the error of
      its first invalid task, whatever the tasks after it hold. */
  lemma InvalidBatchReportsFirstInvalid<P>(client: DispatcherClient, arg: TaskArg<P>, encode: Encoder<P>, env: nat -> Attempt)
    requires !arg.Falsy?
    requires forall i :: 0 <= i < |Tasks(arg)| ==> encode(EnvelopeOf(Tasks(arg)[i], client.operationId)).Success?
    requires exists i :: 0 <= i < |Tasks(arg)| && !ValidTask(Tasks(arg)[i])
    ensures var r := Send(client, arg, encode, env);
      && r.requests == [] && r.traces == []
      && exists k :: IsFirstInvalid(Tasks(arg), k) && r.outcome == CheckTask(Tasks(arg)[k])
  {
    var tasks, opid := Tasks(arg), client.operationId;
    var i :| 0 <= i < |tasks| && !ValidTask(tasks[i]);
    assert !Accepted(tasks[i], opid, encode);
    assert Prepare(tasks, opid, encode).Failure?;
    var k :| IsFirstRejected(tasks, opid, encode, k);
    assert encode(EnvelopeOf(tasks[k], opid)).Success?;
    assert IsFirstInvalid(tasks, k);
  }

  /** Validation throws before the serialiser runs: a task that fails its
      checks reports the check's error even when its payload cannot be
      serialised. */
  lemma ChecksPrecedeSerialisation<P>(t: Task<P>, opid: Option<string>, encode: Encoder<P>)
    requires !ValidTask(t)
    ensures Step(t, opid, encode) == Failure(CheckTask(t).error)
  {
  }

  /** A valid task whose payload cannot be serialised stops the batch there:
      nothing is sent, the serialiser's exception is thrown, and the tasks
      after it are not examined. */
  lemma SerialiseFailureStopsBatch<P>(client: DispatcherClient, t: Task<P>, rest: seq<Task<P>>, encode: Encoder<P>, env: nat -> Attempt)
    requires ValidTask(t)
    requires encode(EnvelopeOf(t, client.operationId)).Failure?
    ensures Send(client, Batch([t] + rest), encode, env)
         == SendReport([], [], Fail(encode(EnvelopeOf(t, client.operationId)).error))
  {
    assert IsFirstRejected([t] + rest, client.operationId, encode, 0);
  }

  /** Validation happens before anything is sent: the result of sending a
      batch the loop stops in does not depend on the queue service. */
  lemma RejectedBatchIgnoresService<P>(client: DispatcherClient, arg: TaskArg<P>, encode: Encoder<P>,
                                       env1: nat -> Attempt, env2: nat -> Attempt)
    requires !arg.Falsy?
    requires exists i :: 0 <= i < |Tasks(arg)| && !Accepted(Tasks(arg)[i], client.operationId, encode)
    ensures Send(client, arg, encode, env1) == Send(client, arg, encode, env2)
  {
  }

  /** Once a prefix of the batch stops the loop, the tasks after it are
      never looked at. */
  lemma {:induction false} PrepareStopsAtFirstFailure<P>(a: seq<Task<P>>, b: seq<Task<P>>, opid: Option<string>, encode: Encoder<P>)
    requires Prepare(a, opid, encode).Failure?
    ensures Prepare(a + b, opid, encode) == Prepare(a, opid, encode)
  {
    assert (a + b)[0] == a[0];
    if Step(a[0], opid, encode).Success? {
      assert (a + b)[1..] == a[1..] + b;
      PrepareStopsAtFirstFailure(a[1..], b, opid, encode);
    }
  }

  /** A missing or zero time-to-live never triggers the delay comparison:
      any numeric delay is accepted. */
  lemma FalsyTtlAcceptsAnyDelay<P>(name: string, payload: P, ttl: JsValue, delay: int)
    requires ttl == Undef || ttl == Num(0)
    ensures CheckTask(Task(Str(name), payload, ttl, Num(delay))) == Pass
  {
  }

  /** A non-zero time-to-live that does not exceed the delay is rejected with
      a dispatcher error for the task's queue that carries no details. */
  lemma DelayNotBelowTtlRejected<P>(name: string, payload: P, ttl: int, delay: int)
    requires ttl != 0 && ttl <= delay
    ensures var r := CheckTask(Task(Str(name), payload, Num(ttl), Num(delay)));
      && r.Fail? && r.error.DispatchFailed?
      && QueueOfMessage(r.error.error.message) == Some(name)
      && r.error.error.details.None?
      && r.error.error.cause == Cause(DelayNotBelowTtl)
  {
  }

  /** `decode` undoes `encode` wherever `encode` succeeds. */
  ghost predicate LeftInverse<P(!new)>(encode: Encoder<P>, decode: string -> Envelope<P>) {
    forall e :: encode(e).Success? ==> decode(encode(e).value) == e
  }

  /** Each enqueued message decodes to the envelope carrying the client's
      operation id and the task's payload unchanged. */
  lemma MessageCarriesEnvelope<P(!new)>(client: DispatcherClient, arg: TaskArg<P>, encode: Encoder<P>,
                                        decode: string -> Envelope<P>, env: nat -> Attempt, i: int)
    requires LeftInverse(encode, decode)
    requires 0 <= i < |Send(client, arg, encode, env).requests|
    ensures i < |Tasks(arg)|
    ensures decode(Send(client, arg, encode, env).requests[i].messageText) == Envelope(Meta(client.operationId), Tasks(arg)[i].payload)
  {
    assert encode(EnvelopeOf(Tasks(arg)[i], client.operationId)).Success?;
  }

  /** With every enqueue succeeding, an accepted batch resolves and each
      attempt is traced as a success. */
  lemma ValidBatchAllEnqueued<P>(client: DispatcherClient, arg: TaskArg<P>, encode: Encoder<P>, env: nat -> Attempt)
    requires !arg.Falsy?
    requires forall i :: 0 <= i < |Tasks(arg)| ==> Accepted(Tasks(arg)[i], client.operationId, encode)
    requires forall i :: 0 <= i < |Tasks(arg)| ==> env(i).outcome.Enqueued?
    ensures var r := Send(client, arg, encode, env);
      && r.outcome == Pass
      && |r.requests| == |Tasks(arg)|
      && forall t :: t in r.traces ==> t.success
  {
  }

  /** The task sent by the repository's own test (ttl 20, delay 10), whose
      payload serialises, becomes a single request with those options. */
  lemma SampleTaskAccepted<P>(client: DispatcherClient, payload: P, encode: Encoder<P>, env: nat -> Attempt)
    requires encode(Envelope(Meta(client.operationId), payload)).Success?
    ensures var r := Send(client, Single(Task(Str("test-queue1"), payload, Num(20), Num(10))), encode, env);
      && |r.requests| == 1
      && r.requests[0].queue == "test-queue1"
      && r.requests[0].options == EnqueueOptions(Num(10), Num(20), client.operationId)
  {
    var t := Task(Str("test-queue1"), payload, Num(20), Num(10));
    assert Accepted(t, client.operationId, encode);
  }
}
