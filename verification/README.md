# Azure queue dispatcher — Dafny model

A model of the pure logic of `nova.azure-queue-dispatcher`, a thin client that
sends named tasks into Azure storage queues. Three pieces are modelled:

- **`send` in the dispatcher client** (`client.dfy`, `client_properties.dfy`):
  a falsy argument is a `TypeError`; a single task is normalised to a
  one-element batch; every task is checked (name a string, ttl and delay
  numbers when present, delay below a non-zero ttl); the first failing task
  aborts the whole batch before anything is sent; otherwise one request per
  task — the envelope `{_meta: {opid}, _data: payload}` passed through an
  abstract encoder, plus `visibilityTimeout`/`messageTimeToLive`/`requestId`
  options — is built, index-aligned with the tasks, and every request is
  attempted. Each attempt emits one trace (when a logger is present) named
  `send message: <queue>`, and a rejected enqueue becomes a `DispatcherError`
  for that queue carrying the message text.
- **Retry options and the `Dispatcher` constructor** (`dispatcher.dfy`,
  `dispatcher_properties.dfy`): fixed defaults (4 tries, 4000 ms apart,
  3000 ms per try), `||` fallbacks where 0 means "default", a per-try timeout
  of interval − 1000 with no lower bound, rejection of every policy type but
  `'linear'`, the source name fallback `'dispatcher'`, and the service URL
  `https://<account>.queue.core.windows.net`.
- **The `DispatcherError` constructor** (`errors.dfy`): the message
  `Failed to send a message into <queue> queue`, the cause passed through,
  and `details.command` present exactly when a command is given.

JavaScript values are modelled by `Js.JsValue` (`Str | Num | Undef | Other`)
so that `typeof` checks and truthiness are exact. The queue service is an
oracle `env: nat -> Attempt` giving the outcome and elapsed time of the i-th
enqueue call. `JSON.stringify` plus base64 is a serialiser parameter that may
throw (a cyclic payload, a BigInt, a throwing `toJSON`). It runs inside the
validation loop right after a task's checks, so the loop stops at the first
task that fails its checks or whose envelope does not serialise.
Supporting modules: `Wrappers` (Option/Result/Outcome), `Strings` (one-hole
templates and their inverse), `Nova` (trace records).

Behaviour worth noting: the delay/ttl comparison is also skipped when ttl is
0, not only when it is absent; `requestTimeout` in the configuration is never
read; and no trace is emitted when the client holds no logger.

## Model

| member | source | states |
|---|---|---|
| Js.NumberOr | index.ts:68-70 | JavaScript `or` fallback on a number: the fallback exactly when v is missing, 0 or the fallback itself; otherwise v |
| Js.StringOr | index.ts:47 | JavaScript `or` fallback on a string: the fallback exactly when v is missing, empty or the fallback itself; otherwise v |
| Errors.NewDispatcherError | lib/Error.ts:8-15 | cause forwarded unchanged; message is exactly `Failed to send a message into <queue> queue` and the queue can be read back from it; details present iff a command is given, and then hold the command text |
| Errors.MessageIdentifiesQueue | lib/Error.ts:9 | two dispatcher errors with the same message were raised for the same queue |
| Client.CheckTask | lib/Client.ts:35-45 | a task passes iff it satisfies the declarative task invariant; a non-string name, a present non-number ttl, a present non-number delay each give their TypeError in that order; a dispatcher error arises exactly when the name is a string and ttl ≠ 0 and delay are numbers with ttl ≤ delay, naming the task's queue and carrying no details |
| Client.Step | lib/Client.ts:35-53 | one loop iteration: the task gets past iff it is valid and its envelope serialises; a failed check throws the check's error before serialisation is tried; a serialiser failure throws the serialiser's exception; otherwise the request holds the queue name, the serialised envelope of opid and payload, and options (delay, ttl, opid) |
| Client.Prepare | lib/Client.ts:32-54 | succeeds iff every task passes its checks and serialises, then yields one request per task, index-aligned: queue = name, message = serialised envelope of opid and payload, options = (delay, ttl, opid); on failure the error is the one thrown at the first task the loop stops at |
| Client.SendMessage | lib/Client.ts:66-84 | one trace per attempt when a logger is present, named `send message: <queue>`, success flag = enqueue succeeded; a failure is reported iff the enqueue was rejected, as a dispatcher error for that queue with the rejection's cause and the message text as details |
| Client.DispatchAll | lib/Client.ts:56-61 | every request is attempted and traced in order; the combined result fails iff some attempt was rejected, and then with that attempt's dispatcher error |
| Client.Send | lib/Client.ts:27-62 | a falsy argument is a TypeError with nothing sent; if the loop stops at some task, nothing is sent or traced and the error is the one thrown at the first such task; otherwise the requests, traces and result are those of the tasks in order, resolving iff every enqueue succeeds, else rejecting with a failed attempt's dispatcher error |
| ClientProperties.SingleIsOneElementBatch | lib/Client.ts:29 | sending one task equals sending the one-element array holding it |
| ClientProperties.RejectedBatchReportsFirstRejected | lib/Client.ts:34-61 | a batch the loop stops in sends and traces nothing and fails with the error thrown at the first task it stops at |
| ClientProperties.InvalidBatchReportsFirstInvalid | lib/Client.ts:34-61 | when every payload serialises, an invalid batch sends and traces nothing and fails with the first invalid task's check error |
| ClientProperties.ChecksPrecedeSerialisation | lib/Client.ts:35-48 | a task that fails its checks throws the check's error, whether or not its payload serialises |
| ClientProperties.SerialiseFailureStopsBatch | lib/Client.ts:34-54 | a valid task whose envelope does not serialise aborts the batch with the serialiser's exception, nothing sent, later tasks unexamined |
| ClientProperties.RejectedBatchIgnoresService | lib/Client.ts:34-61 | the result for a batch the loop stops in is independent of every enqueue outcome |
| ClientProperties.PrepareStopsAtFirstFailure | lib/Client.ts:34-54 | once a prefix stops the loop, appending more tasks changes nothing |
| ClientProperties.FalsyTtlAcceptsAnyDelay | lib/Client.ts:39-45 | with ttl absent or 0, any numeric delay passes |
| ClientProperties.DelayNotBelowTtlRejected | lib/Client.ts:41-44 | a non-zero ttl not above the delay raises a dispatcher error for the task's queue with no details |
| ClientProperties.MessageCarriesEnvelope | lib/Client.ts:47-48 | for any decoder inverting the serialiser where it succeeds, every sent message decodes to the envelope of the client's opid and the task's payload unchanged |
| ClientProperties.ValidBatchAllEnqueued | lib/Client.ts:56-61 | a batch that passes the loop and whose enqueues all succeed resolves, sends one request per task and traces only successes |
| ClientProperties.SampleTaskAccepted | tests/test.ts:13-27 | the test's task (ttl 20, delay 10), its payload serialising, becomes one request to `test-queue1` with visibility 10 and time-to-live 20 |
| DispatcherFactory.BuildRetryOptions | index.ts:61-73 | no policy gives the defaults; a policy fails iff its type is not `'linear'`, with a TypeError; every result is FIXED with timeout = delay − 1000; maxTries is retryCount when truthy else 4, retryDelayInMs is retryInterval when truthy else 4000 |
| DispatcherFactory.ServiceUrl | index.ts:48 | the URL is `https://<account>.queue.core.windows.net` and the account can be read back from it |
| DispatcherFactory.NewDispatcher | index.ts:38-49 | a missing config is a TypeError; otherwise succeeds iff the retry policy builds; source is (name when truthy else `'dispatcher'`, `'azure queue'`); the URL names the account; credentials hold account and key; the pipeline holds the built retry options |
| DispatcherProperties.NoPolicyGivesDefaults | index.ts:14-27 | no policy gives FIXED, 4 tries, 4000 ms delay, 3000 ms timeout |
| DispatcherProperties.FalsyCountsMeanDefaults | index.ts:68-70 | a linear policy with missing or zero count and interval builds exactly the defaults |
| DispatcherProperties.OptionsDependOnEffectiveValues | index.ts:66-71 | two linear policies with the same fallback-resolved count and interval build the same options |
| DispatcherProperties.OnlyLinearAccepted | index.ts:64 | a policy builds iff its type is exactly `'linear'`, else a TypeError |
| DispatcherProperties.ShortIntervalGivesNonPositiveTimeout | index.ts:65-70 | an interval of at most one second gives a per-try timeout of interval − 1000, which is not positive |
| DispatcherProperties.RequestTimeoutIgnored | index.ts:38-49 | changing `requestTimeout` does not change the dispatcher |
| DispatcherProperties.SourceNameFallback | index.ts:47 | a missing or empty name gives `'dispatcher'`, any other name is kept |
| DispatcherProperties.ServiceUrlInjective | index.ts:48 | different accounts get different service URLs |
| DispatcherProperties.SampleConfigAccepted | tests/test.ts:8-11 | the test's configuration builds a dispatcher with the default source and retry options |

## Left out

- The storage SDK calls (queue/message URLs, `enqueue`, shared-key credentials, pipeline construction) are foreign network calls: the enqueue is the outcome oracle, credentials and pipeline are plain records.
- `JSON.stringify` and the base64 conversion are library calls: the serialiser is a parameter that may throw, and the round-trip is stated for any decoder that inverts it where it succeeds.
- Client.DispatchAll: `Promise.all` runs the attempts concurrently and rejects with whichever rejection comes first in time. The model runs them in array order. It reports the lowest failed index, and the traces come out in array order. The contracts promise only that the error comes from some failed attempt.
- Client.Send: for the same reason, its rejection is promised only to be the dispatcher error of some failed attempt, not of the first to reject in time, and its traces are listed in array order.
- `Date.now()`: elapsed time is the oracle's unconstrained `elapsedMs`.
- `getClient`: it passes `(service, logger, source)` to a constructor taking `(service, source, operationId, logger)` and falls back to the framework's global logger. It is not modelled. The client is modelled directly by its source, operation id and logger presence.
- A logger whose `trace` call throws is not modelled: a throw inside the success branch would be caught and traced a second time.
- Batch elements that are not objects (e.g. `null`), for which reading `name` throws a TypeError, are not modelled. Tasks are records.
- NaN and fractional numbers are not modelled: numbers are integers. Retry counts and intervals are declared numbers and are modelled as optional integers, so a non-number value there is not modelled.
- The base exception class's other fields (stack, name) belong to the host framework.
- The compiled `bin/` directory is an older build with different behaviour and is not part of this model.
