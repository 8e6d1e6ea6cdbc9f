/** The dispatcher entry point (index.ts): the retry options handed to the
    storage pipeline and the values the `Dispatcher` constructor derives from
    its configuration. */
module DispatcherFactory {
  import opened Wrappers
  import opened Js
  import opened Nova
  import opened Errors
  import Strings

  const DefaultTryDelay := 4000
  const DefaultMaxTries := 4

  /** The storage SDK's retry policy kinds, in declaration order. */
  datatype RetryPolicyType = Exponential | Fixed

  /** The retry options record passed to the storage pipeline. */
  datatype RetryOptions = RetryOptions(retryPolicyType: RetryPolicyType, maxTries: int, retryDelayInMs: int, tryTimeoutInMs: int)

  const DefaultRetryOptions := RetryOptions(Fixed, DefaultMaxTries, DefaultTryDelay, DefaultTryDelay - 1000)

  /** A retry policy as configured. `policyType` is checked at run time, so it
      is kept dynamic; the counts are declared numbers and may be missing. */
  datatype RetryPolicy = RetryPolicy(policyType: JsValue, retryCount: Option<int>, retryInterval: Option<int>)

  /** The dispatcher configuration. `requestTimeout` is accepted but unused. */
  datatype DispatcherConfig = DispatcherConfig(
    name: Option<string>,
    account: string,
    accessKey: string,
    requestTimeout: Option<int>,
    retryPolicy: Option<RetryPolicy>)

  /** The shared-key credential and the pipeline built from it. */
  datatype Credentials = SharedKeyCredential(account: string, accessKey: string)
  datatype Pipeline = Pipeline(credentials: Credentials, retryOptions: RetryOptions)

  /** A constructed dispatcher: its trace source and the service it talks to. */
  datatype Dispatcher = Dispatcher(source: TraceSource, serviceUrl: string, pipeline: Pipeline)

  const RetryPolicyInvalid := "Retry policy type is invalid"
  const ConfigUndefined := "Cannot create Dispatcher: config is undefined"
  const DefaultSourceName := "dispatcher"
  const SourceType := "azure queue"
  const UrlPrefix := "https://"
  const UrlSuffix := ".queue.core.windows.net"

  /** Retry options every successful build produces: a fixed policy whose
      per-try timeout is one second shorter than the delay between tries. */
  predicate FixedShape(o: RetryOptions) {
    o.retryPolicyType == Fixed && o.tryTimeoutInMs == o.retryDelayInMs - 1000
  }

  /** `buildRetryOptions`. */
  function BuildRetryOptions(policy: Option<RetryPolicy>): (r: Result<RetryOptions, Exception>)
    ensures policy.None? ==> r == Success(DefaultRetryOptions)
    ensures policy.Some? ==> (r.Failure? <==> policy.value.policyType != Str("linear"))
    ensures r.Failure? ==> r.error == TypeError(RetryPolicyInvalid)
    ensures r.Success? ==> FixedShape(r.value)
    ensures r.Success? && policy.Some? ==>
      var p := policy.value;
      && r.value.maxTries == (if p.retryCount.Some? && p.retryCount.value != 0 then p.retryCount.value else 4)
      && r.value.retryDelayInMs == (if p.retryInterval.Some? && p.retryInterval.value != 0 then p.retryInterval.value else 4000)
  {
    match policy
    case None => Success(DefaultRetryOptions)
    case Some(p) =>
      if p.policyType != Str("linear") then
        Failure(TypeError(RetryPolicyInvalid))
      else
        Success(RetryOptions(
          Fixed,
          NumberOr(p.retryCount, DefaultMaxTries),
          NumberOr(p.retryInterval, DefaultTryDelay),
          NumberOr(p.retryInterval, DefaultTryDelay) - 1000))
  }

  /** The service URL for a storage account. */
  function ServiceUrl(account: string): (url: string)
    ensures url == "https://" + account + ".queue.core.windows.net"
    ensures AccountOfServiceUrl(url) == Some(account)
  {
    Strings.UnwrapWrap(UrlPrefix, account, UrlSuffix);
    Strings.Wrap(UrlPrefix, account, UrlSuffix)
  }

  /** The storage account a queue service URL points at. */
  function AccountOfServiceUrl(url: string): Option<string> {
    Strings.Unwrap(url, UrlPrefix, UrlSuffix)
  }

  /** The `Dispatcher` constructor. A missing configuration and an invalid
      retry policy are both thrown as `TypeError`s. */
  function NewDispatcher(config: Option<DispatcherConfig>): (r: Result<Dispatcher, Exception>)
    ensures config.None? ==> r == Failure(TypeError(ConfigUndefined))
    ensures config.Some? ==> (r.Success? <==> BuildRetryOptions(config.value.retryPolicy).Success?)
    ensures config.Some? && r.Failure? ==> r.error == TypeError(RetryPolicyInvalid)
    ensures r.Success? ==>
      && r.value.source.sourceType == "azure queue"
      && r.value.source.name == StringOr(config.value.name, "dispatcher")
      && AccountOfServiceUrl(r.value.serviceUrl) == Some(config.value.account)
      && r.value.pipeline.credentials == SharedKeyCredential(config.value.account, config.value.accessKey)
      && Success(r.value.pipeline.retryOptions) == BuildRetryOptions(config.value.retryPolicy)
  {
    match config
    case None => Failure(TypeError(ConfigUndefined))
    case Some(c) =>
      var credentials := SharedKeyCredential(c.account, c.accessKey);
      match BuildRetryOptions(c.retryPolicy)
      case Failure(e) => Failure(e)
      case Success(retryOptions) =>
        var source := TraceSource(StringOr(c.name, DefaultSourceName), SourceType);
        Success(Dispatcher(source, ServiceUrl(c.account), Pipeline(credentials, retryOptions)))
  }
}
