/** Properties of retry-option construction and of the values the
    dispatcher derives from its configuration. */
module DispatcherProperties {
  import opened Wrappers
  import opened Js
  import opened Nova
  import opened Errors
  import opened DispatcherFactory

  /** Without a retry policy the options are the fixed defaults: four tries,
      four seconds apart, three seconds per try. */
  lemma NoPolicyGivesDefaults()
    ensures BuildRetryOptions(None) == Success(RetryOptions(Fixed, 4, 4000, 3000))
  {
  }

  /** In a linear policy, a missing or zero count or interval means "use the
      default": such a policy builds exactly the default options. */
  lemma FalsyCountsMeanDefaults(count: Option<int>, interval: Option<int>)
    requires count == None || count == Some(0)
    requires interval == None || interval == Some(0)
    ensures BuildRetryOptions(Some(RetryPolicy(Str("linear"), count, interval))) == BuildRetryOptions(None)
  {
  }

  /** The options of a linear policy depend on its count and interval only
      through their `||` fallbacks. */
  lemma OptionsDependOnEffectiveValues(p: RetryPolicy, q: RetryPolicy)
    requires p.policyType == Str("linear") && q.policyType == Str("linear")
    requires NumberOr(p.retryCount, DefaultMaxTries) == NumberOr(q.retryCount, DefaultMaxTries)
    requires NumberOr(p.retryInterval, DefaultTryDelay) == NumberOr(q.retryInterval, DefaultTryDelay)
    ensures BuildRetryOptions(Some(p)) == BuildRetryOptions(Some(q))
  {
  }

  /** Only the policy type `'linear'` is accepted; anything else, including a
      missing type, is a `TypeError`. */
  lemma OnlyLinearAccepted(t: JsValue, count: Option<int>, interval: Option<int>)
    ensures BuildRetryOptions(Some(RetryPolicy(t, count, interval))).Success? <==> t == Str("linear")
    ensures t != Str("linear") ==>
      BuildRetryOptions(Some(RetryPolicy(t, count, interval))) == Failure(TypeError("Retry policy type is invalid"))
  {
  }

  /** Nothing bounds the per-try timeout from below: an interval of at most
      one second gives a timeout of zero or less. */
  lemma ShortIntervalGivesNonPositiveTimeout(count: Option<int>, interval: int)
    requires interval != 0 && interval <= 1000
    ensures var r := BuildRetryOptions(Some(RetryPolicy(Str("linear"), count, Some(interval))));
      r.Success? && r.value.tryTimeoutInMs == interval - 1000 && r.value.tryTimeoutInMs <= 0
  {
  }

  /** The configured `requestTimeout` has no effect on the dispatcher. */
  lemma RequestTimeoutIgnored(c: DispatcherConfig, timeout: Option<int>)
    ensures NewDispatcher(Some(c)) == NewDispatcher(Some(c.(requestTimeout := timeout)))
  {
  }

  /** A missing or empty name falls back to `'dispatcher'`; any other name is
      used as given. */
  lemma SourceNameFallback(c: DispatcherConfig)
    requires NewDispatcher(Some(c)).Success?
    ensures c.name == None || c.name == Some("") ==> NewDispatcher(Some(c)).value.source.name == "dispatcher"
    ensures c.name.Some? && c.name.value != "" ==> NewDispatcher(Some(c)).value.source.name == c.name.value
  {
  }

  /** Different storage accounts get different service URLs. */
  lemma ServiceUrlInjective(a: string, b: string)
    requires ServiceUrl(a) == ServiceUrl(b)
    ensures a == b
  {
    assert AccountOfServiceUrl(ServiceUrl(a)) == Some(a);
  }

  /** The configuration of the repository's own test builds a dispatcher
      with the default retry options and the default source name. */
  lemma SampleConfigAccepted()
    ensures var r := NewDispatcher(Some(DispatcherConfig(None, "", "", None, None)));
      && r.Success?
      && r.value.source == TraceSource("dispatcher", "azure queue")
      && r.value.serviceUrl == "https://.queue.core.windows.net"
      && r.value.pipeline.retryOptions == DefaultRetryOptions
  {
    assert "https://" + "" + ".queue.core.windows.net" == "https://.queue.core.windows.net";
  }
}
