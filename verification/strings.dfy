/** Building a string by wrapping a value between a fixed prefix and suffix,
    and recovering the value again. Both the error message and the service
    URL are built this way, so both carry the wrapped name recoverably. */
module Strings {
  import opened Wrappers

  /** `prefix + x + suffix`, the shape of a template literal with one hole. */
  function Wrap(prefix: string, x: string, suffix: string): (r: string)
    ensures |r| == |prefix| + |x| + |suffix|
    ensures r[..|prefix|] == prefix
    ensures r[|prefix|..|prefix| + |x|] == x
    ensures r[|prefix| + |x|..] == suffix
  {
    prefix + x + suffix
  }

  /** The hole of a one-hole template, if `s` has the template's shape. */
  function Unwrap(s: string, prefix: string, suffix: string): (r: Option<string>)
    ensures r.Some? <==>
      |prefix| + |suffix| <= |s| && s[..|prefix|] == prefix && s[|s| - |suffix|..] == suffix
    ensures r.Some? ==> Wrap(prefix, r.value, suffix) == s
  {
    if |prefix| + |suffix| <= |s| && s[..|prefix|] == prefix && s[|s| - |suffix|..] == suffix then
      var x := s[|prefix|..|s| - |suffix|];
      assert s == s[..|prefix|] + x + s[|s| - |suffix|..];
      Some(x)
    else
      None
  }

  /** Unwrapping a wrapped value gives the value back. */
  lemma UnwrapWrap(prefix: string, x: string, suffix: string)
    ensures Unwrap(Wrap(prefix, x, suffix), prefix, suffix) == Some(x)
  {
    var s := Wrap(prefix, x, suffix);
    assert s[|s| - |suffix|..] == suffix;
    assert s[|prefix|..|s| - |suffix|] == x;
  }

  /** Different values wrapped in the same template give different strings. */
  lemma WrapInjective(prefix: string, x: string, y: string, suffix: string)
    requires Wrap(prefix, x, suffix) == Wrap(prefix, y, suffix)
    ensures x == y
  {
    UnwrapWrap(prefix, x, suffix);
    UnwrapWrap(prefix, y, suffix);
  }
}
