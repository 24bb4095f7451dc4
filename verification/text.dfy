/** String helpers shared by the notification handlers: JavaScript truthiness of an
    optional string field, the `||` default, and the inverse of a message template. */
module Text {
  import opened Wrappers

  /** A string field is truthy when it is present and not the empty string. */
  predicate Truthy(s: Option<string>) {
    s.Some? && s.value != ""
  }

  /** `s || fallback`: the field itself when it is truthy, the fallback otherwise. */
  function OrDefault(s: Option<string>, fallback: string): (r: string)
    ensures r == fallback || (Truthy(s) && r == s.value)
    ensures Truthy(s) ==> r == s.value
  {
    if Truthy(s) then s.value else fallback
  }

  /** The text between `prefix` and `suffix` when `s` is `prefix + text + suffix`. */
  function Unwrap(s: string, prefix: string, suffix: string): (r: Option<string>)
    ensures r.Some? ==> s == prefix + r.value + suffix
  {
    if |prefix| + |suffix| <= |s| && s[..|prefix|] == prefix && s[|s| - |suffix|..] == suffix then
      var middle := s[|prefix|..|s| - |suffix|];
      assert s == s[..|prefix|] + middle + s[|s| - |suffix|..];
      Some(middle)
    else
      None
  }

  /** Filling a template and unwrapping it gives back the text that was filled in. */
  lemma UnwrapWrap(prefix: string, text: string, suffix: string)
    ensures Unwrap(prefix + text + suffix, prefix, suffix) == Some(text)
  {
  }
}
