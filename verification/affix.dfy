/**
 Messages in this system are a fixed prefix, a variable middle and a fixed
 suffix (f-strings such as `f"User with ID {user_id} not found"`). `Strip`
 recovers the middle, so a message can be shown to carry what it was built from.
 */
module Affix {
  import opened Wrappers

  /** The middle of `s` between `prefix` and `suffix`, when `s` has that form */
  function Strip(prefix: string, suffix: string, s: string): (r: Option<string>)
    ensures r.Some? ==> prefix + r.value + suffix == s
  {
    var p := |prefix|;
    var q := |suffix|;
    if |s| >= p + q && s[..p] == prefix && s[|s| - q..] == suffix
    then
      assert s == s[..p] + s[p..|s| - q] + s[|s| - q..];
      Some(s[p..|s| - q])
    else None
  }

  /** Wrapping a middle and stripping it again gives the middle back */
  lemma StripWrap(prefix: string, middle: string, suffix: string)
    ensures Strip(prefix, suffix, prefix + middle + suffix) == Some(middle)
  {
    var s := prefix + middle + suffix;
    assert s[..|prefix|] == prefix;
    assert s[|s| - |suffix|..] == suffix;
    assert s[|prefix|..|s| - |suffix|] == middle;
  }
}
