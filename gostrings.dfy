/** The functions of Go's package strings that the CSV tools use. */
module GoStrings {

  predicate HasPrefix(s: string, prefix: string) {
    |prefix| <= |s| && s[..|prefix|] == prefix
  }

  predicate HasSuffix(s: string, suffix: string) {
    |suffix| <= |s| && s[|s| - |suffix|..] == suffix
  }

  /** strings.TrimSuffix: drops the suffix once, only when it is there. */
  function TrimSuffix(s: string, suffix: string): (r: string)
    ensures HasSuffix(s, suffix) ==> r + suffix == s
    ensures !HasSuffix(s, suffix) ==> r == s
  {
    if HasSuffix(s, suffix) then s[..|s| - |suffix|] else s
  }

  /** strings.TrimPrefix: drops the prefix once, only when it is there. */
  function TrimPrefix(s: string, prefix: string): (r: string)
    ensures HasPrefix(s, prefix) ==> prefix + r == s
    ensures !HasPrefix(s, prefix) ==> r == s
  {
    if HasPrefix(s, prefix) then s[|prefix|..] else s
  }

  lemma TrimSuffixOfAppend(s: string, suffix: string)
    ensures HasSuffix(s + suffix, suffix) && TrimSuffix(s + suffix, suffix) == s
  {
    assert (s + suffix)[|s|..] == suffix;
    assert (s + suffix)[..|s|] == s;
  }

  lemma TrimPrefixOfPrepend(prefix: string, s: string)
    ensures HasPrefix(prefix + s, prefix) && TrimPrefix(prefix + s, prefix) == s
  {
    assert (prefix + s)[..|prefix|] == prefix;
    assert (prefix + s)[|prefix|..] == s;
  }
}
