/**
 * Wildcard-aware hostname matching used when a policy host is compared with
 * a declared inventory hostname: `*` matches anything, `*.suffix` matches any
 * strict subdomain of `suffix`, and otherwise hosts match only when equal.
 * Either side may carry the wildcard.
 */
module DomainMatch {

  /** A pattern of the form `*.suffix`. */
  predicate IsWildcard(h: string) {
    |h| >= 2 && h[0] == '*' && h[1] == '.'
  }

  predicate EndsWith(s: string, suffix: string) {
    |suffix| <= |s| && s[|s| - |suffix|..] == suffix
  }

  /**
   * `pattern` is `*.X` and `candidate` is `Y.X` with `Y` non-empty: the
   * wildcard stands for at least one character before the dot.
   */
  predicate SuffixMatch(pattern: string, candidate: string) {
    IsWildcard(pattern) && |candidate| > |pattern| - 1 && EndsWith(candidate, pattern[1..])
  }

  predicate HostsMatch(a: string, b: string) {
    a == "*" || b == "*" || SuffixMatch(a, b) || SuffixMatch(b, a) || a == b
  }

  /** One differing character within the suffix's span rules the suffix out. */
  lemma NotEndsWithAt(s: string, suffix: string, k: nat)
    requires |suffix| <= |s| && k < |suffix|
    requires s[|s| - |suffix| + k] != suffix[k]
    ensures !EndsWith(s, suffix)
  {
    var tail := s[|s| - |suffix|..];
    assert tail[k] != suffix[k];
  }

  /** The wildcard side may be either argument. */
  lemma HostsMatchSymmetric(a: string, b: string)
    ensures HostsMatch(a, b) <==> HostsMatch(b, a)
  {
  }

  /** `*.X` matches exactly the names `Y.X` with a non-empty `Y`. */
  lemma SuffixMatchIff(x: string, candidate: string)
    ensures SuffixMatch("*." + x, candidate) <==> exists y :: |y| > 0 && candidate == y + "." + x
  {
    var pattern := "*." + x;
    assert pattern[1..] == "." + x;
    if SuffixMatch(pattern, candidate) {
      var y := candidate[..|candidate| - |x| - 1];
      assert candidate == y + candidate[|candidate| - |x| - 1..];
      assert candidate == y + "." + x;
    }
    if exists y :: |y| > 0 && candidate == y + "." + x {
      var y :| |y| > 0 && candidate == y + "." + x;
      assert candidate[|candidate| - |x| - 1..] == "." + x;
    }
  }

  /** `*.X` matches `Y.X` and deeper names `a.b.X`. */
  lemma WildcardMatchesSubdomain(x: string, y: string)
    requires |y| > 0
    ensures HostsMatch("*." + x, y + "." + x)
  {
    SuffixMatchIff(x, y + "." + x);
  }

  /** `*.X` does not match the bare domain `X`. */
  lemma WildcardExcludesApex(x: string)
    requires x != "*" && !IsWildcard(x)
    ensures !HostsMatch("*." + x, x)
  {
    assert |"*." + x| == |x| + 2;
  }
}
