/**
 * Boolean parsing as the injection-flag logic uses it: the literals Go's
 * `strconv.ParseBool` accepts, and nothing else.
 */
module StrConv {
  import opened Options

  const TrueLiterals: set<string> := {"1", "t", "T", "true", "TRUE", "True"}
  const FalseLiterals: set<string> := {"0", "f", "F", "false", "FALSE", "False"}

  /** `Some(b)` for an accepted literal, `None` (a syntax error) otherwise. */
  function ParseBool(s: string): (r: Option<bool>)
    ensures r == Some(true) <==> s in TrueLiterals
    ensures r == Some(false) <==> s in FalseLiterals
    ensures r == None <==> s !in TrueLiterals + FalseLiterals
  {
    if s in TrueLiterals then Some(true)
    else if s in FalseLiterals then Some(false)
    else None
  }

  /** No literal is read both ways. */
  lemma LiteralsDisjoint()
    ensures TrueLiterals !! FalseLiterals
  {
  }
}
