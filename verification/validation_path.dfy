/**
 * The location of a host reference inside an authorization policy, and its
 * rendering as the path string `spec/rules[i]/to[j]/operation/hosts[k]` that
 * a validation finding carries. A parser for that form is the rendering's
 * inverse, which shows that distinct locations never share a path string.
 */
module ValidationPath {
  import opened Options

  /** Zero-based rule index, operation (`to`) index and host index. */
  datatype Path = Path(rule: nat, to: nat, host: nat)

  const RulesPrefix: string := "spec/rules["
  const ToInfix: string := "]/to["
  const HostsInfix: string := "]/operation/hosts["
  const Close: string := "]"

  predicate IsDigit(c: char) {
    '0' <= c <= '9'
  }

  predicate AllDigits(s: string) {
    forall i :: 0 <= i < |s| ==> IsDigit(s[i])
  }

  function DigitChar(d: nat): (c: char)
    requires d < 10
    ensures IsDigit(c)
  {
    ('0' as int + d) as char
  }

  function DigitValue(c: char): (d: nat)
    requires IsDigit(c)
    ensures d < 10
  {
    c as int - '0' as int
  }

  /** Decimal form of `n`, without leading zeros. */
  function NatToString(n: nat): (s: string)
    ensures |s| > 0
    ensures AllDigits(s)
    decreases n
  {
    if n < 10 then [DigitChar(n)] else NatToString(n / 10) + [DigitChar(n % 10)]
  }

  /** The number a string of decimal digits denotes. */
  function DigitsValue(s: string): nat
    requires AllDigits(s)
    decreases |s|
  {
    if |s| == 0 then 0 else DigitsValue(s[..|s| - 1]) * 10 + DigitValue(s[|s| - 1])
  }

  lemma {:induction false} DigitsValueOfNatToString(n: nat)
    ensures DigitsValue(NatToString(n)) == n
    decreases n
  {
    var s := NatToString(n);
    if n < 10 {
      assert DigitValue(DigitChar(n)) == n;
    } else {
      var prefix := NatToString(n / 10);
      assert s == prefix + [DigitChar(n % 10)];
      assert s[..|s| - 1] == prefix;
      DigitsValueOfNatToString(n / 10);
      assert DigitValue(DigitChar(n % 10)) == n % 10;
    }
  }

  function Render(p: Path): (s: string)
    ensures |s| > |RulesPrefix|
  {
    RulesPrefix + (NatToString(p.rule) + (ToInfix + (NatToString(p.to)
      + (HostsInfix + (NatToString(p.host) + Close)))))
  }

  /** The first two host locations of the first operation, as their path strings. */
  lemma FirstHostPaths()
    ensures Render(Path(0, 0, 0)) == "spec/rules[0]/to[0]/operation/hosts[0]"
    ensures Render(Path(0, 0, 1)) == "spec/rules[0]/to[0]/operation/hosts[1]"
  {
    FirstHostPath(0, "spec/rules[0]/to[0]/operation/hosts[0]");
    FirstHostPath(1, "spec/rules[0]/to[0]/operation/hosts[1]");
  }

  lemma FirstHostPath(k: nat, expected: string)
    requires k < 10 && |expected| == 38
    requires expected[..36] == "spec/rules[0]/to[0]/operation/hosts["
    requires expected[36] == DigitChar(k) && expected[37] == ']'
    ensures Render(Path(0, 0, k)) == expected
  {
    var toPart := ['0'] + HostsInfix;
    assert toPart == "0]/operation/hosts[";
    var rulePart := ['0'] + (ToInfix + toPart);
    assert rulePart == "0]/to[0]/operation/hosts[";
    var head := RulesPrefix + rulePart;
    assert head == "spec/rules[0]/to[0]/operation/hosts[";
    assert Render(Path(0, 0, k)) == head + ([DigitChar(k)] + Close);
    assert expected == expected[..36] + ([expected[36]] + [expected[37]]);
  }

  /** Length of the longest prefix of `s` made of digits. */
  function LeadingDigits(s: string): (n: nat)
    ensures n <= |s|
    ensures AllDigits(s[..n])
    ensures n < |s| ==> !IsDigit(s[n])
    decreases |s|
  {
    if |s| > 0 && IsDigit(s[0]) then
      var m := LeadingDigits(s[1..]);
      assert s[..m + 1] == [s[0]] + s[1..][..m];
      m + 1
    else
      0
  }

  /**
   * Reads a non-empty run of digits followed by `delimiter`; returns the
   * number and what follows the delimiter.
   */
  function ParseIndex(s: string, delimiter: string): (r: Option<(nat, string)>)
    ensures r.Some? ==> |r.value.1| < |s|
  {
    var n := LeadingDigits(s);
    if n == 0 || |s| - n < |delimiter| || s[n..n + |delimiter|] != delimiter then None
    else Some((DigitsValue(s[..n]), s[n + |delimiter|..]))
  }

  function ParsePath(s: string): Option<Path> {
    if |s| < |RulesPrefix| || s[..|RulesPrefix|] != RulesPrefix then None
    else
      match ParseIndex(s[|RulesPrefix|..], ToInfix)
      case None => None
      case Some((i, afterRule)) =>
        match ParseIndex(afterRule, HostsInfix)
        case None => None
        case Some((j, afterTo)) =>
          match ParseIndex(afterTo, Close)
          case None => None
          case Some((k, rest)) => if rest == [] then Some(Path(i, j, k)) else None
  }

  lemma {:induction false} LeadingDigitsOfNumber(d: string, rest: string)
    requires AllDigits(d)
    requires |rest| > 0 && !IsDigit(rest[0])
    ensures LeadingDigits(d + rest) == |d|
    decreases |d|
  {
    if |d| > 0 {
      assert (d + rest)[1..] == d[1..] + rest;
      LeadingDigitsOfNumber(d[1..], rest);
    } else {
      assert d + rest == rest;
    }
  }

  lemma ParseIndexOfNumber(n: nat, delimiter: string, rest: string)
    requires |delimiter| > 0 && !IsDigit(delimiter[0])
    ensures ParseIndex(NatToString(n) + (delimiter + rest), delimiter) == Some((n, rest))
  {
    var d := NatToString(n);
    var s := d + (delimiter + rest);
    LeadingDigitsOfNumber(d, delimiter + rest);
    assert s[..|d|] == d;
    assert s[|d|..|d| + |delimiter|] == delimiter;
    assert s[|d| + |delimiter|..] == rest;
    DigitsValueOfNatToString(n);
  }

  /** Parsing a rendered path gives the path back. */
  lemma RenderParseRoundTrip(p: Path)
    ensures ParsePath(Render(p)) == Some(p)
  {
    var s := Render(p);
    var hostPart := NatToString(p.host) + Close;
    var toPart := NatToString(p.to) + (HostsInfix + hostPart);
    var rulePart := NatToString(p.rule) + (ToInfix + toPart);
    assert s == RulesPrefix + rulePart;
    assert s[..|RulesPrefix|] == RulesPrefix;
    assert s[|RulesPrefix|..] == rulePart;
    ParseIndexOfNumber(p.rule, ToInfix, toPart);
    ParseIndexOfNumber(p.to, HostsInfix, hostPart);
    assert hostPart == NatToString(p.host) + (Close + []);
    ParseIndexOfNumber(p.host, Close, []);
  }

  /** Two findings at different locations never carry the same path string. */
  lemma RenderInjective(p: Path, q: Path)
    ensures Render(p) == Render(q) <==> p == q
  {
    if Render(p) == Render(q) {
      RenderParseRoundTrip(p);
      RenderParseRoundTrip(q);
    }
  }
}
