/**
 * The authorization-policy host checker: every host named in a policy rule's
 * `to` operations must resolve against the destination inventory; each one
 * that does not yields one Error finding addressed by its rule, operation and
 * host indices. The policy is valid exactly when there are no findings.
 */
module NoHostChecker {
  import opened Destinations
  import opened ValidationPath

  datatype Operation = Operation(hosts: seq<string>)

  datatype Rule = Rule(to: seq<Operation>)

  /**
   * The policy's own name and namespace are metadata only; hosts are
   * resolved in `Checker.namespace`, the namespace the checker is given.
   */
  datatype AuthorizationPolicy = AuthorizationPolicy(name: string, namespace: string, rules: seq<Rule>)

  /** The validation severities; this checker only ever reports `ErrorSeverity`. */
  datatype Severity = ErrorSeverity | WarningSeverity | InfoSeverity

  datatype Finding = Finding(severity: Severity, code: string, path: Path)

  const NoDestinationCode: string := "authorizationpolicy.nodest.matchingregistry"

  /** The checker's inputs: the policy, the namespace it is checked in, and the inventory. */
  datatype Checker = Checker(policy: AuthorizationPolicy, namespace: string, inventory: Inventory)

  datatype CheckResult = CheckResult(findings: seq<Finding>, valid: bool)

  predicate ValidPath(rules: seq<Rule>, p: Path) {
    && p.rule < |rules|
    && p.to < |rules[p.rule].to|
    && p.host < |rules[p.rule].to[p.to].hosts|
  }

  function HostAt(rules: seq<Rule>, p: Path): string
    requires ValidPath(rules, p)
  {
    rules[p.rule].to[p.to].hosts[p.host]
  }

  function NoDestination(p: Path): Finding {
    Finding(ErrorSeverity, NoDestinationCode, p)
  }

  /** Lexicographic order of (rule, to, host): the traversal order. */
  predicate Before(p: Path, q: Path) {
    || p.rule < q.rule
    || (p.rule == q.rule && p.to < q.to)
    || (p.rule == q.rule && p.to == q.to && p.host < q.host)
  }

  predicate InTraversalOrder(fs: seq<Finding>) {
    forall a, b :: 0 <= a < b < |fs| ==> Before(fs[a].path, fs[b].path)
  }

  /** Findings for the hosts of operation `j` of rule `i`, from host index `k` on. */
  function HostFindings(c: Checker, hosts: seq<string>, i: nat, j: nat, k: nat): (r: seq<Finding>)
    requires k <= |hosts|
    ensures forall f :: f in r ==>
      && f == NoDestination(f.path)
      && f.path.rule == i && f.path.to == j && k <= f.path.host < |hosts|
      && !Resolves(c.inventory, c.namespace, hosts[f.path.host])
    ensures forall m :: k <= m < |hosts| && !Resolves(c.inventory, c.namespace, hosts[m]) ==>
      NoDestination(Path(i, j, m)) in r
    ensures InTraversalOrder(r)
    decreases |hosts| - k
  {
    if k == |hosts| then []
    else
      var here := if Resolves(c.inventory, c.namespace, hosts[k]) then [] else [NoDestination(Path(i, j, k))];
      here + HostFindings(c, hosts, i, j, k + 1)
  }

  /** Findings for the operations of rule `i`, from operation index `j` on. */
  function OperationFindings(c: Checker, ops: seq<Operation>, i: nat, j: nat): (r: seq<Finding>)
    requires j <= |ops|
    ensures forall f :: f in r ==>
      && f == NoDestination(f.path)
      && f.path.rule == i && j <= f.path.to < |ops| && f.path.host < |ops[f.path.to].hosts|
      && !Resolves(c.inventory, c.namespace, ops[f.path.to].hosts[f.path.host])
    ensures forall m, n :: j <= m < |ops| && 0 <= n < |ops[m].hosts| && !Resolves(c.inventory, c.namespace, ops[m].hosts[n]) ==>
      NoDestination(Path(i, m, n)) in r
    ensures InTraversalOrder(r)
    decreases |ops| - j
  {
    if j == |ops| then []
    else
      var here := HostFindings(c, ops[j].hosts, i, j, 0);
      var rest := OperationFindings(c, ops, i, j + 1);
      assert forall a, b :: 0 <= a < |here| && 0 <= b < |rest| ==> Before(here[a].path, rest[b].path) by {
        forall a, b | 0 <= a < |here| && 0 <= b < |rest|
          ensures Before(here[a].path, rest[b].path)
        {
          assert here[a] in here;
          assert rest[b] in rest;
        }
      }
      here + rest
  }

  /** Findings for the rules of a policy, from rule index `i` on. */
  function RuleFindings(c: Checker, rules: seq<Rule>, i: nat): (r: seq<Finding>)
    requires i <= |rules|
    ensures forall f :: f in r ==>
      && f == NoDestination(f.path)
      && i <= f.path.rule && ValidPath(rules, f.path)
      && !Resolves(c.inventory, c.namespace, HostAt(rules, f.path))
    ensures forall p :: ValidPath(rules, p) && i <= p.rule && !Resolves(c.inventory, c.namespace, HostAt(rules, p)) ==>
      NoDestination(p) in r
    ensures InTraversalOrder(r)
    decreases |rules| - i
  {
    if i == |rules| then []
    else
      var here := OperationFindings(c, rules[i].to, i, 0);
      var rest := RuleFindings(c, rules, i + 1);
      assert forall a, b :: 0 <= a < |here| && 0 <= b < |rest| ==> Before(here[a].path, rest[b].path) by {
        forall a, b | 0 <= a < |here| && 0 <= b < |rest|
          ensures Before(here[a].path, rest[b].path)
        {
          assert here[a] in here;
          assert rest[b] in rest;
        }
      }
      forall p | ValidPath(rules, p) && i <= p.rule && !Resolves(c.inventory, c.namespace, HostAt(rules, p))
        ensures NoDestination(p) in here + rest
      {
        if p.rule == i {
          assert NoDestination(Path(i, p.to, p.host)) in here;
        }
      }
      here + rest
  }

  /**
   * The checker's entry point: one Error finding per unresolved host, in
   * traversal order, and the policy is valid exactly when there is none.
   */
  function Check(c: Checker): (r: CheckResult)
    ensures r.valid <==> |r.findings| == 0
    ensures forall f :: f in r.findings ==>
      && f.severity == ErrorSeverity && f.code == NoDestinationCode
      && ValidPath(c.policy.rules, f.path)
      && !Resolves(c.inventory, c.namespace, HostAt(c.policy.rules, f.path))
    ensures forall p :: ValidPath(c.policy.rules, p) && !Resolves(c.inventory, c.namespace, HostAt(c.policy.rules, p)) ==>
      NoDestination(p) in r.findings
    ensures InTraversalOrder(r.findings)
  {
    var findings := RuleFindings(c, c.policy.rules, 0);
    CheckResult(findings, |findings| == 0)
  }

  /** The policy is valid exactly when every host it names resolves. */
  lemma ValidIffAllHostsResolve(c: Checker)
    ensures Check(c).valid <==>
      forall p :: ValidPath(c.policy.rules, p) ==> Resolves(c.inventory, c.namespace, HostAt(c.policy.rules, p))
  {
    var r := Check(c);
    if !r.valid {
      var f := r.findings[0];
      assert f in r.findings;
    }
  }

  /** A host location has a finding exactly when its host does not resolve. */
  lemma FindingIffUnresolved(c: Checker, p: Path)
    requires ValidPath(c.policy.rules, p)
    ensures (exists f :: f in Check(c).findings && f.path == p) <==> !Resolves(c.inventory, c.namespace, HostAt(c.policy.rules, p))
  {
    if !Resolves(c.inventory, c.namespace, HostAt(c.policy.rules, p)) {
      assert NoDestination(p) in Check(c).findings;
    }
  }

  /** No host location is reported twice, and no two findings share a path string. */
  lemma AtMostOneFindingPerHost(c: Checker, a: nat, b: nat)
    requires a < b < |Check(c).findings|
    ensures Check(c).findings[a].path != Check(c).findings[b].path
    ensures Render(Check(c).findings[a].path) != Render(Check(c).findings[b].path)
  {
    RenderInjective(Check(c).findings[a].path, Check(c).findings[b].path);
  }
}
