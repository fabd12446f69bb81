/**
 * The destination inventory an authorization policy's hosts are resolved
 * against, and the host resolver. The inventory is the snapshot the checker
 * receives: known namespaces, services, the service-entry hostname map,
 * virtual services and the multi-cluster registry status. An absent source
 * is an empty one.
 */
module Destinations {
  import opened DomainMatch

  datatype Service = Service(name: string, namespace: string)

  /** Only a virtual service's hosts take part in resolution; name and namespace identify it. */
  datatype VirtualService = VirtualService(name: string, namespace: string, hosts: seq<string>)

  datatype RegistryStatus = RegistryStatus(hostname: string)

  /** Service-entry hostname (or `*.` pattern) to the namespaces it was declared for. */
  type ServiceEntryHostnames = map<string, seq<string>>

  datatype Inventory = Inventory(
    namespaces: seq<string>,
    services: seq<Service>,
    serviceEntries: ServiceEntryHostnames,
    virtualServices: seq<VirtualService>,
    registryStatus: seq<RegistryStatus>)

  const ClusterDomain: string := "svc.cluster.local"

  /**
   * The inventory sources, in the order the resolver consults them. The order
   * is this model's choice: resolution is the union of the sources, so any
   * order gives the same answer.
   */
  datatype Source = Services | ServiceEntries | VirtualServices | Registry

  const Precedence: seq<Source> := [Services, ServiceEntries, VirtualServices, Registry]

  /**
   * A wildcard over the policy's own namespace: `*.ns.svc.cluster.local`, or
   * the short form `*.ns` when `ns` is a namespace known to the cluster.
   */
  predicate LocalWildcard(inv: Inventory, policyNamespace: string, host: string) {
    || host == "*." + policyNamespace + "." + ClusterDomain
    || (host == "*." + policyNamespace && policyNamespace in inv.namespaces)
  }

  /** The host is the short name of a service living in the policy's namespace. */
  predicate ServiceMatch(inv: Inventory, policyNamespace: string, host: string) {
    exists s :: s in inv.services && s.namespace == policyNamespace && s.name == host
  }

  predicate ServiceEntryMatch(inv: Inventory, host: string) {
    exists h :: h in inv.serviceEntries && HostsMatch(h, host)
  }

  predicate VirtualServiceMatch(inv: Inventory, host: string) {
    exists vs, h :: vs in inv.virtualServices && h in vs.hosts && HostsMatch(h, host)
  }

  /** Registry hosts match by exact string only: no wildcard, no namespace. */
  predicate RegistryMatch(inv: Inventory, host: string) {
    exists r :: r in inv.registryStatus && r.hostname == host
  }

  predicate SourceMatches(src: Source, inv: Inventory, policyNamespace: string, host: string) {
    match src
    case Services => ServiceMatch(inv, policyNamespace, host)
    case ServiceEntries => ServiceEntryMatch(inv, host)
    case VirtualServices => VirtualServiceMatch(inv, host)
    case Registry => RegistryMatch(inv, host)
  }

  /**
   * A host resolves when it is `*`, a wildcard over the policy namespace, or
   * is matched by at least one inventory source. This is a union: the order
   * in which sources are tried does not affect it.
   */
  predicate Resolves(inv: Inventory, policyNamespace: string, host: string) {
    || host == "*"
    || LocalWildcard(inv, policyNamespace, host)
    || ServiceMatch(inv, policyNamespace, host)
    || ServiceEntryMatch(inv, host)
    || VirtualServiceMatch(inv, host)
    || RegistryMatch(inv, host)
  }

  /**
   * The resolver as a strategy walk: try the wildcard rules, then each source
   * of `Precedence` in turn, stopping at the first that matches.
   */
  method ResolveHost(inv: Inventory, policyNamespace: string, host: string) returns (found: bool)
    ensures found <==> Resolves(inv, policyNamespace, host)
  {
    if host == "*" || LocalWildcard(inv, policyNamespace, host) {
      return true;
    }
    var i := 0;
    found := false;
    while i < |Precedence| && !found
      invariant 0 <= i <= |Precedence|
      invariant found <==> exists m :: 0 <= m < i && SourceMatches(Precedence[m], inv, policyNamespace, host)
    {
      found := SourceMatches(Precedence[i], inv, policyNamespace, host);
      i := i + 1;
    }
    if !found {
      assert forall m :: 0 <= m < |Precedence| ==> !SourceMatches(Precedence[m], inv, policyNamespace, host);
      assert !SourceMatches(Precedence[0], inv, policyNamespace, host);
      assert !SourceMatches(Precedence[1], inv, policyNamespace, host);
      assert !SourceMatches(Precedence[2], inv, policyNamespace, host);
      assert !SourceMatches(Precedence[3], inv, policyNamespace, host);
    }
  }

  /** Every source only adds hosts: `small`'s entries all appear in `large`. */
  predicate Contains(large: Inventory, small: Inventory) {
    && (forall n :: n in small.namespaces ==> n in large.namespaces)
    && (forall s :: s in small.services ==> s in large.services)
    && (forall h :: h in small.serviceEntries ==> h in large.serviceEntries)
    && (forall vs :: vs in small.virtualServices ==> vs in large.virtualServices)
    && (forall r :: r in small.registryStatus ==> r in large.registryStatus)
  }

  /** Adding inventory never makes a resolving host fail. */
  lemma ResolvesMonotone(small: Inventory, large: Inventory, policyNamespace: string, host: string)
    requires Contains(large, small)
    ensures Resolves(small, policyNamespace, host) ==> Resolves(large, policyNamespace, host)
  {
  }

  /** `*` resolves against every inventory, however empty. */
  lemma StarAlwaysResolves(inv: Inventory, policyNamespace: string)
    ensures Resolves(inv, policyNamespace, "*")
  {
  }

  /**
   * With no services, service entries or virtual services, a non-wildcard
   * host resolves exactly when some registry hostname equals it.
   */
  lemma RegistryOnlyIsExact(inv: Inventory, policyNamespace: string, host: string)
    requires inv.services == [] && inv.serviceEntries == map[] && inv.virtualServices == []
    requires host != "*" && !LocalWildcard(inv, policyNamespace, host)
    ensures Resolves(inv, policyNamespace, host) <==> exists r :: r in inv.registryStatus && r.hostname == host
  {
  }
}
