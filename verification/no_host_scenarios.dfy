/**
 * The checker's test scenarios, each stated as the exact result `Check`
 * returns on that snapshot. Every policy has one rule with one `to`
 * operation, whose host list is the scenario's.
 */
module NoHostScenarios {
  import opened Destinations
  import opened ValidationPath
  import opened NoHostChecker

  function PolicyWithHosts(hosts: seq<string>): AuthorizationPolicy {
    AuthorizationPolicy("policy", "bookinfo", [Rule([Operation(hosts)])])
  }

  const OutsideAndBookinfo: seq<string> := ["outside", "bookinfo"]
  const ThreeBookinfos: seq<string> := ["bookinfo", "bookinfo2", "bookinfo3"]
  const DetailsAndReviews: seq<Service> := [Service("details", "bookinfo"), Service("reviews", "bookinfo")]

  function ServicesOnly(namespaces: seq<string>, services: seq<Service>): Inventory {
    Inventory(namespaces, services, map[], [], [])
  }

  function EntriesOnly(namespaces: seq<string>, entries: ServiceEntryHostnames): Inventory {
    Inventory(namespaces, [], entries, [], [])
  }

  function RegistryOnly(namespaces: seq<string>, hostnames: seq<string>): Inventory {
    Inventory(namespaces, [], map[], [], seq(|hostnames|, i requires 0 <= i < |hostnames| => RegistryStatus(hostnames[i])))
  }

  const Valid: CheckResult := CheckResult([], true)

  function Invalid(paths: seq<Path>): CheckResult {
    CheckResult(seq(|paths|, i requires 0 <= i < |paths| => NoDestination(paths[i])), false)
  }

  /** A one-rule, one-operation policy's findings are those of its host list. */
  lemma SingleOperation(c: Checker, hosts: seq<string>)
    requires c.policy == PolicyWithHosts(hosts)
    ensures Check(c).findings == HostFindings(c, hosts, 0, 0, 0)
  {
    var ops := c.policy.rules[0].to;
    assert OperationFindings(c, ops, 0, 1) == [];
    assert OperationFindings(c, ops, 0, 0) == HostFindings(c, hosts, 0, 0, 0);
    assert RuleFindings(c, c.policy.rules, 1) == [];
  }

  lemma OneHost(c: Checker, host: string)
    requires c.policy == PolicyWithHosts([host])
    ensures Resolves(c.inventory, c.namespace, host) ==> Check(c) == Valid
    ensures !Resolves(c.inventory, c.namespace, host) ==> Check(c) == Invalid([Path(0, 0, 0)])
  {
    SingleOperation(c, [host]);
    assert HostFindings(c, [host], 0, 0, 1) == [];
  }

  lemma TwoHosts(c: Checker, h0: string, h1: string)
    requires c.policy == PolicyWithHosts([h0, h1])
    ensures Check(c).findings ==
      (if Resolves(c.inventory, c.namespace, h0) then [] else [NoDestination(Path(0, 0, 0))])
      + (if Resolves(c.inventory, c.namespace, h1) then [] else [NoDestination(Path(0, 0, 1))])
  {
    SingleOperation(c, [h0, h1]);
    assert HostFindings(c, [h0, h1], 0, 0, 2) == [];
  }

  /** No inventory source other than the ones listed matches `host`. */
  predicate NothingBut(inv: Inventory, ns: string, host: string) {
    host != "*" && !LocalWildcard(inv, ns, host) && !ServiceMatch(inv, ns, host)
    && !ServiceEntryMatch(inv, host) && !VirtualServiceMatch(inv, host) && !RegistryMatch(inv, host)
  }

  lemma PresentService()
    ensures Check(Checker(PolicyWithHosts(["details", "reviews"]), "bookinfo",
      ServicesOnly(OutsideAndBookinfo, DetailsAndReviews))) == Valid
  {
    var c := Checker(PolicyWithHosts(["details", "reviews"]), "bookinfo", ServicesOnly(OutsideAndBookinfo, DetailsAndReviews));
    assert ServiceMatch(c.inventory, "bookinfo", "details") by { assert DetailsAndReviews[0] in c.inventory.services; }
    assert ServiceMatch(c.inventory, "bookinfo", "reviews") by { assert DetailsAndReviews[1] in c.inventory.services; }
    TwoHosts(c, "details", "reviews");
  }

  lemma NonExistingService()
    ensures Check(Checker(PolicyWithHosts(["details", "wrong"]), "bookinfo",
      ServicesOnly(OutsideAndBookinfo, DetailsAndReviews))) == Invalid([Path(0, 0, 1)])
  {
    var c := Checker(PolicyWithHosts(["details", "wrong"]), "bookinfo", ServicesOnly(OutsideAndBookinfo, DetailsAndReviews));
    assert ServiceMatch(c.inventory, "bookinfo", "details") by { assert DetailsAndReviews[0] in c.inventory.services; }
    assert NothingBut(c.inventory, "bookinfo", "wrong");
    TwoHosts(c, "details", "wrong");
  }

  lemma WildcardHost()
    ensures Check(Checker(PolicyWithHosts(["*", "*.bookinfo", "*.bookinfo.svc.cluster.local"]), "bookinfo",
      ServicesOnly(OutsideAndBookinfo, DetailsAndReviews))) == Valid
  {
    var hosts := ["*", "*.bookinfo", "*.bookinfo.svc.cluster.local"];
    var c := Checker(PolicyWithHosts(hosts), "bookinfo", ServicesOnly(OutsideAndBookinfo, DetailsAndReviews));
    assert LocalWildcard(c.inventory, "bookinfo", hosts[1]);
    assert LocalWildcard(c.inventory, "bookinfo", hosts[2]);
    SingleOperation(c, hosts);
    assert HostFindings(c, hosts, 0, 0, 3) == [];
    assert HostFindings(c, hosts, 0, 0, 2) == [];
    assert HostFindings(c, hosts, 0, 0, 1) == [];
  }

  lemma OutsideWildcardsUnmatched(inv: Inventory)
    requires inv == ServicesOnly(OutsideAndBookinfo, DetailsAndReviews)
    ensures NothingBut(inv, "bookinfo", "*.outside")
    ensures NothingBut(inv, "bookinfo", "*.outside.svc.cluster.local")
  {
    assert !LocalWildcard(inv, "bookinfo", "*.outside");
    assert !LocalWildcard(inv, "bookinfo", "*.outside.svc.cluster.local");
  }

  lemma WildcardHostOutsideNamespace()
    ensures Check(Checker(PolicyWithHosts(["*.outside", "*.outside.svc.cluster.local"]), "bookinfo",
      ServicesOnly(OutsideAndBookinfo, DetailsAndReviews)))
      == Invalid([Path(0, 0, 0), Path(0, 0, 1)])
  {
    var c := Checker(PolicyWithHosts(["*.outside", "*.outside.svc.cluster.local"]), "bookinfo",
      ServicesOnly(OutsideAndBookinfo, DetailsAndReviews));
    OutsideWildcardsUnmatched(c.inventory);
    TwoHosts(c, "*.outside", "*.outside.svc.cluster.local");
    var expected := [NoDestination(Path(0, 0, 0)), NoDestination(Path(0, 0, 1))];
    assert Check(c).findings == expected;
    assert Invalid([Path(0, 0, 0), Path(0, 0, 1)]).findings == expected;
  }

  lemma ServiceEntryPresent()
    ensures Check(Checker(PolicyWithHosts(["wikipedia.org"]), "bookinfo",
      EntriesOnly(OutsideAndBookinfo, map["wikipedia.org" := ["wikipedia"]]))) == Valid
  {
    var c := Checker(PolicyWithHosts(["wikipedia.org"]), "bookinfo",
      EntriesOnly(OutsideAndBookinfo, map["wikipedia.org" := ["wikipedia"]]));
    assert "wikipedia.org" in c.inventory.serviceEntries;
    OneHost(c, "wikipedia.org");
  }

  lemma ExportedInternalServiceEntryPresent()
    ensures Check(Checker(PolicyWithHosts(["details.bookinfo2.svc.cluster.local"]), "bookinfo",
      EntriesOnly(ThreeBookinfos, map["details.bookinfo2.svc.cluster.local" := ["bookinfo3"]]))) == Valid
  {
    var h := "details.bookinfo2.svc.cluster.local";
    var c := Checker(PolicyWithHosts([h]), "bookinfo", EntriesOnly(ThreeBookinfos, map[h := ["bookinfo3"]]));
    assert h in c.inventory.serviceEntries;
    OneHost(c, h);
  }

  lemma ExportedExternalServiceEntryPresent()
    ensures Check(Checker(PolicyWithHosts(["www.myhost.com"]), "bookinfo",
      EntriesOnly(ThreeBookinfos, map["www.myhost.com" := ["bookinfo3"]]))) == Valid
  {
    var c := Checker(PolicyWithHosts(["www.myhost.com"]), "bookinfo",
      EntriesOnly(ThreeBookinfos, map["www.myhost.com" := ["bookinfo3"]]));
    assert "www.myhost.com" in c.inventory.serviceEntries;
    OneHost(c, "www.myhost.com");
  }

  lemma ExportedExternalServiceEntryFail()
    ensures Check(Checker(PolicyWithHosts(["www.wrong.com"]), "bookinfo",
      EntriesOnly(ThreeBookinfos, map["www.myhost.com" := ["bookinfo3"]]))) == Invalid([Path(0, 0, 0)])
  {
    var c := Checker(PolicyWithHosts(["www.wrong.com"]), "bookinfo",
      EntriesOnly(ThreeBookinfos, map["www.myhost.com" := ["bookinfo3"]]));
    assert NothingBut(c.inventory, "bookinfo", "www.wrong.com");
    OneHost(c, "www.wrong.com");
  }

  const Bookinfo2Domain: string := "bookinfo2.svc.cluster.local"

  /** The hosts are written as `details` and `*` joined to `.bookinfo2.svc.cluster.local`. */
  lemma WildcardExportedInternalServiceEntryPresent()
    ensures Check(Checker(PolicyWithHosts(["details" + "." + Bookinfo2Domain]), "bookinfo",
      EntriesOnly(ThreeBookinfos, map["*." + Bookinfo2Domain := ["bookinfo3"]]))) == Valid
  {
    var h := "details" + "." + Bookinfo2Domain;
    var c := Checker(PolicyWithHosts([h]), "bookinfo", EntriesOnly(ThreeBookinfos, map["*." + Bookinfo2Domain := ["bookinfo3"]]));
    DomainMatch.WildcardMatchesSubdomain(Bookinfo2Domain, "details");
    assert ServiceEntryMatch(c.inventory, h) by {
      assert "*." + Bookinfo2Domain in c.inventory.serviceEntries;
    }
    OneHost(c, h);
  }

  lemma WildcardExportedInternalServiceEntryFail()
    ensures Check(Checker(PolicyWithHosts(["details.bookinfo3.svc.cluster.local"]), "bookinfo",
      EntriesOnly(ThreeBookinfos, map["details.bookinfo2.svc.cluster.local" := ["bookinfo3"]])))
      == Invalid([Path(0, 0, 0)])
  {
    var h := "details.bookinfo3.svc.cluster.local";
    var c := Checker(PolicyWithHosts([h]), "bookinfo",
      EntriesOnly(ThreeBookinfos, map["details.bookinfo2.svc.cluster.local" := ["bookinfo3"]]));
    assert "details.bookinfo2.svc.cluster.local"[16] != h[16];
    assert NothingBut(c.inventory, "bookinfo", h);
    OneHost(c, h);
  }

  lemma ExportedNonFqdnInternalServiceEntryFail()
    ensures Check(Checker(PolicyWithHosts(["details.bookinfo2.svc.cluster.local"]), "bookinfo",
      EntriesOnly(ThreeBookinfos, map["details" := ["bookinfo3"]]))) == Invalid([Path(0, 0, 0)])
  {
    var h := "details.bookinfo2.svc.cluster.local";
    var c := Checker(PolicyWithHosts([h]), "bookinfo", EntriesOnly(ThreeBookinfos, map["details" := ["bookinfo3"]]));
    assert NothingBut(c.inventory, "bookinfo", h);
    OneHost(c, h);
  }

  lemma ServiceEntryNotPresent()
    ensures Check(Checker(PolicyWithHosts(["wrong.org"]), "bookinfo",
      EntriesOnly(OutsideAndBookinfo, map["wikipedia.org" := ["wikipedia"]]))) == Invalid([Path(0, 0, 0)])
  {
    var c := Checker(PolicyWithHosts(["wrong.org"]), "bookinfo",
      EntriesOnly(OutsideAndBookinfo, map["wikipedia.org" := ["wikipedia"]]));
    assert NothingBut(c.inventory, "bookinfo", "wrong.org");
    OneHost(c, "wrong.org");
  }

  lemma ExportedInternalServiceEntryNotPresent()
    ensures Check(Checker(PolicyWithHosts(["wrong.bookinfo2.svc.cluster.local"]), "bookinfo",
      EntriesOnly(ThreeBookinfos, map["details.bookinfo2.svc.cluster.local" := ["bookinfo3"]])))
      == Invalid([Path(0, 0, 0)])
  {
    var h := "wrong.bookinfo2.svc.cluster.local";
    var c := Checker(PolicyWithHosts([h]), "bookinfo",
      EntriesOnly(ThreeBookinfos, map["details.bookinfo2.svc.cluster.local" := ["bookinfo3"]]));
    assert NothingBut(c.inventory, "bookinfo", h);
    OneHost(c, h);
  }

  const FooDev: VirtualService := VirtualService("foo-dev", "foo", ["foo-dev.example.com"])

  lemma VirtualServicePresent()
    ensures Check(Checker(PolicyWithHosts(["foo-dev.example.com"]), "bookinfo",
      Inventory(OutsideAndBookinfo, [], map[], [FooDev], []))) == Valid
  {
    var c := Checker(PolicyWithHosts(["foo-dev.example.com"]), "bookinfo",
      Inventory(OutsideAndBookinfo, [], map[], [FooDev], []));
    assert VirtualServiceMatch(c.inventory, "foo-dev.example.com") by {
      assert FooDev in c.inventory.virtualServices && FooDev.hosts[0] in FooDev.hosts;
      assert DomainMatch.HostsMatch(FooDev.hosts[0], "foo-dev.example.com");
    }
    OneHost(c, "foo-dev.example.com");
  }

  lemma VirtualServiceNotPresent()
    ensures Check(Checker(PolicyWithHosts(["foo-bogus.example.com"]), "bookinfo",
      Inventory(OutsideAndBookinfo, [], map[], [FooDev], []))) == Invalid([Path(0, 0, 0)])
  {
    var c := Checker(PolicyWithHosts(["foo-bogus.example.com"]), "bookinfo",
      Inventory(OutsideAndBookinfo, [], map[], [FooDev], []));
    assert NothingBut(c.inventory, "bookinfo", "foo-bogus.example.com");
    OneHost(c, "foo-bogus.example.com");
  }

  const GoogleDomain: string := "google.com"
  const GoogleEntries: ServiceEntryHostnames := map["*." + GoogleDomain := ["google"]]

  /** `maps.google.com` is written as `maps` joined to `.google.com`. */
  lemma WildcardServiceEntryHost()
    ensures Check(Checker(PolicyWithHosts(["maps" + "." + GoogleDomain]), "bookinfo",
      EntriesOnly(OutsideAndBookinfo, GoogleEntries))) == Valid
  {
    var inv := EntriesOnly(OutsideAndBookinfo, GoogleEntries);
    var h := "maps" + "." + GoogleDomain;
    DomainMatch.WildcardMatchesSubdomain(GoogleDomain, "maps");
    assert ServiceEntryMatch(inv, h) by {
      assert "*." + GoogleDomain in inv.serviceEntries;
    }
    OneHost(Checker(PolicyWithHosts([h]), "bookinfo", inv), h);
  }

  lemma WildcardServiceEntryOtherDomain()
    ensures Check(Checker(PolicyWithHosts(["maps.apple.com"]), "bookinfo",
      EntriesOnly(OutsideAndBookinfo, GoogleEntries))) == Invalid([Path(0, 0, 0)])
  {
    var inv := EntriesOnly(OutsideAndBookinfo, GoogleEntries);
    var host := "maps.apple.com";
    var pattern := "*." + GoogleDomain;
    assert pattern[1..] == "." + GoogleDomain;
    assert |pattern[1..]| == 11 && pattern[1..][0] == '.';
    DomainMatch.NotEndsWithAt(host, pattern[1..], 0);
    assert !DomainMatch.HostsMatch(pattern, host);
    assert NothingBut(inv, "bookinfo", host);
    OneHost(Checker(PolicyWithHosts([host]), "bookinfo", inv), host);
  }

  const Imported: string := "ratings.mesh2-bookinfo.svc.mesh1-imports.local"
  const Local: string := "ratings.bookinfo.svc.cluster.local"

  lemma ValidServiceRegistry()
    ensures !Check(Checker(PolicyWithHosts([Imported]), "bookinfo", RegistryOnly(OutsideAndBookinfo, []))).valid
    ensures Check(Checker(PolicyWithHosts([Imported]), "bookinfo", RegistryOnly(OutsideAndBookinfo, [Imported]))) == Valid
    ensures !Check(Checker(PolicyWithHosts([Imported]), "bookinfo",
      RegistryOnly(OutsideAndBookinfo, ["ratings2.mesh2-bookinfo.svc.mesh1-imports.local"]))).valid
    ensures Check(Checker(PolicyWithHosts([Local]), "bookinfo", RegistryOnly(OutsideAndBookinfo, [Local]))) == Valid
    ensures !Check(Checker(PolicyWithHosts(["ratings2.bookinfo.svc.cluster.local"]), "test",
      RegistryOnly(OutsideAndBookinfo, [Local]))).valid
  {
    var none := RegistryOnly(OutsideAndBookinfo, []);
    assert NothingBut(none, "bookinfo", Imported);
    OneHost(Checker(PolicyWithHosts([Imported]), "bookinfo", none), Imported);

    var imported := RegistryOnly(OutsideAndBookinfo, [Imported]);
    assert imported.registryStatus[0] == RegistryStatus(Imported);
    OneHost(Checker(PolicyWithHosts([Imported]), "bookinfo", imported), Imported);

    var other := RegistryOnly(OutsideAndBookinfo, ["ratings2.mesh2-bookinfo.svc.mesh1-imports.local"]);
    assert NothingBut(other, "bookinfo", Imported);
    OneHost(Checker(PolicyWithHosts([Imported]), "bookinfo", other), Imported);

    var local := RegistryOnly(OutsideAndBookinfo, [Local]);
    assert local.registryStatus[0] == RegistryStatus(Local);
    OneHost(Checker(PolicyWithHosts([Local]), "bookinfo", local), Local);

    assert NothingBut(local, "test", "ratings2.bookinfo.svc.cluster.local");
    OneHost(Checker(PolicyWithHosts(["ratings2.bookinfo.svc.cluster.local"]), "test", local), "ratings2.bookinfo.svc.cluster.local");
  }
}
