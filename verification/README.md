# Kiali authorization-policy host check and workload normalisation, in Dafny

This project models two independent pure pieces of Kiali's backend and proves
properties about them.

**The authorization-policy host checker (`NoHostChecker`).** An Istio
`AuthorizationPolicy` names hosts in the `to` operations of its rules. Each
host must resolve to a destination the mesh knows about. A host resolves when
it is `*`, or a wildcard over the policy's own namespace (`*.ns` with `ns` a
known namespace, or `*.ns.svc.cluster.local`). It also resolves when it is the
short name of a service in that namespace, or when it matches a service-entry
hostname or a virtual-service host (with wildcards on either side). Finally, it
resolves when it equals a registry-status hostname exactly. Each host that does
not resolve yields one Error finding. The finding has the code
`authorizationpolicy.nodest.matchingregistry` and the path
`spec/rules[i]/to[j]/operation/hosts[k]`. Findings come in traversal order, and
the policy is valid exactly when there are none. The checker's implementation
file is not part of this model. Its behaviour is taken from what its test file
asserts, and every test scenario is restated as a lemma about `Check`.

- `options.dfy`: `Option`, standing for nil pointers and nil maps.
- `validation_path.dfy`: the finding location `Path`, its rendering, and a
  parser that inverts the rendering.
- `domain_match.dfy`: the wildcard hostname matcher.
- `destinations.dfy`: the inventory, the union predicate `Resolves`, and the
  source-by-source resolver `ResolveHost`.
- `no_host_checker.dfy`: the rule walker and `Check`.
- `no_host_scenarios.dfy`: the test scenarios.

**Workload normalisation (`models/workload.go`).** This part covers how a
Kubernetes or OpenShift controller object becomes a `Workload`. That means its
replica counts per controller kind and its labels with the app/version
presence flags. It also covers the three-valued sidecar-injection flag read
from a label and an annotation, sidecar aggregation, and the list projections.
The Go code changes a workload in place. Here each parser takes the prior
workload and returns the new one, so a field the parser does not assign keeps
its prior value. Two things in the source are kept as written:

- `ParsePod` compares the phase with the literal `"Succeed"`.
- `ParseCronJob` overwrites its pod-derived desired count with the current
  count.

Lemmas show what each of these does.

- `strconv.dfy`: boolean parsing over the literals Go's `strconv.ParseBool` accepts.
- `workload.dfy`: the records and the parsers.
- `workload_lemmas.dfy`: idempotence, the injection decision table, and the
  counting relations.

Configuration (the label names and the injection key) and the Maistra switch
are parameters.

## Model

| member | source | states |
|---|---|---|
| NoHostChecker.Check | business/checkers/authorization/no_host_checker_test.go:34-52 | every finding is an Error with code `authorizationpolicy.nodest.matchingregistry` at a valid location whose host does not resolve; every unresolved location has its finding; findings are in rule/to/host order; valid iff no findings |
| NoHostChecker.RuleFindings | business/checkers/authorization/no_host_checker_test.go:70-90 | the walk from rule `i` on reports exactly the unresolved hosts of those rules, in traversal order |
| NoHostChecker.OperationFindings | business/checkers/authorization/no_host_checker_test.go:70-90 | the walk over one rule's operations reports exactly their unresolved hosts, in order, addressed with that rule's index |
| NoHostChecker.HostFindings | business/checkers/authorization/no_host_checker_test.go:70-90 | the walk over one operation's hosts reports exactly the unresolved ones, in increasing host index |
| NoHostChecker.ValidIffAllHostsResolve | business/checkers/authorization/no_host_checker_test.go:18-52 | the validity flag is true exactly when every host named in the policy resolves |
| NoHostChecker.FindingIffUnresolved | business/checkers/authorization/no_host_checker_test.go:34-52 | a host location carries a finding if and only if its host resolves against no source |
| NoHostChecker.AtMostOneFindingPerHost | business/checkers/authorization/no_host_checker_test.go:83-89 | two findings never share a location, nor a path string |
| Destinations.ResolveHost | business/checkers/authorization/no_host_checker_test.go:18-440 | trying the sources one at a time and stopping at the first match gives exactly the union `Resolves` that the scenarios exercise source by source; the order (services, service entries, virtual services, registry) is the model's own choice and does not affect the result |
| Destinations.ResolvesMonotone | business/checkers/authorization/no_host_checker_test.go:377-400 | adding inventory entries never turns a resolving host into a failing one |
| Destinations.StarAlwaysResolves | business/checkers/authorization/no_host_checker_test.go:54-68 | `*` resolves against any inventory, even an empty one |
| Destinations.RegistryOnlyIsExact | business/checkers/authorization/no_host_checker_test.go:377-440 | with only registry status present, a non-wildcard host resolves iff some registry hostname equals it exactly |
| DomainMatch.SuffixMatchIff | business/checkers/authorization/no_host_checker_test.go:311-344 | `*.X` matches a name iff the name is `Y.X` with `Y` non-empty |
| DomainMatch.WildcardMatchesSubdomain | business/checkers/authorization/no_host_checker_test.go:168-184 | a declared `*.X` matches the literal host `Y.X`, including deeper names |
| DomainMatch.WildcardExcludesApex | business/checkers/authorization/no_host_checker_test.go:311-344 | `*.X` does not match `X` itself |
| DomainMatch.HostsMatchSymmetric | business/checkers/authorization/no_host_checker_test.go:168-184 | the wildcard may sit on the declared side or the policy side |
| ValidationPath.RenderParseRoundTrip | business/checkers/authorization/no_host_checker_test.go:51 | parsing a rendered `spec/rules[i]/to[j]/operation/hosts[k]` gives back `(i, j, k)` |
| ValidationPath.RenderInjective | business/checkers/authorization/no_host_checker_test.go:86-89 | two locations render to the same path string iff they are the same location |
| ValidationPath.FirstHostPaths | business/checkers/authorization/no_host_checker_test.go:86-89 | locations (0,0,0) and (0,0,1) render as the asserted strings `spec/rules[0]/to[0]/operation/hosts[0]` and `…hosts[1]` |
| NoHostScenarios.PresentService | business/checkers/authorization/no_host_checker_test.go:18-32 | short names of services in the policy namespace give no findings and valid |
| NoHostScenarios.NonExistingService | business/checkers/authorization/no_host_checker_test.go:34-52 | `["details","wrong"]` gives exactly one finding, at hosts[1], and invalid |
| NoHostScenarios.WildcardHost | business/checkers/authorization/no_host_checker_test.go:54-68 | `*`, `*.bookinfo`, `*.bookinfo.svc.cluster.local` all resolve in namespace bookinfo |
| NoHostScenarios.WildcardHostOutsideNamespace | business/checkers/authorization/no_host_checker_test.go:70-90 | wildcards over `outside` give two findings, hosts[0] then hosts[1] |
| NoHostScenarios.ServiceEntryPresent | business/checkers/authorization/no_host_checker_test.go:92-108 | a service-entry host equal to the policy host resolves |
| NoHostScenarios.ExportedInternalServiceEntryPresent | business/checkers/authorization/no_host_checker_test.go:110-126 | an internal entry's FQDN equal to the policy host resolves |
| NoHostScenarios.ExportedExternalServiceEntryPresent | business/checkers/authorization/no_host_checker_test.go:128-144 | an external entry's host equal to the policy host resolves |
| NoHostScenarios.ExportedExternalServiceEntryFail | business/checkers/authorization/no_host_checker_test.go:146-166 | `www.wrong.com` against `www.myhost.com` gives one finding at hosts[0] |
| NoHostScenarios.WildcardExportedInternalServiceEntryPresent | business/checkers/authorization/no_host_checker_test.go:168-184 | `*.bookinfo2.svc.cluster.local` matches `details.bookinfo2.svc.cluster.local` |
| NoHostScenarios.WildcardExportedInternalServiceEntryFail | business/checkers/authorization/no_host_checker_test.go:186-206 | an entry for bookinfo2 does not satisfy a bookinfo3 host: one finding |
| NoHostScenarios.ExportedNonFqdnInternalServiceEntryFail | business/checkers/authorization/no_host_checker_test.go:208-228 | an internal entry with short host `details` does not satisfy the FQDN: one finding |
| NoHostScenarios.ServiceEntryNotPresent | business/checkers/authorization/no_host_checker_test.go:230-249 | `wrong.org` against `wikipedia.org` gives one finding |
| NoHostScenarios.ExportedInternalServiceEntryNotPresent | business/checkers/authorization/no_host_checker_test.go:251-270 | `wrong.bookinfo2...` against `details.bookinfo2...` gives one finding |
| NoHostScenarios.VirtualServicePresent | business/checkers/authorization/no_host_checker_test.go:272-287 | a virtual-service host declared in namespace foo satisfies the policy host |
| NoHostScenarios.VirtualServiceNotPresent | business/checkers/authorization/no_host_checker_test.go:289-309 | a different host gives one finding |
| NoHostScenarios.WildcardServiceEntryHost | business/checkers/authorization/no_host_checker_test.go:311-326 | a service entry keyed `*.google.com` makes `maps.google.com` resolve, so the policy is valid |
| NoHostScenarios.WildcardServiceEntryOtherDomain | business/checkers/authorization/no_host_checker_test.go:328-344 | the same entry does not cover `maps.apple.com`: exactly one error finding at hosts[0] |
| NoHostScenarios.ValidServiceRegistry | business/checkers/authorization/no_host_checker_test.go:377-440 | no registry fails; an equal registry hostname passes; a different one fails, in either policy namespace |
| StrConv.ParseBool | models/workload.go:177 | exactly the true literals give true, the false literals give false, anything else is an error |
| StrConv.LiteralsDisjoint | models/workload.go:188 | no literal is read both as true and as false |
| Workloads.InjectionFlag | models/workload.go:171-194 | a label or annotation parsing to false forces false; outside Maistra a label parsing to true sets true unless the annotation says false, and otherwise the prior flag stays; on Maistra only the annotation counts; with nothing parseable the flag is unchanged |
| Workloads.ParseObjectMeta | models/workload.go:155-202 | name and resource version from the object; template labels with agreeing app/version flags, or empty labels and flags left as they were; injection flag per `InjectionFlag`; counts, pods and type untouched |
| Workloads.ParseDeployment | models/workload.go:204-212 | type Deployment; desired from the spec only when set, else unchanged; current and available from the status |
| Workloads.ParseReplicaSet | models/workload.go:214-222 | type ReplicaSet; desired from the spec only when set, else unchanged; current and available from the status |
| Workloads.ParseReplicaSetParent | models/workload.go:224-236 | name and type are the parent's arguments; counts as for a ReplicaSet |
| Workloads.ParseReplicationController | models/workload.go:238-246 | type ReplicationController; desired from the spec only when set; current and available from the status |
| Workloads.ParseDeploymentConfig | models/workload.go:248-254 | type DeploymentConfig; desired always from the spec |
| Workloads.ParseStatefulSet | models/workload.go:256-264 | type StatefulSet; available comes from the ready replicas |
| Workloads.ParseDaemonSet | models/workload.go:325-335 | desired, current, available are the scheduled, current and available node counts |
| Workloads.ParsePod | models/workload.go:266-288 | phase `"Succeed"` gives 0/0/0, `"Running"` 1/1/1, any other 1/1/0 |
| Workloads.ParseJob | models/workload.go:290-298 | desired = current = active + succeeded + failed; available = active + succeeded |
| Workloads.CountPods | models/workload.go:345-358 | the counting loop ends with the pods not `"Succeeded"` and those `"Running"` (multiset counts), the definitions `ParsePods` and `ParseCronJob` use, and available never exceeds desired |
| Workloads.ParseCronJob | models/workload.go:300-323 | desired ends equal to current, which is the prior current count; available is the number of bound pods with status `"Running"` |
| Workloads.ParsePods | models/workload.go:337-373 | desired = current = pods not `"Succeeded"`, available = pods `"Running"`, available ≤ desired; labels are the first pod's or empty; app/version flags agree with them; sidecar flag, pod count, references, injection flag and pods keep their prior values |
| Workloads.HasIstioSidecar | models/workload.go:384-396 | true with no pods; a Deployment follows its first pod; otherwise every pod must have a sidecar; false always has a witness pod |
| Workloads.ParseWorkload | models/workload.go:136-153 | the item copies name, type, version and labels; sidecar from `HasIstioSidecar`; pod count is the number of pods; references empty; flags agree with labels; injection flag not copied |
| Workloads.OverviewsHaveIstioSidecar | models/workload.go:398-408 | true iff some item has a sidecar; false for an empty list |
| Workloads.GetLabels | models/workload.go:410-416 | one label set per workload, in list order |
| WorkloadLemmas.FalseOnlyWhenSaid | models/workload.go:171-194 | the flag ends false iff the label or annotation said false, or it was false and nothing overrode it |
| WorkloadLemmas.MaistraIgnoresLabel | models/workload.go:173-176 | on Maistra the label has no effect |
| WorkloadLemmas.AnnotationTrueIgnoredOutsideMaistra | models/workload.go:183-192 | outside Maistra, an annotation set to true with no usable label changes nothing |
| WorkloadLemmas.InjectionFlagIdempotent | models/workload.go:174-194 | reading the same label and annotation twice gives the flag of reading them once |
| WorkloadLemmas.ParseObjectMetaIdempotent | models/workload.go:155-202 | metadata parsing is idempotent |
| WorkloadLemmas.TypedParseIdempotent | models/workload.go:204-264 | setting a type, reading metadata and setting counts is idempotent |
| WorkloadLemmas.ParseDeploymentIdempotent | models/workload.go:204-212 | parsing the same Deployment twice equals parsing it once |
| WorkloadLemmas.ParseReplicaSetIdempotent | models/workload.go:214-222 | parsing the same ReplicaSet twice equals parsing it once |
| WorkloadLemmas.ParseReplicationControllerIdempotent | models/workload.go:238-246 | parsing the same ReplicationController twice equals parsing it once |
| WorkloadLemmas.ParseDeploymentConfigIdempotent | models/workload.go:248-254 | parsing the same DeploymentConfig twice equals parsing it once |
| WorkloadLemmas.ParseStatefulSetIdempotent | models/workload.go:256-264 | parsing the same StatefulSet twice equals parsing it once |
| WorkloadLemmas.ParseDaemonSetIdempotent | models/workload.go:325-335 | parsing the same DaemonSet twice equals parsing it once |
| WorkloadLemmas.ParsePodIdempotent | models/workload.go:266-288 | parsing the same Pod twice equals parsing it once |
| WorkloadLemmas.ParseJobIdempotent | models/workload.go:290-298 | parsing the same Job twice equals parsing it once |
| WorkloadLemmas.ReplicaSetParentRenamesReplicaSet | models/workload.go:214-236 | the parent form is the ReplicaSet parse with name and type replaced |
| WorkloadLemmas.FreshParsesAgreeOnLabelFlags | models/workload.go:158-165 | from the zero workload, parsers leave the app/version flags agreeing with the labels |
| WorkloadLemmas.NilTemplateLabelsKeepStaleFlags | models/workload.go:158-165 | on a reused workload, a nil template label map empties the labels but keeps an old app flag |
| WorkloadLemmas.ParseWorkloadForgetsPrior | models/workload.go:136-153 | the item is rebuilt from the workload: two prior items give the same result iff they carry the same injection flag, the one field not assigned |
| Workloads.AvailableWithinReplicas | models/workload.go:345-358 | the running count never exceeds the not-succeeded count |
| WorkloadLemmas.ParsePodVersusPodCount | models/workload.go:277-282 | a single pod counts like a one-pod list except for phases `"Succeed"` and `"Succeeded"`, where they differ |
| WorkloadLemmas.DeploymentShortcutAgrees | models/workload.go:390-395 | when all pods agree, the Deployment first-pod shortcut equals the every-pod check |
| WorkloadLemmas.DeploymentJudgedByFirstPod | models/workload.go:390-395 | a Deployment whose second pod lacks a sidecar still reports one; another kind does not |

## Left out

- The checker's implementation file and `kubernetes.ServiceEntryHostnames` are not part of this model. The service-entry inventory is the host → namespaces map the checker receives. Its namespace lists are not consulted. Export scoping (`exportTo`) and the mesh-internal FQDN rule belong to the builder of that map, so the scenarios use each entry's declared hostname as its key.
- Destinations.Resolves: how a service matches follows the scenarios in `business/checkers/authorization/no_host_checker_test.go`: the short name of a service in the policy namespace. A fully qualified name resolves through a service only via the other sources.
- Destinations.LocalWildcard: `*.ns` counts as a namespace wildcard only when `ns` is a known namespace. This is where the namespace list is used; the tests only show the case where it is known.
- Kubernetes and OpenShift API types are reduced to records with only the fields the parsers read. JSON tags are left out.
- Creation timestamps (`formatTime`), `GetAdditionalDetails`, `GetFirstAdditionalIcon`, `GetDashboardAnnotation` and `GetHealthAnnotation` are left out. So are service-account names (`Pods.ServiceAccounts`), `SetPods`/`SetServices` and `Pods.Parse`/`Services.Parse`. They are foreign helpers whose code is not in this model.
- `Pod.HasIstioSidecar` is taken as a per-pod input field. `Pods.HasIstioSidecar` is taken as "every pod has one", which is what it means at its only call site, where the pod list is non-empty.
- `config.Get()` and `status.IsMaistra()` are global state. Here they are the `Config` and `isMaistra` parameters.
- Workloads.ParseJob: replica counts are unbounded naturals. The int32 wrap-around of the source's sums is not modelled.
- Workloads.ParseObjectMeta: dereferencing a nil template metadata pointer is not modelled. Every caller passes the address of a field, so it cannot be nil.
