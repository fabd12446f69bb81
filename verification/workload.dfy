/**
 * Workload normalisation: how a controller object (Deployment, ReplicaSet,
 * StatefulSet, Pod, Job, ...) becomes a `Workload` record, with its replica
 * counts, labels and the three-valued sidecar-injection flag; plus the
 * aggregations over workloads and pods.
 *
 * The source mutates a workload in place; here each parser takes the prior
 * workload and returns the updated one, so a field a parser does not assign
 * keeps its prior value. Global configuration and the Maistra switch are
 * parameters. A nil map is `None`.
 */
module Workloads {
  import opened Options
  import StrConv

  type Labels = map<string, string>

  /** The configured label names and the sidecar-injection key. */
  datatype Config = Config(appLabelName: string, versionLabelName: string, injectionKey: string)

  datatype ObjectMeta = ObjectMeta(
    name: string,
    resourceVersion: string,
    labels: Option<Labels>,
    annotations: Option<Labels>)

  datatype IstioValidationKey = IstioValidationKey(objectType: string, name: string, namespace: string)

  datatype WorkloadListItem = WorkloadListItem(
    name: string,
    workloadType: string,
    resourceVersion: string,
    istioInjectionAnnotation: Option<bool>,
    istioSidecar: bool,
    labels: Labels,
    appLabel: bool,
    versionLabel: bool,
    podCount: nat,
    istioReferences: seq<IstioValidationKey>)

  /** A pod bound to a workload: its status and whether it runs a sidecar. */
  datatype Pod = Pod(name: string, status: string, hasIstioSidecar: bool)

  datatype Workload = Workload(
    item: WorkloadListItem,
    desiredReplicas: nat,
    currentReplicas: nat,
    availableReplicas: nat,
    pods: seq<Pod>)

  datatype WorkloadList = WorkloadList(namespace: string, workloads: seq<WorkloadListItem>)

  /** The zero value a workload starts from. */
  const EmptyItem: WorkloadListItem := WorkloadListItem("", "", "", None, false, map[], false, false, 0, [])
  const EmptyWorkload: Workload := Workload(EmptyItem, 0, 0, 0, [])

  // Controller objects, reduced to the fields the parsers read.

  datatype CorePod = CorePod(meta: ObjectMeta, phase: string)

  /** Deployment, ReplicaSet and ReplicationController share this shape. */
  datatype ReplicatedController = ReplicatedController(
    meta: ObjectMeta,
    template: ObjectMeta,
    specReplicas: Option<nat>,
    statusReplicas: nat,
    availableReplicas: nat)

  datatype DeploymentConfig = DeploymentConfig(
    meta: ObjectMeta,
    template: ObjectMeta,
    specReplicas: nat,
    statusReplicas: nat,
    availableReplicas: nat)

  datatype StatefulSet = StatefulSet(
    meta: ObjectMeta,
    template: ObjectMeta,
    specReplicas: Option<nat>,
    statusReplicas: nat,
    readyReplicas: nat)

  datatype DaemonSet = DaemonSet(
    meta: ObjectMeta,
    template: ObjectMeta,
    desiredNumberScheduled: nat,
    currentNumberScheduled: nat,
    numberAvailable: nat)

  datatype Job = Job(meta: ObjectMeta, active: nat, succeeded: nat, failed: nat)

  datatype CronJob = CronJob(meta: ObjectMeta)

  function Lookup(m: Option<Labels>, key: string): Option<string> {
    if m.Some? && key in m.value then Some(m.value[key]) else None
  }

  /** The app and version flags say exactly whether the labels carry those keys. */
  predicate LabelFlagsAgree(item: WorkloadListItem, cfg: Config) {
    && (item.appLabel <==> cfg.appLabelName in item.labels)
    && (item.versionLabel <==> cfg.versionLabelName in item.labels)
  }

  // ---------------------------------------------------------------------
  // Sidecar-injection flag

  /** The injection label's value; the label means nothing on Maistra. */
  function LabelSetting(labels: Labels, key: string, isMaistra: bool): Option<bool> {
    if key in labels && !isMaistra then StrConv.ParseBool(labels[key]) else None
  }

  function AnnotationSetting(annotations: Option<Labels>, key: string): Option<bool> {
    match Lookup(annotations, key)
    case Some(v) => StrConv.ParseBool(v)
    case None => None
  }

  /**
   * The three-valued injection flag after reading the label and then the
   * annotation. Either one set to false disables injection; outside Maistra
   * an annotation set to true is ignored; unparseable values change nothing.
   */
  function InjectionFlag(prior: Option<bool>, labels: Labels, annotations: Option<Labels>, key: string, isMaistra: bool): (r: Option<bool>)
    ensures LabelSetting(labels, key, isMaistra) == Some(false) ==> r == Some(false)
    ensures AnnotationSetting(annotations, key) == Some(false) ==> r == Some(false)
    ensures isMaistra ==> r == (if AnnotationSetting(annotations, key).Some? then AnnotationSetting(annotations, key) else prior)
    ensures !isMaistra && r == Some(true) ==> prior == Some(true) || LabelSetting(labels, key, isMaistra) == Some(true)
    ensures LabelSetting(labels, key, isMaistra).None? && AnnotationSetting(annotations, key).None? ==> r == prior
    ensures !isMaistra ==> (r ==
      if LabelSetting(labels, key, isMaistra) == Some(false) || AnnotationSetting(annotations, key) == Some(false) then Some(false)
      else if LabelSetting(labels, key, isMaistra).Some? then LabelSetting(labels, key, isMaistra)
      else prior)
    ensures r == prior || r == LabelSetting(labels, key, isMaistra) || r == AnnotationSetting(annotations, key)
  {
    var fromLabel := LabelSetting(labels, key, isMaistra);
    var afterLabel := if fromLabel.Some? then fromLabel else prior;
    if fromLabel == Some(false) then afterLabel
    else
      var fromAnnotation := AnnotationSetting(annotations, key);
      if fromAnnotation.Some? && (!fromAnnotation.value || isMaistra) then fromAnnotation else afterLabel
  }

  // ---------------------------------------------------------------------
  // Object metadata

  /** The template's annotations when it has any, otherwise the object's. */
  function EffectiveAnnotations(meta: ObjectMeta, tpl: ObjectMeta): Option<Labels> {
    if tpl.annotations.Some? then tpl.annotations else meta.annotations
  }

  /**
   * Name, labels, resource version and injection flag from an object and its
   * pod template. A nil template label map leaves the app and version flags
   * as they were.
   */
  function ParseObjectMeta(w: Workload, cfg: Config, isMaistra: bool, meta: ObjectMeta, tpl: ObjectMeta): (r: Workload)
    ensures r.item.name == meta.name && r.item.resourceVersion == meta.resourceVersion
    ensures tpl.labels.Some? ==> r.item.labels == tpl.labels.value && LabelFlagsAgree(r.item, cfg)
    ensures tpl.labels.None? ==>
      (r.item.labels == map[] && r.item.appLabel == w.item.appLabel && r.item.versionLabel == w.item.versionLabel)
    ensures r.item.istioInjectionAnnotation == InjectionFlag(w.item.istioInjectionAnnotation, r.item.labels,
      EffectiveAnnotations(meta, tpl), cfg.injectionKey, isMaistra)
    ensures r.item.workloadType == w.item.workloadType && r.item.istioSidecar == w.item.istioSidecar
    ensures r.item.podCount == w.item.podCount && r.item.istioReferences == w.item.istioReferences
    ensures r.desiredReplicas == w.desiredReplicas && r.currentReplicas == w.currentReplicas
    ensures r.availableReplicas == w.availableReplicas && r.pods == w.pods
  {
    var labels := tpl.labels.GetOr(map[]);
    var app := if tpl.labels.Some? then cfg.appLabelName in labels else w.item.appLabel;
    var version := if tpl.labels.Some? then cfg.versionLabelName in labels else w.item.versionLabel;
    var flag := InjectionFlag(w.item.istioInjectionAnnotation, labels, EffectiveAnnotations(meta, tpl), cfg.injectionKey, isMaistra);
    w.(item := w.item.(
      name := meta.name,
      labels := labels,
      appLabel := app,
      versionLabel := version,
      istioInjectionAnnotation := flag,
      resourceVersion := meta.resourceVersion))
  }

  function WithType(w: Workload, workloadType: string): Workload {
    w.(item := w.item.(workloadType := workloadType))
  }

  // ---------------------------------------------------------------------
  // Controllers with a replica spec

  /**
   * Desired replicas come from the spec only when it sets them; current and
   * available come from the status.
   */
  function SetReplicas(w: Workload, spec: Option<nat>, current: nat, available: nat): (r: Workload)
    ensures spec.Some? ==> r.desiredReplicas == spec.value
    ensures spec.None? ==> r.desiredReplicas == w.desiredReplicas
    ensures r.currentReplicas == current && r.availableReplicas == available
    ensures r.item == w.item && r.pods == w.pods
  {
    w.(desiredReplicas := spec.GetOr(w.desiredReplicas), currentReplicas := current, availableReplicas := available)
  }

  function ParseDeployment(w: Workload, cfg: Config, isMaistra: bool, d: ReplicatedController): (r: Workload)
    ensures r.item == ParseObjectMeta(w, cfg, isMaistra, d.meta, d.template).item.(workloadType := "Deployment")
    ensures r.desiredReplicas == d.specReplicas.GetOr(w.desiredReplicas)
    ensures r.currentReplicas == d.statusReplicas && r.availableReplicas == d.availableReplicas
    ensures r.pods == w.pods
  {
    var typed := WithType(w, "Deployment");
    SetReplicas(ParseObjectMeta(typed, cfg, isMaistra, d.meta, d.template), d.specReplicas, d.statusReplicas, d.availableReplicas)
  }

  function ParseReplicaSet(w: Workload, cfg: Config, isMaistra: bool, rs: ReplicatedController): (r: Workload)
    ensures r.item == ParseObjectMeta(w, cfg, isMaistra, rs.meta, rs.template).item.(workloadType := "ReplicaSet")
    ensures r.desiredReplicas == rs.specReplicas.GetOr(w.desiredReplicas)
    ensures r.currentReplicas == rs.statusReplicas && r.availableReplicas == rs.availableReplicas
    ensures r.pods == w.pods
  {
    var typed := WithType(w, "ReplicaSet");
    SetReplicas(ParseObjectMeta(typed, cfg, isMaistra, rs.meta, rs.template), rs.specReplicas, rs.statusReplicas, rs.availableReplicas)
  }

  /** A ReplicaSet reported under its parent controller's name and type. */
  function ParseReplicaSetParent(w: Workload, cfg: Config, isMaistra: bool, rs: ReplicatedController,
                                 workloadName: string, workloadType: string): (r: Workload)
    ensures r.item.name == workloadName && r.item.workloadType == workloadType
    ensures r.desiredReplicas == rs.specReplicas.GetOr(w.desiredReplicas)
    ensures r.currentReplicas == rs.statusReplicas && r.availableReplicas == rs.availableReplicas
    ensures r.pods == w.pods
  {
    var parsed := ParseObjectMeta(w, cfg, isMaistra, rs.meta, rs.template);
    var renamed := parsed.(item := parsed.item.(workloadType := workloadType, name := workloadName));
    SetReplicas(renamed, rs.specReplicas, rs.statusReplicas, rs.availableReplicas)
  }

  function ParseReplicationController(w: Workload, cfg: Config, isMaistra: bool, rc: ReplicatedController): (r: Workload)
    ensures r.item == ParseObjectMeta(w, cfg, isMaistra, rc.meta, rc.template).item.(workloadType := "ReplicationController")
    ensures r.desiredReplicas == rc.specReplicas.GetOr(w.desiredReplicas)
    ensures r.currentReplicas == rc.statusReplicas && r.availableReplicas == rc.availableReplicas
    ensures r.pods == w.pods
  {
    var typed := WithType(w, "ReplicationController");
    SetReplicas(ParseObjectMeta(typed, cfg, isMaistra, rc.meta, rc.template), rc.specReplicas, rc.statusReplicas, rc.availableReplicas)
  }

  /** A DeploymentConfig always carries its replica count. */
  function ParseDeploymentConfig(w: Workload, cfg: Config, isMaistra: bool, dc: DeploymentConfig): (r: Workload)
    ensures r.item == ParseObjectMeta(w, cfg, isMaistra, dc.meta, dc.template).item.(workloadType := "DeploymentConfig")
    ensures r.desiredReplicas == dc.specReplicas
    ensures r.currentReplicas == dc.statusReplicas && r.availableReplicas == dc.availableReplicas
    ensures r.pods == w.pods
  {
    var typed := WithType(w, "DeploymentConfig");
    SetReplicas(ParseObjectMeta(typed, cfg, isMaistra, dc.meta, dc.template), Some(dc.specReplicas), dc.statusReplicas, dc.availableReplicas)
  }

  /** A StatefulSet counts its ready replicas as available. */
  function ParseStatefulSet(w: Workload, cfg: Config, isMaistra: bool, s: StatefulSet): (r: Workload)
    ensures r.item == ParseObjectMeta(w, cfg, isMaistra, s.meta, s.template).item.(workloadType := "StatefulSet")
    ensures r.desiredReplicas == s.specReplicas.GetOr(w.desiredReplicas)
    ensures r.currentReplicas == s.statusReplicas && r.availableReplicas == s.readyReplicas
    ensures r.pods == w.pods
  {
    var typed := WithType(w, "StatefulSet");
    SetReplicas(ParseObjectMeta(typed, cfg, isMaistra, s.meta, s.template), s.specReplicas, s.statusReplicas, s.readyReplicas)
  }

  /** A DaemonSet's replicas are its scheduled-node counts. */
  function ParseDaemonSet(w: Workload, cfg: Config, isMaistra: bool, ds: DaemonSet): (r: Workload)
    ensures r.item == ParseObjectMeta(w, cfg, isMaistra, ds.meta, ds.template).item.(workloadType := "DaemonSet")
    ensures r.desiredReplicas == ds.desiredNumberScheduled
    ensures r.currentReplicas == ds.currentNumberScheduled && r.availableReplicas == ds.numberAvailable
    ensures r.pods == w.pods
  {
    var typed := WithType(w, "DaemonSet");
    SetReplicas(ParseObjectMeta(typed, cfg, isMaistra, ds.meta, ds.template),
      Some(ds.desiredNumberScheduled), ds.currentNumberScheduled, ds.numberAvailable)
  }

  // ---------------------------------------------------------------------
  // Controllers without a replica spec

  /**
   * A single pod: none of its replicas count when its phase is the literal
   * "Succeed"; otherwise it is one replica, available only when "Running".
   * Kubernetes reports a finished pod as "Succeeded", which falls in the
   * second case.
   */
  function ParsePod(w: Workload, cfg: Config, isMaistra: bool, pod: CorePod): (r: Workload)
    ensures r.item == ParseObjectMeta(w, cfg, isMaistra, pod.meta, pod.meta).item.(workloadType := "Pod")
    ensures r.currentReplicas == r.desiredReplicas
    ensures r.availableReplicas <= r.desiredReplicas <= 1
    ensures pod.phase == "Succeed" ==> r.desiredReplicas == 0
    ensures pod.phase != "Succeed" ==> r.desiredReplicas == 1
    ensures r.availableReplicas == 1 <==> pod.phase == "Running"
    ensures r.pods == w.pods
  {
    var typed := WithType(w, "Pod");
    var parsed := ParseObjectMeta(typed, cfg, isMaistra, pod.meta, pod.meta);
    var replicas: nat := if pod.phase == "Succeed" then 0 else 1;
    var available: nat := if pod.phase == "Succeed" || pod.phase != "Running" then 0 else 1;
    SetReplicas(parsed, Some(replicas), replicas, available)
  }

  /**
   * A Job's replicas are its active, succeeded and failed pods; the available
   * ones are those not failed.
   */
  function ParseJob(w: Workload, cfg: Config, isMaistra: bool, job: Job): (r: Workload)
    ensures r.item == ParseObjectMeta(w, cfg, isMaistra, job.meta, job.meta).item.(workloadType := "Job")
    ensures r.currentReplicas == r.desiredReplicas
    ensures r.desiredReplicas == r.availableReplicas + job.failed
    ensures r.availableReplicas == job.active + job.succeeded
    ensures r.pods == w.pods
  {
    var typed := WithType(w, "Job");
    var parsed := ParseObjectMeta(typed, cfg, isMaistra, job.meta, job.meta);
    var total := job.active + job.succeeded + job.failed;
    SetReplicas(parsed, Some(total), total, job.active + job.succeeded)
  }

  /** Pods not in the phase "Succeeded": the replicas of a pod-counted controller. */
  function ReplicasOf(phases: seq<string>): nat {
    |phases| - multiset(phases)["Succeeded"]
  }

  /** Pods in the phase "Running": the available replicas of a pod-counted controller. */
  function AvailableOf(phases: seq<string>): nat {
    multiset(phases)["Running"]
  }

  /** Running pods are never Succeeded, so they never outnumber the replicas. */
  lemma {:induction false} AvailableWithinReplicas(phases: seq<string>)
    ensures AvailableOf(phases) <= ReplicasOf(phases) <= |phases|
    decreases |phases|
  {
    if |phases| > 0 {
      var init := phases[..|phases| - 1];
      assert phases == init + [phases[|phases| - 1]];
      AvailableWithinReplicas(init);
    }
  }

  /**
   * Counts the pods that are not "Succeeded" and those "Running", in one
   * pass: the loop the parsers run, proved equal to the multiset counts.
   */
  method CountPods(phases: seq<string>) returns (replicas: nat, available: nat)
    ensures replicas == ReplicasOf(phases)
    ensures available == AvailableOf(phases)
    ensures available <= replicas <= |phases|
  {
    replicas, available := 0, 0;
    for i := 0 to |phases|
      invariant replicas == i - multiset(phases[..i])["Succeeded"]
      invariant available == multiset(phases[..i])["Running"]
      invariant available <= replicas <= i
    {
      assert phases[..i + 1] == phases[..i] + [phases[i]];
      if phases[i] != "Succeeded" {
        replicas := replicas + 1;
      }
      if phases[i] == "Running" {
        available := available + 1;
      }
    }
    assert phases[..|phases|] == phases;
  }

  function PodPhases(pods: seq<CorePod>): (r: seq<string>)
    ensures |r| == |pods| && forall i :: 0 <= i < |pods| ==> r[i] == pods[i].phase
  {
    seq(|pods|, i requires 0 <= i < |pods| => pods[i].phase)
  }

  function PodStatuses(pods: seq<Pod>): (r: seq<string>)
    ensures |r| == |pods| && forall i :: 0 <= i < |pods| ==> r[i] == pods[i].status
  {
    seq(|pods|, i requires 0 <= i < |pods| => pods[i].status)
  }

  /**
   * A CronJob's counts come from the pods already bound to the workload. The
   * pod-derived desired count is overwritten by the current count, so desired
   * ends equal to the prior current replicas.
   */
  function ParseCronJob(w: Workload, cfg: Config, isMaistra: bool, cj: CronJob): (r: Workload)
    ensures r.item == ParseObjectMeta(w, cfg, isMaistra, cj.meta, cj.meta).item.(workloadType := "CronJob")
    ensures r.desiredReplicas == r.currentReplicas == w.currentReplicas
    ensures r.availableReplicas == AvailableOf(PodStatuses(w.pods))
    ensures r.availableReplicas <= |w.pods|
    ensures r.pods == w.pods
  {
    var parsed := ParseObjectMeta(WithType(w, "CronJob"), cfg, isMaistra, cj.meta, cj.meta);
    var statuses := PodStatuses(w.pods);
    AvailableWithinReplicas(statuses);
    var counted := parsed.(desiredReplicas := ReplicasOf(statuses));
    counted.(desiredReplicas := counted.currentReplicas, availableReplicas := AvailableOf(statuses))
  }

  /**
   * A workload inferred from its pods alone: replicas are the pods not
   * "Succeeded", available ones the pods "Running", and labels are the first
   * pod's (empty when there is none or it has none).
   */
  function ParsePods(w: Workload, cfg: Config, controllerName: string, controllerType: string, pods: seq<CorePod>)
    : (r: Workload)
    ensures r.item.name == controllerName && r.item.workloadType == controllerType
    ensures r.desiredReplicas == r.currentReplicas == ReplicasOf(PodPhases(pods))
    ensures r.availableReplicas == AvailableOf(PodPhases(pods))
    ensures r.availableReplicas <= r.desiredReplicas <= |pods|
    ensures |pods| > 0 && pods[0].meta.labels.Some? ==> r.item.labels == pods[0].meta.labels.value
    ensures |pods| == 0 || pods[0].meta.labels.None? ==> r.item.labels == map[]
    ensures |pods| > 0 ==> r.item.resourceVersion == pods[0].meta.resourceVersion
    ensures |pods| == 0 ==> r.item.resourceVersion == w.item.resourceVersion
    ensures LabelFlagsAgree(r.item, cfg)
    ensures r.item.istioInjectionAnnotation == w.item.istioInjectionAnnotation && r.pods == w.pods
    ensures r.item.istioSidecar == w.item.istioSidecar && r.item.podCount == w.item.podCount
    ensures r.item.istioReferences == w.item.istioReferences
  {
    var phases := PodPhases(pods);
    AvailableWithinReplicas(phases);
    var labels: Labels := if |pods| > 0 && pods[0].meta.labels.Some? then pods[0].meta.labels.value else map[];
    var version := if |pods| > 0 then pods[0].meta.resourceVersion else w.item.resourceVersion;
    w.(
      item := w.item.(
        name := controllerName,
        workloadType := controllerType,
        labels := labels,
        resourceVersion := version,
        appLabel := cfg.appLabelName in labels,
        versionLabel := cfg.versionLabelName in labels),
      desiredReplicas := ReplicasOf(phases),
      currentReplicas := ReplicasOf(phases),
      availableReplicas := AvailableOf(phases))
  }

  // ---------------------------------------------------------------------
  // Sidecars, list items and labels

  predicate AllPodsHaveSidecar(pods: seq<Pod>) {
    forall i :: 0 <= i < |pods| ==> pods[i].hasIstioSidecar
  }

  /**
   * True when there are no pods (nothing shows a missing sidecar); for a
   * Deployment, the first pod decides; otherwise every pod must have one.
   */
  function HasIstioSidecar(w: Workload): (r: bool)
    ensures |w.pods| == 0 ==> r
    ensures AllPodsHaveSidecar(w.pods) ==> r
    ensures !r ==> exists i :: 0 <= i < |w.pods| && !w.pods[i].hasIstioSidecar
    ensures |w.pods| > 0 && w.item.workloadType == "Deployment" ==> (r <==> w.pods[0].hasIstioSidecar)
    ensures w.item.workloadType != "Deployment" ==> (r <==> AllPodsHaveSidecar(w.pods))
  {
    if |w.pods| == 0 then true
    else if w.item.workloadType == "Deployment" then w.pods[0].hasIstioSidecar
    else AllPodsHaveSidecar(w.pods)
  }

  /**
   * The list item for a workload. The injection flag is not copied: the
   * item keeps the one it had.
   */
  function ParseWorkload(prior: WorkloadListItem, w: Workload, cfg: Config): (r: WorkloadListItem)
    ensures r.name == w.item.name && r.workloadType == w.item.workloadType
    ensures r.resourceVersion == w.item.resourceVersion && r.labels == w.item.labels
    ensures r.istioSidecar == HasIstioSidecar(w)
    ensures r.podCount == |w.pods| && r.istioReferences == []
    ensures LabelFlagsAgree(r, cfg)
    ensures r.istioInjectionAnnotation == prior.istioInjectionAnnotation
  {
    prior.(
      name := w.item.name,
      workloadType := w.item.workloadType,
      resourceVersion := w.item.resourceVersion,
      istioSidecar := HasIstioSidecar(w),
      labels := w.item.labels,
      podCount := |w.pods|,
      istioReferences := [],
      appLabel := cfg.appLabelName in w.item.labels,
      versionLabel := cfg.versionLabelName in w.item.labels)
  }

  /** True exactly when some item has a sidecar; an empty list has none. */
  method OverviewsHaveIstioSidecar(items: seq<WorkloadListItem>) returns (r: bool)
    ensures r <==> exists i :: 0 <= i < |items| && items[i].istioSidecar
    ensures |items| == 0 ==> !r
  {
    for i := 0 to |items|
      invariant forall k :: 0 <= k < i ==> !items[k].istioSidecar
    {
      if items[i].istioSidecar {
        return true;
      }
    }
    return false;
  }

  /** One label set per workload, in list order. */
  method GetLabels(wl: WorkloadList) returns (r: seq<Labels>)
    ensures |r| == |wl.workloads|
    ensures forall i :: 0 <= i < |r| ==> r[i] == wl.workloads[i].labels
  {
    r := [];
    for i := 0 to |wl.workloads|
      invariant |r| == i
      invariant forall k :: 0 <= k < i ==> r[k] == wl.workloads[k].labels
    {
      r := r + [wl.workloads[i].labels];
    }
  }
}
