/**
 * Properties relating the workload parsers to each other and to
 * independent definitions: idempotence, the parent-ReplicaSet renaming,
 * the injection flag's decision table, and how single-pod counting differs
 * from counting a list of pods.
 */
module WorkloadLemmas {
  import opened Options
  import opened Workloads

  // ---------------------------------------------------------------------
  // Injection flag

  /** The flag ends false only when the prior flag, the label or the annotation said false. */
  lemma {:induction false} FalseOnlyWhenSaid(prior: Option<bool>, labels: Labels, annotations: Option<Labels>, key: string, isMaistra: bool)
    ensures InjectionFlag(prior, labels, annotations, key, isMaistra) == Some(false) <==>
      || LabelSetting(labels, key, isMaistra) == Some(false)
      || AnnotationSetting(annotations, key) == Some(false)
      || (prior == Some(false) && LabelSetting(labels, key, isMaistra).None? && !(isMaistra && AnnotationSetting(annotations, key) == Some(true)))
  {
  }

  /** On Maistra the label is never read. */
  lemma MaistraIgnoresLabel(prior: Option<bool>, labels: Labels, annotations: Option<Labels>, key: string)
    ensures InjectionFlag(prior, labels, annotations, key, true) == InjectionFlag(prior, map[], annotations, key, true)
  {
  }

  /** Outside Maistra, an annotation set to true with no usable label leaves the flag as it was. */
  lemma AnnotationTrueIgnoredOutsideMaistra(prior: Option<bool>, labels: Labels, annotations: Option<Labels>, key: string)
    requires LabelSetting(labels, key, false).None?
    requires AnnotationSetting(annotations, key) == Some(true)
    ensures InjectionFlag(prior, labels, annotations, key, false) == prior
  {
  }

  /** Reading the same label and annotation again changes nothing. */
  lemma InjectionFlagIdempotent(prior: Option<bool>, labels: Labels, annotations: Option<Labels>, key: string, isMaistra: bool)
    ensures var once := InjectionFlag(prior, labels, annotations, key, isMaistra);
      InjectionFlag(once, labels, annotations, key, isMaistra) == once
  {
  }

  // ---------------------------------------------------------------------
  // Parsers

  lemma ParseObjectMetaIdempotent(w: Workload, cfg: Config, isMaistra: bool, meta: ObjectMeta, tpl: ObjectMeta)
    ensures var once := ParseObjectMeta(w, cfg, isMaistra, meta, tpl);
      ParseObjectMeta(once, cfg, isMaistra, meta, tpl) == once
  {
    var once := ParseObjectMeta(w, cfg, isMaistra, meta, tpl);
    InjectionFlagIdempotent(w.item.istioInjectionAnnotation, once.item.labels, EffectiveAnnotations(meta, tpl), cfg.injectionKey, isMaistra);
  }

  /** The shape every controller parser has: set the type, read the metadata, set the counts. */
  lemma TypedParseIdempotent(w: Workload, cfg: Config, isMaistra: bool, workloadType: string, meta: ObjectMeta, tpl: ObjectMeta,
                             spec: Option<nat>, current: nat, available: nat)
    ensures var once := SetReplicas(ParseObjectMeta(WithType(w, workloadType), cfg, isMaistra, meta, tpl), spec, current, available);
      SetReplicas(ParseObjectMeta(WithType(once, workloadType), cfg, isMaistra, meta, tpl), spec, current, available) == once
  {
    var parsed := ParseObjectMeta(WithType(w, workloadType), cfg, isMaistra, meta, tpl);
    var once := SetReplicas(parsed, spec, current, available);
    ParseObjectMetaIdempotent(WithType(w, workloadType), cfg, isMaistra, meta, tpl);
    assert WithType(once, workloadType) == SetReplicas(parsed, spec, current, available);
    assert ParseObjectMeta(WithType(once, workloadType), cfg, isMaistra, meta, tpl).item == parsed.item;
  }

  /** Parsing the same controller twice gives the same workload as parsing it once. */
  lemma ParseDeploymentIdempotent(w: Workload, cfg: Config, isMaistra: bool, d: ReplicatedController)
    ensures ParseDeployment(ParseDeployment(w, cfg, isMaistra, d), cfg, isMaistra, d) == ParseDeployment(w, cfg, isMaistra, d)
  {
    TypedParseIdempotent(w, cfg, isMaistra, "Deployment", d.meta, d.template, d.specReplicas, d.statusReplicas, d.availableReplicas);
  }

  lemma ParseReplicaSetIdempotent(w: Workload, cfg: Config, isMaistra: bool, rs: ReplicatedController)
    ensures ParseReplicaSet(ParseReplicaSet(w, cfg, isMaistra, rs), cfg, isMaistra, rs) == ParseReplicaSet(w, cfg, isMaistra, rs)
  {
    TypedParseIdempotent(w, cfg, isMaistra, "ReplicaSet", rs.meta, rs.template, rs.specReplicas, rs.statusReplicas, rs.availableReplicas);
  }

  lemma ParseReplicationControllerIdempotent(w: Workload, cfg: Config, isMaistra: bool, rc: ReplicatedController)
    ensures ParseReplicationController(ParseReplicationController(w, cfg, isMaistra, rc), cfg, isMaistra, rc)
      == ParseReplicationController(w, cfg, isMaistra, rc)
  {
    TypedParseIdempotent(w, cfg, isMaistra, "ReplicationController", rc.meta, rc.template, rc.specReplicas, rc.statusReplicas, rc.availableReplicas);
  }

  lemma ParseDeploymentConfigIdempotent(w: Workload, cfg: Config, isMaistra: bool, dc: DeploymentConfig)
    ensures ParseDeploymentConfig(ParseDeploymentConfig(w, cfg, isMaistra, dc), cfg, isMaistra, dc) == ParseDeploymentConfig(w, cfg, isMaistra, dc)
  {
    TypedParseIdempotent(w, cfg, isMaistra, "DeploymentConfig", dc.meta, dc.template, Some(dc.specReplicas), dc.statusReplicas, dc.availableReplicas);
  }

  lemma ParseStatefulSetIdempotent(w: Workload, cfg: Config, isMaistra: bool, s: StatefulSet)
    ensures ParseStatefulSet(ParseStatefulSet(w, cfg, isMaistra, s), cfg, isMaistra, s) == ParseStatefulSet(w, cfg, isMaistra, s)
  {
    TypedParseIdempotent(w, cfg, isMaistra, "StatefulSet", s.meta, s.template, s.specReplicas, s.statusReplicas, s.readyReplicas);
  }

  lemma ParseDaemonSetIdempotent(w: Workload, cfg: Config, isMaistra: bool, ds: DaemonSet)
    ensures ParseDaemonSet(ParseDaemonSet(w, cfg, isMaistra, ds), cfg, isMaistra, ds) == ParseDaemonSet(w, cfg, isMaistra, ds)
  {
    TypedParseIdempotent(w, cfg, isMaistra, "DaemonSet", ds.meta, ds.template,
      Some(ds.desiredNumberScheduled), ds.currentNumberScheduled, ds.numberAvailable);
  }

  lemma ParsePodIdempotent(w: Workload, cfg: Config, isMaistra: bool, pod: CorePod)
    ensures ParsePod(ParsePod(w, cfg, isMaistra, pod), cfg, isMaistra, pod) == ParsePod(w, cfg, isMaistra, pod)
  {
    var replicas: nat := if pod.phase == "Succeed" then 0 else 1;
    var available: nat := if pod.phase == "Succeed" || pod.phase != "Running" then 0 else 1;
    TypedParseIdempotent(w, cfg, isMaistra, "Pod", pod.meta, pod.meta, Some(replicas), replicas, available);
  }

  lemma ParseJobIdempotent(w: Workload, cfg: Config, isMaistra: bool, job: Job)
    ensures ParseJob(ParseJob(w, cfg, isMaistra, job), cfg, isMaistra, job) == ParseJob(w, cfg, isMaistra, job)
  {
    var total := job.active + job.succeeded + job.failed;
    TypedParseIdempotent(w, cfg, isMaistra, "Job", job.meta, job.meta, Some(total), total, job.active + job.succeeded);
  }

  /** A parent-reported ReplicaSet is the ReplicaSet parse with the parent's name and type. */
  lemma ReplicaSetParentRenamesReplicaSet(w: Workload, cfg: Config, isMaistra: bool, rs: ReplicatedController,
                                          workloadName: string, workloadType: string)
    ensures var plain := ParseReplicaSet(w, cfg, isMaistra, rs);
      ParseReplicaSetParent(w, cfg, isMaistra, rs, workloadName, workloadType)
        == plain.(item := plain.item.(name := workloadName, workloadType := workloadType))
  {
  }

  /**
   * Starting from the zero workload, every metadata-based parser leaves the
   * app and version flags in agreement with the labels.
   */
  lemma FreshParsesAgreeOnLabelFlags(cfg: Config, isMaistra: bool, rc: ReplicatedController, pod: CorePod, job: Job)
    ensures LabelFlagsAgree(ParseDeployment(EmptyWorkload, cfg, isMaistra, rc).item, cfg)
    ensures LabelFlagsAgree(ParseReplicaSet(EmptyWorkload, cfg, isMaistra, rc).item, cfg)
    ensures LabelFlagsAgree(ParsePod(EmptyWorkload, cfg, isMaistra, pod).item, cfg)
    ensures LabelFlagsAgree(ParseJob(EmptyWorkload, cfg, isMaistra, job).item, cfg)
  {
  }

  /**
   * Reused on a workload whose template now has no labels, the parser
   * empties the labels but keeps the old app flag.
   */
  lemma NilTemplateLabelsKeepStaleFlags(cfg: Config, isMaistra: bool, meta: ObjectMeta, tpl: ObjectMeta)
    requires tpl.labels.None?
    ensures var prior := EmptyWorkload.(item := EmptyItem.(labels := map[cfg.appLabelName := "reviews"], appLabel := true));
      var r := ParseObjectMeta(prior, cfg, isMaistra, meta, tpl);
      r.item.labels == map[] && r.item.appLabel && !LabelFlagsAgree(r.item, cfg)
  {
  }

  /**
   * A list item is rebuilt from the workload: two prior items give the same
   * result exactly when they carry the same injection flag, the one field
   * the rebuild does not assign.
   */
  lemma ParseWorkloadForgetsPrior(p1: WorkloadListItem, p2: WorkloadListItem, w: Workload, cfg: Config)
    ensures ParseWorkload(p1, w, cfg) == ParseWorkload(p2, w, cfg)
      <==> p1.istioInjectionAnnotation == p2.istioInjectionAnnotation
  {
  }

  // ---------------------------------------------------------------------
  // Pod counting

  /**
   * A single pod counts like a one-pod list except for the phases "Succeed"
   * (which the list counts as a replica) and "Succeeded" (which the single
   * pod counts as one).
   */
  lemma ParsePodVersusPodCount(w: Workload, cfg: Config, isMaistra: bool, pod: CorePod)
    ensures pod.phase != "Succeed" && pod.phase != "Succeeded" ==>
      && ParsePod(w, cfg, isMaistra, pod).desiredReplicas == ReplicasOf([pod.phase])
      && ParsePod(w, cfg, isMaistra, pod).availableReplicas == AvailableOf([pod.phase])
    ensures pod.phase == "Succeeded" ==>
      ParsePod(w, cfg, isMaistra, pod).desiredReplicas == 1 && ReplicasOf([pod.phase]) == 0
    ensures pod.phase == "Succeed" ==>
      ParsePod(w, cfg, isMaistra, pod).desiredReplicas == 0 && ReplicasOf([pod.phase]) == 1
  {
  }

  // ---------------------------------------------------------------------
  // Sidecars

  /** When all pods agree, the Deployment shortcut and the every-pod check coincide. */
  lemma DeploymentShortcutAgrees(w: Workload)
    requires forall i :: 0 <= i < |w.pods| ==> w.pods[i].hasIstioSidecar == w.pods[0].hasIstioSidecar
    ensures HasIstioSidecar(w) <==> AllPodsHaveSidecar(w.pods)
  {
  }

  /** A Deployment is judged by its first pod alone, even if a later pod has no sidecar. */
  lemma DeploymentJudgedByFirstPod()
    ensures var pods := [Pod("a", "Running", true), Pod("b", "Running", false)];
      && HasIstioSidecar(EmptyWorkload.(item := EmptyItem.(workloadType := "Deployment"), pods := pods))
      && !HasIstioSidecar(EmptyWorkload.(item := EmptyItem.(workloadType := "StatefulSet"), pods := pods))
  {
    var pods := [Pod("a", "Running", true), Pod("b", "Running", false)];
    assert !pods[1].hasIstioSidecar;
  }
}
