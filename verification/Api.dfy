/** The Sesame custom resource, the child objects the operator manages, and owner labels
    (api/v1alpha1, internal/objects/sesame/sesame.go, pkg/labels/labels.go).

    Kubernetes' semantic deep equality identifies nil with empty, so optional lists and maps are
    plain sequences and maps here, except where the source itself tests for nil. */
module Api {
  datatype Option<+T> = None | Some(value: T)

  const OWNING_NAME_LABEL := "sesame.operator.projectsesame.io/owning-sesame-name"
  const OWNING_NS_LABEL := "sesame.operator.projectsesame.io/owning-sesame-namespace"
  const FINALIZER := "sesame.operator.projectsesame.io/finalizer"

  type Labels = map<string, string>

  // ----- the custom resource -----

  /** Namespace and name of a Sesame. */
  datatype Name = Name(ns: string, name: string)

  /** The CRD admits the first three; the last stands for every other string. */
  datatype PublishingType = LoadBalancerService | NodePortService | ClusterIPService | UnknownPublishing

  datatype Scope = Internal | External | UnknownScope
  datatype ProviderType = AWS | Azure | GCP | UnknownProvider
  datatype AwsType = Classic | NLB | UnknownAwsType
  datatype AwsParameters = AwsParameters(kind: AwsType, allocationIDs: Option<seq<string>>)
  datatype AzureParameters =
    AzureParameters(address: Option<string>, resourceGroup: Option<string>, subnet: Option<string>)
  datatype GcpParameters = GcpParameters(address: Option<string>, subnet: Option<string>)
  datatype Provider =
    Provider(kind: ProviderType, aws: Option<AwsParameters>, azure: Option<AzureParameters>, gcp: Option<GcpParameters>)
  datatype LoadBalancer = LoadBalancer(scope: Scope, provider: Provider)

  datatype ContainerPort = ContainerPort(name: string, number: int)

  /** A pointer to a number: the address matters because the validator compares pointers. */
  datatype Pointer = Pointer(address: nat, target: int)
  datatype NodePort = NodePort(name: string, number: Option<Pointer>)

  datatype Publishing = Publishing(
    kind: PublishingType,
    loadBalancer: LoadBalancer,
    nodePorts: Option<seq<NodePort>>,
    containerPorts: seq<ContainerPort>)

  datatype Placement = Placement(nodeSelector: Option<Labels>, tolerations: seq<string>)

  datatype Spec = Spec(
    replicas: int,
    namespace: string,
    removeOnDeletion: bool,
    publishing: Publishing,
    gatewayControllerName: Option<string>,
    ingressClassName: Option<string>,
    enableExternalName: Option<bool>,
    sesamePlacement: Placement,
    envoyPlacement: Placement)

  datatype ConditionStatus = ConditionTrue | ConditionFalse | ConditionUnknown | ConditionOther
  datatype Condition = Condition(
    kind: string, status: ConditionStatus, reason: string, message: string, lastTransition: int)
  datatype Status = Status(availableSesames: int, availableEnvoys: int, conditions: seq<Condition>)

  datatype Sesame = Sesame(version: nat, finalizers: seq<string>, deleting: bool, spec: Spec, status: Status)

  /** `IsFinalized`. */
  predicate Finalized(ses: Sesame) {
    FINALIZER in ses.finalizers
  }

  /** The operator's configuration, and the two library functions it calls on user input: the
      configmap template and `net.ParseIP`; and how often, after the first try, a Job is created anew
      before its 3-second poll gives up. */
  datatype Config = Config(
    sesameImage: string,
    envoyImage: string,
    renderConfig: (string, bool) -> string,
    parsesAsIP: string -> bool,
    extraJobAttempts: nat)

  // ----- child objects -----

  datatype Kind =
    | NamespaceKind | ServiceAccountKind | ClusterRoleKind | ClusterRoleBindingKind | RoleKind | RoleBindingKind
    | ConfigMapKind | JobKind | DeploymentKind | DaemonSetKind | ServiceKind

  /** Cluster-scoped objects have an empty namespace. */
  datatype Key = Key(kind: Kind, ns: string, name: string)

  /** Version 0 is "no resource version": the server then updates unconditionally. */
  datatype Meta = Meta(labels: Labels, annotations: map<string, string>, version: nat)

  datatype PodPort = PodPort(name: string, number: int, protocol: string)

  /** The parts of a pod that depend on the Sesame, and everything else as `rest`. */
  datatype Pod = Pod(
    images: seq<string>, args: seq<string>, ports: seq<PodPort>,
    nodeSelector: Labels, tolerations: seq<string>, rest: string)

  datatype Workload = Workload(replicas: int, selector: Labels, podLabels: Labels, pod: Pod)

  datatype JobSpec = JobSpec(
    parallelism: int, completions: int, backoffLimit: int, podLabels: Option<Labels>, pod: Pod)

  datatype ServicePort = ServicePort(name: string, protocol: string, port: int, targetPort: int, nodePort: int)

  datatype ServiceType = ClusterIP | NodePortType | LoadBalancerType | UnsetType
  datatype TrafficPolicy = Local | UnsetPolicy | OtherPolicy

  datatype ServiceSpec = ServiceSpec(
    ports: seq<ServicePort>,
    selector: Labels,
    kind: ServiceType,
    sessionAffinity: string,
    externalTrafficPolicy: TrafficPolicy,
    loadBalancerIP: string,
    clusterIP: string,
    healthCheckNodePort: int)

  datatype Body =
    | NamespaceBody
    | ServiceAccountBody
    | RoleBody(rules: seq<string>)
    | BindingBody(subjects: seq<string>, roleRef: string)
    | ConfigMapBody(data: map<string, string>)
    | JobBody(job: JobSpec)
    | DeploymentBody(deployment: Workload)
    | DaemonSetBody(daemonSet: Workload)
    | ServiceBody(service: ServiceSpec)

  datatype Object = Object(meta: Meta, body: Body)

  /** The object as stored under resource version `v`. */
  function Stamp(o: Object, v: nat): Object {
    o.(meta := o.meta.(version := v))
  }

  // ----- owner labels -----

  function OwnerLabels(n: Name): Labels {
    map[OWNING_NAME_LABEL := n.name, OWNING_NS_LABEL := n.ns]
  }

  /** `labels.Exist`: every key and value of `m` is in `labels`. */
  predicate Exist(labels: Labels, m: Labels) {
    forall k | k in m :: k in labels && labels[k] == m[k]
  }

  /** The one Sesame an object's labels name as owner, if both labels are there. */
  function Owner(o: Object): Option<Name> {
    if OWNING_NAME_LABEL in o.meta.labels && OWNING_NS_LABEL in o.meta.labels
    then Some(Name(o.meta.labels[OWNING_NS_LABEL], o.meta.labels[OWNING_NAME_LABEL]))
    else None
  }

  /** The operator's ownership guard. */
  predicate Owned(o: Object, n: Name)
    ensures Owned(o, n) <==> Owner(o) == Some(n)
  {
    OwnerGuard(o.meta.labels, n);
    Exist(o.meta.labels, OwnerLabels(n))
  }

  lemma OwnerGuard(labels: Labels, n: Name)
    ensures Exist(labels, OwnerLabels(n)) <==>
            && OWNING_NAME_LABEL in labels && labels[OWNING_NAME_LABEL] == n.name
            && OWNING_NS_LABEL in labels && labels[OWNING_NS_LABEL] == n.ns
  {
    var m := OwnerLabels(n);
    assert |OWNING_NAME_LABEL| != |OWNING_NS_LABEL|;
    assert OWNING_NAME_LABEL in m && OWNING_NS_LABEL in m;
  }

  /** `enqueueRequestForOwningSesame`: the reconcile requests an event on `o` gives rise to. */
  function RequestsFor(o: Object): seq<Name> {
    var labels := o.meta.labels;
    if OWNING_NS_LABEL in labels && OWNING_NAME_LABEL in labels
    then [Name(labels[OWNING_NS_LABEL], labels[OWNING_NAME_LABEL])]
    else []
  }

  /** An event wakes exactly the Sesame whose passes may write the object. */
  lemma EventsReachTheOwner(o: Object, n: Name)
    ensures n in RequestsFor(o) <==> Exist(o.meta.labels, OwnerLabels(n))
    ensures |RequestsFor(o)| <= 1
  {
    OwnerGuard(o.meta.labels, n);
  }
}
