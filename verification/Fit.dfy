/** That the desired objects are what the spec asks for, and fit together. */
module Fit {
  import opened Api
  import opened Equality
  import opened Desired
  import opened Ports
  import opened Objects

  // ----- the Envoy Service -----

  /** The annotation is there exactly when asked for, with that value. */
  predicate Annotated(a: map<string, string>, key: string, asked: bool, value: string) {
    (key in a <==> asked) && (asked ==> a[key] == value)
  }

  function OrEmpty(s: Option<string>): string {
    if s.Some? then s.value else ""
  }

  /** Type, traffic policy, address and selector follow from how the Sesame publishes. */
  lemma EnvoyServiceFits(cfg: Config, id: Name, spec: Spec)
    ensures var p := spec.publishing;
      var provider, svc := p.loadBalancer.provider, EnvoyService(id, p);
      var envoy := EnvoyDaemonSet(cfg, id, spec).body.daemonSet;
      && (svc.spec.kind == LoadBalancerType <==> p.kind == LoadBalancerService)
      && (svc.spec.kind == NodePortType <==> p.kind == NodePortService)
      && (svc.spec.kind == ClusterIP <==> p.kind == ClusterIPService)
      && (svc.spec.externalTrafficPolicy == Local <==> p.kind == LoadBalancerService || p.kind == NodePortService)
      && svc.spec.selector == envoy.podLabels == envoy.selector
      && svc.spec.sessionAffinity == "None"
      && (svc.spec.loadBalancerIP ==
            if p.kind == LoadBalancerService && provider.kind == Azure && provider.azure.Some? then
              OrEmpty(provider.azure.value.address)
            else if p.kind == LoadBalancerService && provider.kind == GCP && provider.gcp.Some? then
              OrEmpty(provider.gcp.value.address)
            else "")
      && svc.meta == Meta(OwnerLabels(id), EnvoyAnnotations(p), 0)
  {
    hide EnvoyAnnotations, EnvoyServicePorts;
  }

  /** Node ports are those requested, by name, for a NodePort Service; any other leaves them to the server. */
  lemma NodePortsFit(id: Name, p: Publishing, k: nat)
    requires p.nodePorts.None? || DistinctRequests(p.nodePorts.value)
    requires k < |EnvoyPorts(p.containerPorts)|
    ensures var ports := EnvoyService(id, p).spec.ports;
      && |ports| == |EnvoyPorts(p.containerPorts)|
      && if p.kind == NodePortService && p.nodePorts.Some?
         then GetsRequested(EnvoyPorts(p.containerPorts)[k], p.nodePorts.value, ports[k])
         else ports[k] == EnvoyPorts(p.containerPorts)[k]
  {
    hide EnvoyAnnotations, GetsRequested;
    if p.nodePorts.Some? {
      NodePortsAreLookedUp(EnvoyPorts(p.containerPorts), p.nodePorts.value);
    }
  }

  /** The AWS annotations: TCP mode with the PROXY protocol for classic load balancers, the type for network
      ones, and the allocation IDs of external network ones. */
  lemma AwsAnnotationsFit(p: Publishing)
    ensures var provider, a := p.loadBalancer.provider, EnvoyAnnotations(p);
      var aws := p.kind == LoadBalancerService && provider.kind == AWS;
      var classic := provider.aws.None? || provider.aws.value.kind == Classic;
      && Annotated(a, AWS_BACKEND_PROTO, aws && classic, "tcp")
      && Annotated(a, AWS_PROXY_PROTOCOL, aws && classic, "*")
      && Annotated(a, AWS_TYPE, aws && !classic, "nlb")
      && Annotated(
           a, AWS_ALLOCATION_IDS,
           aws && p.loadBalancer.scope == External && provider.aws.Some? && provider.aws.value.kind == NLB
             && provider.aws.value.allocationIDs.Some?,
           if provider.aws.Some? && provider.aws.value.allocationIDs.Some?
             then Join(provider.aws.value.allocationIDs.value) else "")
      && Annotated(a, AWS_INTERNAL, aws && p.loadBalancer.scope == Internal, "true")
  {
    hide Join;
  }

  /** The Azure and GCP annotations: resource group, subnets, and the marks of an internal load balancer. */
  lemma OtherAnnotationsFit(p: Publishing)
    ensures var provider, a := p.loadBalancer.provider, EnvoyAnnotations(p);
      var azure := p.kind == LoadBalancerService && provider.kind == Azure;
      var gcp := p.kind == LoadBalancerService && provider.kind == GCP;
      var internal := p.loadBalancer.scope == Internal;
      && Annotated(
           a, AZURE_RESOURCE_GROUP,
           azure && p.loadBalancer.scope == External && provider.azure.Some?
             && provider.azure.value.resourceGroup.Some?,
           if provider.azure.Some? then OrEmpty(provider.azure.value.resourceGroup) else "")
      && Annotated(
           a, AZURE_SUBNET, azure && internal && provider.azure.Some? && provider.azure.value.subnet.Some?,
           if provider.azure.Some? then OrEmpty(provider.azure.value.subnet) else "")
      && Annotated(a, AZURE_INTERNAL, azure && internal, "true")
      && Annotated(
           a, GCP_SUBNET, gcp && internal && provider.gcp.Some? && provider.gcp.value.subnet.Some?,
           if provider.gcp.Some? then OrEmpty(provider.gcp.value.subnet) else "")
      && Annotated(a, GCP_TYPE, gcp && internal, "Internal")
      && Annotated(a, GCP_TYPE_LEGACY, gcp && internal, "Internal")
  {
    hide Join;
  }

  /** The pieces between commas. */
  function Split(s: string): (pieces: seq<string>)
    ensures pieces != []
  {
    if s == [] then [""]
    else
      var rest := Split(s[..|s| - 1]);
      if s[|s| - 1] == ',' then rest + [""]
      else rest[|rest| - 1 := rest[|rest| - 1] + [s[|s| - 1]]]
  }

  lemma SplitAfterComma(s: string)
    ensures Split(s + ",") == Split(s) + [""]
  {
    assert (s + ",")[..|s|] == s;
  }

  lemma SplitAfterOther(s: string, c: char)
    requires c != ','
    ensures var n := |Split(s)| - 1; Split(s + [c]) == Split(s)[n := Split(s)[n] + [c]]
  {
    assert (s + [c])[..|s|] == s;
  }

  /** A piece without commas goes on where the last one stopped. */
  lemma {:induction false} SplitExtends(s: string, piece: string)
    requires ',' !in piece
    ensures var n := |Split(s)| - 1; Split(s + piece) == Split(s)[n := Split(s)[n] + piece]
  {
    hide Split;
    var n := |Split(s)| - 1;
    if piece == [] {
      assert s + piece == s && Split(s)[n] + [] == Split(s)[n];
    } else {
      var init, c := piece[..|piece| - 1], piece[|piece| - 1];
      SplitExtends(s, init);
      SplitAfterOther(s + init, c);
      assert s + piece == (s + init) + [c];
      assert (Split(s)[n] + init) + [c] == Split(s)[n] + piece;
    }
  }

  lemma {:induction false} SplitUndoesJoin(before: string, items: seq<string>)
    requires items != [] && forall i | 0 <= i < |items| :: ',' !in items[i]
    ensures Split(before + "," + Join(items)) == Split(before) + items
    decreases |items|
  {
    hide Split;
    var s := before + ",";
    SplitAfterComma(before);
    SplitExtends(s, items[0]);
    assert [] + items[0] == items[0];
    assert Split(s + items[0]) == Split(before) + [items[0]];
    if |items| > 1 {
      assert before + "," + Join(items) == (s + items[0]) + "," + Join(items[1..]);
      SplitUndoesJoin(s + items[0], items[1..]);
      assert Split(before) + [items[0]] + items[1..] == Split(before) + items;
    } else {
      assert items == [items[0]];
    }
  }

  /** The allocation IDs can be read back from the annotation. */
  lemma AllocationIDsReadBack(items: seq<string>)
    requires items != [] && forall i | 0 <= i < |items| :: ',' !in items[i]
    ensures Split("," + Join(items)) == [""] + items
  {
    SplitUndoesJoin("", items);
    assert [] + "," == ",";
  }

  // ----- the workloads -----

  function Asked<T>(given: Option<T>, default: T): T {
    if given.Some? then given.value else default
  }

  /** The Deployment runs the Sesame image, as often and where the spec says, with the fixed arguments first
      and the ingress class if one is given; and the Sesame Service finds its pods and their xDS port. */
  lemma DeploymentFits(cfg: Config, id: Name, spec: Spec)
    ensures var o, svc := SesameDeployment(cfg, id, spec), SesameService(id).body.service;
      var d := o.body.deployment;
      && o.meta == Meta(AppLabels(id, "sesame") + OwnerLabels(id), map[], 0)
      && d.replicas == spec.replicas && d.selector == d.podLabels == svc.selector
      && d.pod.images == [cfg.sesameImage]
      && d.pod.nodeSelector == Asked(spec.sesamePlacement.nodeSelector, map[])
      && d.pod.tolerations == spec.sesamePlacement.tolerations
      && BASE_ARGS <= d.pod.args && "--xds-port=8001" in d.pod.args
      && svc.kind == ClusterIP && svc.ports == [ServicePort("xds", "TCP", 8001, 8001, 0)]
      && d.pod.ports == [PodPort("xds", 8001, "TCP"), PodPort("metrics", 8000, "TCP"), PodPort("debug", 6060, "TCP")]
  {
    hide PortArgs, IngressArgs, AppLabels;
    assert DeploymentArgs(spec)[3] == BASE_ARGS[3] == "--xds-port=8001";
  }

  /** The recommended labels name the application, the Sesame and the operator; no pod of one workload is
      selected by the other. */
  lemma LabelsFit(id: Name, app: string)
    ensures var labels := AppLabels(id, app);
      && labels.Keys ==
         {"app.kubernetes.io/name", "app.kubernetes.io/instance", "app.kubernetes.io/component",
          "app.kubernetes.io/managed-by"}
      && labels["app.kubernetes.io/name"] == app && labels["app.kubernetes.io/instance"] == id.name
      && labels["app.kubernetes.io/component"] == "ingress-controller"
      && labels["app.kubernetes.io/managed-by"] == "sesame-operator"
    ensures SESAME_SELECTOR["app"] == "sesame" && ENVOY_SELECTOR["app"] == "envoy"
  {
    var a, b, c, d := "app.kubernetes.io/name", "app.kubernetes.io/instance", "app.kubernetes.io/component",
      "app.kubernetes.io/managed-by";
    assert |a| == 22 && |b| == 26 && |c| == 27 && |d| == 28;
  }

  lemma IngressFlagIsDistinct(x: string)
    ensures !IsFlag(HTTP_FLAG + x, INGRESS_FLAG) && !IsFlag(HTTPS_FLAG + x, INGRESS_FLAG)
  {
    assert HTTP_FLAG[2] == 'e' && HTTPS_FLAG[2] == 'e' && INGRESS_FLAG[2] == 'i';
    FlagAgrees(HTTP_FLAG + x, INGRESS_FLAG, 2);
    FlagAgrees(HTTPS_FLAG + x, INGRESS_FLAG, 2);
  }

  lemma {:induction false} PortArgsHaveNoIngressFlag(ports: seq<ContainerPort>)
    ensures NoFlag(PortArgs(ports), INGRESS_FLAG)
  {
    if ports != [] {
      PortArgsHaveNoIngressFlag(ports[..|ports| - 1]);
      IngressFlagIsDistinct(Itoa(ports[|ports| - 1].number));
    }
  }

  lemma BaseArgsHaveNoIngressFlag()
    ensures NoFlag(BASE_ARGS, INGRESS_FLAG)
  {
    assert INGRESS_FLAG[2] == 'i' && INGRESS_FLAG[3] == 'n' && INGRESS_FLAG[4] == 'g';
    forall i | 0 <= i < |BASE_ARGS|
      ensures !IsFlag(BASE_ARGS[i], INGRESS_FLAG)
    {
      assert |BASE_ARGS[i]| > 4 && (BASE_ARGS[i][2] != 'i' || BASE_ARGS[i][4] != 'g');
      FlagAgrees(BASE_ARGS[i], INGRESS_FLAG, 2);
      FlagAgrees(BASE_ARGS[i], INGRESS_FLAG, 4);
    }
  }

  /** The ingress flag is given exactly when the spec names a class, and names that one. */
  lemma IngressClassIsPassed(spec: Spec, arg: string)
    ensures arg in DeploymentArgs(spec) && IsFlag(arg, INGRESS_FLAG) <==>
            spec.ingressClassName.Some? && arg == INGRESS_FLAG + spec.ingressClassName.value
  {
    hide PortArgs, IsFlag;
    BaseArgsHaveNoIngressFlag();
    PortArgsHaveNoIngressFlag(spec.publishing.containerPorts);
    if spec.ingressClassName.Some? {
      FlagIsItself(INGRESS_FLAG, spec.ingressClassName.value);
      assert (INGRESS_FLAG + spec.ingressClassName.value) in IngressArgs(spec);
    }
  }

  lemma FlagIsItself(flag: string, x: string)
    ensures IsFlag(flag + x, flag)
  {
    assert (flag + x)[..|flag|] == flag;
  }

  /** The DaemonSet runs both images where the spec says and opens exactly the container ports. */
  lemma DaemonSetFits(cfg: Config, id: Name, spec: Spec)
    ensures var o, given := EnvoyDaemonSet(cfg, id, spec), spec.publishing.containerPorts;
      var d := o.body.daemonSet;
      && o.meta == Meta(AppLabels(id, "sesame") + OwnerLabels(id), map[], 0)
      && d.pod.images == [cfg.sesameImage, cfg.envoyImage]
      && d.pod.nodeSelector == Asked(spec.envoyPlacement.nodeSelector, map[])
      && d.pod.tolerations == spec.envoyPlacement.tolerations
      && |d.pod.ports| == |given|
      && forall i | 0 <= i < |given| :: d.pod.ports[i] == PodPort(given[i].name, given[i].number, "TCP")
  {
    hide AppLabels;
  }

  /** The other two: the Job runs the Sesame image once, with pods that name their owner; the configmap
      holds the template of the gateway controller name and of whether external names are enabled. */
  lemma JobAndConfigMapFit(cfg: Config, id: Name, spec: Spec)
    ensures var job := CertgenJob(cfg, id).body.job;
      && job.parallelism == job.completions == job.backoffLimit == 1
      && job.podLabels == Some(OwnerLabels(id)) && job.pod.images == [cfg.sesameImage]
    ensures var o := SesameConfigMap(cfg, id, spec);
      && o.meta == Meta(OwnerLabels(id), map[], 0)
      && o.body.data.Keys == {"sesame.yaml"}
      && o.body.data["sesame.yaml"] ==
         cfg.renderConfig(OrEmpty(spec.gatewayControllerName), Asked(spec.enableExternalName, false))
  {
  }

  // ----- RBAC -----

  /** Whether `b` binds the account `account` to the role `role`, both ensured before it. */
  predicate BindsEarlier(wants: seq<Wanted>, i: nat, account: Key, role: Key) {
    && i < |wants| && wants[i].desired.body == BindingBody([account.ns + "/" + account.name], role.name)
    && (exists j | 0 <= j < i :: wants[j].key == account && wants[j].desired.body == ServiceAccountBody)
    && (exists j | 0 <= j < i :: wants[j].key == role && wants[j].desired.body.RoleBody?)
  }

  /** The cluster binding gives the Sesame account the cluster role, the binding gives the certgen account
      the certgen role; roles and accounts come first. */
  lemma BindingsRefer(id: Name, ns: string)
    ensures var wants := RbacWanted(id, ns);
      && |wants| == 7
      && wants[4].key == Key(ClusterRoleBindingKind, "", "sesame-" + ns)
      && BindsEarlier(
           wants, 4, Key(ServiceAccountKind, ns, "sesame"), Key(ClusterRoleKind, "", "sesame-" + ns))
      && wants[6].key == Key(RoleBindingKind, ns, "sesame")
      && BindsEarlier(
           wants, 6, Key(ServiceAccountKind, ns, "sesame-certgen"), Key(RoleKind, ns, "sesame-certgen"))
  {
    var wants := RbacWanted(id, ns);
    assert wants[0].key == ServiceAccountKey(ns, SESAME) && wants[2].key == ServiceAccountKey(ns, CERTGEN);
    assert wants[3].key == ClusterRoleKey(ns) && wants[5].key == RoleKey(ns, CERTGEN);
  }
}
