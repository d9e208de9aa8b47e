/** The objects the operator wants for a Sesame (the Desired* functions of internal/objects).
    Literal parts that do not depend on the Sesame are one opaque `rest` string. */
module Desired {
  import opened Api
  import opened Equality

  // ----- numbers in arguments -----

  function Digits(n: nat): string {
    if n < 10 then [('0' as int + n) as char] else Digits(n / 10) + [('0' as int + n % 10) as char]
  }

  /** "%d". */
  function Itoa(n: int): string {
    if n < 0 then "-" + Digits(-n) else Digits(n)
  }

  function ParseDigits(s: string): int {
    if s == [] then 0 else 10 * ParseDigits(s[..|s| - 1]) + (s[|s| - 1] as int - '0' as int)
  }

  function Atoi(s: string): int {
    if s != [] && s[0] == '-' then -ParseDigits(s[1..]) else ParseDigits(s)
  }

  lemma {:induction false} DigitsRoundTrip(n: nat)
    ensures |Digits(n)| > 0 && Digits(n)[0] != '-'
    ensures ParseDigits(Digits(n)) == n
  {
    if n < 10 {
      assert Digits(n)[..0] == [];
    } else {
      DigitsRoundTrip(n / 10);
      assert Digits(n)[..|Digits(n)| - 1] == Digits(n / 10);
    }
  }

  lemma AtoiItoa(n: int)
    ensures Atoi(Itoa(n)) == n
  {
    DigitsRoundTrip(if n < 0 then -n else n);
    if n < 0 {
      assert Itoa(n)[1..] == Digits(-n);
    }
  }

  // ----- the deployment's arguments -----

  const HTTP_FLAG := "--envoy-service-http-port="
  const HTTPS_FLAG := "--envoy-service-https-port="
  const INGRESS_FLAG := "--ingress-class-name="
  const INSECURE_CONTAINER_PORT := 8080
  const SECURE_CONTAINER_PORT := 8443
  const XDS_PORT := 8001
  const SERVICE_HTTP_PORT := 80
  const SERVICE_HTTPS_PORT := 443

  const BASE_ARGS: seq<string> := [
    "serve",
    "--incluster",
    "--xds-address=0.0.0.0",
    "--xds-port=8001",
    "--sesame-cafile=/certs/ca.crt",
    "--sesame-cert-file=/certs/tls.crt",
    "--sesame-key-file=/certs/tls.key",
    "--config-path=/config/sesame.yaml"]

  function PortArg(port: ContainerPort): seq<string> {
    if port.name == "http" && port.number != INSECURE_CONTAINER_PORT then [HTTP_FLAG + Itoa(port.number)]
    else if port.name == "https" && port.number != SECURE_CONTAINER_PORT then [HTTPS_FLAG + Itoa(port.number)]
    else []
  }

  function PortArgs(ports: seq<ContainerPort>): seq<string> {
    if ports == [] then [] else PortArgs(ports[..|ports| - 1]) + PortArg(ports[|ports| - 1])
  }

  function IngressArgs(spec: Spec): seq<string> {
    if spec.ingressClassName.Some? then [INGRESS_FLAG + spec.ingressClassName.value] else []
  }

  function DeploymentArgs(spec: Spec): seq<string> {
    BASE_ARGS + PortArgs(spec.publishing.containerPorts) + IngressArgs(spec)
  }

  // ----- desired objects -----

  function OwnedMeta(id: Name): Meta {
    Meta(OwnerLabels(id), map[], 0)
  }

  function AppLabels(id: Name, app: string): Labels {
    map["app.kubernetes.io/name" := app,
        "app.kubernetes.io/instance" := id.name,
        "app.kubernetes.io/component" := "ingress-controller",
        "app.kubernetes.io/managed-by" := "sesame-operator"]
  }

  /** Labels of workloads: the recommended labels, associated with the Sesame. */
  function WorkloadMeta(id: Name, more: Labels): Meta {
    Meta(more + OwnerLabels(id), map[], 0)
  }

  const SESAME_SELECTOR: Labels := map["app" := "sesame"]
  const ENVOY_SELECTOR: Labels := map["app" := "envoy"]

  function NodeSelector(p: Placement): Labels {
    if p.nodeSelector.Some? then p.nodeSelector.value else map[]
  }

  function SesamePod(cfg: Config, args: seq<string>, placement: Placement): Pod {
    Pod([cfg.sesameImage], args,
        [PodPort("xds", XDS_PORT, "TCP"), PodPort("metrics", 8000, "TCP"), PodPort("debug", 6060, "TCP")],
        NodeSelector(placement), placement.tolerations, "sesame deployment")
  }

  function SesameDeployment(cfg: Config, id: Name, spec: Spec): Object {
    Object(
      WorkloadMeta(id, AppLabels(id, "sesame")),
      DeploymentBody(Workload(
        spec.replicas, SESAME_SELECTOR, SESAME_SELECTOR,
        SesamePod(cfg, DeploymentArgs(spec), spec.sesamePlacement))))
  }

  /** The argument loop of `DesiredDeployment`. */
  method MakeDeploymentArgs(spec: Spec) returns (args: seq<string>)
    ensures args == DeploymentArgs(spec)
  {
    args := BASE_ARGS;
    var ports := spec.publishing.containerPorts;
    for i := 0 to |ports|
      invariant args == BASE_ARGS + PortArgs(ports[..i])
    {
      assert ports[..i + 1][..i] == ports[..i];
      var port := ports[i];
      if port.name == "http" && port.number != INSECURE_CONTAINER_PORT {
        args := args + [HTTP_FLAG + Itoa(port.number)];
      } else if port.name == "https" && port.number != SECURE_CONTAINER_PORT {
        args := args + [HTTPS_FLAG + Itoa(port.number)];
      }
    }
    assert ports[..|ports|] == ports;
    if spec.ingressClassName.Some? {
      args := args + [INGRESS_FLAG + spec.ingressClassName.value];
    }
  }

  method DesiredDeployment(cfg: Config, id: Name, spec: Spec) returns (desired: Object)
    ensures desired == SesameDeployment(cfg, id, spec)
  {
    var args := MakeDeploymentArgs(spec);
    var pod := SesamePod(cfg, args, Placement(None, []));
    if spec.sesamePlacement.nodeSelector.Some? {
      pod := pod.(nodeSelector := spec.sesamePlacement.nodeSelector.value);
    }
    if |spec.sesamePlacement.tolerations| > 0 {
      pod := pod.(tolerations := spec.sesamePlacement.tolerations);
    }
    assert pod == SesamePod(cfg, args, spec.sesamePlacement);
    desired := Object(
      WorkloadMeta(id, AppLabels(id, "sesame")),
      DeploymentBody(Workload(spec.replicas, SESAME_SELECTOR, SESAME_SELECTOR, pod)));
  }

  function ContainerPodPorts(ports: seq<ContainerPort>): seq<PodPort> {
    seq(|ports|, i requires 0 <= i < |ports| => PodPort(ports[i].name, ports[i].number, "TCP"))
  }

  function EnvoyPod(cfg: Config, ports: seq<PodPort>, placement: Placement): Pod {
    Pod([cfg.sesameImage, cfg.envoyImage], [], ports,
        NodeSelector(placement), placement.tolerations, "envoy daemonset")
  }

  function EnvoyDaemonSet(cfg: Config, id: Name, spec: Spec): Object {
    Object(
      WorkloadMeta(id, AppLabels(id, "sesame")),
      DaemonSetBody(Workload(
        0, ENVOY_SELECTOR, ENVOY_SELECTOR,
        EnvoyPod(cfg, ContainerPodPorts(spec.publishing.containerPorts), spec.envoyPlacement))))
  }

  method DesiredDaemonSet(cfg: Config, id: Name, spec: Spec) returns (desired: Object)
    ensures desired == EnvoyDaemonSet(cfg, id, spec)
  {
    var ports: seq<PodPort> := [];
    var given := spec.publishing.containerPorts;
    for i := 0 to |given|
      invariant ports == ContainerPodPorts(given)[..i]
    {
      ports := ports + [PodPort(given[i].name, given[i].number, "TCP")];
    }
    assert ports == ContainerPodPorts(given);
    var pod := EnvoyPod(cfg, ports, Placement(None, []));
    if spec.envoyPlacement.nodeSelector.Some? {
      pod := pod.(nodeSelector := spec.envoyPlacement.nodeSelector.value);
    }
    if |spec.envoyPlacement.tolerations| > 0 {
      pod := pod.(tolerations := spec.envoyPlacement.tolerations);
    }
    assert pod == EnvoyPod(cfg, ports, spec.envoyPlacement);
    desired := Object(
      WorkloadMeta(id, AppLabels(id, "sesame")),
      DaemonSetBody(Workload(0, ENVOY_SELECTOR, ENVOY_SELECTOR, pod)));
  }

  function CertgenJob(cfg: Config, id: Name): Object {
    Object(
      WorkloadMeta(id, AppLabels(id, "sesame-certgen")["app.kubernetes.io/part-of" := "project-sesame"]),
      JobBody(JobSpec(1, 1, 1, Some(OwnerLabels(id)), Pod([cfg.sesameImage], [], [], map[], [], "certgen"))))
  }

  /** `configForSesame` and `desired`: the template of two parameters. */
  function SesameConfigMap(cfg: Config, id: Name, spec: Spec): Object {
    var gateway := if spec.gatewayControllerName.Some? then spec.gatewayControllerName.value else "";
    var externalNames := spec.enableExternalName.Some? && spec.enableExternalName.value;
    Object(OwnedMeta(id), ConfigMapBody(map["sesame.yaml" := cfg.renderConfig(gateway, externalNames)]))
  }

  function SesameService(id: Name): Object {
    Object(OwnedMeta(id), ServiceBody(ServiceSpec(
      [ServicePort("xds", "TCP", XDS_PORT, XDS_PORT, 0)], SESAME_SELECTOR, ClusterIP, "None", UnsetPolicy, "", "", 0)))
  }

  // ----- the Envoy Service -----

  function ServicePortFor(port: ContainerPort): seq<ServicePort> {
    if port.name == "http" then [ServicePort(port.name, "TCP", SERVICE_HTTP_PORT, port.number, 0)]
    else if port.name == "https" then [ServicePort(port.name, "TCP", SERVICE_HTTPS_PORT, port.number, 0)]
    else []
  }

  function EnvoyPorts(ports: seq<ContainerPort>): seq<ServicePort> {
    if ports == [] then [] else EnvoyPorts(ports[..|ports| - 1]) + ServicePortFor(ports[|ports| - 1])
  }

  /** One requested node port written onto every service port of its name. */
  function SetNodePort(ports: seq<ServicePort>, request: NodePort): seq<ServicePort> {
    seq(|ports|, i requires 0 <= i < |ports| =>
      if request.number.Some? && ports[i].name == request.name
      then ports[i].(nodePort := request.number.value.target) else ports[i])
  }

  function SetNodePorts(ports: seq<ServicePort>, requests: seq<NodePort>): (r: seq<ServicePort>)
    ensures |r| == |ports|
  {
    if requests == [] then ports
    else SetNodePort(SetNodePorts(ports, requests[..|requests| - 1]), requests[|requests| - 1])
  }

  const AWS_BACKEND_PROTO := "service.beta.kubernetes.io/aws-load-balancer-backend-protocol"
  const AWS_TYPE := "service.beta.kubernetes.io/aws-load-balancer-type"
  const AWS_PROXY_PROTOCOL := "service.beta.kubernetes.io/aws-load-balancer-proxy-protocol"
  const AWS_ALLOCATION_IDS := "service.beta.kubernetes.io/aws-load-balancer-eip-allocations"
  const AWS_INTERNAL := "service.beta.kubernetes.io/aws-load-balancer-internal"
  const AZURE_RESOURCE_GROUP := "service.beta.kubernetes.io/azure-load-balancer-resource-group"
  const AZURE_SUBNET := "service.beta.kubernetes.io/azure-load-balancer-internal-subnet"
  const AZURE_INTERNAL := "service.beta.kubernetes.io/azure-load-balancer-internal"
  const GCP_SUBNET := "networking.gke.io/internal-load-balancer-subnet"
  const GCP_TYPE_LEGACY := "cloud.google.com/load-balancer-type"
  const GCP_TYPE := "networking.gke.io/load-balancer-type"

  function InternalAnnotations(kind: ProviderType): map<string, string> {
    match kind
    case AWS => map[AWS_INTERNAL := "true"]
    case Azure => map[AZURE_INTERNAL := "true"]
    case GCP => map[GCP_TYPE := "Internal", GCP_TYPE_LEGACY := "Internal"]
    case UnknownProvider => map[]
  }

  predicate IsELB(p: Provider) {
    p.kind == AWS && (p.aws.None? || p.aws.value.kind == Classic)
  }

  predicate AllocationIDsNeeded(p: Publishing) {
    var provider := p.loadBalancer.provider;
    && p.kind == LoadBalancerService && p.loadBalancer.scope == External && provider.kind == AWS
    && provider.aws.Some? && provider.aws.value.kind == NLB && provider.aws.value.allocationIDs.Some?
  }

  predicate ResourceGroupNeeded(p: Publishing) {
    var provider := p.loadBalancer.provider;
    && p.kind == LoadBalancerService && provider.kind == Azure && provider.azure.Some?
    && p.loadBalancer.scope == External && provider.azure.value.resourceGroup.Some?
  }

  predicate SubnetNeeded(p: Publishing) {
    var provider := p.loadBalancer.provider;
    && p.kind == LoadBalancerService && p.loadBalancer.scope == Internal
    && ((provider.kind == Azure && provider.azure.Some? && provider.azure.value.subnet.Some?)
        || (provider.kind == GCP && provider.gcp.Some? && provider.gcp.value.subnet.Some?))
  }

  predicate LoadBalancerAddressNeeded(p: Publishing) {
    var provider := p.loadBalancer.provider;
    && p.kind == LoadBalancerService
    && ((provider.kind == Azure && provider.azure.Some? && provider.azure.value.address.Some?)
        || (provider.kind == GCP && provider.gcp.Some? && provider.gcp.value.address.Some?))
  }

  /** `strings.Join(items, ",")`. */
  function Join(items: seq<string>): string {
    if items == [] then "" else if |items| == 1 then items[0] else items[0] + "," + Join(items[1..])
  }

  function EnvoyAnnotations(p: Publishing): map<string, string> {
    var provider := p.loadBalancer.provider;
    (if p.kind == LoadBalancerService && provider.kind == AWS then
       if IsELB(provider) then map[AWS_BACKEND_PROTO := "tcp", AWS_PROXY_PROTOCOL := "*"] else map[AWS_TYPE := "nlb"]
     else map[])
    + (if AllocationIDsNeeded(p) then map[AWS_ALLOCATION_IDS := Join(provider.aws.value.allocationIDs.value)]
        else map[])
    + (if ResourceGroupNeeded(p) then map[AZURE_RESOURCE_GROUP := provider.azure.value.resourceGroup.value] else map[])
    + (if SubnetNeeded(p) then
         if provider.kind == Azure then map[AZURE_SUBNET := provider.azure.value.subnet.value]
         else map[GCP_SUBNET := provider.gcp.value.subnet.value]
       else map[])
    + (if p.kind == LoadBalancerService && p.loadBalancer.scope == Internal
       then InternalAnnotations(provider.kind) else map[])
  }

  function LoadBalancerAddress(p: Publishing): string {
    if !LoadBalancerAddressNeeded(p) then ""
    else if p.loadBalancer.provider.kind == Azure then p.loadBalancer.provider.azure.value.address.value
    else p.loadBalancer.provider.gcp.value.address.value
  }

  function EnvoyServicePorts(p: Publishing): seq<ServicePort> {
    var ports := EnvoyPorts(p.containerPorts);
    if p.kind == NodePortService && p.nodePorts.Some? then SetNodePorts(ports, p.nodePorts.value) else ports
  }

  function EnvoyService(id: Name, p: Publishing): Service {
    Service(
      OwnedMeta(id).(annotations := EnvoyAnnotations(p)),
      ServiceSpec(
        EnvoyServicePorts(p),
        ENVOY_SELECTOR,
        match p.kind
        case LoadBalancerService => LoadBalancerType
        case NodePortService => NodePortType
        case ClusterIPService => ClusterIP
        case UnknownPublishing => UnsetType,
        "None",
        if p.kind == LoadBalancerService || p.kind == NodePortService then Local else UnsetPolicy,
        LoadBalancerAddress(p),
        "", 0))
  }

  function EnvoyServiceObject(id: Name, p: Publishing): Object {
    var svc := EnvoyService(id, p);
    Object(svc.meta, ServiceBody(svc.spec))
  }

  method DesiredEnvoyService(id: Name, p: Publishing) returns (svc: Service)
    ensures svc == EnvoyService(id, p)
  {
    var ports: seq<ServicePort> := [];
    for i := 0 to |p.containerPorts|
      invariant ports == EnvoyPorts(p.containerPorts[..i])
    {
      assert p.containerPorts[..i + 1][..i] == p.containerPorts[..i];
      var port := p.containerPorts[i];
      // The two flags are reset for every port, so the first case is never taken.
      var httpFound, httpsFound := false, false;
      if httpsFound && httpFound {
      } else if port.name == "http" {
        httpFound := true;
        ports := ports + [ServicePort(port.name, "TCP", SERVICE_HTTP_PORT, port.number, 0)];
      } else if port.name == "https" {
        httpsFound := true;
        ports := ports + [ServicePort(port.name, "TCP", SERVICE_HTTPS_PORT, port.number, 0)];
      }
    }
    assert p.containerPorts[..|p.containerPorts|] == p.containerPorts;

    var annotations := MakeEnvoyAnnotations(p);
    var provider := p.loadBalancer.provider;
    var address := "";
    if LoadBalancerAddressNeeded(p) {
      if provider.kind == Azure {
        address := provider.azure.value.address.value;
      } else if provider.kind == GCP {
        address := provider.gcp.value.address.value;
      }
    }
    var policy := UnsetPolicy;
    if p.kind == LoadBalancerService || p.kind == NodePortService {
      policy := Local;
    }
    var kind := UnsetType;
    match p.kind {
      case LoadBalancerService =>
        kind := LoadBalancerType;
      case NodePortService =>
        kind := NodePortType;
        if p.nodePorts.Some? {
          ports := AssignNodePorts(ports, p.nodePorts.value);
        }
      case ClusterIPService =>
        kind := ClusterIP;
      case UnknownPublishing =>
    }
    svc := Service(
      OwnedMeta(id).(annotations := annotations),
      ServiceSpec(ports, ENVOY_SELECTOR, kind, "None", policy, address, "", 0));
  }

  /** The annotations `DesiredEnvoyService` sets, in its order. */
  method MakeEnvoyAnnotations(p: Publishing) returns (annotations: map<string, string>)
    ensures annotations == EnvoyAnnotations(p)
  {
    annotations := map[];
    var provider := p.loadBalancer.provider;
    if p.kind == LoadBalancerService && provider.kind == AWS {
      if IsELB(provider) {
        annotations := annotations[AWS_BACKEND_PROTO := "tcp"];
        annotations := annotations[AWS_PROXY_PROTOCOL := "*"];
      } else {
        annotations := annotations[AWS_TYPE := "nlb"];
      }
    }
    if AllocationIDsNeeded(p) {
      annotations := annotations[AWS_ALLOCATION_IDS := Join(provider.aws.value.allocationIDs.value)];
    }
    if ResourceGroupNeeded(p) {
      annotations := annotations[AZURE_RESOURCE_GROUP := provider.azure.value.resourceGroup.value];
    }
    if SubnetNeeded(p) {
      if provider.kind == Azure {
        annotations := annotations[AZURE_SUBNET := provider.azure.value.subnet.value];
      } else if provider.kind == GCP {
        annotations := annotations[GCP_SUBNET := provider.gcp.value.subnet.value];
      }
    }
    if p.kind == LoadBalancerService && p.loadBalancer.scope == Internal {
      annotations := annotations + InternalAnnotations(provider.kind);
    }
  }

  /** The nested loop of `DesiredEnvoyService`. */
  method AssignNodePorts(ports: seq<ServicePort>, requests: seq<NodePort>) returns (r: seq<ServicePort>)
    ensures r == SetNodePorts(ports, requests)
  {
    r := ports;
    for k := 0 to |requests|
      invariant r == SetNodePorts(ports, requests[..k])
    {
      assert requests[..k + 1][..k] == requests[..k];
      var p := requests[k];
      ghost var before := r;
      if p.number.Some? {
        for i := 0 to |ports|
          invariant |r| == |before|
          invariant forall j | 0 <= j < i :: r[j] == SetNodePort(before, p)[j]
          invariant forall j | i <= j < |r| :: r[j] == before[j]
        {
          if r[i].name == p.name {
            r := r[i := r[i].(nodePort := p.number.value.target)];
          }
        }
      }
      assert r == SetNodePort(before, p);
    }
    assert requests[..|requests|] == requests;
  }
}
