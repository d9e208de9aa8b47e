/** What the pieces of one Sesame's network agree on: container ports, Service ports, deployment
    arguments, node ports and load-balancer annotations. */
module Ports {
  import opened Api
  import opened Desired
  import opened Validation
  import opened Equality

  /** The number of the last port of that name. */
  function NumberOf(ports: seq<ContainerPort>, name: string): Option<int> {
    if ports == [] then None
    else if ports[|ports| - 1].name == name then Some(ports[|ports| - 1].number)
    else NumberOf(ports[..|ports| - 1], name)
  }

  lemma {:induction false} NumberOfFinds(ports: seq<ContainerPort>, name: string)
    ensures NumberOf(ports, name).Some? <==> HasPort(ports, name)
    ensures NumberOf(ports, name).Some? ==> ContainerPort(name, NumberOf(ports, name).value) in ports
  {
    if ports != [] {
      var init, last := ports[..|ports| - 1], ports[|ports| - 1];
      assert ports == init + [last];
      HasPortAppend(init, last, name);
      NumberOfFinds(init, name);
    }
  }

  lemma DistinctNamesPrefix(ports: seq<ContainerPort>)
    requires ports != [] && DistinctNames(ports)
    ensures var init, last := ports[..|ports| - 1], ports[|ports| - 1];
      DistinctNames(init) && NumberOf(init, last.name) == None
  {
    var init, last := ports[..|ports| - 1], ports[|ports| - 1];
    NumberOfFinds(init, last.name);
    assert forall i | 0 <= i < |init| :: init[i] == ports[i];
  }

  // ----- Service ports -----

  function Published(ports: seq<ContainerPort>, name: string, port: int): multiset<ServicePort> {
    match NumberOf(ports, name)
    case None => multiset{}
    case Some(n) => multiset{ServicePort(name, "TCP", port, n, 0)}
  }

  lemma {:induction false} EnvoyPortsPublish(ports: seq<ContainerPort>)
    requires DistinctNames(ports)
    ensures multiset(EnvoyPorts(ports)) ==
            Published(ports, "http", SERVICE_HTTP_PORT) + Published(ports, "https", SERVICE_HTTPS_PORT)
  {
    if ports != [] {
      DistinctNamesPrefix(ports);
      EnvoyPortsPublish(ports[..|ports| - 1]);
    }
  }

  /** Port by port, in the order given: http gets port 80, https 443, any other name none. */
  lemma {:induction false} EnvoyPortsInOrder(ports: seq<ContainerPort>, port: ContainerPort)
    ensures EnvoyPorts([]) == []
    ensures EnvoyPorts(ports + [port]) == EnvoyPorts(ports) +
            if port.name == "http" then [ServicePort("http", "TCP", 80, port.number, 0)]
            else if port.name == "https" then [ServicePort("https", "TCP", 443, port.number, 0)]
            else []
  {
    assert (ports + [port])[..|ports|] == ports;
  }

  /** Service ports as they are before node ports are assigned. */
  function WithoutNodePorts(ports: seq<ServicePort>): seq<ServicePort> {
    seq(|ports|, i requires 0 <= i < |ports| => ports[i].(nodePort := 0))
  }

  lemma {:induction false} NodePortsOnly(ports: seq<ServicePort>, requests: seq<NodePort>)
    ensures WithoutNodePorts(SetNodePorts(ports, requests)) == WithoutNodePorts(ports)
  {
    if requests != [] {
      NodePortsOnly(ports, requests[..|requests| - 1]);
      var mid := SetNodePorts(ports, requests[..|requests| - 1]);
      assert WithoutNodePorts(SetNodePort(mid, requests[|requests| - 1])) == WithoutNodePorts(mid);
    }
  }

  lemma {:induction false} NoneYet(ports: seq<ContainerPort>)
    ensures WithoutNodePorts(EnvoyPorts(ports)) == EnvoyPorts(ports)
  {
    if ports != [] {
      NoneYet(ports[..|ports| - 1]);
      var init := EnvoyPorts(ports[..|ports| - 1]);
      assert forall i | 0 <= i < |init| :: WithoutNodePorts(init)[i] == init[i];
    }
  }

  // ----- deployment arguments -----

  predicate IsFlag(arg: string, flag: string) {
    |flag| <= |arg| && arg[..|flag|] == flag
  }

  /** The value Sesame decodes from its arguments: the last occurrence wins. */
  function FlagValue(args: seq<string>, flag: string, default: int): int {
    if args == [] then default
    else
      var last := args[|args| - 1];
      if IsFlag(last, flag) then Atoi(last[|flag|..]) else FlagValue(args[..|args| - 1], flag, default)
  }

  predicate NoFlag(args: seq<string>, flag: string) {
    forall i | 0 <= i < |args| :: !IsFlag(args[i], flag)
  }

  lemma {:induction false} FlagValueSkips(args: seq<string>, more: seq<string>, flag: string, default: int)
    requires NoFlag(more, flag)
    ensures FlagValue(args + more, flag, default) == FlagValue(args, flag, default)
  {
    if more == [] {
      assert args + more == args;
    } else {
      var init := more[..|more| - 1];
      assert forall i | 0 <= i < |init| :: init[i] == more[i];
      assert (args + more)[..|args + more| - 1] == args + init;
      FlagValueSkips(args, init, flag, default);
    }
  }

  lemma FlagAgrees(arg: string, flag: string, k: nat)
    requires k < |arg| && k < |flag|
    ensures IsFlag(arg, flag) ==> arg[k] == flag[k]
  {
    if IsFlag(arg, flag) {
      assert arg[..|flag|][k] == arg[k];
    }
  }

  /** The two port flags, and the ingress flag, are told apart by one character. */
  lemma FlagsAreDistinct(x: string)
    ensures !IsFlag(HTTPS_FLAG + x, HTTP_FLAG) && !IsFlag(HTTP_FLAG + x, HTTPS_FLAG)
    ensures !IsFlag(INGRESS_FLAG + x, HTTP_FLAG) && !IsFlag(INGRESS_FLAG + x, HTTPS_FLAG)
  {
    assert HTTP_FLAG[20] == '-' && HTTPS_FLAG[20] == 's' && INGRESS_FLAG[2] == 'i';
    assert HTTP_FLAG[2] == 'e' && HTTPS_FLAG[2] == 'e';
    FlagAgrees(HTTPS_FLAG + x, HTTP_FLAG, 20);
    FlagAgrees(HTTP_FLAG + x, HTTPS_FLAG, 20);
    FlagAgrees(INGRESS_FLAG + x, HTTP_FLAG, 2);
    FlagAgrees(INGRESS_FLAG + x, HTTPS_FLAG, 2);
  }

  lemma FlagRoundTrip(flag: string, n: int)
    ensures IsFlag(flag + Itoa(n), flag) && Atoi((flag + Itoa(n))[|flag|..]) == n
  {
    AtoiItoa(n);
    assert (flag + Itoa(n))[..|flag|] == flag && (flag + Itoa(n))[|flag|..] == Itoa(n);
  }

  function OrDefault(n: Option<int>, default: int): int {
    if n.Some? then n.value else default
  }

  lemma {:induction false} PortArgsDecode(base: seq<string>, ports: seq<ContainerPort>)
    requires DistinctNames(ports) && NoFlag(base, HTTP_FLAG) && NoFlag(base, HTTPS_FLAG)
    ensures FlagValue(base + PortArgs(ports), HTTP_FLAG, INSECURE_CONTAINER_PORT) ==
            OrDefault(NumberOf(ports, "http"), INSECURE_CONTAINER_PORT)
    ensures FlagValue(base + PortArgs(ports), HTTPS_FLAG, SECURE_CONTAINER_PORT) ==
            OrDefault(NumberOf(ports, "https"), SECURE_CONTAINER_PORT)
  {
    if ports == [] {
      FlagValueSkips([], base, HTTP_FLAG, INSECURE_CONTAINER_PORT);
      FlagValueSkips([], base, HTTPS_FLAG, SECURE_CONTAINER_PORT);
      assert base + PortArgs(ports) == base == [] + base;
    } else {
      var init, last := ports[..|ports| - 1], ports[|ports| - 1];
      DistinctNamesPrefix(ports);
      PortArgsDecode(base, init);
      var args := base + PortArgs(init);
      assert base + PortArgs(ports) == args + PortArg(last);
      OneArgDecodes(args, last);
    }
  }

  lemma OneArgDecodes(args: seq<string>, port: ContainerPort)
    ensures FlagValue(args + PortArg(port), HTTP_FLAG, INSECURE_CONTAINER_PORT) ==
            if port.name == "http" && port.number != INSECURE_CONTAINER_PORT then port.number
            else FlagValue(args, HTTP_FLAG, INSECURE_CONTAINER_PORT)
    ensures FlagValue(args + PortArg(port), HTTPS_FLAG, SECURE_CONTAINER_PORT) ==
            if port.name == "https" && port.number != SECURE_CONTAINER_PORT then port.number
            else FlagValue(args, HTTPS_FLAG, SECURE_CONTAINER_PORT)
  {
    if PortArg(port) == [] {
      assert args + PortArg(port) == args;
    } else {
      assert (args + PortArg(port))[..|args|] == args;
      FlagsAreDistinct(Itoa(port.number));
      FlagRoundTrip(HTTP_FLAG, port.number);
      FlagRoundTrip(HTTPS_FLAG, port.number);
    }
  }

  lemma BaseArgsHaveNoPortFlag()
    ensures NoFlag(BASE_ARGS, HTTP_FLAG) && NoFlag(BASE_ARGS, HTTPS_FLAG)
  {
    assert HTTP_FLAG[2] == 'e' && HTTPS_FLAG[2] == 'e';
    forall i | 0 <= i < |BASE_ARGS|
      ensures !IsFlag(BASE_ARGS[i], HTTP_FLAG) && !IsFlag(BASE_ARGS[i], HTTPS_FLAG)
    {
      assert |BASE_ARGS[i]| > 2 && BASE_ARGS[i][2] != 'e';
      FlagAgrees(BASE_ARGS[i], HTTP_FLAG, 2);
      FlagAgrees(BASE_ARGS[i], HTTPS_FLAG, 2);
    }
  }

  lemma ArgsDecode(spec: Spec)
    requires DistinctNames(spec.publishing.containerPorts)
    ensures FlagValue(DeploymentArgs(spec), HTTP_FLAG, INSECURE_CONTAINER_PORT) ==
            OrDefault(NumberOf(spec.publishing.containerPorts, "http"), INSECURE_CONTAINER_PORT)
    ensures FlagValue(DeploymentArgs(spec), HTTPS_FLAG, SECURE_CONTAINER_PORT) ==
            OrDefault(NumberOf(spec.publishing.containerPorts, "https"), SECURE_CONTAINER_PORT)
  {
    BaseArgsHaveNoPortFlag();
    PortArgsDecode(BASE_ARGS, spec.publishing.containerPorts);
    if spec.ingressClassName.Some? {
      FlagsAreDistinct(spec.ingressClassName.value);
    }
    var args := BASE_ARGS + PortArgs(spec.publishing.containerPorts);
    FlagValueSkips(args, IngressArgs(spec), HTTP_FLAG, INSECURE_CONTAINER_PORT);
    FlagValueSkips(args, IngressArgs(spec), HTTPS_FLAG, SECURE_CONTAINER_PORT);
  }

  /** Traffic arriving at the Envoy Service reaches the ports Envoy opens, and Sesame is told the
      same numbers: for every spec the validator accepts. */
  lemma PortAgreement(cfg: Config, id: Name, spec: Spec, http: int, https: int)
    requires SpecError(cfg, spec).None?
    requires ContainerPort("http", http) in spec.publishing.containerPorts
    requires ContainerPort("https", https) in spec.publishing.containerPorts
    ensures multiset(WithoutNodePorts(EnvoyService(id, spec.publishing).spec.ports)) ==
            multiset{ServicePort("http", "TCP", 80, http, 0), ServicePort("https", "TCP", 443, https, 0)}
    ensures PodPort("http", http, "TCP") in EnvoyDaemonSet(cfg, id, spec).body.daemonSet.pod.ports
    ensures PodPort("https", https, "TCP") in EnvoyDaemonSet(cfg, id, spec).body.daemonSet.pod.ports
    ensures var args := SesameDeployment(cfg, id, spec).body.deployment.pod.args;
      FlagValue(args, HTTP_FLAG, 8080) == http && FlagValue(args, HTTPS_FLAG, 8443) == https
  {
    hide EnvoyService, EnvoyPorts, DeploymentArgs, FlagValue, HasPort, WithoutNodePorts;
    var ports := spec.publishing.containerPorts;
    assert AcceptedContainerPorts(ports);
    UniqueNumber(ports, "http", http);
    UniqueNumber(ports, "https", https);
    ServicePublishes(id, spec.publishing, http, https);
    ArgsDecode(spec);
    var i :| 0 <= i < |ports| && ports[i] == ContainerPort("http", http);
    var j :| 0 <= j < |ports| && ports[j] == ContainerPort("https", https);
    assert ContainerPodPorts(ports)[i] == PodPort("http", http, "TCP");
    assert ContainerPodPorts(ports)[j] == PodPort("https", https, "TCP");
  }

  lemma ServicePublishes(id: Name, p: Publishing, http: int, https: int)
    requires DistinctNames(p.containerPorts)
    requires NumberOf(p.containerPorts, "http") == Some(http) && NumberOf(p.containerPorts, "https") == Some(https)
    ensures multiset(WithoutNodePorts(EnvoyService(id, p).spec.ports)) ==
            multiset{ServicePort("http", "TCP", 80, http, 0), ServicePort("https", "TCP", 443, https, 0)}
  {
    hide EnvoyAnnotations, NumberOf, LoadBalancerAddress;
    EnvoyPortsPublish(p.containerPorts);
    NodePortsOnly(EnvoyPorts(p.containerPorts), if p.nodePorts.Some? then p.nodePorts.value else []);
    NoneYet(p.containerPorts);
  }

  lemma UniqueNumber(ports: seq<ContainerPort>, name: string, number: int)
    requires DistinctNames(ports) && ContainerPort(name, number) in ports
    ensures NumberOf(ports, name) == Some(number)
  {
    var i :| 0 <= i < |ports| && ports[i] == ContainerPort(name, number);
    assert HasPort(ports, name);
    NumberOfFinds(ports, name);
    var j :| 0 <= j < |ports| && ports[j] == ContainerPort(name, NumberOf(ports, name).value);
    assert i == j by {
      assert ports[i].name == ports[j].name;
    }
  }

  // ----- node ports -----

  predicate DistinctRequests(requests: seq<NodePort>) {
    forall i, j | 0 <= i < j < |requests| :: requests[i].name != requests[j].name
  }

  /** `port` as it should come out: the number requested for its name, or what it had. */
  predicate GetsRequested(before: ServicePort, requests: seq<NodePort>, after: ServicePort) {
    && after == before.(nodePort := after.nodePort)
    && (forall i | 0 <= i < |requests| && requests[i].name == before.name && requests[i].number.Some? ::
          after.nodePort == requests[i].number.value.target)
    && ((forall i | 0 <= i < |requests| && requests[i].name == before.name :: requests[i].number.None?) ==>
          after == before)
  }

  /** Each service port gets the node port requested for its name and is otherwise unchanged. */
  lemma {:induction false} NodePortsAreLookedUp(ports: seq<ServicePort>, requests: seq<NodePort>)
    requires DistinctRequests(requests)
    ensures forall k | 0 <= k < |ports| :: GetsRequested(ports[k], requests, SetNodePorts(ports, requests)[k])
  {
    if requests != [] {
      var n := |requests| - 1;
      var init := requests[..n];
      assert DistinctRequests(init) by {
        assert forall i | 0 <= i < n :: init[i] == requests[i];
      }
      NodePortsAreLookedUp(ports, init);
      forall k | 0 <= k < |ports|
        ensures GetsRequested(ports[k], requests, SetNodePorts(ports, requests)[k])
      {
        LookUpOneMore(ports[k], requests, SetNodePorts(ports, init)[k], SetNodePorts(ports, requests)[k]);
      }
    }
  }

  lemma LookUpOneMore(port: ServicePort, requests: seq<NodePort>, mid: ServicePort, after: ServicePort)
    requires requests != [] && DistinctRequests(requests)
    requires GetsRequested(port, requests[..|requests| - 1], mid)
    requires var last := requests[|requests| - 1];
      after == if last.number.Some? && mid.name == last.name then mid.(nodePort := last.number.value.target) else mid
    ensures GetsRequested(port, requests, after)
  {
    var n := |requests| - 1;
    var init, last := requests[..n], requests[n];
    assert forall i | 0 <= i < n :: init[i] == requests[i];
    if last.name == port.name && last.number.Some? {
      forall i | 0 <= i < |requests| && requests[i].name == port.name
        ensures i == n
      {
      }
    }
  }

  /** The order of the list, which `MakeNodePorts` leaves to map iteration, does not matter. */
  lemma NodePortOrderIsIrrelevant(ports: seq<ServicePort>, xs: seq<NodePort>, ys: seq<NodePort>)
    requires DistinctRequests(xs) && DistinctRequests(ys)
    requires forall r :: r in xs <==> r in ys
    ensures SetNodePorts(ports, xs) == SetNodePorts(ports, ys)
  {
    NodePortsAreLookedUp(ports, xs);
    NodePortsAreLookedUp(ports, ys);
    forall k | 0 <= k < |ports|
      ensures SetNodePorts(ports, xs)[k] == SetNodePorts(ports, ys)[k]
    {
      var a, b := SetNodePorts(ports, xs)[k], SetNodePorts(ports, ys)[k];
      assert GetsRequested(ports[k], xs, a) && GetsRequested(ports[k], ys, b);
      if i :| 0 <= i < |xs| && xs[i].name == ports[k].name && xs[i].number.Some? {
        assert xs[i] in ys;
        var j :| 0 <= j < |ys| && ys[j] == xs[i];
        assert b.nodePort == ys[j].number.value.target;
      } else {
        forall j | 0 <= j < |ys| && ys[j].name == ports[k].name
          ensures ys[j].number.None?
        {
          assert ys[j] in xs;
          var i :| 0 <= i < |xs| && xs[i] == ys[j];
        }
      }
    }
  }

  /** `requests` asks for each port of `ports` by name, once. */
  predicate Requests(requests: seq<NodePort>, ports: map<string, int>) {
    && DistinctRequests(requests)
    && (forall i | 0 <= i < |requests| ::
          var p := requests[i];
          p.name in ports && p.number.Some? && p.number.value.target == ports[p.name])
    && forall name | name in ports :: exists i | 0 <= i < |requests| :: requests[i].name == name
  }

  /** The order is that of map iteration; every number has a pointer of its own. */
  method MakeNodePorts(ports: map<string, int>) returns (nodePorts: seq<NodePort>)
    ensures Requests(nodePorts, ports)
    ensures forall i, j | 0 <= i < j < |nodePorts| :: !SamePointer(nodePorts[i], nodePorts[j])
  {
    nodePorts := [];
    var rest := ports.Keys;
    while rest != {}
      invariant rest <= ports.Keys
      invariant DistinctRequests(nodePorts)
      invariant forall i | 0 <= i < |nodePorts| ::
                  var p := nodePorts[i];
                  p.name in ports && p.name !in rest && p.number == Some(Pointer(i, ports[p.name]))
      invariant forall name | name in ports ::
                  name in rest || exists i | 0 <= i < |nodePorts| :: nodePorts[i].name == name
    {
      var name :| name in rest;
      var before := nodePorts;
      nodePorts := nodePorts + [NodePort(name, Some(Pointer(|nodePorts|, ports[name])))];
      rest := rest - {name};
      assert nodePorts[|before|].name == name;
      assert forall i | 0 <= i < |before| :: nodePorts[i] == before[i];
    }
  }

  /** However the map was iterated, each service port gets the number the map gives its name. */
  lemma MadeNodePortsAreUsed(ports: seq<ServicePort>, requests: seq<NodePort>, numbers: map<string, int>)
    requires Requests(requests, numbers)
    ensures forall k | 0 <= k < |ports| ::
              SetNodePorts(ports, requests)[k] ==
              if ports[k].name in numbers then ports[k].(nodePort := numbers[ports[k].name]) else ports[k]
  {
    NodePortsAreLookedUp(ports, requests);
    forall k | 0 <= k < |ports|
      ensures SetNodePorts(ports, requests)[k] ==
              if ports[k].name in numbers then ports[k].(nodePort := numbers[ports[k].name]) else ports[k]
    {
      assert GetsRequested(ports[k], requests, SetNodePorts(ports, requests)[k]);
      if ports[k].name in numbers {
        var i :| 0 <= i < |requests| && requests[i].name == ports[k].name;
      }
    }
  }

  /** The Service of an accepted NodePort Sesame stays put once the server has chosen its ports
      exactly when the spec pins both numbers (none of them zero). */
  lemma NodePortServiceSettlesIff(
      cfg: Config, id: Name, spec: Spec, clusterIP: string, healthPort: int, chosen: seq<int>)
    requires SpecError(cfg, spec).None? && spec.publishing.kind == NodePortService
    requires spec.publishing.nodePorts.None? || |spec.publishing.nodePorts.value| == 2
    requires |chosen| == |EnvoyService(id, spec.publishing).spec.ports|
    requires forall i | 0 <= i < |chosen| :: chosen[i] != 0
    ensures var svc := EnvoyService(id, spec.publishing);
      CompareNodePort(ServerAssigned(svc, clusterIP, healthPort, chosen), svc).Same? <==>
        && spec.publishing.nodePorts.Some?
        && forall i | 0 <= i < 2 :: Target(spec.publishing.nodePorts.value[i]) != 0
  {
    var svc := EnvoyService(id, spec.publishing);
    var ports := EnvoyPorts(spec.publishing.containerPorts);
    NodePortIsQuiescentIff(svc, clusterIP, healthPort, chosen);
    var a, b := HttpAndHttps(spec.publishing.containerPorts);
    if spec.publishing.nodePorts.Some? {
      var requests := spec.publishing.nodePorts.value;
      assert requests == [requests[0], requests[1]];
      NodePortsAcceptedIff(requests[0], requests[1]);
      NodePortsAreLookedUp(ports, requests);
      forall k | 0 <= k < |ports|
        ensures svc.spec.ports[k].nodePort ==
                if ports[k].name == requests[0].name then Target(requests[0]) else Target(requests[1])
      {
        assert GetsRequested(ports[k], requests, svc.spec.ports[k]);
      }
    } else {
      assert svc.spec.ports[a].nodePort == 0;
    }
  }

  /** The number a request asks for, 0 standing for none. */
  function Target(p: NodePort): int {
    if p.number.Some? then p.number.value.target else 0
  }

  /** Accepted container ports give one Service port of each name, and no other. */
  lemma HttpAndHttps(given: seq<ContainerPort>) returns (a: nat, b: nat)
    requires AcceptedContainerPorts(given)
    ensures a < |EnvoyPorts(given)| && EnvoyPorts(given)[a].name == "http"
    ensures b < |EnvoyPorts(given)| && EnvoyPorts(given)[b].name == "https"
    ensures forall k | 0 <= k < |EnvoyPorts(given)| ::
              var p := EnvoyPorts(given)[k]; p.nodePort == 0 && (p.name == "http" || p.name == "https")
  {
    var ports := EnvoyPorts(given);
    NumberOfFinds(given, "http");
    NumberOfFinds(given, "https");
    EnvoyPortsPublish(given);
    var http := ServicePort("http", "TCP", 80, NumberOf(given, "http").value, 0);
    var https := ServicePort("https", "TCP", 443, NumberOf(given, "https").value, 0);
    assert http in multiset(ports) && https in multiset(ports);
    a :| 0 <= a < |ports| && ports[a] == http;
    b :| 0 <= b < |ports| && ports[b] == https;
    forall k | 0 <= k < |ports|
      ensures ports[k] == http || ports[k] == https
    {
      assert ports[k] in multiset(ports);
    }
  }

  // ----- annotations -----

  predicate AwsAnnotation(k: string) {
    k in {AWS_BACKEND_PROTO, AWS_TYPE, AWS_PROXY_PROTOCOL, AWS_ALLOCATION_IDS, AWS_INTERNAL}
  }

  predicate AzureAnnotation(k: string) {
    k in {AZURE_RESOURCE_GROUP, AZURE_SUBNET, AZURE_INTERNAL}
  }

  predicate GcpAnnotation(k: string) {
    k in {GCP_SUBNET, GCP_TYPE, GCP_TYPE_LEGACY}
  }

  /** Annotations only ever address the chosen provider, and only for a load balancer; a load
      balancer is annotated internal exactly when its scope is; and an AWS one is put into TCP mode
      with the PROXY protocol exactly when it is a classic ELB, an NLB otherwise. */
  lemma AnnotationsFitTheProvider(p: Publishing)
    ensures var provider, a := p.loadBalancer.provider, EnvoyAnnotations(p);
      && (forall k | k in a :: p.kind == LoadBalancerService)
      && (forall k | k in a ::
            match provider.kind
            case AWS => AwsAnnotation(k)
            case Azure => AzureAnnotation(k)
            case GCP => GcpAnnotation(k)
            case UnknownProvider => false)
      && (p.kind == LoadBalancerService && provider.kind != UnknownProvider ==>
            ((AWS_INTERNAL in a || AZURE_INTERNAL in a || GCP_TYPE in a) <==> p.loadBalancer.scope == Internal))
      && (p.kind == LoadBalancerService && provider.kind == AWS ==>
            && (IsELB(provider) <==> AWS_BACKEND_PROTO in a && AWS_PROXY_PROTOCOL in a)
            && (IsELB(provider) <==> AWS_TYPE !in a))
  {
    hide Join;
  }
}
