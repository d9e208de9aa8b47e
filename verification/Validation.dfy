/** Validation of a Sesame's spec (pkg/validation/validation.go). Messages are not modelled: every
    rejection is `Invalid`, and an index out of range is `Panic`. */
module Validation {
  import opened Api
  import opened RetryableError
  import Slice

  predicate DistinctNames(ports: seq<ContainerPort>) {
    forall i, j | 0 <= i < j < |ports| :: ports[i].name != ports[j].name
  }

  predicate DistinctNumbers(ports: seq<ContainerPort>) {
    forall i, j | 0 <= i < j < |ports| :: ports[i].number != ports[j].number
  }

  predicate HasPort(ports: seq<ContainerPort>, name: string) {
    exists i | 0 <= i < |ports| :: ports[i].name == name
  }

  /** The API specification of container ports. */
  predicate AcceptedContainerPorts(ports: seq<ContainerPort>) {
    DistinctNames(ports) && DistinctNumbers(ports) && HasPort(ports, "http") && HasPort(ports, "https")
  }

  function ContainerPortsError(ports: seq<ContainerPort>): Option<Error> {
    if AcceptedContainerPorts(ports) then None else Some(Invalid)
  }

  method ContainerPorts(ports: seq<ContainerPort>) returns (err: Option<Error>)
    ensures err == ContainerPortsError(ports)
  {
    var numsFound: seq<int> := [];
    var namesFound: seq<string> := [];
    var httpFound, httpsFound := false, false;
    for i := 0 to |ports|
      invariant |numsFound| == |namesFound| == i
      invariant forall j | 0 <= j < i :: numsFound[j] == ports[j].number && namesFound[j] == ports[j].name
      invariant DistinctNames(ports[..i]) && DistinctNumbers(ports[..i])
      invariant httpFound <==> HasPort(ports[..i], "http")
      invariant httpsFound <==> HasPort(ports[..i], "https")
    {
      var port := ports[i];
      assert ports[..i + 1] == ports[..i] + [port];
      if |numsFound| > 0 {
        var seen := Slice.ContainsInt32(numsFound, port.number);
        if seen {
          var j :| 0 <= j < i && numsFound[j] == port.number;
          assert ports[j].number == ports[i].number;
          return Some(Invalid);
        }
      }
      numsFound := numsFound + [port.number];
      if |namesFound| > 0 {
        var seen := Slice.ContainsString(namesFound, port.name);
        if seen {
          var j :| 0 <= j < i && namesFound[j] == port.name;
          assert ports[j].name == ports[i].name;
          return Some(Invalid);
        }
      }
      namesFound := namesFound + [port.name];
      if port.name == "http" {
        httpFound := true;
      } else if port.name == "https" {
        httpsFound := true;
      }
      assert HasPort(ports[..i + 1], port.name) by {
        assert ports[..i + 1][i] == port;
      }
      HasPortAppend(ports[..i], port, "http");
      HasPortAppend(ports[..i], port, "https");
    }
    assert ports[..|ports|] == ports;
    if httpFound && httpsFound {
      return None;
    }
    return Some(Invalid);
  }

  /** Accepted are exactly the lists with distinct names, distinct numbers, and ports http and https; any
      other list is invalid. */
  lemma ContainerPortsAcceptedIff(ports: seq<ContainerPort>)
    ensures ContainerPortsError(ports) ==
            if && (forall i, j | 0 <= i < j < |ports| :: ports[i].name != ports[j].name)
               && (forall i, j | 0 <= i < j < |ports| :: ports[i].number != ports[j].number)
               && (exists i | 0 <= i < |ports| :: ports[i].name == "http")
               && (exists i | 0 <= i < |ports| :: ports[i].name == "https")
            then None else Some(Invalid)
  {
  }

  lemma HasPortAppend(ports: seq<ContainerPort>, port: ContainerPort, name: string)
    ensures HasPort(ports + [port], name) <==> HasPort(ports, name) || port.name == name
  {
    var all := ports + [port];
    assert all[|ports|] == port;
    if HasPort(ports, name) {
      var i :| 0 <= i < |ports| && ports[i].name == name;
      assert all[i] == ports[i];
    }
  }

  predicate NamedPort(p: NodePort) {
    p.name == "http" || p.name == "https"
  }

  predicate SamePointer(a: NodePort, b: NodePort) {
    a.number.Some? && b.number.Some? && a.number.value.address == b.number.value.address
  }

  /** The validator reads elements 0 and 1 without looking at the length, and compares the
      pointers to the numbers. */
  function NodePortsError(ports: Option<seq<NodePort>>): Option<Error> {
    match ports
    case None => None
    case Some(ps) =>
      if exists i | 0 <= i < |ps| :: !NamedPort(ps[i]) then Some(Invalid)
      else if |ps| < 2 then Some(Panic)
      else if ps[0].name == ps[1].name then Some(Invalid)
      else if SamePointer(ps[0], ps[1]) then Some(Invalid)
      else None
  }

  method NodePorts(ports: Option<seq<NodePort>>) returns (err: Option<Error>)
    ensures err == NodePortsError(ports)
  {
    if ports.None? {
      return None;
    }
    var ps := ports.value;
    for i := 0 to |ps|
      invariant forall j | 0 <= j < i :: NamedPort(ps[j])
    {
      if ps[i].name != "http" && ps[i].name != "https" {
        assert !NamedPort(ps[i]);
        return Some(Invalid);
      }
    }
    if |ps| < 2 {
      return Some(Panic);
    }
    if ps[0].name == ps[1].name {
      return Some(Invalid);
    }
    if ps[0].number.Some? && ps[1].number.Some? {
      if ps[0].number.value.address == ps[1].number.value.address {
        return Some(Invalid);
      }
    }
    return None;
  }

  /** No list is fine; a list is accepted exactly when it has at least two elements, all named http or
      https, and its first two have different names and not the same number pointer. */
  lemma NodePortListAcceptedIff(ports: Option<seq<NodePort>>)
    ensures NodePortsError(ports).None? <==>
            ports.Some? ==>
              var ps := ports.value;
              && |ps| >= 2
              && (forall i | 0 <= i < |ps| :: ps[i].name == "http" || ps[i].name == "https")
              && ps[0].name != ps[1].name
              && (ps[0].number.Some? && ps[1].number.Some? ==>
                    ps[0].number.value.address != ps[1].number.value.address)
  {
  }

  /** What acceptance guarantees for a list of the two elements the CRD demands. */
  lemma NodePortsAcceptedIff(a: NodePort, b: NodePort)
    ensures NodePortsError(Some([a, b])).None? <==>
            && ((a.name == "http" && b.name == "https") || (a.name == "https" && b.name == "http"))
            && !SamePointer(a, b)
  {
    var ps := [a, b];
    assert ps[0] == a && ps[1] == b;
    if !NamedPort(a) || !NamedPort(b) {
      assert !NamedPort(ps[0]) || !NamedPort(ps[1]);
    }
  }

  /** "Port numbers must be unique" is not enforced: two separate pointers to one number pass. */
  lemma EqualNodePortsAccepted(number: int, a: nat, b: nat)
    ensures var http, https := NodePort("http", Some(Pointer(a, number))), NodePort("https", Some(Pointer(b, number)));
      NodePortsError(Some([http, https])).None? <==> a != b
  {
    NodePortsAcceptedIff(NodePort("http", Some(Pointer(a, number))), NodePort("https", Some(Pointer(b, number))));
  }

  /** `LoadBalancerAddress`: the address must parse if the chosen provider's parameters give one. */
  function LoadBalancerAddressError(cfg: Config, provider: Provider): Option<Error> {
    if provider.kind == Azure && provider.azure.Some? && provider.azure.value.address.Some? then
      if cfg.parsesAsIP(provider.azure.value.address.value) then None else Some(Invalid)
    else if provider.kind == GCP && provider.gcp.Some? && provider.gcp.value.address.Some? then
      if cfg.parsesAsIP(provider.gcp.value.address.value) then None else Some(Invalid)
    else None
  }

  /** `LoadBalancerProvider`: parameters of another provider must be absent. */
  function LoadBalancerProviderError(provider: Provider): Option<Error> {
    match provider.kind
    case AWS => if provider.azure.Some? || provider.gcp.Some? then Some(Invalid) else None
    case Azure => if provider.aws.Some? || provider.gcp.Some? then Some(Invalid) else None
    case GCP => if provider.aws.Some? || provider.azure.Some? then Some(Invalid) else None
    case UnknownProvider => None
  }

  /** `validation.Sesame`, after the check that no other Sesame shares the namespace. */
  function SpecError(cfg: Config, spec: Spec): Option<Error> {
    var p := spec.publishing;
    if ContainerPortsError(p.containerPorts).Some? then ContainerPortsError(p.containerPorts)
    else if p.kind == NodePortService then NodePortsError(p.nodePorts)
    else if p.kind == LoadBalancerService then
      var address := LoadBalancerAddressError(cfg, p.loadBalancer.provider);
      if address.Some? then address else LoadBalancerProviderError(p.loadBalancer.provider)
    else None
  }

  /** A spec is accepted exactly when its container ports are; the node ports of a NodePort Sesame are; and
      for a load balancer, the address given for the chosen provider parses as an IP address and no other
      provider has parameters. */
  lemma SpecAcceptedIff(cfg: Config, spec: Spec)
    ensures var p, provider := spec.publishing, spec.publishing.loadBalancer.provider;
      SpecError(cfg, spec).None? <==>
        && ContainerPortsError(p.containerPorts).None?
        && (p.kind == NodePortService ==> NodePortsError(p.nodePorts).None?)
        && (p.kind == LoadBalancerService ==>
              && (provider.kind == Azure && provider.azure.Some? && provider.azure.value.address.Some? ==>
                    cfg.parsesAsIP(provider.azure.value.address.value))
              && (provider.kind == GCP && provider.gcp.Some? && provider.gcp.value.address.Some? ==>
                    cfg.parsesAsIP(provider.gcp.value.address.value))
              && (provider.aws.Some? ==> provider.kind in {AWS, UnknownProvider})
              && (provider.azure.Some? ==> provider.kind in {Azure, UnknownProvider})
              && (provider.gcp.Some? ==> provider.kind in {GCP, UnknownProvider}))
    ensures SpecError(cfg, spec).Some? ==> SpecError(cfg, spec).value in {Invalid, Panic}
  {
    hide AcceptedContainerPorts, NamedPort, SamePointer;
  }

  method ValidateSpec(cfg: Config, spec: Spec) returns (err: Option<Error>)
    ensures err == SpecError(cfg, spec)
  {
    var ports := ContainerPorts(spec.publishing.containerPorts);
    if ports.Some? {
      return ports;
    }
    if spec.publishing.kind == NodePortService {
      var nodePorts := NodePorts(spec.publishing.nodePorts);
      if nodePorts.Some? {
        return nodePorts;
      }
    }
    if spec.publishing.kind == LoadBalancerService {
      var address := LoadBalancerAddressError(cfg, spec.publishing.loadBalancer.provider);
      if address.Some? {
        return address;
      }
      var provider := LoadBalancerProviderError(spec.publishing.loadBalancer.provider);
      if provider.Some? {
        return provider;
      }
    }
    return None;
  }
}
