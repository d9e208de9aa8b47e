/** Current-versus-desired comparisons (internal/equality/equality.go and cfgMapChanged in
    internal/objects/configmap/configmap.go).

    Each `*Changed` function of the source overwrites, field by field, a copy of the current object
    and raises a flag. The specification functions say what the copy ends up as. */
module Equality {
  import opened Api

  datatype Service = Service(meta: Meta, spec: ServiceSpec)

  /** The result of a comparison; the source panics on an index out of range in one case. */
  datatype Comparison<T> = Same | Differs(updated: T) | Panics

  function Verdict<T(==)>(current: T, updated: T): Comparison<T> {
    if updated == current then Same else Differs(updated)
  }

  // ----- specification -----

  /** `current` with everything a ClusterIP Service is compared on taken from `expected`. */
  function ClusterIPMerge(current: Service, expected: Service): Service {
    current.(spec := current.spec.(
      ports := expected.spec.ports,
      selector := expected.spec.selector,
      sessionAffinity := expected.spec.sessionAffinity,
      kind := expected.spec.kind))
  }

  /** Port by port, everything but the node port. */
  function MergePorts(current: seq<ServicePort>, expected: seq<ServicePort>): seq<ServicePort> {
    if |current| != |expected| then expected
    else seq(|expected|, i requires 0 <= i < |expected| => expected[i].(nodePort := current[i].nodePort))
  }

  function LoadBalancerMerge(current: Service, expected: Service): Service {
    current.(
      meta := current.meta.(annotations := expected.meta.annotations),
      spec := current.spec.(
        ports := MergePorts(current.spec.ports, expected.spec.ports),
        selector := expected.spec.selector,
        externalTrafficPolicy := expected.spec.externalTrafficPolicy,
        sessionAffinity := expected.spec.sessionAffinity,
        kind := expected.spec.kind,
        loadBalancerIP := expected.spec.loadBalancerIP))
  }

  function NodePortMerge(current: Service, expected: Service): Service {
    current.(
      meta := current.meta.(annotations := expected.meta.annotations),
      spec := current.spec.(
        ports := expected.spec.ports,
        selector := expected.spec.selector,
        externalTrafficPolicy := expected.spec.externalTrafficPolicy,
        sessionAffinity := expected.spec.sessionAffinity,
        kind := expected.spec.kind))
  }

  function CompareNodePort(current: Service, expected: Service): Comparison<Service> {
    if |current.spec.ports| > |expected.spec.ports| then Panics
    else Verdict(current, NodePortMerge(current, expected))
  }

  function CompareEnvoyService(kind: PublishingType, current: Service, expected: Service): Comparison<Service> {
    match kind
    case NodePortService => CompareNodePort(current, expected)
    case ClusterIPService => Verdict(current, ClusterIPMerge(current, expected))
    case _ => Verdict(current, LoadBalancerMerge(current, expected))
  }

  predicate JobMatches(current: Object, expected: Object)
    requires current.body.JobBody? && expected.body.JobBody?
  {
    var c, e := current.body.job, expected.body.job;
    && current.meta.labels == expected.meta.labels
    && c.parallelism == e.parallelism
    && c.backoffLimit == e.backoffLimit
    && (c.podLabels.Some? ==> OWNING_NAME_LABEL in c.podLabels.value && OWNING_NS_LABEL in c.podLabels.value)
    && c.pod == e.pod
  }

  /** `current` with the body, and on most kinds the labels, of `expected`. */
  function Merge(current: Object, expected: Object): Object {
    Object(
      if expected.body.ConfigMapBody? then current.meta else current.meta.(labels := expected.meta.labels),
      expected.body)
  }

  function CompareServiceObject(envoy: Option<PublishingType>, current: Object, desired: Object): Comparison<Object>
    requires current.body.ServiceBody? && desired.body.ServiceBody?
  {
    var c, d := Service(current.meta, current.body.service), Service(desired.meta, desired.body.service);
    match envoy
    case None =>
      // The Sesame Service is written wholesale, not merged.
      if ClusterIPMerge(c, d) == c then Same else Differs(desired)
    case Some(kind) =>
      match CompareEnvoyService(kind, c, d)
      case Same => Same
      case Differs(u) => Differs(Object(u.meta, ServiceBody(u.spec)))
      case Panics => Panics
  }

  /** Objects of the same shape, as the typed API guarantees for current and desired. */
  predicate SameShape(a: Object, b: Object) {
    match a.body
    case NamespaceBody => b.body.NamespaceBody?
    case ServiceAccountBody => b.body.ServiceAccountBody?
    case RoleBody(_) => b.body.RoleBody?
    case BindingBody(_, _) => b.body.BindingBody?
    case ConfigMapBody(_) => b.body.ConfigMapBody?
    case JobBody(_) => b.body.JobBody?
    case DeploymentBody(_) => b.body.DeploymentBody?
    case DaemonSetBody(_) => b.body.DaemonSetBody?
    case ServiceBody(_) => b.body.ServiceBody?
  }

  /** The comparison each kind of child goes through before an update. `envoy` is the publishing
      type when the object is the Envoy Service. The server is typed, so a difference in shape
      cannot occur; it would count as a difference. */
  function Compare(envoy: Option<PublishingType>, current: Object, desired: Object): Comparison<Object> {
    if !SameShape(current, desired) then Differs(desired)
    else
      match desired.body
      case NamespaceBody => if current.meta.labels == desired.meta.labels then Same else Differs(desired)
      case ServiceAccountBody => if current.meta.labels == desired.meta.labels then Same else Differs(desired)
      case JobBody(_) => if JobMatches(current, desired) then Same else Differs(desired)
      case DeploymentBody(_) =>
        if current.meta.labels == desired.meta.labels && current.body == desired.body then Same else Differs(desired)
      case ServiceBody(_) => CompareServiceObject(envoy, current, desired)
      case _ => Verdict(current, Merge(current, desired))
  }

  /** `DeploymentSelectorsDiffer`, `DaemonSetSelectorsDiffer`: other kinds have no such check. */
  predicate SelectorsDiffer(current: Object, desired: Object) {
    match (current.body, desired.body)
    case (DeploymentBody(w), DeploymentBody(v)) => w.selector != v.selector
    case (DaemonSetBody(w), DaemonSetBody(v)) => w.selector != v.selector
    case _ => false
  }

  // ----- the comparisons as the source runs them -----

  method ClusterIPServiceChanged(current: Service, expected: Service) returns (r: Comparison<Service>)
    ensures r == Verdict(current, ClusterIPMerge(current, expected))
  {
    var changed := false;
    var updated := current;
    if |current.spec.ports| != |expected.spec.ports| {
      updated := updated.(spec := updated.spec.(ports := expected.spec.ports));
      changed := true;
    } else {
      if current.spec.ports != expected.spec.ports {
        updated := updated.(spec := updated.spec.(ports := expected.spec.ports));
        changed := true;
      }
    }
    if current.spec.selector != expected.spec.selector {
      updated := updated.(spec := updated.spec.(selector := expected.spec.selector));
      changed := true;
    }
    if current.spec.sessionAffinity != expected.spec.sessionAffinity {
      updated := updated.(spec := updated.spec.(sessionAffinity := expected.spec.sessionAffinity));
      changed := true;
    }
    if current.spec.kind != expected.spec.kind {
      updated := updated.(spec := updated.spec.(kind := expected.spec.kind));
      changed := true;
    }
    return if changed then Differs(updated) else Same;
  }

  /** The port loop of `LoadBalancerServiceChanged`. */
  method MergeServicePorts(have: seq<ServicePort>, want: seq<ServicePort>)
    returns (ports: seq<ServicePort>, changed: bool)
    ensures ports == MergePorts(have, want)
    ensures changed <==> ports != have
  {
    changed := false;
    ports := have;
    if |have| != |want| {
      return want, true;
    }
    for i := 0 to |have|
      invariant |ports| == |have|
      invariant forall j | 0 <= j < i :: ports[j] == want[j].(nodePort := have[j].nodePort)
      invariant forall j | i <= j < |have| :: ports[j] == have[j]
      invariant changed <==> exists j | 0 <= j < i :: ports[j] != have[j]
    {
      var p := have[i];
      if p.name != want[i].name {
        ports := ports[i := ports[i].(name := want[i].name)];
        changed := true;
      }
      if p.protocol != want[i].protocol {
        ports := ports[i := ports[i].(protocol := want[i].protocol)];
        changed := true;
      }
      if p.port != want[i].port {
        ports := ports[i := ports[i].(port := want[i].port)];
        changed := true;
      }
      if p.targetPort != want[i].targetPort {
        ports := ports[i := ports[i].(targetPort := want[i].targetPort)];
        changed := true;
      }
    }
    assert ports == MergePorts(have, want);
  }

  method LoadBalancerServiceChanged(current: Service, expected: Service) returns (r: Comparison<Service>)
    ensures r == Verdict(current, LoadBalancerMerge(current, expected))
  {
    var ports, changed := MergeServicePorts(current.spec.ports, expected.spec.ports);
    var updated := current.(spec := current.spec.(ports := ports));
    if current.spec.selector != expected.spec.selector {
      updated := updated.(spec := updated.spec.(selector := expected.spec.selector));
      changed := true;
    }
    if current.spec.externalTrafficPolicy != expected.spec.externalTrafficPolicy {
      updated := updated.(spec := updated.spec.(externalTrafficPolicy := expected.spec.externalTrafficPolicy));
      changed := true;
    }
    if current.spec.sessionAffinity != expected.spec.sessionAffinity {
      updated := updated.(spec := updated.spec.(sessionAffinity := expected.spec.sessionAffinity));
      changed := true;
    }
    if current.spec.kind != expected.spec.kind {
      updated := updated.(spec := updated.spec.(kind := expected.spec.kind));
      changed := true;
    }
    if current.meta.annotations != expected.meta.annotations {
      updated := updated.(meta := updated.meta.(annotations := expected.meta.annotations));
      changed := true;
    }
    if current.spec.loadBalancerIP != expected.spec.loadBalancerIP {
      updated := updated.(spec := updated.spec.(loadBalancerIP := expected.spec.loadBalancerIP));
      changed := true;
    }
    return if changed then Differs(updated) else Same;
  }

  method NodePortServiceChanged(current: Service, expected: Service) returns (r: Comparison<Service>)
    ensures r == CompareNodePort(current, expected)
  {
    var changed := false;
    var have, want := current.spec.ports, expected.spec.ports;
    var ports := have;
    if |have| != |want| {
      ports := want;
      changed := true;
    }
    for i := 0 to |have|
      invariant i <= |want|
      invariant changed <==> |have| != |want| || have[..i] != want[..i]
      invariant ports == if changed then want else have
    {
      if i >= |want| {
        return Panics;
      }
      assert have[..i + 1] == have[..i] + [have[i]] && want[..i + 1] == want[..i] + [want[i]];
      if have[i] != want[i] {
        ports := want;
        changed := true;
      }
    }
    assert have[..|have|] == have;
    assert changed <==> have != want;
    var updated := current.(spec := current.spec.(ports := ports));
    if current.spec.selector != expected.spec.selector {
      updated := updated.(spec := updated.spec.(selector := expected.spec.selector));
      changed := true;
    }
    if current.spec.externalTrafficPolicy != expected.spec.externalTrafficPolicy {
      updated := updated.(spec := updated.spec.(externalTrafficPolicy := expected.spec.externalTrafficPolicy));
      changed := true;
    }
    if current.spec.sessionAffinity != expected.spec.sessionAffinity {
      updated := updated.(spec := updated.spec.(sessionAffinity := expected.spec.sessionAffinity));
      changed := true;
    }
    if current.spec.kind != expected.spec.kind {
      updated := updated.(spec := updated.spec.(kind := expected.spec.kind));
      changed := true;
    }
    if current.meta.annotations != expected.meta.annotations {
      updated := updated.(meta := updated.meta.(annotations := expected.meta.annotations));
      changed := true;
    }
    return if changed then Differs(updated) else Same;
  }

  method JobConfigChanged(current: Object, expected: Object) returns (r: Comparison<Object>)
    requires current.body.JobBody? && expected.body.JobBody?
    ensures r == Compare(None, current, expected)
  {
    var changed := false;
    var updated := current;
    var c, e := current.body.job, expected.body.job;
    if current.meta.labels != expected.meta.labels {
      updated := expected;
      changed := true;
    }
    if c.parallelism != e.parallelism {
      updated := expected;
      changed := true;
    }
    if c.backoffLimit != e.backoffLimit {
      updated := expected;
      changed := true;
    }
    if c.podLabels.Some? {
      var nameFound := OWNING_NAME_LABEL in c.podLabels.value;
      var nsFound := OWNING_NS_LABEL in c.podLabels.value;
      if !nameFound || !nsFound {
        updated := expected;
        changed := true;
      }
    }
    if c.pod != e.pod {
      updated := expected;
      changed := true;
    }
    return if changed then Differs(updated) else Same;
  }

  method DaemonsetConfigChanged(current: Object, expected: Object) returns (r: Comparison<Object>)
    requires current.body.DaemonSetBody? && expected.body.DaemonSetBody?
    ensures r == Compare(None, current, expected)
  {
    var changed := false;
    var updated := current;
    if current.meta.labels != expected.meta.labels {
      changed := true;
      updated := updated.(meta := updated.meta.(labels := expected.meta.labels));
    }
    if current.body.daemonSet != expected.body.daemonSet {
      changed := true;
      updated := updated.(body := DaemonSetBody(expected.body.daemonSet));
    }
    return if changed then Differs(updated) else Same;
  }

  // ----- properties -----

  /** What it means that nothing changed: every compared field agrees, and only those. */
  lemma NoChangeMeansAgreement(current: Service, expected: Service)
    ensures var c, e := current.spec, expected.spec;
      && (CompareEnvoyService(ClusterIPService, current, expected).Same? <==>
            c.ports == e.ports && c.selector == e.selector
            && c.sessionAffinity == e.sessionAffinity && c.kind == e.kind)
      && (CompareEnvoyService(LoadBalancerService, current, expected).Same? <==>
            && |c.ports| == |e.ports|
            && (forall i | 0 <= i < |c.ports| ::
                  c.ports[i].name == e.ports[i].name && c.ports[i].protocol == e.ports[i].protocol
                  && c.ports[i].port == e.ports[i].port && c.ports[i].targetPort == e.ports[i].targetPort)
            && c.selector == e.selector && c.externalTrafficPolicy == e.externalTrafficPolicy
            && c.sessionAffinity == e.sessionAffinity && c.kind == e.kind
            && current.meta.annotations == expected.meta.annotations && c.loadBalancerIP == e.loadBalancerIP)
      && (CompareNodePort(current, expected).Same? <==>
            c.ports == e.ports && c.selector == e.selector && c.externalTrafficPolicy == e.externalTrafficPolicy
            && c.sessionAffinity == e.sessionAffinity && c.kind == e.kind
            && current.meta.annotations == expected.meta.annotations)
      && (CompareNodePort(current, expected).Panics? <==> |c.ports| > |e.ports|)
  {
    var c, e := current.spec.ports, expected.spec.ports;
    if CompareEnvoyService(LoadBalancerService, current, expected).Same? {
      assert MergePorts(c, e) == c;
      assert |c| == |e|;
      forall i | 0 <= i < |c|
        ensures c[i].name == e[i].name && c[i].protocol == e[i].protocol
                && c[i].port == e[i].port && c[i].targetPort == e[i].targetPort
      {
        assert MergePorts(c, e)[i] == e[i].(nodePort := c[i].nodePort);
      }
    }
    if |c| == |e| && forall i | 0 <= i < |c| ::
         c[i].name == e[i].name && c[i].protocol == e[i].protocol
         && c[i].port == e[i].port && c[i].targetPort == e[i].targetPort {
      assert MergePorts(c, e) == c;
    }
  }

  /** The same for the other kinds: namespaces and service accounts are compared on labels alone,
      configmaps on data alone, Jobs on what a completed Job keeps, the rest on labels and body. */
  lemma OtherKindsAgreeIff(current: Object, desired: Object)
    requires SameShape(current, desired) && !desired.body.ServiceBody?
    ensures var labels := current.meta.labels == desired.meta.labels;
      Compare(None, current, desired).Same? <==>
        match desired.body
        case NamespaceBody => labels
        case ServiceAccountBody => labels
        case ConfigMapBody(_) => current.body == desired.body
        case JobBody(e) =>
          var c := current.body.job;
          && labels && c.parallelism == e.parallelism && c.backoffLimit == e.backoffLimit && c.pod == e.pod
          && (c.podLabels.Some? ==> {OWNING_NAME_LABEL, OWNING_NS_LABEL} <= c.podLabels.value.Keys)
        case _ => labels && current.body == desired.body
  {
  }

  /** A reported change, compared again, is no change: updates do not chase themselves. */
  lemma ServiceUpdateIsFixedPoint(kind: PublishingType, current: Service, expected: Service)
    requires CompareEnvoyService(kind, current, expected).Differs?
    ensures CompareEnvoyService(kind, CompareEnvoyService(kind, current, expected).updated, expected).Same?
  {
    var c, e := current.spec.ports, expected.spec.ports;
    assert MergePorts(MergePorts(c, e), e) == MergePorts(c, e);
  }

  /** What an update of the Envoy Service never touches, whatever the publishing type. */
  lemma ServiceUpdateKeeps(kind: PublishingType, current: Service, expected: Service)
    requires CompareEnvoyService(kind, current, expected).Differs?
    ensures var u := CompareEnvoyService(kind, current, expected).updated;
      && u.spec.clusterIP == current.spec.clusterIP
      && u.spec.healthCheckNodePort == current.spec.healthCheckNodePort
      && u.meta.labels == current.meta.labels && u.meta.version == current.meta.version
      && (kind in {LoadBalancerService, UnknownPublishing} && |current.spec.ports| == |expected.spec.ports| ==>
            |u.spec.ports| == |current.spec.ports|
            && forall i | 0 <= i < |u.spec.ports| ::
                 u.spec.ports[i].nodePort == current.spec.ports[i].nodePort)
      && (kind == NodePortService ==> u.spec.loadBalancerIP == current.spec.loadBalancerIP)
  {
  }

  /** The update in full: what is compared comes from the desired Service, everything else stays. */
  lemma ServiceUpdateIs(kind: PublishingType, current: Service, expected: Service)
    requires CompareEnvoyService(kind, current, expected).Differs?
    ensures var u := CompareEnvoyService(kind, current, expected).updated;
      var c, e := current.spec, expected.spec;
      && u.spec.selector == e.selector && u.spec.kind == e.kind && u.spec.sessionAffinity == e.sessionAffinity
      && u.spec.clusterIP == c.clusterIP && u.spec.healthCheckNodePort == c.healthCheckNodePort
      && u.meta.labels == current.meta.labels && u.meta.version == current.meta.version
      && u.meta.annotations == (if kind == ClusterIPService then current else expected).meta.annotations
      && u.spec.externalTrafficPolicy == (if kind == ClusterIPService then c else e).externalTrafficPolicy
      && u.spec.loadBalancerIP ==
         (if kind in {ClusterIPService, NodePortService} then c.loadBalancerIP else e.loadBalancerIP)
      && (kind in {ClusterIPService, NodePortService} || |c.ports| != |e.ports| ==> u.spec.ports == e.ports)
      && (kind !in {ClusterIPService, NodePortService} && |c.ports| == |e.ports| ==>
            && |u.spec.ports| == |e.ports|
            && forall i | 0 <= i < |e.ports| :: u.spec.ports[i] == e.ports[i].(nodePort := c.ports[i].nodePort))
  {
  }

  /** The update of every other kind: DaemonSets, roles and bindings keep annotations and version, configmaps
      their labels too; the rest is the desired object as it stands. */
  lemma OtherUpdatesAre(current: Object, desired: Object)
    requires SameShape(current, desired) && Compare(None, current, desired).Differs?
    ensures Compare(None, current, desired).updated ==
            match desired.body
            case ConfigMapBody(_) => Object(current.meta, desired.body)
            case RoleBody(_) =>
              Object(Meta(desired.meta.labels, current.meta.annotations, current.meta.version), desired.body)
            case BindingBody(_, _) =>
              Object(Meta(desired.meta.labels, current.meta.annotations, current.meta.version), desired.body)
            case DaemonSetBody(_) =>
              Object(Meta(desired.meta.labels, current.meta.annotations, current.meta.version), desired.body)
            case _ => desired
  {
  }

  /** A selector change is one of a Deployment or DaemonSet whose selectors differ, and of nothing else. */
  lemma SelectorsDifferIff(current: Object, desired: Object)
    ensures SelectorsDiffer(current, desired) <==>
            || (&& current.body.DeploymentBody? && desired.body.DeploymentBody?
                && current.body.deployment.selector != desired.body.deployment.selector)
            || (&& current.body.DaemonSetBody? && desired.body.DaemonSetBody?
                && current.body.daemonSet.selector != desired.body.daemonSet.selector)
  {
  }

  /** The desired Service as the server stores it: cluster IP, health-check port, and a node port
      for every port that asked for none. */
  function ServerAssigned(desired: Service, clusterIP: string, healthPort: int, nodePorts: seq<int>): Service
    requires |nodePorts| == |desired.spec.ports|
  {
    desired.(spec := desired.spec.(
      clusterIP := clusterIP,
      healthCheckNodePort := healthPort,
      ports := seq(|nodePorts|, i requires 0 <= i < |nodePorts| =>
        var p := desired.spec.ports[i];
        if p.nodePort == 0 then p.(nodePort := nodePorts[i]) else p)))
  }

  /** No assignment the server makes to a LoadBalancer Service is ever taken for a change. */
  lemma LoadBalancerIsQuiescent(desired: Service, clusterIP: string, healthPort: int, nodePorts: seq<int>)
    requires |nodePorts| == |desired.spec.ports|
    ensures CompareEnvoyService(LoadBalancerService, ServerAssigned(desired, clusterIP, healthPort, nodePorts),
        desired).Same?
  {
    NoChangeMeansAgreement(ServerAssigned(desired, clusterIP, healthPort, nodePorts), desired);
  }

  /** For a NodePort Service that is so exactly when every port asked for its node port: otherwise
      the operator takes the server's choice for drift and writes the Service on every pass. */
  lemma NodePortIsQuiescentIff(desired: Service, clusterIP: string, healthPort: int, nodePorts: seq<int>)
    requires |nodePorts| == |desired.spec.ports|
    requires forall i | 0 <= i < |nodePorts| :: nodePorts[i] != 0
    ensures CompareNodePort(ServerAssigned(desired, clusterIP, healthPort, nodePorts), desired).Same? <==>
            forall i | 0 <= i < |nodePorts| :: desired.spec.ports[i].nodePort != 0
  {
    var stored := ServerAssigned(desired, clusterIP, healthPort, nodePorts);
    NoChangeMeansAgreement(stored, desired);
    if stored.spec.ports == desired.spec.ports {
      forall i | 0 <= i < |nodePorts|
        ensures desired.spec.ports[i].nodePort != 0
      {
        assert stored.spec.ports[i] == desired.spec.ports[i];
      }
    }
  }

  /** When the publishing type becomes ClusterIP, the external traffic policy, load-balancer address
      and annotations of the previous type stay behind: the update meets the desired Service in those
      fields exactly when the current one already did. */
  lemma ClusterIPUpdateLeavesStaleFields(current: Service, expected: Service)
    requires CompareEnvoyService(ClusterIPService, current, expected).Differs?
    ensures var u := CompareEnvoyService(ClusterIPService, current, expected).updated;
      && (u.spec.externalTrafficPolicy == expected.spec.externalTrafficPolicy <==>
            current.spec.externalTrafficPolicy == expected.spec.externalTrafficPolicy)
      && (u.spec.loadBalancerIP == expected.spec.loadBalancerIP <==>
            current.spec.loadBalancerIP == expected.spec.loadBalancerIP)
      && (u.meta.annotations == expected.meta.annotations <==>
            current.meta.annotations == expected.meta.annotations)
  {
  }

  /** A desired Job names its owner on its pods too (`OwningSelector`). */
  predicate WellFormedDesired(desired: Object) {
    desired.body.JobBody? ==>
      var labels := desired.body.job.podLabels;
      labels.Some? && OWNING_NAME_LABEL in labels.value && OWNING_NS_LABEL in labels.value
  }

  /** Every kind's update is a fixed point of its comparison, under whatever version it is stored. */
  lemma UpdateIsFixedPoint(envoy: Option<PublishingType>, current: Object, desired: Object, v: nat)
    requires SameShape(current, desired) && WellFormedDesired(desired)
    requires Compare(envoy, current, desired).Differs?
    ensures var u := Stamp(Compare(envoy, current, desired).updated, v);
      && SameShape(u, desired) && Compare(envoy, u, desired).Same?
      && (!SelectorsDiffer(current, desired) ==> !SelectorsDiffer(u, desired))
  {
    if desired.body.ServiceBody? {
      var c, e := current.body.service.ports, desired.body.service.ports;
      assert MergePorts(MergePorts(c, e), e) == MergePorts(c, e);
    }
  }

  /** A freshly created object matches what was asked for. */
  lemma CreatedMatches(envoy: Option<PublishingType>, desired: Object, v: nat)
    requires WellFormedDesired(desired)
    ensures Compare(envoy, Stamp(desired, v), desired).Same? && SameShape(Stamp(desired, v), desired)
    ensures !SelectorsDiffer(Stamp(desired, v), desired)
  {
    if desired.body.ServiceBody? {
      var e := desired.body.service.ports;
      assert MergePorts(e, e) == e;
    }
  }

  /** An update never changes who owns the object. */
  lemma UpdateKeepsOwner(envoy: Option<PublishingType>, current: Object, desired: Object, n: Name)
    requires Owned(current, n) && Owned(desired, n)
    requires Compare(envoy, current, desired).Differs?
    ensures Owned(Compare(envoy, current, desired).updated, n)
  {
  }
}
