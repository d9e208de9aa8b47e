/** The ensure and delete operations as the source runs them, each proved to do to the world what
    the functions of `Objects` say. */
module ObjectMethods {
  import opened Api
  import opened RetryableError
  import opened Equality
  import opened Desired
  import opened Server
  import opened Objects

  /** The pattern of namespaces, service accounts, roles, bindings and configmaps. */
  method EnsureObject(cli: Client, cfg: Config, me: Name, want: Wanted) returns (err: Option<Error>)
    requires want.desired.body.NamespaceBody? || want.desired.body.ServiceAccountBody? || want.desired.body.RoleBody?
             || want.desired.body.BindingBody? || want.desired.body.ConfigMapBody?
    modifies cli
    ensures (err, cli.world) == Ensure(old(cli.world), cfg, me, want)
  {
    var current := cli.Get(want.key);
    if current.Failed? {
      if current.reason == NotFound {
        var c := cli.Create(want.key, want.desired);
        return ErrorOf(c);
      }
      return Some(ApiError(current.reason));
    }
    if Owned(current.value, me) {
      var comparison := Compare(want.envoy, current.value, want.desired);
      if comparison.Differs? {
        var u := cli.Update(want.key, comparison.updated);
        return ErrorOf(u);
      }
    }
    return None;
  }

  method EnsureDeployment(cli: Client, cfg: Config, me: Name, spec: Spec) returns (err: Option<Error>)
    modifies cli
    ensures (err, cli.world) ==
            Ensure(old(cli.world), cfg, me,
                   Wanted(DeploymentKey(spec.namespace), SesameDeployment(cfg, me, spec), None))
  {
    var desired := DesiredDeployment(cfg, me, spec);
    var key := DeploymentKey(spec.namespace);
    var current := cli.Get(key);
    if current.Failed? {
      if current.reason == NotFound {
        var c := cli.Create(key, desired);
        return ErrorOf(c);
      }
      return Some(Panic);
    }
    var differ := SelectorsDiffer(current.value, desired);
    if differ {
      err := EnsureDeleted(cli, me, key);
      return;
    }
    if Owned(current.value, me) {
      var comparison := Compare(None, current.value, desired);
      if comparison.Differs? {
        var u := cli.Update(key, comparison.updated);
        return ErrorOf(u);
      }
    }
    return None;
  }

  method EnsureDaemonSet(cli: Client, cfg: Config, me: Name, spec: Spec) returns (err: Option<Error>)
    modifies cli
    ensures (err, cli.world) ==
            Ensure(old(cli.world), cfg, me, Wanted(DaemonSetKey(spec.namespace), EnvoyDaemonSet(cfg, me, spec), None))
  {
    hide Begin, CreateChild, UpdateChild, DeleteChild, DeleteOwned, Owned;
    var desired := DesiredDaemonSet(cfg, me, spec);
    var key := DaemonSetKey(spec.namespace);
    var current := cli.Get(key);
    if current.Failed? {
      if current.reason == NotFound {
        var c := cli.Create(key, desired);
        return ErrorOf(c);
      }
      return Some(ApiError(current.reason));
    }
    var differ := SelectorsDiffer(current.value, desired);
    if differ {
      err := EnsureDeleted(cli, me, key);
      return;
    }
    if Owned(current.value, me) {
      var comparison := Compare(None, current.value, desired);
      if current.value.body.DaemonSetBody? {
        comparison := DaemonsetConfigChanged(current.value, desired);
      }
      if comparison.Differs? {
        var u := cli.Update(key, comparison.updated);
        return ErrorOf(u);
      }
    }
    return None;
  }

  /** `Ensure*Deleted` of configmap, job, deployment, daemonset and the two services. */
  method EnsureDeleted(cli: Client, me: Name, key: Key) returns (err: Option<Error>)
    modifies cli
    ensures (err, cli.world) == DeleteOwned(old(cli.world), me, key)
  {
    var current := cli.Get(key);
    if current.Failed? {
      if current.reason == NotFound {
        return None;
      }
      return Some(ApiError(current.reason));
    }
    if Owned(current.value, me) {
      var d := cli.Delete(key);
      if d.Some? {
        if d.value == NotFound {
          return None;
        }
        return ErrorOf(d);
      }
    }
    return None;
  }

  method EnsureJob(cli: Client, cfg: Config, me: Name, spec: Spec) returns (err: Option<Error>)
    modifies cli
    ensures (err, cli.world) ==
            Ensure(old(cli.world), cfg, me, Wanted(JobKey(spec.namespace), CertgenJob(cfg, me), None))
  {
    hide JobMatches, Begin, CreateChild, UpdateChild, DeleteChild, RetryCreate, Owned;
    var desired := CertgenJob(cfg, me);
    var key := JobKey(spec.namespace);
    var current := cli.Get(key);
    if current.Failed? {
      if current.reason == NotFound {
        var c := cli.Create(key, desired);
        return ErrorOf(c);
      }
      return Some(ApiError(current.reason));
    }
    if Owned(current.value, me) {
      var comparison := Compare(None, current.value, desired);
      if current.value.body.JobBody? {
        comparison := JobConfigChanged(current.value, desired);
      }
      if !comparison.Differs? {
        return None;
      }
      var d := cli.Delete(key);
      if d.Some? {
        if d.value != NotFound {
          return ErrorOf(d);
        }
      }
      err := RetryJobCreate(cli, key, comparison.updated, 1 + cfg.extraJobAttempts);
      return;
    }
    return None;
  }

  /** `retryJobCreate`, one iteration a poll. */
  method RetryJobCreate(cli: Client, key: Key, job: Object, tries: nat) returns (err: Option<Error>)
    modifies cli
    ensures (err, cli.world) == RetryCreate(old(cli.world), key, job, tries)
  {
    ghost var start := cli.world;
    for i := 0 to tries
      invariant RetryCreate(start, key, job, tries) == RetryCreate(cli.world, key, job, tries - i)
    {
      var c := cli.Create(key, job);
      if c.None? {
        return None;
      }
    }
    return Some(ApiError(Unavailable));
  }

  method EnsureSesameService(cli: Client, cfg: Config, me: Name, spec: Spec) returns (err: Option<Error>)
    modifies cli
    ensures (err, cli.world) ==
            Ensure(old(cli.world), cfg, me, Wanted(SesameServiceKey(spec.namespace), SesameService(me), None))
  {
    hide ClusterIPMerge, Begin, CreateChild, UpdateChild, Owned;
    var desired := SesameService(me);
    var key := SesameServiceKey(spec.namespace);
    var current := cli.Get(key);
    if current.Failed? {
      if current.reason == NotFound {
        var c := cli.Create(key, desired);
        return ErrorOf(c);
      }
      return Some(ApiError(current.reason));
    }
    if Owned(current.value, me) {
      var updated := true;
      if current.value.body.ServiceBody? {
        var comparison := ClusterIPServiceChanged(
          Service(current.value.meta, current.value.body.service), Service(desired.meta, desired.body.service));
        updated := comparison.Differs?;
      }
      if updated {
        var u := cli.Update(key, desired);
        return ErrorOf(u);
      }
    }
    return None;
  }

  method EnsureEnvoyService(cli: Client, cfg: Config, me: Name, spec: Spec) returns (err: Option<Error>)
    modifies cli
    ensures (err, cli.world) == Ensure(old(cli.world), cfg, me, EnvoyServiceWanted(me, spec))
  {
    hide EnvoyService, LoadBalancerMerge, NodePortMerge, ClusterIPMerge, Begin, CreateChild, UpdateChild, Owned;
    var desired := DesiredEnvoyService(me, spec.publishing);
    var key := EnvoyServiceKey(spec.namespace);
    var wanted := Object(desired.meta, ServiceBody(desired.spec));
    var current := cli.Get(key);
    if current.Failed? {
      if current.reason == NotFound {
        var c := cli.Create(key, wanted);
        return ErrorOf(c);
      }
      return Some(ApiError(current.reason));
    }
    if Owned(current.value, me) {
      var comparison := Differs(desired);
      if current.value.body.ServiceBody? {
        var svc := Service(current.value.meta, current.value.body.service);
        match spec.publishing.kind {
          case NodePortService => comparison := NodePortServiceChanged(svc, desired);
          case ClusterIPService => comparison := ClusterIPServiceChanged(svc, desired);
          case _ => comparison := LoadBalancerServiceChanged(svc, desired);
        }
      }
      if comparison.Panics? {
        return Some(Panic);
      }
      if comparison.Differs? {
        var u := cli.Update(key, Object(comparison.updated.meta, ServiceBody(comparison.updated.spec)));
        return ErrorOf(u);
      }
    }
    return None;
  }

  /** The loop over account names in `EnsureRBAC`. */
  method EnsureServiceAccounts(cli: Client, cfg: Config, me: Name, ns: string) returns (err: Option<Error>)
    modifies cli
    ensures (err, cli.world) == EnsureUntilError(old(cli.world), cfg, me, ServiceAccountsWanted(me, ns))
  {
    ghost var start, wants := cli.world, ServiceAccountsWanted(me, ns);
    var names := [SESAME, ENVOY, CERTGEN];
    for i := 0 to |names|
      invariant EnsureUntilError(start, cfg, me, wants) == EnsureUntilError(cli.world, cfg, me, wants[i..])
    {
      assert wants[i] == ServiceAccountWanted(me, ns, names[i]);
      assert wants[i..][1..] == wants[i + 1..];
      err := EnsureObject(cli, cfg, me, ServiceAccountWanted(me, ns, names[i]));
      if err.Some? {
        return;
      }
    }
    return None;
  }

  method EnsureRBAC(cli: Client, cfg: Config, me: Name, ns: string) returns (err: Option<Error>)
    modifies cli
    ensures (err, cli.world) == EnsureUntilError(old(cli.world), cfg, me, RbacWanted(me, ns))
  {
    ghost var start := cli.world;
    err := EnsureServiceAccounts(cli, cfg, me, ns);
    UntilErrorAppend(start, cfg, me, ServiceAccountsWanted(me, ns), RolesWanted(me, ns));
    if err.Some? {
      return;
    }
    err := EnsureRoles(cli, cfg, me, ns);
  }

  /** The straight-line part of `EnsureRBAC`. */
  method EnsureRoles(cli: Client, cfg: Config, me: Name, ns: string) returns (err: Option<Error>)
    modifies cli
    ensures (err, cli.world) == EnsureUntilError(old(cli.world), cfg, me, RolesWanted(me, ns))
  {
    ghost var d := [CertgenRoleBindingWanted(me, ns)];
    ghost var c := [CertgenRoleWanted(me, ns)] + d;
    ghost var b := [ClusterRoleBindingWanted(me, ns)] + c;
    ghost var a := [ClusterRoleWanted(me, ns)] + b;
    assert RolesWanted(me, ns) == a && a[1..] == b && b[1..] == c && c[1..] == d && d[1..] == [];
    err := EnsureObject(cli, cfg, me, ClusterRoleWanted(me, ns));
    if err.Some? {
      return;
    }
    assert EnsureUntilError(old(cli.world), cfg, me, a) == EnsureUntilError(cli.world, cfg, me, b);
    err := EnsureObject(cli, cfg, me, ClusterRoleBindingWanted(me, ns));
    if err.Some? {
      return;
    }
    assert EnsureUntilError(old(cli.world), cfg, me, a) == EnsureUntilError(cli.world, cfg, me, c);
    err := EnsureObject(cli, cfg, me, CertgenRoleWanted(me, ns));
    if err.Some? {
      return;
    }
    assert EnsureUntilError(old(cli.world), cfg, me, a) == EnsureUntilError(cli.world, cfg, me, d);
    err := EnsureObject(cli, cfg, me, CertgenRoleBindingWanted(me, ns));
  }

  /** `OtherSesamesExist`. */
  method OtherSesamesExist(cli: Client, me: Name) returns (r: Reply<bool>, items: seq<(Name, Sesame)>)
    modifies cli
    ensures cli.world == ListSesames(old(cli.world)).1
    ensures match ListSesames(old(cli.world)).0
            case Failed(reason) => r == Failed(reason)
            case Ok(all) => r == Ok(OthersExist(all, me)) && Lists(items, all)
  {
    var reply := cli.List();
    if reply.Failed? {
      return Failed(reply.reason), [];
    }
    items := reply.value;
    if |items| == 0 {
      return Ok(false), items;
    }
    if |items| == 1 && items[0].0.name == me.name {
      assert items[0].0 in ListSesames(old(cli.world)).0.value;
      return Ok(false), items;
    }
    return Ok(true), items;
  }

  method OtherSesamesExistInSpecNs(cli: Client, me: Name, ns: string) returns (r: Reply<bool>)
    modifies cli
    ensures cli.world == ListSesames(old(cli.world)).1
    ensures match ListSesames(old(cli.world)).0
            case Failed(reason) => r == Failed(reason)
            case Ok(all) => r == Ok(OthersInSpecNs(all, me, ns))
  {
    var exist, items := OtherSesamesExist(cli, me);
    if exist.Failed? {
      return exist;
    }
    if exist.value {
      for i := 0 to |items|
        invariant forall j | 0 <= j < i :: items[j].0 == me || items[j].1.spec.namespace != ns
      {
        if items[i].0 == me {
          continue;
        }
        if items[i].1.spec.namespace == ns {
          return Ok(true);
        }
      }
    }
    return Ok(false);
  }

  /** The reads of `EnsureRBACDeleted` over one group of objects. */
  method CollectExisting(cli: Client, keys: seq<Key>) returns (r: Reply<seq<(Key, Object)>>)
    modifies cli
    ensures (r, cli.world) == Collect(old(cli.world), keys)
  {
    if keys == [] {
      return Ok([]);
    }
    var current := cli.Get(keys[0]);
    if current.Failed? && current.reason != NotFound {
      return Failed(current.reason);
    }
    var rest := CollectExisting(cli, keys[1..]);
    if rest.Failed? {
      return rest;
    }
    return Ok((if current.Ok? then [(keys[0], current.value)] else []) + rest.value);
  }

  method CollectGroup(cli: Client, skip: bool, keys: seq<Key>) returns (r: Reply<seq<(Key, Object)>>)
    modifies cli
    ensures (r, cli.world) == CollectUnless(old(cli.world), skip, keys)
  {
    r := Ok([]);
    if !skip {
      r := CollectExisting(cli, keys);
    }
  }

  method EnsureRBACDeleted(cli: Client, me: Name, ns: string) returns (err: Option<Error>)
    modifies cli
    ensures (err, cli.world) == DeleteRbac(old(cli.world), me, ns)
  {
    var exist := OtherSesamesExistInSpecNs(cli, me, ns);
    if exist.Failed? {
      return Some(ApiError(exist.reason));
    }
    var objectsToDelete := CollectGroup(cli, exist.value, NamespacedRbacKeys(ns));
    if objectsToDelete.Failed? {
      return Some(ApiError(objectsToDelete.reason));
    }
    var anywhere, _ := OtherSesamesExist(cli, me);
    if anywhere.Failed? {
      return Some(ApiError(anywhere.reason));
    }
    var more := CollectGroup(cli, anywhere.value, ClusterRbacKeys(ns));
    if more.Failed? {
      return Some(ApiError(more.reason));
    }
    err := DeleteObjects(cli, me, objectsToDelete.value + more.value);
  }

  /** The final loop of `EnsureRBACDeleted`. */
  method DeleteObjects(cli: Client, me: Name, objectsToDelete: seq<(Key, Object)>) returns (err: Option<Error>)
    modifies cli
    ensures (err, cli.world) == DeleteCollected(old(cli.world), me, objectsToDelete)
  {
    ghost var start := cli.world;
    for i := 0 to |objectsToDelete|
      invariant DeleteCollected(start, me, objectsToDelete) == DeleteCollected(cli.world, me, objectsToDelete[i..])
    {
      assert objectsToDelete[i..][1..] == objectsToDelete[i + 1..];
      if Owned(objectsToDelete[i].1, me) {
        var d := cli.Delete(objectsToDelete[i].0);
        if d.Some? {
          if d.value == NotFound {
            continue;
          }
          return ErrorOf(d);
        }
      }
    }
    return None;
  }

  method EnsureNamespaceDeleted(cli: Client, me: Name, spec: Spec) returns (expected: bool, err: Option<Error>)
    modifies cli
    ensures (expected, err, cli.world) == DeleteNamespace(old(cli.world), me, spec)
  {
    if !spec.removeOnDeletion {
      return false, None;
    }
    if spec.namespace in CORE_NAMESPACES {
      return false, None;
    }
    var ns := cli.Get(NamespaceKey(spec.namespace));
    if ns.Failed? {
      if ns.reason == NotFound {
        return true, None;
      }
      return true, Some(ApiError(ns.reason));
    }
    if Owned(ns.value, me) {
      var exist := OtherSesamesExistInSpecNs(cli, me, spec.namespace);
      if exist.Failed? {
        return true, Some(ApiError(exist.reason));
      }
      if !exist.value {
        var d := cli.Delete(NamespaceKey(spec.namespace));
        if d.Some? {
          if d.value == NotFound {
            return true, None;
          }
          return true, ErrorOf(d);
        }
      }
    }
    return true, None;
  }
}
