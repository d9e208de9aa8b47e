/** Ensuring and deleting child objects (internal/objects).

    All kinds share one pattern: read; create if absent; otherwise update if owned and different.
    Deployments and DaemonSets whose selector differs are deleted instead, Jobs are deleted and
    created anew, and RBAC and the namespace have guarded deletions of their own. */
module Objects {
  import opened Api
  import opened RetryableError
  import opened Equality
  import opened Desired
  import opened Server

  /** One object the operator ensures; `envoy` is the publishing type of the Envoy Service. */
  datatype Wanted = Wanted(key: Key, desired: Object, envoy: Option<PublishingType>)

  // ----- the managed objects of a Sesame -----

  const SESAME := "sesame"
  const ENVOY := "envoy"
  const CERTGEN := "sesame-certgen"
  const CERTGEN_JOB := "sesame-certgen-main"

  function NamespaceKey(ns: string): Key { Key(NamespaceKind, "", ns) }
  function ConfigMapKey(ns: string): Key { Key(ConfigMapKind, ns, SESAME) }
  function JobKey(ns: string): Key { Key(JobKind, ns, CERTGEN_JOB) }
  function DeploymentKey(ns: string): Key { Key(DeploymentKind, ns, SESAME) }
  function DaemonSetKey(ns: string): Key { Key(DaemonSetKind, ns, ENVOY) }
  function SesameServiceKey(ns: string): Key { Key(ServiceKind, ns, SESAME) }
  function EnvoyServiceKey(ns: string): Key { Key(ServiceKind, ns, ENVOY) }
  function ClusterRoleKey(ns: string): Key { Key(ClusterRoleKind, "", "sesame-" + ns) }
  function ClusterRoleBindingKey(ns: string): Key { Key(ClusterRoleBindingKind, "", "sesame-" + ns) }
  function RoleKey(ns: string, name: string): Key { Key(RoleKind, ns, name) }
  function RoleBindingKey(ns: string): Key { Key(RoleBindingKind, ns, SESAME) }
  function ServiceAccountKey(ns: string, name: string): Key { Key(ServiceAccountKind, ns, name) }

  predicate WorkloadKind(kind: Kind) {
    kind in {ConfigMapKind, JobKind, DeploymentKind, DaemonSetKind, ServiceKind}
  }

  /** Where the operator keeps the workloads of the one Sesame of namespace `ns`. */
  function WorkloadKeys(ns: string): set<Key> {
    {ConfigMapKey(ns), JobKey(ns), DeploymentKey(ns), DaemonSetKey(ns), SesameServiceKey(ns), EnvoyServiceKey(ns)}
  }

  function NamespacedRbacKeys(ns: string): seq<Key> {
    [RoleBindingKey(ns), RoleKey(ns, SESAME), RoleKey(ns, CERTGEN),
     ServiceAccountKey(ns, SESAME), ServiceAccountKey(ns, ENVOY), ServiceAccountKey(ns, CERTGEN)]
  }

  function ClusterRbacKeys(ns: string): seq<Key> {
    [ClusterRoleBindingKey(ns), ClusterRoleKey(ns)]
  }

  function ManagedKeys(ns: string): set<Key> {
    WorkloadKeys(ns) + {NamespaceKey(ns)}
    + (set k | k in NamespacedRbacKeys(ns)) + (set k | k in ClusterRbacKeys(ns))
  }

  function NamespaceWanted(id: Name, ns: string): Wanted {
    Wanted(NamespaceKey(ns), Object(OwnedMeta(id), NamespaceBody), None)
  }

  function ServiceAccountWanted(id: Name, ns: string, name: string): Wanted {
    Wanted(ServiceAccountKey(ns, name), Object(OwnedMeta(id), ServiceAccountBody), None)
  }

  function BindingWanted(id: Name, key: Key, ns: string, account: string, role: string): Wanted {
    Wanted(key, Object(OwnedMeta(id), BindingBody([ns + "/" + account], role)), None)
  }

  function ServiceAccountsWanted(id: Name, ns: string): seq<Wanted> {
    [ServiceAccountWanted(id, ns, SESAME), ServiceAccountWanted(id, ns, ENVOY), ServiceAccountWanted(id, ns, CERTGEN)]
  }

  function ClusterRoleWanted(id: Name, ns: string): Wanted {
    Wanted(ClusterRoleKey(ns), Object(OwnedMeta(id), RoleBody(["sesame cluster rules"])), None)
  }

  function ClusterRoleBindingWanted(id: Name, ns: string): Wanted {
    BindingWanted(id, ClusterRoleBindingKey(ns), ns, SESAME, "sesame-" + ns)
  }

  function CertgenRoleWanted(id: Name, ns: string): Wanted {
    Wanted(RoleKey(ns, CERTGEN), Object(OwnedMeta(id), RoleBody(["create and update secrets"])), None)
  }

  function CertgenRoleBindingWanted(id: Name, ns: string): Wanted {
    BindingWanted(id, RoleBindingKey(ns), ns, CERTGEN, CERTGEN)
  }

  function RolesWanted(id: Name, ns: string): seq<Wanted> {
    [ClusterRoleWanted(id, ns), ClusterRoleBindingWanted(id, ns), CertgenRoleWanted(id, ns),
        CertgenRoleBindingWanted(id, ns)]
  }

  /** The order of `EnsureRBAC`: accounts, then roles each before the binding that refers to it. */
  function RbacWanted(id: Name, ns: string): seq<Wanted> {
    ServiceAccountsWanted(id, ns) + RolesWanted(id, ns)
  }

  function EnvoyServiceWanted(id: Name, spec: Spec): Wanted {
    Wanted(EnvoyServiceKey(spec.namespace), EnvoyServiceObject(id, spec.publishing), Some(spec.publishing.kind))
  }

  /** Everything `ensureSesame` handles once namespace and RBAC are in place, in its order. */
  function WorkloadsWanted(cfg: Config, id: Name, spec: Spec): seq<Wanted> {
    var ns := spec.namespace;
    [Wanted(ConfigMapKey(ns), SesameConfigMap(cfg, id, spec), None),
     Wanted(JobKey(ns), CertgenJob(cfg, id), None),
     Wanted(DeploymentKey(ns), SesameDeployment(cfg, id, spec), None),
     Wanted(DaemonSetKey(ns), EnvoyDaemonSet(cfg, id, spec), None),
     Wanted(SesameServiceKey(ns), SesameService(id), None)]
    + if Admitted(spec) then [EnvoyServiceWanted(id, spec)] else []
  }

  /** The workloads `ensureSesameDeleted` handles, in its order. */
  function WorkloadsToDelete(spec: Spec): seq<Key> {
    var ns := spec.namespace;
    (if Admitted(spec) then [EnvoyServiceKey(ns)] else [])
    + [SesameServiceKey(ns), DaemonSetKey(ns), DeploymentKey(ns), JobKey(ns), ConfigMapKey(ns)]
  }

  // ----- operations, as functions of the world -----

  function ErrorOf(r: Option<Reason>): Option<Error> {
    if r.None? then None else Some(ApiError(r.value))
  }

  /** `Ensure*Deleted` of a single object. */
  function DeleteOwned(w: World, me: Name, key: Key): (Option<Error>, World) {
    var (r, w1) := GetChild(w, key);
    match r
    case Failed(NotFound) => (None, w1)
    case Failed(reason) => (Some(ApiError(reason)), w1)
    case Ok(current) =>
      if !Owned(current, me) then (None, w1)
      else
        var (d, w2) := DeleteChild(w1, key);
        (if d == Some(NotFound) then None else ErrorOf(d), w2)
  }

  /** `retryJobCreate`: errors are swallowed until the poll times out. */
  function RetryCreate(w: World, key: Key, o: Object, tries: nat): (Option<Error>, World)
    decreases tries
  {
    if tries == 0 then (Some(ApiError(Unavailable)), w)
    else
      var (c, w1) := CreateChild(w, key, o);
      if c.None? then (None, w1) else RetryCreate(w1, key, o, tries - 1)
  }

  /** `recreateJobIfNeeded` once the Job is known to differ. */
  function Recreate(w: World, key: Key, o: Object, tries: nat): (Option<Error>, World) {
    var (d, w1) := DeleteChild(w, key);
    if d.Some? && d != Some(NotFound) then (ErrorOf(d), w1) else RetryCreate(w1, key, o, tries)
  }

  /** `Ensure*` of a single object. */
  function Ensure(w: World, cfg: Config, me: Name, want: Wanted): (Option<Error>, World) {
    var (r, w1) := GetChild(w, want.key);
    match r
    case Failed(NotFound) =>
      var (c, w2) := CreateChild(w1, want.key, want.desired);
      (ErrorOf(c), w2)
    case Failed(reason) =>
      // EnsureDeployment goes on with a nil Deployment and dereferences it.
      (Some(if want.desired.body.DeploymentBody? then Panic else ApiError(reason)), w1)
    case Ok(current) =>
      if SelectorsDiffer(current, want.desired) then DeleteOwned(w1, me, want.key)
      else if !Owned(current, me) then (None, w1)
      else
        match Compare(want.envoy, current, want.desired)
        case Same => (None, w1)
        case Panics => (Some(Panic), w1)
        case Differs(updated) =>
          if want.desired.body.JobBody? then Recreate(w1, want.key, updated, 1 + cfg.extraJobAttempts)
          else
            var (u, w2) := UpdateChild(w1, want.key, updated);
            (ErrorOf(u), w2)
  }

  /** Ensures in order, stopping at the first error (`EnsureRBAC`). */
  function EnsureUntilError(w: World, cfg: Config, me: Name, wants: seq<Wanted>): (Option<Error>, World)
    decreases |wants|
  {
    if wants == [] then (None, w)
    else
      var (e, w1) := Ensure(w, cfg, me, wants[0]);
      if e.Some? then (e, w1) else EnsureUntilError(w1, cfg, me, wants[1..])
  }

  lemma {:induction false} UntilErrorAppend(w: World, cfg: Config, me: Name, xs: seq<Wanted>, ys: seq<Wanted>)
    ensures var (e, w1) := EnsureUntilError(w, cfg, me, xs);
      EnsureUntilError(w, cfg, me, xs + ys) == if e.Some? then (e, w1) else EnsureUntilError(w1, cfg, me, ys)
    decreases |xs|
  {
    if xs == [] {
      assert xs + ys == ys;
    } else {
      assert (xs + ys)[1..] == xs[1..] + ys;
      UntilErrorAppend(Ensure(w, cfg, me, xs[0]).1, cfg, me, xs[1..], ys);
    }
  }

  /** Ensures every one, whatever happens to the others, unless the process dies. */
  function EnsureAll(w: World, cfg: Config, me: Name, wants: seq<Wanted>): (seq<Option<Error>>, World)
    decreases |wants|
  {
    if wants == [] then ([], w)
    else
      var (e, w1) := Ensure(w, cfg, me, wants[0]);
      if e == Some(Panic) then ([e], w1)
      else
        var (rest, w2) := EnsureAll(w1, cfg, me, wants[1..]);
        ([e] + rest, w2)
  }

  /** Deletes every one, whatever happens to the others. */
  function DeleteAll(w: World, me: Name, keys: seq<Key>): (seq<Option<Error>>, World)
    decreases |keys|
  {
    if keys == [] then ([], w)
    else
      var (e, w1) := DeleteOwned(w, me, keys[0]);
      var (rest, w2) := DeleteAll(w1, me, keys[1..]);
      ([e] + rest, w2)
  }

  // ----- who else is there -----

  /** `OtherSesamesExist`: a list of one is taken to be the Sesame itself if the name fits, whatever
      its namespace. */
  predicate OthersExist(all: map<Name, Sesame>, me: Name) {
    !(all == map[] || (|all| == 1 && exists n | n in all :: n.name == me.name))
  }

  /** `OtherSesamesExistInSpecNs`. */
  predicate OthersInSpecNs(all: map<Name, Sesame>, me: Name, ns: string) {
    OthersExist(all, me) && exists n | n in all :: n != me && all[n].spec.namespace == ns
  }

  // ----- RBAC deletion -----

  /** Reads the objects that exist, giving up at the first failed read. */
  function Collect(w: World, keys: seq<Key>): (Reply<seq<(Key, Object)>>, World)
    decreases |keys|
  {
    if keys == [] then (Ok([]), w)
    else
      var (r, w1) := GetChild(w, keys[0]);
      if r.Failed? && r.reason != NotFound then (Failed(r.reason), w1)
      else
        var (rest, w2) := Collect(w1, keys[1..]);
        match rest
        case Failed(reason) => (Failed(reason), w2)
        case Ok(found) => (Ok((if r.Ok? then [(keys[0], r.value)] else []) + found), w2)
  }

  /** Deletes those that were read with owner labels, giving up at the first failure. */
  function DeleteCollected(w: World, me: Name, objects: seq<(Key, Object)>): (Option<Error>, World)
    decreases |objects|
  {
    if objects == [] then (None, w)
    else if !Owned(objects[0].1, me) then DeleteCollected(w, me, objects[1..])
    else
      var (d, w1) := DeleteChild(w, objects[0].0);
      if d.Some? && d != Some(NotFound) then (ErrorOf(d), w1) else DeleteCollected(w1, me, objects[1..])
  }

  function CollectUnless(w: World, skip: bool, keys: seq<Key>): (Reply<seq<(Key, Object)>>, World) {
    if skip then (Ok([]), w) else Collect(w, keys)
  }

  /** `EnsureRBACDeleted`. */
  function DeleteRbac(w: World, me: Name, ns: string): (Option<Error>, World) {
    var (all, w1) := ListSesames(w);
    if all.Failed? then (Some(ApiError(all.reason)), w1)
    else
      var (local, w2) := CollectUnless(w1, OthersInSpecNs(all.value, me, ns), NamespacedRbacKeys(ns));
      if local.Failed? then (Some(ApiError(local.reason)), w2)
      else
        var (again, w3) := ListSesames(w2);
        if again.Failed? then (Some(ApiError(again.reason)), w3)
        else
          var (global, w4) := CollectUnless(w3, OthersExist(again.value, me), ClusterRbacKeys(ns));
          if global.Failed? then (Some(ApiError(global.reason)), w4)
          else DeleteCollected(w4, me, local.value + global.value)
  }

  // ----- namespace deletion -----

  const CORE_NAMESPACES: set<string> := {"sesame-operator", "default", "kube-system"}

  /** `EnsureNamespaceDeleted`: whether a deletion was expected, and its error. */
  function DeleteNamespace(w: World, me: Name, spec: Spec): (bool, Option<Error>, World) {
    var key := NamespaceKey(spec.namespace);
    if !spec.removeOnDeletion || spec.namespace in CORE_NAMESPACES then (false, None, w)
    else
      var (r, w1) := GetChild(w, key);
      match r
      case Failed(NotFound) => (true, None, w1)
      case Failed(reason) => (true, Some(ApiError(reason)), w1)
      case Ok(current) =>
        if !Owned(current, me) then (true, None, w1)
        else
          var (all, w2) := ListSesames(w1);
          if all.Failed? then (true, Some(ApiError(all.reason)), w2)
          else if OthersInSpecNs(all.value, me, spec.namespace) then (true, None, w2)
          else
            var (d, w3) := DeleteChild(w2, key);
            (true, if d == Some(NotFound) then None else ErrorOf(d), w3)
  }
}
