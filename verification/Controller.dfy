/** The reconcile loop (internal/controller/controller.go, internal/objects/sesame/finalizer.go). */
module Controller {
  import opened Api
  import opened RetryableError
  import opened Validation
  import opened Desired
  import opened Server
  import opened Objects
  import opened ObjectMethods
  import opened StatusSync
  import Slice

  /** ctrl.Result and the error returned with it. */
  datatype Outcome = Outcome(requeueAfter: Option<int>, err: Option<Error>)

  // ----- the passes, as functions of the world -----

  /** `EnsureFinalizer`. */
  function AddFinalizer(w: World, me: Name, ses: Sesame): (Option<Error>, World) {
    if Finalized(ses) then (None, w)
    else
      var (u, w1) := UpdateSesame(w, me, ses.(finalizers := ses.finalizers + [FINALIZER]));
      (ErrorOf(u), w1)
  }

  /** `EnsureFinalizerRemoved`. */
  function RemoveFinalizer(w: World, me: Name, ses: Sesame): (Option<Error>, World) {
    if !Finalized(ses) then (None, w)
    else
      var (u, w1) := UpdateSesame(w, me, ses.(finalizers := Slice.Without(ses.finalizers, FINALIZER)));
      (ErrorOf(u), w1)
  }

  /** The results of a pass, wrapped as `handleResult` does. */
  function WrapAll(step: string, results: seq<Option<Error>>): seq<Option<Error>> {
    seq(|results|, i requires 0 <= i < |results| => Wrap(step, results[i]))
  }

  predicate Panicked(results: seq<Option<Error>>) {
    Some(Panic) in results
  }

  /** `syncSesameStatus`: the end of every ensure pass, whatever went wrong before. */
  function Finish(w: World, me: Name, errs: seq<Option<Error>>): (Option<Error>, World) {
    var s := Sync(w, me);
    (MaybeRetryable(errs + [Wrap("status", s.err)]), s.world)
  }

  /** `ensureSesame`. */
  function EnsureSesame(w: World, cfg: Config, me: Name, spec: Spec): (Option<Error>, World) {
    var (n, w1) := Ensure(w, cfg, me, NamespaceWanted(me, spec.namespace));
    var (r, w2) := EnsureUntilError(w1, cfg, me, RbacWanted(me, spec.namespace));
    var early := [Wrap("namespace", n), Wrap("rbac", r)];
    if n.Some? || r.Some? then Finish(w2, me, early)
    else
      var (results, w3) := EnsureAll(w2, cfg, me, WorkloadsWanted(cfg, me, spec));
      if Panicked(results) then (Some(Panic), w3) else Finish(w3, me, early + WrapAll("workload", results))
  }

  /** What `ensureSesameDeleted` collected before it looks at the finalizer. */
  function DeleteChildren(w: World, me: Name, spec: Spec): (seq<Option<Error>>, World) {
    var (results, w1) := DeleteAll(w, me, WorkloadsToDelete(spec));
    var (r, w2) := DeleteRbac(w1, me, spec.namespace);
    var (expected, n, w3) := DeleteNamespace(w2, me, spec);
    (WrapAll("workload", results) + [Wrap("rbac", r)] + if expected then [Wrap("namespace", n)] else [], w3)
  }

  /** `ensureSesameDeleted`. */
  function EnsureSesameDeleted(w: World, me: Name, ses: Sesame): (Option<Error>, World) {
    var (errs, w1) := DeleteChildren(w, me, ses.spec);
    if NonNil(errs) != [] then (NewAggregate(errs), w1)
    else
      var (f, w2) := RemoveFinalizer(w1, me, ses);
      (NewAggregate([Wrap("finalizer", f)]), w2)
  }

  /** `validation.Sesame`. */
  function Validate(w: World, cfg: Config, me: Name, spec: Spec): (Option<Error>, World) {
    var (all, w1) := ListSesames(w);
    match all
    case Failed(reason) => (Some(ApiError(reason)), w1)
    case Ok(sesames) =>
      (if OthersInSpecNs(sesames, me, spec.namespace) then Some(Invalid) else SpecError(cfg, spec), w1)
  }

  /** How `Reconcile` answers an invalid Sesame; a panic in validation is no error to wrap. */
  function Reject(v: Error): Outcome {
    Outcome(None, if v == Panic then Some(Panic) else Some(Wrapped("validate", v)))
  }

  /** How `Reconcile` answers the error of a pass. */
  function Respond(e: Option<Error>): Outcome {
    match e
    case Some(Retryable(_, after)) => Outcome(Some(after), None)
    case _ => Outcome(None, e)
  }

  function Reconcile(w: World, cfg: Config, me: Name): (Outcome, World) {
    var (r, w1) := GetSesame(w, me);
    match r
    case Failed(NotFound) => (Outcome(None, None), w1)
    case Failed(reason) => (Outcome(None, Some(Wrapped("get", ApiError(reason)))), w1)
    case Ok(ses) =>
      if ses.deleting then
        var (e, w2) := EnsureSesameDeleted(w1, me, ses);
        (Respond(e), w2)
      else
        var (v, w2) := Validate(w1, cfg, me, ses.spec);
        if v.Some? then (Reject(v.value), w2)
        else if !Finalized(ses) then
          var (f, w3) := AddFinalizer(w2, me, ses);
          (Outcome(None, f), w3)
        else
          var (e, w3) := EnsureSesame(w2, cfg, me, ses.spec);
          (Respond(e), w3)
  }

  /** A run of the operator: one worker, one request after the other. */
  function Run(w: World, cfg: Config, requests: seq<Name>): World {
    if requests == [] then w
    else Reconcile(Run(w, cfg, requests[..|requests| - 1]), cfg, requests[|requests| - 1]).1
  }

  // ----- the reconciler -----

  class Reconciler {
    const config: Config
    const client: Client

    constructor (config: Config, client: Client)
      ensures this.config == config && this.client == client
    {
      this.config := config;
      this.client := client;
    }

    method ReconcileRequest(me: Name) returns (outcome: Outcome)
      modifies client
      ensures (outcome, client.world) == Reconcile(old(client.world), config, me)
    {
      hide EnsureSesameDeleted, EnsureSesame, Validate, AddFinalizer, GetSesame;
      var sesame := client.CurrentSesame(me);
      if sesame.Failed? {
        if sesame.reason == NotFound {
          return Outcome(None, None);
        }
        return Outcome(None, Some(Wrapped("get", ApiError(sesame.reason))));
      }
      var ses := sesame.value;
      var desired := !ses.deleting;
      if desired {
        var invalid := ValidateSesame(me, ses.spec);
        if invalid == Some(Panic) {
          return Outcome(None, Some(Panic));
        }
        if invalid.Some? {
          return Outcome(None, Wrap("validate", invalid));
        }
        if !Finalized(ses) {
          var f := EnsureFinalizer(me, ses);
          return Outcome(None, f);
        } else {
          var err := EnsureSesamePass(me, ses.spec);
          if err.Some? {
            match err.value {
              case Retryable(_, after) => return Outcome(Some(after), None);
              case _ => return Outcome(None, err);
            }
          }
        }
      } else {
        var err := EnsureSesameDeletedPass(me, ses);
        if err.Some? {
          match err.value {
            case Retryable(_, after) => return Outcome(Some(after), None);
            case _ => return Outcome(None, err);
          }
        }
      }
      return Outcome(None, None);
    }

    method ValidateSesame(me: Name, spec: Spec) returns (err: Option<Error>)
      modifies client
      ensures (err, client.world) == Validate(old(client.world), config, me, spec)
    {
      var exist := OtherSesamesExistInSpecNs(client, me, spec.namespace);
      if exist.Failed? {
        return Some(ApiError(exist.reason));
      }
      if exist.value {
        return Some(Invalid);
      }
      err := ValidateSpec(config, spec);
    }

    method EnsureFinalizer(me: Name, ses: Sesame) returns (err: Option<Error>)
      modifies client
      ensures (err, client.world) == AddFinalizer(old(client.world), me, ses)
    {
      var present := Slice.ContainsString(ses.finalizers, FINALIZER);
      if !present {
        var u := client.UpdateFinalizers(me, ses.(finalizers := ses.finalizers + [FINALIZER]));
        return ErrorOf(u);
      }
      return None;
    }

    method EnsureFinalizerRemoved(me: Name, ses: Sesame) returns (err: Option<Error>)
      modifies client
      ensures (err, client.world) == RemoveFinalizer(old(client.world), me, ses)
    {
      var present := Slice.ContainsString(ses.finalizers, FINALIZER);
      if present {
        var finalizers := Slice.RemoveString(ses.finalizers, FINALIZER);
        var u := client.UpdateFinalizers(me, ses.(finalizers := finalizers));
        return ErrorOf(u);
      }
      return None;
    }

    method SyncSesameStatus(me: Name, errs: seq<Option<Error>>) returns (err: Option<Error>)
      modifies client
      ensures (err, client.world) == Finish(old(client.world), me, errs)
    {
      hide Sync, MaybeRetryable;
      var e, _ := SyncSesame(client, me);
      err := NewMaybeRetryableAggregate(errs + [Wrap("status", e)]);
    }

    method EnsureSesamePass(me: Name, spec: Spec) returns (err: Option<Error>)
      modifies client
      ensures (err, client.world) == EnsureSesame(old(client.world), config, me, spec)
    {
      hide Ensure, EnsureUntilError, EnsureAll, RbacWanted, WorkloadsWanted, Finish;
      var n := EnsureObject(client, config, me, NamespaceWanted(me, spec.namespace));
      var errs := [Wrap("namespace", n)];
      var r := EnsureRBAC(client, config, me, spec.namespace);
      errs := errs + [Wrap("rbac", r)];
      assert errs == [Wrap("namespace", n), Wrap("rbac", r)];
      if n.Some? || r.Some? {
        err := SyncSesameStatus(me, errs);
        return;
      }
      var results := EnsureWorkloads(me, spec);
      if Panicked(results) {
        return Some(Panic);
      }
      err := SyncSesameStatus(me, errs + WrapAll("workload", results));
    }

    /** The workloads, one after the other; a panic ends the process. */
    method EnsureWorkloads(me: Name, spec: Spec) returns (results: seq<Option<Error>>)
      modifies client
      ensures (results, client.world) == EnsureAll(old(client.world), config, me, WorkloadsWanted(config, me, spec))
    {
      hide Ensure, EnsureAll, CertgenJob, SesameDeployment, EnvoyDaemonSet, SesameService, EnvoyServiceWanted,
        ConfigMapKey, JobKey, DeploymentKey, DaemonSetKey, SesameServiceKey;
      ghost var start, wants := client.world, WorkloadsWanted(config, me, spec);
      results := [];
      EnsureAllStart(start, config, me, wants);

      EnsureAllStep(start, client.world, config, me, wants, 0, results);
      var cm := Wanted(ConfigMapKey(spec.namespace), SesameConfigMap(config, me, spec), None);
      var e := EnsureObject(client, config, me, cm);
      results := results + [e];
      if e == Some(Panic) { return; }

      EnsureAllStep(start, client.world, config, me, wants, 1, results);
      e := EnsureJob(client, config, me, spec);
      results := results + [e];
      if e == Some(Panic) { return; }

      EnsureAllStep(start, client.world, config, me, wants, 2, results);
      e := EnsureDeployment(client, config, me, spec);
      results := results + [e];
      if e == Some(Panic) { return; }

      EnsureAllStep(start, client.world, config, me, wants, 3, results);
      e := EnsureDaemonSet(client, config, me, spec);
      results := results + [e];
      if e == Some(Panic) { return; }

      EnsureAllStep(start, client.world, config, me, wants, 4, results);
      e := EnsureSesameService(client, config, me, spec);
      results := results + [e];
      if e == Some(Panic) { return; }

      match spec.publishing.kind {
        case UnknownPublishing =>
        case _ =>
          EnsureAllStep(start, client.world, config, me, wants, 5, results);
          e := EnsureEnvoyService(client, config, me, spec);
          results := results + [e];
          if e == Some(Panic) { return; }
      }
      EnsureAllEnd(start, client.world, config, me, wants, results);
    }

    method EnsureSesameDeletedPass(me: Name, ses: Sesame) returns (err: Option<Error>)
      modifies client
      ensures (err, client.world) == EnsureSesameDeleted(old(client.world), me, ses)
    {
      hide DeleteAll, DeleteRbac, DeleteNamespace, RemoveFinalizer, WorkloadsToDelete;
      var results := DeleteWorkloads(me, ses.spec);
      var errs := WrapAll("workload", results);
      var r := EnsureRBACDeleted(client, me, ses.spec.namespace);
      errs := errs + [Wrap("rbac", r)];
      var deleteExpected, n := EnsureNamespaceDeleted(client, me, ses.spec);
      if deleteExpected {
        errs := errs + [Wrap("namespace", n)];
      }
      assert errs == DeleteChildren(old(client.world), me, ses.spec).0;
      if NonNil(errs) == [] {
        var f := EnsureFinalizerRemoved(me, ses);
        return NewAggregate([Wrap("finalizer", f)]);
      }
      return NewAggregate(errs);
    }

    method DeleteWorkloads(me: Name, spec: Spec) returns (results: seq<Option<Error>>)
      modifies client
      ensures (results, client.world) == DeleteAll(old(client.world), me, WorkloadsToDelete(spec))
    {
      hide DeleteOwned, DeleteAll, ConfigMapKey, JobKey, DeploymentKey, DaemonSetKey, SesameServiceKey,
      EnvoyServiceKey;
      ghost var start, keys := client.world, WorkloadsToDelete(spec);
      var ns := spec.namespace;
      results := [];
      ghost var i := 0;
      DeleteAllStart(start, me, keys);
      match spec.publishing.kind {
        case UnknownPublishing =>
        case _ =>
          DeleteAllStep(start, client.world, me, keys, 0, results);
          var e := EnsureDeleted(client, me, EnvoyServiceKey(ns));
          results := results + [e];
          i := 1;
      }
      DeleteAllStep(start, client.world, me, keys, i, results);
      var svc := EnsureDeleted(client, me, SesameServiceKey(ns));
      results := results + [svc];
      DeleteAllStep(start, client.world, me, keys, i + 1, results);
      var ds := EnsureDeleted(client, me, DaemonSetKey(ns));
      results := results + [ds];
      DeleteAllStep(start, client.world, me, keys, i + 2, results);
      var deploy := EnsureDeleted(client, me, DeploymentKey(ns));
      results := results + [deploy];
      DeleteAllStep(start, client.world, me, keys, i + 3, results);
      var job := EnsureDeleted(client, me, JobKey(ns));
      results := results + [job];
      DeleteAllStep(start, client.world, me, keys, i + 4, results);
      var cm := EnsureDeleted(client, me, ConfigMapKey(ns));
      results := results + [cm];
      DeleteAllEnd(start, client.world, me, keys, results);
    }
  }

  // ----- straight-line code against the list functions -----

  /** `results` and `w` are where `EnsureAll` stands after the first `i` of `wants`. */
  predicate EnsuredUpTo(
      start: World, w: World, cfg: Config, me: Name, wants: seq<Wanted>, i: nat, results: seq<Option<Error>>)
  {
    && i <= |wants|
    && var (rest, after) := EnsureAll(w, cfg, me, wants[i..]);
       EnsureAll(start, cfg, me, wants) == (results + rest, after)
  }

  lemma EnsureAllStart(start: World, cfg: Config, me: Name, wants: seq<Wanted>)
    ensures EnsuredUpTo(start, start, cfg, me, wants, 0, [])
  {
    hide Ensure;
    assert wants[0..] == wants;
    assert [] + EnsureAll(start, cfg, me, wants).0 == EnsureAll(start, cfg, me, wants).0;
  }

  lemma EnsureAllStep(
      start: World, w: World, cfg: Config, me: Name, wants: seq<Wanted>, i: nat, results: seq<Option<Error>>)
    requires i < |wants| && EnsuredUpTo(start, w, cfg, me, wants, i, results)
    ensures var (e, w') := Ensure(w, cfg, me, wants[i]);
      if e == Some(Panic) then EnsureAll(start, cfg, me, wants) == (results + [e], w')
      else EnsuredUpTo(start, w', cfg, me, wants, i + 1, results + [e])
  {
    hide Ensure;
    var (e, w') := Ensure(w, cfg, me, wants[i]);
    assert wants[i..][1..] == wants[i + 1..] && wants[i..][0] == wants[i];
    var rest := EnsureAll(w', cfg, me, wants[i + 1..]).0;
    assert results + ([e] + rest) == (results + [e]) + rest;
  }

  lemma EnsureAllEnd(start: World, w: World, cfg: Config, me: Name, wants: seq<Wanted>, results: seq<Option<Error>>)
    requires EnsuredUpTo(start, w, cfg, me, wants, |wants|, results)
    ensures EnsureAll(start, cfg, me, wants) == (results, w)
  {
    assert wants[|wants|..] == [];
    assert results + [] == results;
  }

  predicate DeletedUpTo(start: World, w: World, me: Name, keys: seq<Key>, i: nat, results: seq<Option<Error>>) {
    && i <= |keys|
    && var (rest, after) := DeleteAll(w, me, keys[i..]);
       DeleteAll(start, me, keys) == (results + rest, after)
  }

  lemma DeleteAllStart(start: World, me: Name, keys: seq<Key>)
    ensures DeletedUpTo(start, start, me, keys, 0, [])
  {
    hide DeleteOwned;
    assert keys[0..] == keys;
    assert [] + DeleteAll(start, me, keys).0 == DeleteAll(start, me, keys).0;
  }

  lemma DeleteAllStep(start: World, w: World, me: Name, keys: seq<Key>, i: nat, results: seq<Option<Error>>)
    requires i < |keys| && DeletedUpTo(start, w, me, keys, i, results)
    ensures var (e, w') := DeleteOwned(w, me, keys[i]);
      DeletedUpTo(start, w', me, keys, i + 1, results + [e])
  {
    hide DeleteOwned;
    var (e, w') := DeleteOwned(w, me, keys[i]);
    assert keys[i..][1..] == keys[i + 1..] && keys[i..][0] == keys[i];
    var rest := DeleteAll(w', me, keys[i + 1..]).0;
    assert results + ([e] + rest) == (results + [e]) + rest;
  }

  lemma DeleteAllEnd(start: World, w: World, me: Name, keys: seq<Key>, results: seq<Option<Error>>)
    requires DeletedUpTo(start, w, me, keys, |keys|, results)
    ensures DeleteAll(start, me, keys) == (results, w)
  {
    assert keys[|keys|..] == [];
    assert results + [] == results;
  }
}
