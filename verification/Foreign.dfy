/** Foreign objects over whole passes and whole runs, under every schedule. */
module Foreign {
  import opened Api
  import opened RetryableError
  import opened Equality
  import opened Desired
  import opened Server
  import opened Evolution
  import opened Objects
  import opened StatusSync
  import opened Controller
  import opened Passes
  import opened Safety
  import opened Windows
  import Slice

  // ----- whole passes -----

  lemma FinishAccounted(w: World, errs: seq<Option<Error>>, me: Name)
    requires Sound(w)
    ensures Accounted(w, Finish(w, me, errs).1, me, {})
  {
    hide Sync, MaybeRetryable, Evolves, Sound;
    var p := Pass(me, {}, {});
    SyncEvolves(w, p);
    EvolvesVersions(w, Sync(w, me).world, p);
  }

  function EnsureSesameReads(w: World, cfg: Config, me: Name, spec: Spec): set<Read> {
    var (n, w1) := Ensure(w, cfg, me, NamespaceWanted(me, spec.namespace));
    var (r, w2) := EnsureUntilError(w1, cfg, me, RbacWanted(me, spec.namespace));
    EnsureReads(w, NamespaceWanted(me, spec.namespace))
    + EnsureUntilErrorReads(w1, cfg, me, RbacWanted(me, spec.namespace))
    + if n.Some? || r.Some? then {} else EnsureAllReads(w2, cfg, me, WorkloadsWanted(cfg, me, spec))
  }

  lemma EnsureSesameAccounted(w: World, cfg: Config, me: Name, spec: Spec)
    requires Sound(w)
    ensures var seen := EnsureSesameReads(w, cfg, me, spec);
      Accounted(w, EnsureSesame(w, cfg, me, spec).1, me, seen) && From(w, seen)
  {
    hide Evolves, Sound, Ensure, EnsureUntilError, EnsureAll, NamespaceWanted, RbacWanted, WorkloadsWanted, Finish,
        Mine,
      AllMine, WrapAll, Panicked, NamespacedRbacKeys, ClusterRbacKeys, WorkloadKeys, Accounted, EnsureReads,
      EnsureUntilErrorReads, EnsureAllReads, Follows;
    var ns := spec.namespace;
    var p := Pass(me, ManagedKeys(ns), ManagedKeys(ns));
    EarlyIsMine(ns, p);
    WorkloadsAreMine(cfg, spec, p);
    var (n, w1) := Ensure(w, cfg, me, NamespaceWanted(me, ns));
    var (r, w2) := EnsureUntilError(w1, cfg, me, RbacWanted(me, ns));
    var xs := EnsureReads(w, NamespaceWanted(me, ns));
    var ys := EnsureUntilErrorReads(w1, cfg, me, RbacWanted(me, ns));
    EnsureAccounted(w, cfg, NamespaceWanted(me, ns), p);
    EnsureEvolves(w, cfg, NamespaceWanted(me, ns), p);
    EvolvesIsSound(w, w1, p);
    EnsureUntilErrorAccounted(w1, cfg, RbacWanted(me, ns), p);
    EnsureUntilErrorEvolves(w1, cfg, RbacWanted(me, ns), p);
    EvolvesIsSound(w1, w2, p);
    AccountedThen(w, w1, w2, me, xs, ys);
    FinishAccounted(w2, [Wrap("namespace", n), Wrap("rbac", r)], me);
    if n.Some? || r.Some? {
      ThenNoReads(w, w2, EnsureSesame(w, cfg, me, spec).1, me, xs + ys);
    } else {
      var (results, w3) := EnsureAll(w2, cfg, me, WorkloadsWanted(cfg, me, spec));
      var zs := EnsureAllReads(w2, cfg, me, WorkloadsWanted(cfg, me, spec));
      EnsureAllAccounted(w2, cfg, WorkloadsWanted(cfg, me, spec), p);
      EnsureAllEvolves(w2, cfg, WorkloadsWanted(cfg, me, spec), p);
      EvolvesIsSound(w2, w3, p);
      AccountedFollows(w, w2, me, xs + ys);
      AccountedThen(w, w2, w3, me, xs + ys, zs);
      if !Panicked(results) {
        var errs := [Wrap("namespace", n), Wrap("rbac", r)] + WrapAll("workload", results);
        FinishAccounted(w3, errs, me);
        ThenNoReads(w, w3, Finish(w3, me, errs).1, me, xs + ys + zs);
      }
    }
  }

  lemma AccountedFollows(w: World, w': World, me: Name, seen: set<Read>)
    requires Accounted(w, w', me, seen)
    ensures Follows(w, w') && w.log <= w'.log
  {
  }

  lemma ThenNoReads(a: World, b: World, c: World, me: Name, seen: set<Read>)
    requires Accounted(a, b, me, seen) && Accounted(b, c, me, {})
    ensures Accounted(a, c, me, seen) && Accounted(a, c, me, seen + {})
  {
    hide Accounted;
    AccountedMore(b, c, me, {}, seen);
    AccountedInTurn(a, b, c, me, seen);
    assert seen + {} == seen;
  }

  lemma FirstNoReads(a: World, b: World, c: World, me: Name, seen: set<Read>)
    requires Accounted(a, b, me, {}) && Accounted(b, c, me, seen) && From(b, seen)
    ensures Accounted(a, c, me, seen) && From(a, seen)
  {
    hide Accounted, Follows;
    AccountedThen(a, b, c, me, {}, seen);
    assert {} + seen == seen;
  }

  function DeleteChildrenReads(w: World, me: Name, spec: Spec): set<Read> {
    var w1 := DeleteAll(w, me, WorkloadsToDelete(spec)).1;
    var w2 := DeleteRbac(w1, me, spec.namespace).1;
    DeleteAllReads(w, me, WorkloadsToDelete(spec)) + RbacReads(w1, me, spec.namespace) + NamespaceReads(w2, spec)
  }

  lemma DeleteChildrenAccounted(w: World, me: Name, spec: Spec)
    requires Sound(w)
    ensures var seen := DeleteChildrenReads(w, me, spec);
      Accounted(w, DeleteChildren(w, me, spec).1, me, seen) && From(w, seen)
  {
    hide Evolves, Sound, DeleteAll, DeleteRbac, DeleteNamespace, DeleteAllReads, RbacReads, NamespaceReads,
        Accounted, Follows,
      WorkloadsToDelete, RbacGroups;
    var keys := WorkloadsToDelete(spec);
    var w1 := DeleteAll(w, me, keys).1;
    var p := Pass(me, {}, KeySet(keys));
    DeleteAllEvolves(w, keys, p);
    EvolvesIsSound(w, w1, p);
    DeleteAllAccounted(w, me, keys);
    var w2 := DeleteRbac(w1, me, spec.namespace).1;
    var q := Pass(me, {}, RbacGroups(w1, me, spec.namespace));
    DeleteRbacEvolves(w1, spec.namespace, q);
    EvolvesIsSound(w1, w2, q);
    RbacAccounted(w1, me, spec.namespace);
    var xs, ys := DeleteAllReads(w, me, keys), RbacReads(w1, me, spec.namespace);
    AccountedThen(w, w1, w2, me, xs, ys);
    NamespaceAccounted(w2, me, spec);
    AccountedThen(w, w2, DeleteNamespace(w2, me, spec).2, me, xs + ys, NamespaceReads(w2, spec));
  }

  /** The deciding reads of a reconcile. */
  function ReconcileReads(w: World, cfg: Config, me: Name): set<Read> {
    var (r, w1) := GetSesame(w, me);
    if r.Failed? then {}
    else if r.value.deleting then DeleteChildrenReads(w1, me, r.value.spec)
    else
      var (v, w2) := Validate(w1, cfg, me, r.value.spec);
      if v.Some? || !Finalized(r.value) then {} else EnsureSesameReads(w2, cfg, me, r.value.spec)
  }

  lemma FinalizersAccounted(w: World, me: Name, ses: Sesame)
    ensures Accounted(w, RemoveFinalizer(w, me, ses).1, me, {}) && Accounted(w, AddFinalizer(w, me, ses).1, me, {})
  {
    hide UpdateSesame, Accounted;
    NoWritesHere(w, me);
    UpdateSesameAccounted(w, me, ses.(finalizers := ses.finalizers + [FINALIZER]));
    UpdateSesameAccounted(w, me, ses.(finalizers := Slice.Without(ses.finalizers, FINALIZER)));
  }

  lemma UpdateSesameAccounted(w: World, me: Name, ses: Sesame)
    ensures Accounted(w, UpdateSesame(w, me, ses).1, me, {})
  {
    hide Begin;
    BeginAccounted(w, me);
  }

  /** Foreign objects: whatever other actors do and whichever calls fail, every update and deletion of
      a reconcile rests on its own read of that key, which found the owner labels; and it hits an
      object without them exactly when, between that read and the write, another actor put an unowned
      object there and left it, which only a write without a resource version can. */
  lemma ForeignObjectsUntouched(w: World, cfg: Config, me: Name)
    requires Sound(w)
    ensures var seen := ReconcileReads(w, cfg, me);
      Accounted(w, Reconcile(w, cfg, me).1, me, seen) && From(w, seen)
  {
    hide Evolves, Sound, Begin, EnsureSesame, DeleteChildren, RemoveFinalizer, AddFinalizer, DeleteChildrenReads,
      EnsureSesameReads, Accounted, Follows, Validate, NonNil;
    var p := Pass(me, {}, {});
    var (r, w1) := GetSesame(w, me);
    BeginAccounted(w, me);
    BeginEvolves(w, p);
    EvolvesIsSound(w, w1, p);
    if r.Ok? && r.value.deleting {
      var spec := r.value.spec;
      var seen := DeleteChildrenReads(w1, me, spec);
      var w2 := DeleteChildren(w1, me, spec).1;
      DeleteChildrenAccounted(w1, me, spec);
      FinalizersAccounted(w2, me, r.value);
      FirstNoReads(w, w1, w2, me, seen);
      ThenNoReads(w, w2, RemoveFinalizer(w2, me, r.value).1, me, seen);
    } else if r.Ok? {
      var spec := r.value.spec;
      var (v, w2) := Validate(w1, cfg, me, spec);
      ValidateEvolves(w1, cfg, spec, p);
      ValidateAccounted(w1, cfg, me, spec);
      AccountedInTurn(w, w1, w2, me, {});
      if v.None? && Finalized(r.value) {
        EnsureSesameAccounted(w2, cfg, me, spec);
        FirstNoReads(w, w2, EnsureSesame(w2, cfg, me, spec).1, me, EnsureSesameReads(w2, cfg, me, spec));
      } else if v.None? {
        FinalizersAccounted(w2, me, r.value);
        AccountedInTurn(w, w2, AddFinalizer(w2, me, r.value).1, me, {});
      }
    }
  }

  lemma ValidateAccounted(w: World, cfg: Config, me: Name, spec: Spec)
    ensures Accounted(w, Validate(w, cfg, me, spec).1, me, {})
  {
    hide Begin, OthersInSpecNs;
    BeginAccounted(w, me);
  }

  // ----- runs -----

  /** In the ticks a run used up, another actor put an unowned object under `key`. */
  predicate Tampered(ticks: seq<Tick>, key: Key) {
    exists i, j | 0 <= i < |ticks| && 0 <= j < |ticks[i].steps| :: PutsForeign(ticks[i].steps[j], key)
  }

  predicate OwnedByOneOf(o: Object, names: seq<Name>) {
    exists n | n in names :: Owned(o, n)
  }

  /** A write on something owned by a reconciled Sesame, or under a key another actor tampered with. */
  predicate Rightful(e: Event, requests: seq<Name>, ticks: seq<Tick>) {
    e.Wrote? && e.op != Creates ==>
      e.before.Some? && (OwnedByOneOf(e.before.value, requests) || (!e.guarded && Tampered(ticks, e.key)))
  }

  function Used(w: World, w': World): seq<Tick>
    requires Follows(w, w')
  {
    w.schedule[..|w.schedule| - |w'.schedule|]
  }

  lemma {:induction false} StepsComeFromTicks(ticks: seq<Tick>, key: Key)
    requires exists j | 0 <= j < |Steps(ticks)| :: PutsForeign(Steps(ticks)[j], key)
    ensures Tampered(ticks, key)
  {
    hide PutsForeign;
    var j :| 0 <= j < |Steps(ticks)| && PutsForeign(Steps(ticks)[j], key);
    var n := |ticks| - 1;
    var init := Steps(ticks[..n]);
    if j < |init| {
      assert PutsForeign(init[j], key);
      StepsComeFromTicks(ticks[..n], key);
      TamperedMore(ticks[..n], ticks, key, 0);
    } else {
      assert PutsForeign(ticks[n].steps[j - |init|], key);
    }
  }

  lemma TamperedMore(ticks: seq<Tick>, more: seq<Tick>, key: Key, k: nat)
    requires Tampered(ticks, key) && k + |ticks| <= |more| && more[k..k + |ticks|] == ticks
    ensures Tampered(more, key)
  {
    hide PutsForeign;
    var i, j :| 0 <= i < |ticks| && 0 <= j < |ticks[i].steps| && PutsForeign(ticks[i].steps[j], key);
    assert more[k..k + |ticks|][i] == more[k + i];
  }

  lemma AccountedIsRightful(w: World, w': World, me: Name, seen: set<Read>, i: nat)
    requires Accounted(w, w', me, seen) && From(w, seen) && |w.log| <= i < |w'.log|
    ensures Rightful(w'.log[i], [me], Used(w, w'))
  {
    hide Owned, PutsForeign;
    var e := w'.log[i];
    if e.Wrote? && e.op != Creates {
      var r :| r in seen && Explains(r, e, me);
      if Replaced(Since(r.at, e.left), e.key) {
        var ticks := r.at.schedule[..|r.at.schedule| - e.left];
        StepsComeFromTicks(ticks, e.key);
        var k := |w.schedule| - |r.at.schedule|;
        assert Used(w, w')[k..k + |ticks|] == ticks;
        TamperedMore(ticks, Used(w, w'), e.key, k);
      } else {
        assert me in [me];
      }
    }
  }

  lemma RightfulMore(e: Event, names: seq<Name>, ticks: seq<Tick>, more: seq<Name>, longer: seq<Tick>, k: nat)
    requires Rightful(e, names, ticks) && (forall n | n in names :: n in more)
    requires k + |ticks| <= |longer| && longer[k..k + |ticks|] == ticks
    ensures Rightful(e, more, longer)
  {
    hide Owned, Tampered;
    if e.Wrote? && e.op != Creates && !OwnedByOneOf(e.before.value, names) {
      TamperedMore(ticks, longer, e.key, k);
    }
  }

  /** Over a whole run, under every schedule: an update or deletion hits an object owned by a Sesame
      the operator was asked to reconcile, unless during the run another actor put an unowned object
      under that very key. */
  lemma {:induction false} RunTouchesOnlyOwned(w: World, cfg: Config, requests: seq<Name>)
    requires Safe(w)
    ensures var w' := Run(w, cfg, requests);
      && Follows(w, w') && w.log <= w'.log
      && forall i | |w.log| <= i < |w'.log| :: Rightful(w'.log[i], requests, Used(w, w'))
    decreases |requests|
  {
    hide Reconcile, Safe, Rightful, ReconcileReads, Accounted, From;
    if requests != [] {
      var n := |requests| - 1;
      var mid, w' := Run(w, cfg, requests[..n]), Run(w, cfg, requests);
      RunIsSafe(w, cfg, requests[..n]);
      RunTouchesOnlyOwned(w, cfg, requests[..n]);
      SafeIsSound(mid);
      ForeignObjectsUntouched(mid, cfg, requests[n]);
      AccountedFollows(mid, w', requests[n], ReconcileReads(mid, cfg, requests[n]));
      var k := |w.schedule| - |mid.schedule|;
      assert Used(w, w')[..k] == Used(w, mid) && Used(w, w')[k..] == Used(mid, w');
      forall i | |w.log| <= i < |w'.log|
        ensures Rightful(w'.log[i], requests, Used(w, w'))
      {
        if i < |mid.log| {
          RightfulMore(mid.log[i], requests[..n], Used(w, mid), requests, Used(w, w'), 0);
        } else {
          AccountedIsRightful(mid, w', requests[n], ReconcileReads(mid, cfg, requests[n]), i);
          RightfulMore(w'.log[i], [requests[n]], Used(mid, w'), requests, Used(w, w'), k);
        }
      }
    }
  }

  lemma SafeIsSound(w: World)
    requires Safe(w)
    ensures Sound(w)
  {
  }
}
