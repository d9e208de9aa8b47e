/** What a delete pass removes and what it leaves. */
module Deletion {
  import opened Api
  import opened RetryableError
  import opened Conditions
  import opened Server
  import opened Evolution
  import opened Objects
  import opened Controller
  import opened Passes
  import opened Safety
  import opened Windows
  import opened Guarantees
  import Slice

  // ----- under every schedule -----

  predicate Untouched(from: seq<Event>, log: seq<Event>, keys: seq<Key>) {
    from <= log && forall i | |from| <= i < |log| && log[i].Wrote? :: log[i].key !in keys
  }

  /** RBAC deletion is exactly scoped. Once `EnsureRBACDeleted` returns nil: if the first list it read
      shows another Sesame for the namespace, the namespaced group was left alone, and otherwise nothing
      owned is left in it; likewise, on the second list, the cluster group for another Sesame anywhere.
      The one exception is a misleading list, which cannot occur while the Sesame holds its finalizer. */
  lemma RbacDeletionIsScoped(w: World, me: Name, ns: string)
    requires Sound(w)
    ensures var (e, w') := DeleteRbac(w, me, ns);
      var (all, w1) := ListSesames(w);
      e.None? ==>
        && all.Ok?
        && var skip := ShowsOtherInNs(all.value, me, ns);
           var again := ListSesames(CollectUnless(w1, skip, NamespacedRbacKeys(ns)).1).0;
           && again.Ok?
           && (if skip then Untouched(w.log, w'.log, NamespacedRbacKeys(ns))
               else forall k | k in NamespacedRbacKeys(ns) :: Free(w', k, me))
           && (if ShowsOther(again.value, me) then Untouched(w.log, w'.log, ClusterRbacKeys(ns))
               else forall k | k in ClusterRbacKeys(ns) :: Free(w', k, me))
           && (me in w.sesames && Finalized(w.sesames[me]) ==>
                 !Misleading(all.value, me) && !Misleading(again.value, me))
  {
    hide Begin, OthersInSpecNs, OthersExist, Evolves, Sound, Free, CollectUnless, DeleteCollected,
      NamespacedRbacKeys, ClusterRbacKeys, ShowsOtherInNs, ShowsOther, Misleading;
    var groups := RbacGroups(w, me, ns);
    var p := Pass(me, {}, groups);
    DeleteRbacEvolves(w, ns, p);
    var (e, w') := DeleteRbac(w, me, ns);
    EvolvesVersions(w, w', p);
    if e.None? {
      forall i | |w.log| <= i < |w'.log| && w'.log[i].Wrote?
        ensures w'.log[i].key in groups
      {
        assert Proper(w'.log[i], p);
      }
      RbacKeysAreDistinct(ns);
      var (all, w1) := ListSesames(w);
      OthersExistIsExactIff(all.value, me, ns);
      var w2 := CollectUnless(w1, OthersInSpecNs(all.value, me, ns), NamespacedRbacKeys(ns)).1;
      OthersExistIsExactIff(ListSesames(w2).0.value, me, ns);
      if me in w.sesames && Finalized(w.sesames[me]) {
        ListsShowTheFinalized(w, me, OthersInSpecNs(all.value, me, ns), NamespacedRbacKeys(ns));
      }
    }
  }

  /** A Sesame with the finalizer is in both lists. */
  lemma ListsShowTheFinalized(w: World, me: Name, skip: bool, keys: seq<Key>)
    requires Sound(w) && me in w.sesames && Finalized(w.sesames[me]) && ListSesames(w).0.Ok?
    ensures me in ListSesames(w).0.value
    ensures var again := ListSesames(CollectUnless(ListSesames(w).1, skip, keys).1).0;
      again.Ok? ==> me in again.value
  {
    hide Begin, CollectUnless, Evolves, Sound;
    var p := Pass(me, {}, {});
    var w1 := ListSesames(w).1;
    var w2 := CollectUnless(w1, skip, keys).1;
    BeginEvolves(w, p);
    EvolvesVersions(w, w1, p);
    EvolvesIsSound(w, w1, p);
    CollectUnlessEvolves(w1, skip, keys, p);
    EvolvesVersions(w1, w2, p);
    EvolvesIsSound(w1, w2, p);
    BeginEvolves(w2, p);
    EvolvesVersions(w2, Begin(w2).1, p);
  }

  /** What a delete pass goes for, in its order. */
  lemma DeletionsInOrder(spec: Spec)
    requires Admitted(spec)
    ensures var ns := spec.namespace;
      && WorkloadsToDelete(spec) ==
         [Key(ServiceKind, ns, "envoy"), Key(ServiceKind, ns, "sesame"), Key(DaemonSetKind, ns, "envoy"),
          Key(DeploymentKind, ns, "sesame"), Key(JobKind, ns, "sesame-certgen-main"), Key(ConfigMapKind, ns, "sesame")]
      && NamespacedRbacKeys(ns) ==
         [Key(RoleBindingKind, ns, "sesame"), Key(RoleKind, ns, "sesame"), Key(RoleKind, ns, "sesame-certgen"),
          Key(ServiceAccountKind, ns, "sesame"), Key(ServiceAccountKind, ns, "envoy"),
          Key(ServiceAccountKind, ns, "sesame-certgen")]
      && ClusterRbacKeys(ns) ==
         [Key(ClusterRoleBindingKind, "", "sesame-" + ns), Key(ClusterRoleKind, "", "sesame-" + ns)]
  {
  }

  /** The namespace is deleted exactly when its removal was asked for, it is not a core namespace, it
      carries the owner labels, and no other Sesame uses it: given that the two reads succeed and the
      list shows the Sesame itself. Otherwise nothing is written. */
  lemma NamespaceIsDeletedIff(w: World, me: Name, spec: Spec)
    requires var (r, w1) := GetChild(w, NamespaceKey(spec.namespace));
      var all := ListSesames(w1).0;
      r.Ok? && all.Ok? && me in all.value
    ensures var (r, w1) := GetChild(w, NamespaceKey(spec.namespace));
      var (all, w2) := ListSesames(w1);
      var (_, e, w') := DeleteNamespace(w, me, spec);
      if spec.removeOnDeletion && spec.namespace !in {"sesame-operator", "default", "kube-system"}
         && Owned(r.value, me) && !OtherInNs(all.value, me, spec.namespace)
      then w' == DeleteChild(w2, NamespaceKey(spec.namespace)).1
           && (e.None? <==> DeleteChild(w2, NamespaceKey(spec.namespace)).0 in {None, Some(NotFound)})
      else w'.log == w.log && e.None?
  {
    hide OthersInSpecNs, DeleteChild, ActAll;
    var (r, w1) := GetChild(w, NamespaceKey(spec.namespace));
    var all := ListSesames(w1).0;
    BeginFrame(w);
    BeginFrame(w1);
    OthersAreExact(all.value, me, spec.namespace);
  }

  /** The finalizer goes only in a pass in which every step returned nil, after which the Sesame owns
      no workload. */
  lemma FinalizerGoesLast(w: World, cfg: Config, me: Name)
    requires Sound(w)
    ensures var log := Reconcile(w, cfg, me).1.log;
      var (r, w1) := GetSesame(w, me);
      w.log <= log
      && forall i | |w.log| <= i < |log| && log[i].WroteFinalizers? && FINALIZER !in log[i].finalizers ::
           && DeletePass(w, me)
           && log[i].id == me && log[i].was == r.value
           && (forall j | 0 <= j < |DeleteChildren(w1, me, r.value.spec).0| ::
                 DeleteChildren(w1, me, r.value.spec).0[j].None?)
           && forall k | k in WorkloadKeys(r.value.spec.namespace) ::
               Free(DeleteChildren(w1, me, r.value.spec).1, k, me)
  {
    hide Evolves, Reconcile, DeleteChildren, ManagedKeys, WorkloadKeys, DeletePass, EnsurePass, KeysOf,
      Sound, Begin, Free, NonNil, RemoveFinalizer;
    var w' := Reconcile(w, cfg, me).1;
    if DeletePass(w, me) {
      var w1, ses, w2 := DeletePassEvolves(w, cfg, me);
      var p := Pass(me, {}, KeysOf(w, me));
      EvolvesTransitive(w, w1, w2, p);
      EvolvesVersions(w, w2, p);
      assert forall i | |w.log| <= i < |w2.log| :: Proper(w2.log[i], p);
      AllNil(DeleteChildren(w1, me, ses.spec).0);
      EvolvesVersions(w1, w2, p);
      EvolvesIsSound(w, w1, p);
      EvolvesIsSound(w1, w2, p);
      RemoveFinalizerWrites(w1, w2, ses, p);
    } else {
      ReconcileEvolves(w, cfg, me);
      var keys := if EnsurePass(w, cfg, me) then KeysOf(w, me) else {};
      EvolvesVersions(w, w', Pass(me, keys, keys));
      assert forall i | |w.log| <= i < |w'.log| :: Proper(w'.log[i], Pass(me, keys, keys));
    }
  }

  lemma RemoveFinalizerWrites(w0: World, w: World, ses: Sesame, p: Pass)
    requires Sound(w) && Sound(w0) && Versioned(w0, w) && p.me in w0.sesames && w0.sesames[p.me] == ses
    ensures var log := RemoveFinalizer(w, p.me, ses).1.log;
      log == w.log || log == w.log + [WroteFinalizers(p.me, ses, Slice.Without(ses.finalizers, FINALIZER))]
  {
    hide Evolves, RemoveFinalizer, StoreSesame, Versioned, Sound;
    RemoveFinalizerEffect(w0, w, ses, p);
    assert forall w1, s :: StoreSesame(w1, p.me, s).log == w1.log by {
      StoreKeepsLog();
    }
  }

  lemma StoreKeepsLog()
    ensures forall w, id, s :: StoreSesame(w, id, s).log == w.log
  {
  }

  // ----- undisturbed -----

  /** The children without those of `me` among `keys`. */
  function Prune(children: map<Key, Object>, me: Name, keys: set<Key>): map<Key, Object> {
    map k | k in children && !(k in keys && Owned(children[k], me)) :: children[k]
  }

  lemma PruneTwice(children: map<Key, Object>, me: Name, a: set<Key>, b: set<Key>)
    ensures Prune(Prune(children, me, a), me, b) == Prune(children, me, a + b)
  {
  }

  /** An undisturbed operation that does nothing but prune. */
  predicate Pruned(w: World, w': World, me: Name, keys: set<Key>) {
    && w'.schedule == [] == w.schedule && w'.sesames == w.sesames && w'.next == w.next
    && w'.children == Prune(w.children, me, keys)
  }

  lemma PrunedThenPruned(a: World, b: World, c: World, me: Name, xs: set<Key>, ys: set<Key>)
    requires Pruned(a, b, me, xs) && Pruned(b, c, me, ys)
    ensures Pruned(a, c, me, xs + ys)
  {
    PruneTwice(a.children, me, xs, ys);
  }

  lemma NothingPruned(w: World, me: Name)
    requires w.schedule == []
    ensures Pruned(w, w, me, {})
  {
  }

  lemma QuietDeleteOwned(w: World, me: Name, key: Key)
    requires w.schedule == []
    ensures DeleteOwned(w, me, key).0.None? && Pruned(w, DeleteOwned(w, me, key).1, me, {key})
  {
    hide Begin, Owned;
    BeginFrame(w);
    var w' := DeleteOwned(w, me, key).1;
    assert w'.children == Prune(w.children, me, {key});
  }

  lemma {:induction false} QuietDeleteAll(w: World, me: Name, keys: seq<Key>)
    requires w.schedule == []
    ensures var (results, w') := DeleteAll(w, me, keys);
      (forall i | 0 <= i < |results| :: results[i].None?) && Pruned(w, w', me, KeySet(keys))
    decreases |keys|
  {
    hide DeleteOwned, Prune;
    if keys == [] {
      NothingPruned(w, me);
      assert KeySet(keys) == {};
    } else {
      var w1 := DeleteOwned(w, me, keys[0]).1;
      QuietDeleteOwned(w, me, keys[0]);
      QuietDeleteAll(w1, me, keys[1..]);
      PrunedThenPruned(w, w1, DeleteAll(w1, me, keys[1..]).1, me, {keys[0]}, KeySet(keys[1..]));
      assert KeySet(keys) == {keys[0]} + KeySet(keys[1..]);
    }
  }

  /** `found` is what is stored under `keys`. */
  predicate Stored(w: World, keys: seq<Key>, found: seq<(Key, Object)>) {
    && (forall i | 0 <= i < |found| ::
          found[i].0 in keys && found[i].0 in w.children && w.children[found[i].0] == found[i].1)
    && forall k | k in keys && k in w.children :: (k, w.children[k]) in found
  }

  lemma {:induction false} QuietCollect(w: World, keys: seq<Key>)
    requires w.schedule == []
    ensures var (found, w') := Collect(w, keys);
      found.Ok? && w' == w && Stored(w, keys, found.value)
    decreases |keys|
  {
    hide Begin;
    if keys != [] {
      BeginFrame(w);
      QuietCollect(w, keys[1..]);
    }
  }

  lemma {:induction false} QuietDeleteCollected(w: World, me: Name, objects: seq<(Key, Object)>, keys: seq<Key>)
    requires w.schedule == []
    requires forall i | 0 <= i < |objects| :: objects[i].0 in w.children ==> w.children[objects[i].0] == objects[i].1
    requires forall i | 0 <= i < |objects| :: objects[i].0 in keys
    requires forall k | k in keys && k in w.children && Owned(w.children[k], me) :: (k, w.children[k]) in objects
    ensures var (e, w') := DeleteCollected(w, me, objects);
      e.None? && Pruned(w, w', me, KeySet(keys))
    decreases |objects|
  {
    hide Begin, Owned;
    if objects == [] {
      assert Prune(w.children, me, KeySet(keys)) == w.children;
    } else {
      var rest := objects[1..];
      assert forall i | 0 <= i < |rest| :: rest[i] == objects[i + 1];
      BeginFrame(w);
      if !Owned(objects[0].1, me) {
        QuietDeleteCollected(w, me, rest, keys);
      } else {
        var key := objects[0].0;
        var (d, w1) := DeleteChild(w, key);
        assert w1.children == w.children - {key};
        QuietDeleteCollected(w1, me, rest, keys);
        assert Prune(w1.children, me, KeySet(keys)) == Prune(w.children, me, KeySet(keys));
      }
    }
  }

  /** The RBAC objects an undisturbed delete pass goes for. */
  function RbacInScope(all: map<Name, Sesame>, me: Name, ns: string): set<Key> {
    (if OtherInNs(all, me, ns) then {} else KeySet(NamespacedRbacKeys(ns)))
    + (if OtherAnywhere(all, me) then {} else KeySet(ClusterRbacKeys(ns)))
  }

  lemma QuietDeleteRbac(w: World, me: Name, ns: string)
    requires w.schedule == [] && me in w.sesames
    ensures var (e, w') := DeleteRbac(w, me, ns);
      e.None? && Pruned(w, w', me, RbacInScope(w.sesames, me, ns))
  {
    hide Begin, OthersInSpecNs, OthersExist, DeleteCollected, Collect, NamespacedRbacKeys, ClusterRbacKeys, Owned,
      OtherInNs, OtherAnywhere, Prune;
    BeginFrame(w);
    OthersAreExact(w.sesames, me, ns);
    var xs := if OtherInNs(w.sesames, me, ns) then [] else NamespacedRbacKeys(ns);
    var ys := if OtherAnywhere(w.sesames, me) then [] else ClusterRbacKeys(ns);
    QuietCollect(w, NamespacedRbacKeys(ns));
    QuietCollect(w, ClusterRbacKeys(ns));
    var local := CollectUnless(w, OtherInNs(w.sesames, me, ns), NamespacedRbacKeys(ns)).0.value;
    var global := CollectUnless(w, OtherAnywhere(w.sesames, me), ClusterRbacKeys(ns)).0.value;
    assert Stored(w, xs, local) && Stored(w, ys, global);
    StoredTogether(w, xs, ys, local, global);
    QuietDeleteCollected(w, me, local + global, xs + ys);
    assert KeySet(xs + ys) == RbacInScope(w.sesames, me, ns);
  }

  lemma StoredTogether(w: World, xs: seq<Key>, ys: seq<Key>, a: seq<(Key, Object)>, b: seq<(Key, Object)>)
    requires Stored(w, xs, a) && Stored(w, ys, b)
    ensures Stored(w, xs + ys, a + b)
  {
  }

  function NamespaceInScope(all: map<Name, Sesame>, me: Name, spec: Spec): set<Key> {
    if spec.removeOnDeletion && spec.namespace !in CORE_NAMESPACES && !OtherInNs(all, me, spec.namespace)
    then {NamespaceKey(spec.namespace)} else {}
  }

  lemma QuietDeleteNamespace(w: World, me: Name, spec: Spec)
    requires w.schedule == [] && me in w.sesames
    ensures var (_, e, w') := DeleteNamespace(w, me, spec);
      e.None? && Pruned(w, w', me, NamespaceInScope(w.sesames, me, spec))
  {
    hide Begin, OthersInSpecNs, OthersExist, Owned, OtherInNs, OtherAnywhere;
    BeginFrame(w);
    OthersAreExact(w.sesames, me, spec.namespace);
    var w' := DeleteNamespace(w, me, spec).2;
    assert w'.children == Prune(w.children, me, NamespaceInScope(w.sesames, me, spec));
  }

  /** All that an undisturbed delete pass goes for. */
  function InScope(all: map<Name, Sesame>, me: Name, spec: Spec): set<Key> {
    WorkloadKeys(spec.namespace) + RbacInScope(all, me, spec.namespace) + NamespaceInScope(all, me, spec)
  }

  lemma QuietDeleteChildren(w: World, me: Name, spec: Spec)
    requires w.schedule == [] && me in w.sesames && Admitted(spec)
    ensures var (errs, w') := DeleteChildren(w, me, spec);
      NonNil(errs) == [] && Pruned(w, w', me, InScope(w.sesames, me, spec))
  {
    hide DeleteAll, DeleteRbac, DeleteNamespace, RbacInScope, NamespaceInScope, Prune, NonNil, WorkloadsToDelete,
      WorkloadKeys;
    var ns := spec.namespace;
    var (results, w1) := DeleteAll(w, me, WorkloadsToDelete(spec));
    QuietDeleteAll(w, me, WorkloadsToDelete(spec));
    AllWorkloadsAreDeleted(spec);
    var (r, w2) := DeleteRbac(w1, me, ns);
    QuietDeleteRbac(w1, me, ns);
    PrunedThenPruned(w, w1, w2, me, WorkloadKeys(ns), RbacInScope(w.sesames, me, ns));
    var (expected, n, w3) := DeleteNamespace(w2, me, spec);
    QuietDeleteNamespace(w2, me, spec);
    PrunedThenPruned(w, w2, w3, me, WorkloadKeys(ns) + RbacInScope(w.sesames, me, ns),
        NamespaceInScope(w.sesames, me, spec));
    AllNil(DeleteChildren(w, me, spec).0);
  }

  lemma AllWorkloadsAreDeleted(spec: Spec)
    requires Admitted(spec)
    ensures KeySet(WorkloadsToDelete(spec)) == WorkloadKeys(spec.namespace)
  {
    forall k | k in WorkloadKeys(spec.namespace)
      ensures k in WorkloadsToDelete(spec)
    {
      var i := IndexOfWorkload(spec, k);
    }
  }

  /** A failure-free delete pass finishes the deletion at once, whatever earlier passes left behind: it
      removes exactly the owned objects in scope, and then the finalizer, and with it the Sesame if no
      other finalizer is left. */
  lemma UndisturbedDeletePass(w: World, cfg: Config, me: Name)
    requires Sound(w) && w.schedule == [] && me in w.sesames && w.sesames[me].deleting
    ensures var (outcome, w') := Reconcile(w, cfg, me);
      var ses := w.sesames[me];
      var fs := Slice.Without(ses.finalizers, FINALIZER);
      && outcome == Outcome(None, None)
      && w'.children == Prune(w.children, me, InScope(w.sesames, me, ses.spec))
      && (forall n | n != me ::
            (n in w'.sesames <==> n in w.sesames) && (n in w.sesames ==> w'.sesames[n] == w.sesames[n]))
      && (Finalized(ses) && fs == [] ==> me !in w'.sesames)
      && (Finalized(ses) && fs != [] ==> me in w'.sesames && w'.sesames[me].finalizers == fs)
  {
    hide Begin, DeleteChildren, InScope, Prune, NonNil;
    var ses := w.sesames[me];
    assert SoundSesame(ses, w.next);
    BeginFrame(w);
    QuietDeleteChildren(w, me, ses.spec);
    var (errs, w1) := DeleteChildren(w, me, ses.spec);
    BeginFrame(w1);
    AllNil([Wrap("finalizer", None)]);
  }

  // ----- what is left behind -----

  /** Cluster-scoped RBAC outlives its Sesame exactly when another Sesame exists anywhere. */
  lemma ClusterRbacIsOrphanedIff(w: World, cfg: Config, me: Name, k: Key)
    requires Sound(w) && w.schedule == [] && me in w.sesames && w.sesames[me].deleting
    requires w.sesames[me].finalizers == [FINALIZER]
    requires k in ClusterRbacKeys(w.sesames[me].spec.namespace) && k in w.children && Owned(w.children[k], me)
    ensures var w' := Reconcile(w, cfg, me).1;
      && me !in w'.sesames
      && (k in w'.children <==> OtherAnywhere(w.sesames, me))
      && (k in w'.children ==> w'.children[k] == w.children[k])
  {
    hide Reconcile, Owned, InScope, OtherAnywhere, ClusterRbacKeys, Sound;
    UndisturbedDeletePass(w, cfg, me);
    assert [FINALIZER][..0] == [];
    ClusterRbacInScope(w.sesames, me, w.sesames[me].spec, k);
  }

  lemma ClusterRbacInScope(all: map<Name, Sesame>, me: Name, spec: Spec, k: Key)
    requires k in ClusterRbacKeys(spec.namespace)
    ensures k in InScope(all, me, spec) <==> !OtherAnywhere(all, me)
  {
    hide NamespacedRbacKeys, OtherInNs, OtherAnywhere;
    RbacKeysAreDistinct(spec.namespace);
    assert k.kind == ClusterRoleKind || k.kind == ClusterRoleBindingKind;
  }

  /** Namespaced RBAC outlives its Sesame exactly when another Sesame shares the namespace. */
  lemma NamespacedRbacIsOrphanedIff(w: World, cfg: Config, me: Name, k: Key)
    requires Sound(w) && w.schedule == [] && me in w.sesames && w.sesames[me].deleting
    requires w.sesames[me].finalizers == [FINALIZER]
    requires k in NamespacedRbacKeys(w.sesames[me].spec.namespace) && k in w.children && Owned(w.children[k], me)
    ensures var w' := Reconcile(w, cfg, me).1;
      && me !in w'.sesames
      && (k in w'.children <==> OtherInNs(w.sesames, me, w.sesames[me].spec.namespace))
      && (k in w'.children ==> w'.children[k] == w.children[k])
  {
    hide Reconcile, Owned, InScope, OtherInNs, NamespacedRbacKeys, Sound;
    UndisturbedDeletePass(w, cfg, me);
    assert [FINALIZER][..0] == [];
    NamespacedRbacInScope(w.sesames, me, w.sesames[me].spec, k);
  }

  lemma NamespacedRbacInScope(all: map<Name, Sesame>, me: Name, spec: Spec, k: Key)
    requires k in NamespacedRbacKeys(spec.namespace)
    ensures k in InScope(all, me, spec) <==> !OtherInNs(all, me, spec.namespace)
  {
    hide ClusterRbacKeys, OtherInNs, OtherAnywhere;
    RbacKeysAreDistinct(spec.namespace);
    assert k.kind in {RoleBindingKind, RoleKind, ServiceAccountKind};
  }

  /** Why the spec namespace has to stay fixed: a workload under any other namespace than the one the
      spec names at deletion is never looked at, and outlives its Sesame. */
  lemma WorkloadsElsewhereAreOrphaned(w: World, cfg: Config, me: Name, former: string, k: Key)
    requires Sound(w) && w.schedule == [] && me in w.sesames && w.sesames[me].deleting
    requires w.sesames[me].finalizers == [FINALIZER] && w.sesames[me].spec.namespace != former
    requires k in WorkloadKeys(former) && k in w.children && Owned(w.children[k], me)
    ensures var w' := Reconcile(w, cfg, me).1;
      me !in w'.sesames && k in w'.children && w'.children[k] == w.children[k]
  {
    hide Reconcile, Owned, InScope, WorkloadKeys, Sound;
    UndisturbedDeletePass(w, cfg, me);
    assert [FINALIZER][..0] == [];
    WorkloadOutOfScope(w.sesames, me, w.sesames[me].spec, former, k);
  }

  lemma WorkloadOutOfScope(all: map<Name, Sesame>, me: Name, spec: Spec, former: string, k: Key)
    requires spec.namespace != former && k in WorkloadKeys(former)
    ensures k !in InScope(all, me, spec)
  {
    hide WorkloadKeys, NamespacedRbacKeys, ClusterRbacKeys, OtherInNs, OtherAnywhere, WorkloadKind;
    ManagedWorkload(former, k);
    ManagedWorkload(spec.namespace, k);
    if k in EarlyKeys(spec.namespace) { EarlyIsNoWorkload(spec.namespace, k); }
  }

  /** Putting the finalizer on and taking it off again gives back the finalizers. */
  lemma FinalizerRoundTrip(w: World, me: Name)
    requires Sound(w) && w.schedule == [] && me in w.sesames && !Finalized(w.sesames[me]) && !w.sesames[me].deleting
    ensures var (e1, w1) := AddFinalizer(w, me, w.sesames[me]);
      && e1.None? && me in w1.sesames && Finalized(w1.sesames[me])
      && var (e2, w2) := RemoveFinalizer(w1, me, w1.sesames[me]);
         && e2.None? && me in w2.sesames
         && w2.sesames[me] == w.sesames[me].(version := w2.sesames[me].version)
         && w2.children == w.children
  {
    hide Begin;
    BeginFrame(w);
    var w1 := AddFinalizer(w, me, w.sesames[me]).1;
    BeginFrame(w1);
    Slice.RemoveUndoesAppend(w.sesames[me].finalizers, FINALIZER);
  }
}
