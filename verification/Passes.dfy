/** Every operation of a pass respects `Evolves`, under every schedule: whatever the other actors do
    between its calls and whichever calls fail. */
module Passes {
  import opened Api
  import opened RetryableError
  import opened Equality
  import opened Desired
  import opened Server
  import opened Evolution
  import opened Objects
  import opened StatusSync
  import opened Controller

  /** `n` owns nothing under `key`. */
  predicate Free(w: World, key: Key, n: Name) {
    key in w.children ==> Owner(w.children[key]) != Some(n)
  }

  lemma FreeLasts(w: World, w': World, key: Key, n: Name, p: Pass)
    requires Evolves(w, w', p) && Free(w, key, n) && (key in p.writes ==> n != p.me)
    ensures Free(w', key, n)
  {
  }

  // ----- deleting one object -----

  lemma DeleteOwnedEvolves(w: World, key: Key, p: Pass)
    requires Sound(w) && key in p.deletes
    ensures var (e, w') := DeleteOwned(w, p.me, key);
      Evolves(w, w', p) && (e.None? ==> Free(w', key, p.me))
  {
    hide Begin, Evolves;
    var (r, w1) := GetChild(w, key);
    BeginEvolves(w, p);
    if r.Ok? && Owned(r.value, p.me) {
      EvolvesIsSound(w, w1, p);
      DeleteEvolves(w1, key, p);
      EvolvesTransitive(w, w1, DeleteChild(w1, key).1, p);
    }
  }

  lemma {:induction false} DeleteAllEvolves(w: World, keys: seq<Key>, p: Pass)
    requires Sound(w) && p.writes == {} && forall k | k in keys :: k in p.deletes
    ensures var (results, w') := DeleteAll(w, p.me, keys);
      && Evolves(w, w', p) && |results| == |keys|
      && forall i | 0 <= i < |keys| && results[i].None? :: Free(w', keys[i], p.me)
    decreases |keys|
  {
    hide DeleteOwned, Evolves;
    if keys == [] {
      EvolvesStays(w, p);
    } else {
      var w1 := DeleteOwned(w, p.me, keys[0]).1;
      DeleteOwnedEvolves(w, keys[0], p);
      EvolvesIsSound(w, w1, p);
      DeleteAllEvolves(w1, keys[1..], p);
      var w' := DeleteAll(w1, p.me, keys[1..]).1;
      EvolvesTransitive(w, w1, w', p);
      if Free(w1, keys[0], p.me) { FreeLasts(w1, w', keys[0], p.me, p); }
    }
  }

  lemma EvolvesStays(w: World, p: Pass)
    requires Sound(w)
    ensures Evolves(w, w, p)
  {
  }

  // ----- ensuring one object -----

  /** An object the pass may write: within its keys, labelled for its Sesame, without a version. */
  predicate Mine(want: Wanted, p: Pass) {
    && want.key in p.writes && want.key in p.deletes
    && Owned(want.desired, p.me) && want.desired.meta.version == 0
  }

  /** What an update carries as its resource version: the one read, or none. Only the kinds that are
      merged onto what was read are guarded. */
  lemma UpdatesAreGuardedIff(envoy: Option<PublishingType>, current: Object, desired: Object)
    requires SameShape(current, desired) && desired.meta.version == 0 && current.meta.version != 0
    requires Compare(envoy, current, desired).Differs?
    ensures var u := Compare(envoy, current, desired).updated;
      && (u.meta.version == 0 || u.meta.version == current.meta.version)
      && (u.meta.version != 0 <==>
            || desired.body.ConfigMapBody? || desired.body.RoleBody? || desired.body.BindingBody?
            || desired.body.DaemonSetBody? || (desired.body.ServiceBody? && envoy.Some?))
  {
  }

  lemma UpdateVersion(envoy: Option<PublishingType>, current: Object, desired: Object)
    requires desired.meta.version == 0 && Compare(envoy, current, desired).Differs?
    ensures var u := Compare(envoy, current, desired).updated;
      u.meta.version == 0 || u.meta.version == current.meta.version
  {
  }

  lemma {:induction false} RetryCreateEvolves(w: World, key: Key, o: Object, tries: nat, p: Pass)
    requires Sound(w) && key in p.writes && Owned(o, p.me)
    ensures Evolves(w, RetryCreate(w, key, o, tries).1, p)
    decreases tries
  {
    hide CreateChild, Evolves;
    if tries == 0 {
      EvolvesStays(w, p);
    } else {
      var w1 := CreateChild(w, key, o).1;
      CreateEvolves(w, key, o, p);
      EvolvesIsSound(w, w1, p);
      RetryCreateEvolves(w1, key, o, tries - 1, p);
      EvolvesTransitive(w, w1, RetryCreate(w1, key, o, tries - 1).1, p);
    }
  }

  lemma RecreateEvolves(w: World, key: Key, o: Object, tries: nat, p: Pass)
    requires Sound(w) && key in p.writes && key in p.deletes && Owned(o, p.me)
    ensures Evolves(w, Recreate(w, key, o, tries).1, p)
  {
    hide DeleteChild, RetryCreate, Evolves;
    var w1 := DeleteChild(w, key).1;
    DeleteEvolves(w, key, p);
    EvolvesIsSound(w, w1, p);
    RetryCreateEvolves(w1, key, o, tries, p);
    EvolvesTransitive(w, w1, RetryCreate(w1, key, o, tries).1, p);
  }

  lemma EnsureEvolves(w: World, cfg: Config, want: Wanted, p: Pass)
    requires Sound(w) && Mine(want, p)
    ensures Evolves(w, Ensure(w, cfg, p.me, want).1, p)
  {
    hide Begin, CreateChild, DeleteChild, UpdateChild, DeleteOwned, Recreate, Evolves, Compare;
    var (r, w1) := GetChild(w, want.key);
    var w' := Ensure(w, cfg, p.me, want).1;
    BeginEvolves(w, p);
    EvolvesIsSound(w, w1, p);
    if r == Failed(NotFound) {
      CreateEvolves(w1, want.key, want.desired, p);
      EvolvesTransitive(w, w1, w', p);
    } else if r.Ok? {
      OwnedChildEvolves(w1, cfg, want, p);
      EvolvesTransitive(w, w1, w', p);
    }
  }

  /** The world after `Ensure` has read `current`. */
  function AfterRead(w: World, cfg: Config, me: Name, want: Wanted, current: Object): World {
    if SelectorsDiffer(current, want.desired) then DeleteOwned(w, me, want.key).1
    else if !Owned(current, me) || !Compare(want.envoy, current, want.desired).Differs? then w
    else if want.desired.body.JobBody? then
      Recreate(w, want.key, Compare(want.envoy, current, want.desired).updated, 1 + cfg.extraJobAttempts).1
    else UpdateChild(w, want.key, Compare(want.envoy, current, want.desired).updated).1
  }

  lemma OwnedChildEvolves(w: World, cfg: Config, want: Wanted, p: Pass)
    requires Sound(w) && Mine(want, p) && want.key in w.children
    ensures Evolves(w, AfterRead(w, cfg, p.me, want, w.children[want.key]), p)
  {
    hide Begin, CreateChild, DeleteChild, UpdateChild, DeleteOwned, Recreate, Evolves, Compare;
    var current := w.children[want.key];
    EvolvesStays(w, p);
    if SelectorsDiffer(current, want.desired) {
      DeleteOwnedEvolves(w, want.key, p);
    } else if Owned(current, p.me) && Compare(want.envoy, current, want.desired).Differs? {
      var u := Compare(want.envoy, current, want.desired).updated;
      UpdateKeepsOwner(want.envoy, current, want.desired, p.me);
      UpdateVersion(want.envoy, current, want.desired);
      if want.desired.body.JobBody? {
        RecreateEvolves(w, want.key, u, 1 + cfg.extraJobAttempts, p);
      } else {
        UpdateEvolves(w, want.key, u, p);
      }
    }
  }

  predicate AllMine(wants: seq<Wanted>, p: Pass) {
    forall i | 0 <= i < |wants| :: Mine(wants[i], p)
  }

  lemma {:induction false} EnsureUntilErrorEvolves(w: World, cfg: Config, wants: seq<Wanted>, p: Pass)
    requires Sound(w) && AllMine(wants, p)
    ensures Evolves(w, EnsureUntilError(w, cfg, p.me, wants).1, p)
    decreases |wants|
  {
    hide Ensure, Evolves, Mine;
    if wants == [] {
      EvolvesStays(w, p);
    } else {
      var w1 := Ensure(w, cfg, p.me, wants[0]).1;
      EnsureEvolves(w, cfg, wants[0], p);
      EvolvesIsSound(w, w1, p);
      EnsureUntilErrorEvolves(w1, cfg, wants[1..], p);
      EvolvesTransitive(w, w1, EnsureUntilError(w1, cfg, p.me, wants[1..]).1, p);
    }
  }

  lemma {:induction false} EnsureAllEvolves(w: World, cfg: Config, wants: seq<Wanted>, p: Pass)
    requires Sound(w) && AllMine(wants, p)
    ensures Evolves(w, EnsureAll(w, cfg, p.me, wants).1, p)
    decreases |wants|
  {
    hide Ensure, Evolves, Mine;
    if wants == [] {
      EvolvesStays(w, p);
    } else {
      var w1 := Ensure(w, cfg, p.me, wants[0]).1;
      EnsureEvolves(w, cfg, wants[0], p);
      EvolvesIsSound(w, w1, p);
      EnsureAllEvolves(w1, cfg, wants[1..], p);
      EvolvesTransitive(w, w1, EnsureAll(w1, cfg, p.me, wants[1..]).1, p);
    }
  }

  // ----- RBAC deletion -----

  /** What was not found, or found without owner labels, is free. */
  predicate Collected(w: World, keys: seq<Key>, found: seq<(Key, Object)>, p: Pass) {
    && (forall i | 0 <= i < |found| :: found[i].0 in keys)
    && (forall k | k in keys ::
          Free(w, k, p.me) || exists i | 0 <= i < |found| :: found[i].0 == k && Owned(found[i].1, p.me))
  }

  lemma CollectedLasts(w: World, w': World, keys: seq<Key>, found: seq<(Key, Object)>, p: Pass)
    requires Evolves(w, w', p) && Collected(w, keys, found, p) && p.writes == {}
    ensures Collected(w', keys, found, p)
  {
    hide Evolves, Free, Owned;
    forall k | k in keys && Free(w, k, p.me)
      ensures Free(w', k, p.me)
    {
      FreeLasts(w, w', k, p.me, p);
    }
  }

  lemma {:induction false} CollectEvolves(w: World, keys: seq<Key>, p: Pass)
    requires Sound(w) && p.writes == {}
    ensures var (found, w') := Collect(w, keys);
      && Evolves(w, w', p) && w'.log == w.log && (found.Ok? ==> Collected(w', keys, found.value, p))
    decreases |keys|
  {
    hide Begin, Evolves, Collected;
    if keys == [] {
      EvolvesStays(w, p);
      NothingCollected(w, p);
    } else {
      var (r, w1) := GetChild(w, keys[0]);
      BeginFrame(w);
      BeginEvolves(w, p);
      EvolvesIsSound(w, w1, p);
      CollectEvolves(w1, keys[1..], p);
      var (found, w') := Collect(w1, keys[1..]);
      EvolvesTransitive(w, w1, w', p);
      if found.Ok? && (r.Ok? || r == Failed(NotFound)) {
        CollectedOneMore(w1, w', keys, if r.Ok? then [(keys[0], r.value)] else [], found.value, p);
      }
    }
  }

  lemma NothingCollected(w: World, p: Pass)
    ensures Collected(w, [], [], p)
  {
  }

  lemma CollectedOneMore(
      w1: World, w': World, keys: seq<Key>, first: seq<(Key, Object)>, found: seq<(Key, Object)>, p: Pass)
    requires keys != [] && Evolves(w1, w', p) && p.writes == {} && Collected(w', keys[1..], found, p)
    requires first == if keys[0] in w1.children then [(keys[0], w1.children[keys[0]])] else []
    ensures Collected(w', keys, first + found, p)
  {
    hide Evolves;
    var all := first + found;
    if Free(w1, keys[0], p.me) {
      FreeLasts(w1, w', keys[0], p.me, p);
    } else {
      assert all[0].0 == keys[0] && Owned(all[0].1, p.me);
    }
    forall k | k in keys[1..]
      ensures Free(w', k, p.me) || exists i | 0 <= i < |all| :: all[i].0 == k && Owned(all[i].1, p.me)
    {
      if !Free(w', k, p.me) {
        var i :| 0 <= i < |found| && found[i].0 == k && Owned(found[i].1, p.me);
        assert all[|first| + i] == found[i];
      }
    }
    forall i | 0 <= i < |all|
      ensures all[i].0 in keys
    {
      if i >= |first| {
        assert all[i] == found[i - |first|];
        assert all[i].0 in keys[1..];
      }
    }
  }

  lemma {:induction false} DeleteCollectedEvolves(w: World, objects: seq<(Key, Object)>, p: Pass)
    requires Sound(w) && p.writes == {}
    requires forall i | 0 <= i < |objects| && Owned(objects[i].1, p.me) :: objects[i].0 in p.deletes
    ensures var (e, w') := DeleteCollected(w, p.me, objects);
      && Evolves(w, w', p)
      && (e.None? ==> forall i | 0 <= i < |objects| && Owned(objects[i].1, p.me) :: Free(w', objects[i].0, p.me))
    decreases |objects|
  {
    hide Begin, Evolves, Owned, Free;
    if objects == [] {
      EvolvesStays(w, p);
    } else {
      var rest := objects[1..];
      assert forall i | 0 <= i < |rest| :: rest[i] == objects[i + 1];
      assert forall i | 1 <= i < |objects| :: objects[i] == rest[i - 1];
      if !Owned(objects[0].1, p.me) {
        DeleteCollectedEvolves(w, rest, p);
      } else {
        var key := objects[0].0;
        var (d, w1) := DeleteChild(w, key);
        DeleteEvolves(w, key, p);
        EvolvesIsSound(w, w1, p);
        if d.None? || d == Some(NotFound) {
          DeletedIsFree(w, key, p.me);
          DeleteCollectedEvolves(w1, rest, p);
          var w' := DeleteCollected(w1, p.me, rest).1;
          EvolvesTransitive(w, w1, w', p);
          FreeLasts(w1, w', key, p.me, p);
        }
      }
    }
  }

  lemma DeletedIsFree(w: World, key: Key, me: Name)
    ensures var (d, w1) := DeleteChild(w, key);
      d.None? || d == Some(NotFound) ==> Free(w1, key, me)
  {
    hide Begin;
  }

  function KeySet(keys: seq<Key>): set<Key> {
    set k | k in keys
  }

  lemma CollectUnlessEvolves(w: World, skip: bool, keys: seq<Key>, p: Pass)
    requires Sound(w) && p.writes == {}
    ensures var (found, w') := CollectUnless(w, skip, keys);
      && Evolves(w, w', p) && w'.log == w.log
      && (found.Ok? ==> Collected(w', if skip then [] else keys, found.value, p))
  {
    hide Evolves, Collected, Collect;
    EvolvesStays(w, p);
    NothingCollected(w, p);
    if !skip { CollectEvolves(w, keys, p); }
  }

  /** Where `EnsureRBACDeleted` goes for, given the two lists of Sesames it reads. */
  function RbacGroups(w: World, me: Name, ns: string): set<Key> {
    var (all, w1) := ListSesames(w);
    if all.Failed? then {}
    else
      var w2 := CollectUnless(w1, OthersInSpecNs(all.value, me, ns), NamespacedRbacKeys(ns)).1;
      var again := ListSesames(w2).0;
      KeySet(if OthersInSpecNs(all.value, me, ns) then [] else NamespacedRbacKeys(ns))
      + KeySet(if again.Failed? || OthersExist(again.value, me) then [] else ClusterRbacKeys(ns))
  }

  lemma DeleteRbacEvolves(w: World, ns: string, p: Pass)
    requires Sound(w) && p.writes == {} && RbacGroups(w, p.me, ns) <= p.deletes
    ensures var (e, w') := DeleteRbac(w, p.me, ns);
      Evolves(w, w', p) && (e.None? ==> forall k | k in RbacGroups(w, p.me, ns) :: Free(w', k, p.me))
  {
    hide Begin, Evolves, Collected, Collect, CollectUnless, DeleteCollected, OthersInSpecNs, OthersExist,
      NamespacedRbacKeys, ClusterRbacKeys, Free, KeySet;
    var (all, w1) := ListSesames(w);
    BeginEvolves(w, p);
    EvolvesIsSound(w, w1, p);
    if all.Ok? {
      var skipLocal := OthersInSpecNs(all.value, p.me, ns);
      var (local, w2) := CollectUnless(w1, skipLocal, NamespacedRbacKeys(ns));
      CollectUnlessEvolves(w1, skipLocal, NamespacedRbacKeys(ns), p);
      EvolvesTransitive(w, w1, w2, p);
      EvolvesIsSound(w1, w2, p);
      if local.Ok? {
        var (again, w3) := ListSesames(w2);
        BeginEvolves(w2, p);
        EvolvesIsSound(w2, w3, p);
        EvolvesTransitive(w, w2, w3, p);
        if again.Ok? {
          var skipGlobal := OthersExist(again.value, p.me);
          var (global, w4) := CollectUnless(w3, skipGlobal, ClusterRbacKeys(ns));
          CollectUnlessEvolves(w3, skipGlobal, ClusterRbacKeys(ns), p);
          EvolvesTransitive(w, w3, w4, p);
          EvolvesIsSound(w3, w4, p);
          if global.Ok? {
            var xs := if skipLocal then [] else NamespacedRbacKeys(ns);
            var ys := if skipGlobal then [] else ClusterRbacKeys(ns);
            EvolvesTransitive(w2, w3, w4, p);
            CollectedLasts(w2, w4, xs, local.value, p);
            DeleteGroups(w4, xs, ys, local.value, global.value, p);
            EvolvesTransitive(w, w4, DeleteCollected(w4, p.me, local.value + global.value).1, p);
          }
        }
      }
    }
  }

  lemma DeleteGroups(
      w: World, xs: seq<Key>, ys: seq<Key>, local: seq<(Key, Object)>, global: seq<(Key, Object)>, p: Pass)
    requires Sound(w) && p.writes == {} && KeySet(xs) + KeySet(ys) <= p.deletes
    requires Collected(w, xs, local, p) && Collected(w, ys, global, p)
    ensures var (e, w') := DeleteCollected(w, p.me, local + global);
      Evolves(w, w', p) && (e.None? ==> forall k | k in KeySet(xs) + KeySet(ys) :: Free(w', k, p.me))
  {
    hide Evolves, DeleteCollected, Owned, Free;
    var all := local + global;
    forall i | 0 <= i < |all| && Owned(all[i].1, p.me)
      ensures all[i].0 in p.deletes
    {
      if i >= |local| {
        assert all[i] == global[i - |local|];
        assert all[i].0 in KeySet(ys);
      } else {
        assert all[i].0 in KeySet(xs);
      }
    }
    DeleteCollectedEvolves(w, all, p);
    var (e, w') := DeleteCollected(w, p.me, all);
    if e.None? {
      forall k | k in KeySet(xs) + KeySet(ys)
        ensures Free(w', k, p.me)
      {
        if Free(w, k, p.me) {
          FreeLasts(w, w', k, p.me, p);
        } else if k in xs {
          var i :| 0 <= i < |local| && local[i].0 == k && Owned(local[i].1, p.me);
          assert all[i] == local[i];
        } else {
          var i :| 0 <= i < |global| && global[i].0 == k && Owned(global[i].1, p.me);
          assert all[|local| + i] == global[i];
        }
      }
    }
  }

  lemma DeleteNamespaceEvolves(w: World, spec: Spec, p: Pass)
    requires Sound(w) && NamespaceKey(spec.namespace) in p.deletes
    ensures Evolves(w, DeleteNamespace(w, p.me, spec).2, p)
  {
    hide Begin, Evolves, OthersInSpecNs, DeleteChild;
    var key := NamespaceKey(spec.namespace);
    EvolvesStays(w, p);
    var (r, w1) := GetChild(w, key);
    BeginEvolves(w, p);
    if r.Ok? && Owned(r.value, p.me) {
      EvolvesIsSound(w, w1, p);
      var w2 := ListSesames(w1).1;
      BeginEvolves(w1, p);
      EvolvesIsSound(w1, w2, p);
      EvolvesTransitive(w, w1, w2, p);
      DeleteEvolves(w2, key, p);
      EvolvesTransitive(w, w2, DeleteChild(w2, key).1, p);
    }
  }

  // ----- whole passes -----

  lemma FinishEvolves(w: World, errs: seq<Option<Error>>, p: Pass)
    requires Sound(w)
    ensures Evolves(w, Finish(w, p.me, errs).1, p)
  {
    hide Evolves, Sync, MaybeRetryable;
    SyncEvolves(w, p);
  }

  /** Everything below the namespace and RBAC is out of reach of the early part of a pass. */
  function EarlyKeys(ns: string): set<Key> {
    {NamespaceKey(ns)} + KeySet(NamespacedRbacKeys(ns)) + KeySet(ClusterRbacKeys(ns))
  }

  lemma EarlyIsMine(ns: string, p: Pass)
    requires EarlyKeys(ns) <= p.writes && EarlyKeys(ns) <= p.deletes
    ensures Mine(NamespaceWanted(p.me, ns), p) && AllMine(RbacWanted(p.me, ns), p)
  {
    assert NamespacedRbacKeys(ns)[0] == RoleBindingKey(ns) && NamespacedRbacKeys(ns)[2] == RoleKey(ns, CERTGEN)
           && NamespacedRbacKeys(ns)[3] == ServiceAccountKey(ns, SESAME)
           && NamespacedRbacKeys(ns)[4] == ServiceAccountKey(ns, ENVOY)
           && NamespacedRbacKeys(ns)[5] == ServiceAccountKey(ns, CERTGEN);
    assert ClusterRbacKeys(ns)[0] == ClusterRoleBindingKey(ns) && ClusterRbacKeys(ns)[1] == ClusterRoleKey(ns);
  }

  lemma WorkloadsAreMine(cfg: Config, spec: Spec, p: Pass)
    requires WorkloadKeys(spec.namespace) <= p.writes && WorkloadKeys(spec.namespace) <= p.deletes
    ensures AllMine(WorkloadsWanted(cfg, p.me, spec), p)
  {
  }

  /** The early part, and all of a pass that fails there: no workload is written. */
  lemma EarlyEvolves(w: World, cfg: Config, spec: Spec, p: Pass)
    requires Sound(w) && EarlyKeys(spec.namespace) <= p.writes && EarlyKeys(spec.namespace) <= p.deletes
    ensures var (n, w1) := Ensure(w, cfg, p.me, NamespaceWanted(p.me, spec.namespace));
      var (r, w2) := EnsureUntilError(w1, cfg, p.me, RbacWanted(p.me, spec.namespace));
      Evolves(w, w2, p) && (n.Some? || r.Some? ==> Evolves(w, EnsureSesame(w, cfg, p.me, spec).1, p))
  {
    hide Evolves, Ensure, EnsureUntilError, EnsureAll, NamespaceWanted, RbacWanted, EarlyKeys, Finish, Mine,
      AllMine;
    EarlyIsMine(spec.namespace, p);
    var (n, w1) := Ensure(w, cfg, p.me, NamespaceWanted(p.me, spec.namespace));
    EnsureEvolves(w, cfg, NamespaceWanted(p.me, spec.namespace), p);
    EvolvesIsSound(w, w1, p);
    var (r, w2) := EnsureUntilError(w1, cfg, p.me, RbacWanted(p.me, spec.namespace));
    EnsureUntilErrorEvolves(w1, cfg, RbacWanted(p.me, spec.namespace), p);
    EvolvesTransitive(w, w1, w2, p);
    EvolvesIsSound(w1, w2, p);
    var early := [Wrap("namespace", n), Wrap("rbac", r)];
    FinishEvolves(w2, early, p);
    EvolvesTransitive(w, w2, Finish(w2, p.me, early).1, p);
  }

  lemma EnsureSesameEvolves(w: World, cfg: Config, spec: Spec, p: Pass)
    requires Sound(w) && ManagedKeys(spec.namespace) <= p.writes && ManagedKeys(spec.namespace) <= p.deletes
    ensures Evolves(w, EnsureSesame(w, cfg, p.me, spec).1, p)
  {
    hide Evolves, Ensure, EnsureUntilError, EnsureAll, NamespaceWanted, RbacWanted, WorkloadsWanted, Finish,
      Mine, AllMine, WrapAll, Panicked, NamespacedRbacKeys, ClusterRbacKeys, WorkloadKeys;
    EarlyEvolves(w, cfg, spec, p);
    var (n, w1) := Ensure(w, cfg, p.me, NamespaceWanted(p.me, spec.namespace));
    var (r, w2) := EnsureUntilError(w1, cfg, p.me, RbacWanted(p.me, spec.namespace));
    if n.None? && r.None? {
      EvolvesIsSound(w, w2, p);
      WorkloadsAreMine(cfg, spec, p);
      var (results, w3) := EnsureAll(w2, cfg, p.me, WorkloadsWanted(cfg, p.me, spec));
      EnsureAllEvolves(w2, cfg, WorkloadsWanted(cfg, p.me, spec), p);
      EvolvesTransitive(w, w2, w3, p);
      if !Panicked(results) {
        var errs := [Wrap("namespace", n), Wrap("rbac", r)] + WrapAll("workload", results);
        EvolvesIsSound(w2, w3, p);
        FinishEvolves(w3, errs, p);
        EvolvesTransitive(w, w3, Finish(w3, p.me, errs).1, p);
      }
    }
  }

  lemma DeleteChildrenEvolves(w: World, spec: Spec, p: Pass)
    requires Sound(w) && p.writes == {} && ManagedKeys(spec.namespace) <= p.deletes && Admitted(spec)
    ensures var (errs, w') := DeleteChildren(w, p.me, spec);
      && Evolves(w, w', p)
      && |WorkloadsToDelete(spec)| <= |errs|
      && (forall i | 0 <= i < |WorkloadsToDelete(spec)| && errs[i].None? :: Free(w', WorkloadsToDelete(spec)[i], p.me))
      && (NonNil(errs) == [] ==> forall k | k in WorkloadKeys(spec.namespace) :: Free(w', k, p.me))
  {
    hide Evolves, DeleteAll, DeleteRbac, DeleteNamespace, Free;
    var keys := WorkloadsToDelete(spec);
    var (results, w1) := DeleteAll(w, p.me, keys);
    DeleteAllEvolves(w, keys, p);
    EvolvesIsSound(w, w1, p);
    var (r, w2) := DeleteRbac(w1, p.me, spec.namespace);
    RbacGroupsAreManaged(w1, p.me, spec.namespace);
    DeleteRbacEvolves(w1, spec.namespace, p);
    EvolvesIsSound(w1, w2, p);
    EvolvesTransitive(w, w1, w2, p);
    var (expected, n, w3) := DeleteNamespace(w2, p.me, spec);
    DeleteNamespaceEvolves(w2, spec, p);
    EvolvesTransitive(w, w2, w3, p);
    EvolvesTransitive(w1, w2, w3, p);
    var errs := DeleteChildren(w, p.me, spec).0;
    forall i | 0 <= i < |keys| && errs[i].None?
      ensures Free(w3, keys[i], p.me)
    {
      assert errs[i] == Wrap("workload", results[i]);
      FreeLasts(w1, w3, keys[i], p.me, p);
    }
    if NonNil(errs) == [] {
      AllNil(errs);
      forall k | k in WorkloadKeys(spec.namespace)
        ensures Free(w3, k, p.me)
      {
        var i := IndexOfWorkload(spec, k);
        assert errs[i].None?;
      }
    }
  }

  lemma RbacGroupsAreManaged(w: World, me: Name, ns: string)
    ensures RbacGroups(w, me, ns) <= ManagedKeys(ns)
  {
    hide Begin, OthersInSpecNs, OthersExist, CollectUnless, NamespacedRbacKeys, ClusterRbacKeys;
  }

  lemma IndexOfWorkload(spec: Spec, key: Key) returns (i: nat)
    requires Admitted(spec) && key in WorkloadKeys(spec.namespace)
    ensures i < |WorkloadsToDelete(spec)| && WorkloadsToDelete(spec)[i] == key
  {
    var ns := spec.namespace;
    i := if key == EnvoyServiceKey(ns) then 0 else if key == SesameServiceKey(ns) then 1
        else if key == DaemonSetKey(ns) then 2
         else if key == DeploymentKey(ns) then 3 else if key == JobKey(ns) then 4 else 5;
  }

  lemma {:induction false} AllNil(errs: seq<Option<Error>>)
    ensures NonNil(errs) == [] <==> forall i | 0 <= i < |errs| :: errs[i].None?
  {
    if errs != [] {
      var n := |errs| - 1;
      AllNil(errs[..n]);
      assert forall i | 0 <= i < n :: errs[..n][i] == errs[i];
    }
  }
}
