/** A delete pass in which no call fails completes the deletion, whatever the other actors do to
    anything but the Sesame itself; and every pass makes the progress its nil results claim. */
module Completion {
  import opened Api
  import opened RetryableError
  import opened Conditions
  import opened Server
  import opened Evolution
  import opened Objects
  import opened StatusSync
  import opened Controller
  import opened Passes
  import opened Safety
  import opened Guarantees
  import Slice

  // ----- passes without failures -----

  /** A tick that fails a call or in which another actor writes the Sesame. */
  predicate Disturbs(tick: Tick, id: Name) {
    tick.fault != NoFault || TickTouches(tick, id)
  }

  function Disturbances(schedule: seq<Tick>, id: Name): nat {
    if schedule == [] then 0
    else (if Disturbs(schedule[0], id) then 1 else 0) + Disturbances(schedule[1..], id)
  }

  /** None of the ticks used up between the two worlds disturbs `id`. */
  predicate Smooth(w: World, w': World, id: Name) {
    Disturbances(w.schedule, id) == Disturbances(w'.schedule, id)
  }

  /** The Sesame stays as it is, unless disturbed. */
  predicate Spares(w: World, w': World, id: Name) {
    && Disturbances(w'.schedule, id) <= Disturbances(w.schedule, id)
    && (Smooth(w, w', id) ==> SameEntry(w, w', id))
  }

  lemma SparesThen(a: World, b: World, c: World, id: Name)
    requires Spares(a, b, id) && Spares(b, c, id)
    ensures Spares(a, c, id) && (Smooth(a, c, id) ==> Smooth(a, b, id) && Smooth(b, c, id))
  {
    hide Disturbances;
  }

  lemma BeginSpares(w: World, id: Name)
    ensures Spares(w, Begin(w).1, id) && (Smooth(w, Begin(w).1, id) ==> Begin(w).0 == NoFault)
  {
    hide ActAll, TickTouches;
    BeginFrame(w);
    if w.schedule != [] && !Disturbs(w.schedule[0], id) {
      BeginLeaves(w, id);
    }
  }

  lemma BeginLeaves(w: World, id: Name)
    requires w.schedule != [] && !TickTouches(w.schedule[0], id)
    ensures SameEntry(w, Begin(w).1, id)
  {
    UntouchedSteps(w.(schedule := w.schedule[1..]), w.schedule[0].steps, id);
  }

  lemma DeleteChildSpares(w: World, key: Key, id: Name)
    ensures var (d, w') := DeleteChild(w, key);
      Spares(w, w', id) && (Smooth(w, w', id) ==> d.None? || d == Some(NotFound))
  {
    hide Begin, Disturbances;
    BeginSpares(w, id);
  }

  lemma DeleteOwnedSpares(w: World, me: Name, key: Key, id: Name)
    ensures var (e, w') := DeleteOwned(w, me, key);
      Spares(w, w', id) && (Smooth(w, w', id) ==> e.None?)
  {
    hide Begin, Disturbances, DeleteChild, Owned, SameEntry;
    var (r, w1) := GetChild(w, key);
    BeginSpares(w, id);
    if r.Ok? && Owned(r.value, me) {
      DeleteChildSpares(w1, key, id);
      SparesThen(w, w1, DeleteChild(w1, key).1, id);
    }
  }

  lemma {:induction false} DeleteAllSpares(w: World, me: Name, keys: seq<Key>, id: Name)
    ensures var (results, w') := DeleteAll(w, me, keys);
      Spares(w, w', id) && (Smooth(w, w', id) ==> forall i | 0 <= i < |results| :: results[i].None?)
    decreases |keys|
  {
    hide DeleteOwned, Disturbances;
    if keys != [] {
      var w1 := DeleteOwned(w, me, keys[0]).1;
      DeleteOwnedSpares(w, me, keys[0], id);
      DeleteAllSpares(w1, me, keys[1..], id);
      SparesThen(w, w1, DeleteAll(w1, me, keys[1..]).1, id);
    }
  }

  lemma {:induction false} CollectSpares(w: World, keys: seq<Key>, id: Name)
    ensures var (found, w') := Collect(w, keys);
      Spares(w, w', id) && (Smooth(w, w', id) ==> found.Ok?)
    decreases |keys|
  {
    hide Begin, Disturbances;
    if keys != [] {
      var w1 := GetChild(w, keys[0]).1;
      BeginSpares(w, id);
      CollectSpares(w1, keys[1..], id);
      SparesThen(w, w1, Collect(w1, keys[1..]).1, id);
    }
  }

  lemma CollectUnlessSpares(w: World, skip: bool, keys: seq<Key>, id: Name)
    ensures var (found, w') := CollectUnless(w, skip, keys);
      Spares(w, w', id) && (Smooth(w, w', id) ==> found.Ok?)
  {
    hide Collect, Disturbances;
    CollectSpares(w, keys, id);
  }

  lemma {:induction false} DeleteCollectedSpares(w: World, me: Name, objects: seq<(Key, Object)>, id: Name)
    ensures var (e, w') := DeleteCollected(w, me, objects);
      Spares(w, w', id) && (Smooth(w, w', id) ==> e.None?)
    decreases |objects|
  {
    hide DeleteChild, Disturbances, Owned;
    if objects == [] {
    } else if !Owned(objects[0].1, me) {
      DeleteCollectedSpares(w, me, objects[1..], id);
    } else {
      var w1 := DeleteChild(w, objects[0].0).1;
      DeleteChildSpares(w, objects[0].0, id);
      DeleteCollectedSpares(w1, me, objects[1..], id);
      SparesThen(w, w1, DeleteCollected(w1, me, objects[1..]).1, id);
    }
  }

  lemma DeleteRbacSpares(w: World, me: Name, ns: string, id: Name)
    ensures var (e, w') := DeleteRbac(w, me, ns);
      Spares(w, w', id) && (Smooth(w, w', id) ==> e.None?)
  {
    hide Begin, Disturbances, CollectUnless, DeleteCollected, OthersInSpecNs, OthersExist, NamespacedRbacKeys,
      ClusterRbacKeys, SameEntry;
    var (all, w1) := ListSesames(w);
    BeginSpares(w, id);
    if all.Ok? {
      var (local, w2) := CollectUnless(w1, OthersInSpecNs(all.value, me, ns), NamespacedRbacKeys(ns));
      CollectUnlessSpares(w1, OthersInSpecNs(all.value, me, ns), NamespacedRbacKeys(ns), id);
      SparesThen(w, w1, w2, id);
      if local.Ok? {
        var (again, w3) := ListSesames(w2);
        BeginSpares(w2, id);
        SparesThen(w, w2, w3, id);
        if again.Ok? {
          var (global, w4) := CollectUnless(w3, OthersExist(again.value, me), ClusterRbacKeys(ns));
          CollectUnlessSpares(w3, OthersExist(again.value, me), ClusterRbacKeys(ns), id);
          SparesThen(w, w3, w4, id);
          if global.Ok? {
            DeleteCollectedSpares(w4, me, local.value + global.value, id);
            SparesThen(w, w4, DeleteCollected(w4, me, local.value + global.value).1, id);
          }
        }
      }
    }
  }

  lemma DeleteNamespaceSpares(w: World, me: Name, spec: Spec, id: Name)
    ensures var (_, e, w') := DeleteNamespace(w, me, spec);
      Spares(w, w', id) && (Smooth(w, w', id) ==> e.None?)
  {
    hide Begin, Disturbances, DeleteChild, OthersInSpecNs, Owned, SameEntry, CORE_NAMESPACES;
    SparesItself(w, id);
    var key := NamespaceKey(spec.namespace);
    var (r, w1) := GetChild(w, key);
    BeginSpares(w, id);
    if r.Ok? && Owned(r.value, me) {
      var w2 := ListSesames(w1).1;
      BeginSpares(w1, id);
      SparesThen(w, w1, w2, id);
      DeleteChildSpares(w2, key, id);
      SparesThen(w, w2, DeleteChild(w2, key).1, id);
    }
  }

  lemma SparesItself(w: World, id: Name)
    ensures Spares(w, w, id)
  {
  }

  lemma DeleteChildrenSpares(w: World, me: Name, spec: Spec)
    ensures var (errs, w') := DeleteChildren(w, me, spec);
      Spares(w, w', me) && (Smooth(w, w', me) ==> NonNil(errs) == [])
  {
    hide DeleteAll, DeleteRbac, DeleteNamespace, Disturbances, NonNil, WorkloadsToDelete, SameEntry;
    var (results, w1) := DeleteAll(w, me, WorkloadsToDelete(spec));
    DeleteAllSpares(w, me, WorkloadsToDelete(spec), me);
    var w2 := DeleteRbac(w1, me, spec.namespace).1;
    DeleteRbacSpares(w1, me, spec.namespace, me);
    SparesThen(w, w1, w2, me);
    var w3 := DeleteNamespace(w2, me, spec).2;
    DeleteNamespaceSpares(w2, me, spec, me);
    SparesThen(w, w2, w3, me);
    AllNil(DeleteChildren(w, me, spec).0);
  }

  /** Taking the finalizer off a Sesame that is as it was read, by a call that goes through. */
  lemma FinalizerComesOff(w: World, me: Name, ses: Sesame)
    requires me in w.sesames && w.sesames[me] == ses && ses.deleting
    ensures var (e, w') := RemoveFinalizer(w, me, ses);
      var fs := Slice.Without(ses.finalizers, FINALIZER);
      && Disturbances(w'.schedule, me) <= Disturbances(w.schedule, me)
      && (Smooth(w, w', me) ==>
            && e.None?
            && (Finalized(ses) && fs == [] ==> me !in w'.sesames)
            && (Finalized(ses) && fs != [] ==> me in w'.sesames && w'.sesames[me].finalizers == fs))
  {
    hide Begin, Disturbances;
    BeginSpares(w, me);
  }

  lemma RemovalSpends(w: World, me: Name, ses: Sesame)
    ensures Disturbances(RemoveFinalizer(w, me, ses).1.schedule, me) <= Disturbances(w.schedule, me)
  {
    hide Begin, Disturbances;
    BeginSpares(w, me);
  }

  lemma RemovalKeepsFree(w: World, ses: Sesame, key: Key, n: Name, p: Pass)
    requires Sound(w) && Free(w, key, n) && p.writes == {}
    ensures Free(RemoveFinalizer(w, p.me, ses).1, key, n)
  {
    hide Begin, Evolves, Sound;
    BeginEvolves(w, p);
    FreeLasts(w, Begin(w).1, key, n, p);
  }

  /** A delete pass in which no call fails and nobody else writes the Sesame removes the finalizer at
      once, and with it the Sesame if no other finalizer is left; and it leaves no owned workload.
      Other actors may do whatever else they like meanwhile. */
  lemma FaultFreeDeletePass(w: World, cfg: Config, me: Name)
    requires Sound(w) && DeletePass(w, me) && Smooth(w, Reconcile(w, cfg, me).1, me)
    ensures var (outcome, w') := Reconcile(w, cfg, me);
      var ses := GetSesame(w, me).0.value;
      var fs := Slice.Without(ses.finalizers, FINALIZER);
      && outcome == Outcome(None, None)
      && (Finalized(ses) && fs == [] ==> me !in w'.sesames)
      && (Finalized(ses) && fs != [] ==> me in w'.sesames && w'.sesames[me].finalizers == fs)
      && forall k | k in WorkloadKeys(ses.spec.namespace) :: Free(w', k, me)
  {
    hide Begin, Disturbances, DeleteChildren, RemoveFinalizer, WorkloadKeys, Evolves, Sound, NonNil, Slice.Without,
        Free,
      ManagedKeys;
    var w1, ses, w2 := DeletePassEvolves(w, cfg, me);
    var p := Pass(me, {}, KeysOf(w, me));
    BeginSpares(w, me);
    DeleteChildrenSpares(w1, me, ses.spec);
    SparesThen(w, w1, w2, me);
    RemovalSpends(w2, me, ses);
    EvolvesIsSound(w1, w2, p);
    FinalizerComesOff(w2, me, ses);
    forall k | k in WorkloadKeys(ses.spec.namespace)
      ensures Free(Reconcile(w, cfg, me).1, k, me)
    {
      RemovalKeepsFree(w2, ses, k, me, p);
    }
    AllNil([Wrap("finalizer", None)]);
  }

  // ----- each success counts -----

  /** A successful deletion of an owned child shrinks what the Sesame owns. */
  lemma SuccessfulDeleteShrinks(w: World, me: Name, key: Key)
    requires Sound(w) && key in OwnedBy(w, me)
    ensures var (e, w') := DeleteOwned(w, me, key);
      e.None? ==> OwnedBy(w', me) < OwnedBy(w, me) && key !in OwnedBy(w', me)
  {
    hide DeleteOwned, Evolves;
    var p := Pass(me, {}, {key});
    DeleteOwnedEvolves(w, key, p);
    NoGrowth(w, DeleteOwned(w, me, key).1, me, p);
  }

  /** So with passes, under every schedule: a delete pass adds nothing to what its Sesame owns, every
      workload whose step returned nil is owned no longer, and if one of those was owned before, fewer
      are owned after. */
  lemma DeletePassShrinks(w: World, cfg: Config, me: Name)
    requires Sound(w) && DeletePass(w, me)
    ensures var w' := Reconcile(w, cfg, me).1;
      var (r, w1) := GetSesame(w, me);
      var keys, errs := WorkloadsToDelete(r.value.spec), DeleteChildren(w1, me, r.value.spec).0;
      && |keys| <= |errs|
      && OwnedBy(w', me) <= OwnedBy(w, me)
      && (forall i | 0 <= i < |keys| && errs[i].None? :: keys[i] !in OwnedBy(w', me))
      && ((exists i | 0 <= i < |keys| :: errs[i].None? && keys[i] in OwnedBy(w, me)) ==>
            OwnedBy(w', me) < OwnedBy(w, me))
  {
    hide Begin, DeleteChildren, RemoveFinalizer, WorkloadKeys, Evolves, Sound, NonNil, Free, ManagedKeys,
      WorkloadsToDelete, Reconcile, EnsurePass;
    var w1, ses, w2 := DeletePassEvolves(w, cfg, me);
    var p := Pass(me, {}, KeysOf(w, me));
    EvolvesIsSound(w1, w2, p);
    ReadingNotEnsuring(w, cfg, me);
    OthersAddNothing(w, cfg, me, me);
    var keys, errs := WorkloadsToDelete(ses.spec), DeleteChildren(w1, me, ses.spec).0;
    forall i | 0 <= i < |keys| && errs[i].None?
      ensures keys[i] !in OwnedBy(Reconcile(w, cfg, me).1, me)
    {
      RemovalKeepsFree(w2, ses, keys[i], me, p);
      FreeIsNotOwned(Reconcile(w, cfg, me).1, keys[i], me);
    }
  }

  lemma ReadingNotEnsuring(w: World, cfg: Config, me: Name)
    requires DeletePass(w, me)
    ensures !EnsurePass(w, cfg, me)
  {
  }

  lemma FreeIsNotOwned(w: World, key: Key, me: Name)
    requires Free(w, key, me)
    ensures key !in OwnedBy(w, me)
  {
  }
}
