/** What holds in every run of the operator, under every schedule. */
module Safety {
  import opened Api
  import opened RetryableError
  import opened Conditions
  import opened Validation
  import opened Server
  import opened Evolution
  import opened Objects
  import opened StatusSync
  import opened Controller
  import opened Passes
  import Slice

  // ----- who else is there -----

  predicate OtherInNs(all: map<Name, Sesame>, me: Name, ns: string) {
    exists n | n in all :: n != me && all[n].spec.namespace == ns
  }

  predicate OtherAnywhere(all: map<Name, Sesame>, me: Name) {
    exists n | n in all :: n != me
  }

  /** The only Sesame there is has the name asked for, in another namespace. */
  predicate Misleading(all: map<Name, Sesame>, me: Name) {
    |all| == 1 && exists n | n in all :: n.name == me.name && n.ns != me.ns
  }

  /** What a list that is not misleading shows. */
  predicate ShowsOtherInNs(all: map<Name, Sesame>, me: Name, ns: string) {
    OtherInNs(all, me, ns) && !Misleading(all, me)
  }

  predicate ShowsOther(all: map<Name, Sesame>, me: Name) {
    OtherAnywhere(all, me) && !Misleading(all, me)
  }

  /** The existence checks answer correctly except on a misleading list, which they take for nobody. */
  lemma OthersExistIsExactIff(all: map<Name, Sesame>, me: Name, ns: string)
    ensures (OthersExist(all, me) <==> OtherAnywhere(all, me)) <==> !Misleading(all, me)
    ensures OthersExist(all, me) <==> ShowsOther(all, me)
    ensures OthersInSpecNs(all, me, ns) <==> ShowsOtherInNs(all, me, ns)
    ensures me in all ==> !Misleading(all, me)
  {
    if all != map[] {
      var n :| n in all;
      if |all| == 1 {
        OnlyOne(all, n);
      } else {
        var rest := all.Keys - {me};
        assert all.Keys == if me in all then rest + {me} else rest;
        var m :| m in rest;
      }
    }
  }

  lemma OnlyOne(all: map<Name, Sesame>, n: Name)
    requires |all| == 1 && n in all
    ensures all.Keys == {n}
  {
    var rest := all.Keys - {n};
    assert all.Keys == rest + {n};
    assert |rest| == 0;
  }

  /** With the asking Sesame in the list they are exact. */
  lemma OthersAreExact(all: map<Name, Sesame>, me: Name, ns: string)
    requires me in all
    ensures OthersExist(all, me) == OtherAnywhere(all, me)
    ensures OthersInSpecNs(all, me, ns) == OtherInNs(all, me, ns)
  {
    OthersExistIsExactIff(all, me, ns);
  }

  // ----- the invariant -----

  /** A Service, DaemonSet, Deployment, Job or ConfigMap with owner labels belongs to a Sesame that
      exists, holds the finalizer, and has the object's namespace as spec namespace. */
  ghost predicate NoOrphans(w: World) {
    forall k | k in w.children && WorkloadKind(k.kind) && Owner(w.children[k]).Some? ::
      var n := Owner(w.children[k]).value;
      n in w.sesames && Finalized(w.sesames[n]) && k in WorkloadKeys(w.sesames[n].spec.namespace)
  }

  /** All owned workloads of one namespace have the same owner. */
  ghost predicate SingleOwner(w: World) {
    forall k, l | k in w.children && l in w.children && WorkloadKind(k.kind) && WorkloadKind(l.kind) && k.ns == l.ns
                  && Owner(w.children[k]).Some? && Owner(w.children[l]).Some? ::
      Owner(w.children[k]) == Owner(w.children[l])
  }

  ghost predicate Safe(w: World) {
    Sound(w) && NoOrphans(w) && SingleOwner(w)
  }

  /** Any cluster in which no workload carries owner labels yet is a place to start. */
  lemma UnownedWorkloadsAreSafe(w: World)
    requires Sound(w) && forall k | k in w.children && WorkloadKind(k.kind) :: Owner(w.children[k]).None?
    ensures Safe(w)
  {
  }

  lemma ManagedWorkload(ns: string, k: Key)
    ensures k in ManagedKeys(ns) && WorkloadKind(k.kind) ==> k in WorkloadKeys(ns)
    ensures k in WorkloadKeys(ns) ==> k.ns == ns && WorkloadKind(k.kind)
  {
  }

  /** `me` is the one Sesame of namespace `ns`, and holds the finalizer. */
  predicate Sole(w: World, me: Name, ns: string) {
    && me in w.sesames && Finalized(w.sesames[me]) && w.sesames[me].spec.namespace == ns
    && forall n | n in w.sesames && n != me :: w.sesames[n].spec.namespace != ns
  }

  lemma EvolvesKeepsNoOrphans(w: World, w': World, ns: string, p: Pass)
    requires Safe(w) && Evolves(w, w', p)
    requires p.writes == {} || (p.writes <= ManagedKeys(ns) && Sole(w, p.me, ns))
    ensures NoOrphans(w')
  {
    hide Sound, WorkloadKeys, ManagedKeys, WorkloadKind, Owner, Proper, Versioned;
    forall k | k in w'.children && WorkloadKind(k.kind) && Owner(w'.children[k]).Some?
      ensures var n := Owner(w'.children[k]).value;
        n in w'.sesames && Finalized(w'.sesames[n]) && k in WorkloadKeys(w'.sesames[n].spec.namespace)
    {
      ManagedWorkload(ns, k);
      assert (k in w.children && Owner(w.children[k]) == Owner(w'.children[k]))
             || (k in p.writes && Owner(w'.children[k]) == Some(p.me));
    }
  }

  /** Validation keeps any second Sesame of a namespace from writing there. */
  lemma EvolvesKeepsSingleOwner(w: World, w': World, ns: string, p: Pass)
    requires Safe(w) && Evolves(w, w', p)
    requires p.writes == {} || (p.writes <= ManagedKeys(ns) && Sole(w, p.me, ns))
    ensures SingleOwner(w')
  {
    hide Sound, WorkloadKeys, ManagedKeys, WorkloadKind, Owner, Proper, Versioned, Holds;
    forall k | k in w'.children && WorkloadKind(k.kind) && Owner(w'.children[k]).Some?
      ensures || (k in w.children && Owner(w.children[k]) == Owner(w'.children[k]) && (p.writes == {} || k.ns != ns))
              || (p.writes != {} && k.ns == ns && Owner(w'.children[k]) == Some(p.me))
    {
      ManagedWorkload(ns, k);
      assert (k in w.children && Owner(w.children[k]) == Owner(w'.children[k]))
             || (k in p.writes && Owner(w'.children[k]) == Some(p.me));
      if k in w.children && Owner(w.children[k]) == Owner(w'.children[k]) && k.ns == ns && p.writes != {} {
        var n := Owner(w.children[k]).value;
        ManagedWorkload(w.sesames[n].spec.namespace, k);
        assert n == p.me;
      }
    }
  }

  lemma EvolvesKeepsSafe(w: World, w': World, ns: string, p: Pass)
    requires Safe(w) && Evolves(w, w', p)
    requires p.writes == {} || (p.writes <= ManagedKeys(ns) && Sole(w, p.me, ns))
    ensures Safe(w')
  {
    EvolvesIsSound(w, w', p);
    EvolvesKeepsNoOrphans(w, w', ns, p);
    EvolvesKeepsSingleOwner(w, w', ns, p);
  }

  // ----- the finalizer -----

  lemma AddFinalizerEvolves(w0: World, w: World, ses: Sesame, p: Pass)
    requires Sound(w) && Sound(w0) && Versioned(w0, w) && p.me in w0.sesames && w0.sesames[p.me] == ses
    ensures Evolves(w, AddFinalizer(w, p.me, ses).1, p)
  {
    hide Begin, Evolves, StoreSesame, UniqueTypes;
    EvolvesStays(w, p);
    if !Finalized(ses) {
      var w1 := Begin(w).1;
      BeginEvolves(w, p);
      EvolvesIsSound(w, w1, p);
      EvolvesVersions(w, w1, p);
      if AddFinalizer(w, p.me, ses).1 != w1 {
        SnapshotIsCurrent(w0, w, w1, p.me, ses);
        var updated := ses.(finalizers := ses.finalizers + [FINALIZER]);
        StoreSesameEvolves(w1, p.me, updated, p);
        EvolvesTransitive(w, w1, StoreSesame(w1, p.me, updated), p);
        RecordEvolves(w, StoreSesame(w1, p.me, updated), WroteFinalizers(p.me, ses, updated.finalizers), p);
      }
    }
  }

  /** A Sesame found under the version read earlier is the Sesame read earlier. */
  lemma SnapshotIsCurrent(w0: World, w: World, w1: World, me: Name, ses: Sesame)
    requires Sound(w0) && Versioned(w0, w) && Versioned(w, w1) && me in w0.sesames && w0.sesames[me] == ses
    requires me in w1.sesames && w1.sesames[me].version == ses.version
    ensures w1.sesames[me] == ses && SoundSesame(ses, w1.next)
  {
    assert SoundSesame(ses, w0.next);
    SameVersionSameSesame(w, w1, me);
    SameVersionSameSesame(w0, w, me);
  }

  /** What removing the finalizer does: at most one write, of a Sesame unchanged since it was read. */
  lemma RemoveFinalizerEffect(w0: World, w: World, ses: Sesame, p: Pass)
    requires Sound(w) && Sound(w0) && Versioned(w0, w) && p.me in w0.sesames && w0.sesames[p.me] == ses
    ensures var w' := RemoveFinalizer(w, p.me, ses).1;
      exists w1 ::
        && Evolves(w, w1, p) && w1.log == w.log
        && (w' == w1
            || (p.me in w1.sesames && w1.sesames[p.me] == ses
                && var fs := Slice.Without(ses.finalizers, FINALIZER);
                   w' == Record(StoreSesame(w1, p.me, ses.(finalizers := fs)), WroteFinalizers(p.me, ses, fs))))
  {
    hide Begin, Evolves, StoreSesame;
    EvolvesStays(w, p);
    if Finalized(ses) {
      var w1 := Begin(w).1;
      BeginFrame(w);
      BeginEvolves(w, p);
      EvolvesVersions(w, w1, p);
      if RemoveFinalizer(w, p.me, ses).1 != w1 {
        SnapshotIsCurrent(w0, w, w1, p.me, ses);
      }
      assert Evolves(w, w1, p) && w1.log == w.log;
    }
  }

  lemma StoreUnfinalized(w: World, me: Name, ses: Sesame, e: Event)
    requires Sound(w) && me in w.sesames && w.sesames[me] == ses
    ensures var w' := Record(StoreSesame(w, me, ses.(finalizers := Slice.Without(ses.finalizers, FINALIZER))), e);
      && Sound(w') && w'.children == w.children
      && forall n | n in w.sesames && n != me :: n in w'.sesames && w'.sesames[n] == w.sesames[n]
  {
    hide UniqueTypes, Slice.Without;
    var w' := Record(StoreSesame(w, me, ses.(finalizers := Slice.Without(ses.finalizers, FINALIZER))), e);
    assert SoundSesame(ses, w.next);
    assert forall n | n in w'.sesames :: SoundSesame(w'.sesames[n], w'.next);
  }

  /** The finalizer may go once the workloads have gone. */
  lemma UnfinalizedIsSafe(w: World, me: Name, ses: Sesame, e: Event)
    requires Safe(w) && me in w.sesames && w.sesames[me] == ses
    requires forall k | k in WorkloadKeys(ses.spec.namespace) :: Free(w, k, me)
    ensures Safe(Record(StoreSesame(w, me, ses.(finalizers := Slice.Without(ses.finalizers, FINALIZER))), e))
  {
    hide WorkloadKeys, WorkloadKind, Owner, Sound, StoreSesame;
    var w' := Record(StoreSesame(w, me, ses.(finalizers := Slice.Without(ses.finalizers, FINALIZER))), e);
    StoreUnfinalized(w, me, ses, e);
    forall k | k in w'.children && WorkloadKind(k.kind) && Owner(w'.children[k]).Some?
      ensures var n := Owner(w'.children[k]).value;
        n in w'.sesames && Finalized(w'.sesames[n]) && k in WorkloadKeys(w'.sesames[n].spec.namespace)
    {
      var n := Owner(w.children[k]).value;
      assert n != me;
    }
  }

  // ----- a whole reconcile -----

  predicate DeletePass(w: World, me: Name) {
    var r := GetSesame(w, me).0;
    r.Ok? && r.value.deleting
  }

  predicate EnsurePass(w: World, cfg: Config, me: Name) {
    var (r, w1) := GetSesame(w, me);
    r.Ok? && !r.value.deleting && Finalized(r.value) && Validate(w1, cfg, me, r.value.spec).0.None?
  }

  /** Where the reconciled Sesame keeps its children. */
  function KeysOf(w: World, me: Name): set<Key> {
    var r := GetSesame(w, me).0;
    if r.Ok? then ManagedKeys(r.value.spec.namespace) else {}
  }

  lemma ReadEvolves(w: World, p: Pass)
    requires Sound(w)
    ensures var (r, w1) := GetSesame(w, p.me);
      && Evolves(w, w1, p) && Sound(w1) && w1.log == w.log
      && (r.Ok? ==> p.me in w1.sesames && w1.sesames[p.me] == r.value && SoundSesame(r.value, w1.next))
  {
    hide Begin, Evolves;
    BeginFrame(w);
    BeginEvolves(w, p);
    EvolvesIsSound(w, GetSesame(w, p.me).1, p);
  }

  lemma ValidateEvolves(w: World, cfg: Config, spec: Spec, p: Pass)
    requires Sound(w)
    ensures var (v, w1) := Validate(w, cfg, p.me, spec);
      && Evolves(w, w1, p) && Sound(w1) && w1.log == w.log
      && (v.None? && p.me in w.sesames && Finalized(w.sesames[p.me]) && w.sesames[p.me].spec == spec ==>
            Sole(w1, p.me, spec.namespace))
  {
    hide Begin, Evolves, SpecError, OthersInSpecNs;
    BeginFrame(w);
    BeginEvolves(w, p);
    var w1 := Validate(w, cfg, p.me, spec).1;
    EvolvesIsSound(w, w1, p);
    EvolvesVersions(w, w1, p);
    if p.me in w1.sesames {
      OthersAreExact(w1.sesames, p.me, spec.namespace);
    }
  }

  /** Reconciling, when the Sesame is not being deleted. */
  lemma ReconcileEvolves(w: World, cfg: Config, me: Name)
    requires Sound(w) && !DeletePass(w, me)
    ensures EnsurePass(w, cfg, me) ==>
              Evolves(w, Reconcile(w, cfg, me).1, Pass(me, KeysOf(w, me), KeysOf(w, me)))
    ensures !EnsurePass(w, cfg, me) ==> Evolves(w, Reconcile(w, cfg, me).1, Pass(me, {}, {}))
  {
    hide Begin, Evolves, Validate, EnsureSesame, AddFinalizer, ManagedKeys, EnsureSesameDeleted, Sound,
      SoundSesame;
    var keys := if EnsurePass(w, cfg, me) then KeysOf(w, me) else {};
    var p := Pass(me, keys, keys);
    var (r, w1) := GetSesame(w, me);
    ReadEvolves(w, p);
    if r.Ok? {
      var ses := r.value;
      var (v, w2) := Validate(w1, cfg, me, ses.spec);
      ValidateEvolves(w1, cfg, ses.spec, p);
      EvolvesTransitive(w, w1, w2, p);
      if v.None? {
        if Finalized(ses) {
          EnsureSesameEvolves(w2, cfg, ses.spec, p);
          EvolvesTransitive(w, w2, EnsureSesame(w2, cfg, me, ses.spec).1, p);
        } else {
          EvolvesVersions(w1, w2, p);
          AddFinalizerEvolves(w1, w2, ses, p);
          EvolvesTransitive(w, w2, AddFinalizer(w2, me, ses).1, p);
        }
      }
    }
  }

  /** Reconciling a Sesame that is being deleted: the children, then perhaps the finalizer. */
  lemma DeletePassEvolves(w: World, cfg: Config, me: Name) returns (w1: World, ses: Sesame, w2: World)
    requires Sound(w) && DeletePass(w, me)
    ensures (Ok(ses), w1) == GetSesame(w, me) && w2 == DeleteChildren(w1, me, ses.spec).1
    ensures var p := Pass(me, {}, KeysOf(w, me));
      && Evolves(w, w1, p) && Evolves(w1, w2, p)
      && me in w1.sesames && w1.sesames[me] == ses
    ensures var errs := DeleteChildren(w1, me, ses.spec).0;
      && Reconcile(w, cfg, me).1 == (if NonNil(errs) == [] then RemoveFinalizer(w2, me, ses).1 else w2)
      && (NonNil(errs) == [] ==> forall k | k in WorkloadKeys(ses.spec.namespace) :: Free(w2, k, me))
      && |WorkloadsToDelete(ses.spec)| <= |errs|
      && forall i | 0 <= i < |WorkloadsToDelete(ses.spec)| && errs[i].None? ::
           Free(w2, WorkloadsToDelete(ses.spec)[i], me)
  {
    hide Begin, Evolves, ManagedKeys, DeleteChildren, RemoveFinalizer, WorkloadKeys, Sound;
    var p := Pass(me, {}, KeysOf(w, me));
    var r;
    r, w1 := GetSesame(w, me).0, GetSesame(w, me).1;
    ses := r.value;
    ReadEvolves(w, p);
    DeleteChildrenEvolves(w1, ses.spec, p);
    w2 := DeleteChildren(w1, me, ses.spec).1;
  }

  /** No orphans and a single owner per namespace, across one reconcile: whatever calls fail, whatever
      the other actors do, and wherever the pass stops. */
  lemma ReconcileKeepsSafe(w: World, cfg: Config, me: Name)
    requires Safe(w)
    ensures Safe(Reconcile(w, cfg, me).1)
  {
    hide Evolves, Reconcile, DeleteChildren, RemoveFinalizer, ManagedKeys, WorkloadKeys, NoOrphans, SingleOwner,
      Sound,
      Free, Validate, DeletePass;
    if DeletePass(w, me) {
      var w1, ses, w2 := DeletePassEvolves(w, cfg, me);
      var p := Pass(me, {}, KeysOf(w, me));
      EvolvesKeepsSafe(w, w1, "", p);
      EvolvesKeepsSafe(w1, w2, "", p);
      if NonNil(DeleteChildren(w1, me, ses.spec).0) == [] {
        FinalizerRemovalIsSafe(w1, w2, ses, p);
      }
    } else if EnsurePass(w, cfg, me) {
      EnsurePassIsSafe(w, cfg, me);
    } else {
      ReconcileEvolves(w, cfg, me);
      EvolvesKeepsSafe(w, Reconcile(w, cfg, me).1, "", Pass(me, {}, {}));
    }
  }

  lemma FinalizerRemovalIsSafe(w1: World, w2: World, ses: Sesame, p: Pass)
    requires Safe(w2) && Sound(w1) && Evolves(w1, w2, p) && p.writes == {}
    requires p.me in w1.sesames && w1.sesames[p.me] == ses
    requires forall k | k in WorkloadKeys(ses.spec.namespace) :: Free(w2, k, p.me)
    ensures Safe(RemoveFinalizer(w2, p.me, ses).1)
  {
    hide Evolves, WorkloadKeys, NoOrphans, SingleOwner, Sound, Free, RemoveFinalizer, StoreSesame;
    EvolvesIsSound(w1, w2, p);
    EvolvesVersions(w1, w2, p);
    RemoveFinalizerEffect(w1, w2, ses, p);
    var w' := RemoveFinalizer(w2, p.me, ses).1;
    var fs := Slice.Without(ses.finalizers, FINALIZER);
    var w3 :|
      && Evolves(w2, w3, p) && w3.log == w2.log
      && (w' == w3
          || (p.me in w3.sesames && w3.sesames[p.me] == ses
              && w' == Record(StoreSesame(w3, p.me, ses.(finalizers := fs)), WroteFinalizers(p.me, ses, fs))));
    EvolvesKeepsSafe(w2, w3, "", p);
    if w' != w3 {
      forall k | k in WorkloadKeys(ses.spec.namespace)
        ensures Free(w3, k, p.me)
      {
        FreeLasts(w2, w3, k, p.me, p);
      }
      UnfinalizedIsSafe(w3, p.me, ses, WroteFinalizers(p.me, ses, fs));
    }
  }

  lemma EnsurePassIsSafe(w: World, cfg: Config, me: Name)
    requires Safe(w) && EnsurePass(w, cfg, me)
    ensures Safe(Reconcile(w, cfg, me).1)
  {
    hide Evolves, ManagedKeys, NoOrphans, SingleOwner, Validate, EnsureSesame, Begin, Sound, Sole;
    var keys := KeysOf(w, me);
    var p := Pass(me, keys, keys);
    var q := Pass(me, {}, {});
    var (r, w1) := GetSesame(w, me);
    ReadEvolves(w, q);
    ReadEvolves(w, p);
    EvolvesKeepsSafe(w, w1, "", q);
    var w2 := Validate(w1, cfg, me, r.value.spec).1;
    ValidateEvolves(w1, cfg, r.value.spec, q);
    ValidateEvolves(w1, cfg, r.value.spec, p);
    EvolvesKeepsSafe(w1, w2, "", q);
    EnsureSesameEvolves(w2, cfg, r.value.spec, p);
    EvolvesKeepsSafe(w2, EnsureSesame(w2, cfg, me, r.value.spec).1, r.value.spec.namespace, p);
  }

  /** The safety theorem: in every run from a safe cluster, no workload is orphaned and no namespace
      has two owners. */
  lemma {:induction false} RunIsSafe(w: World, cfg: Config, requests: seq<Name>)
    requires Safe(w)
    ensures Safe(Run(w, cfg, requests))
    decreases |requests|
  {
    hide Reconcile, Safe;
    if requests != [] {
      var n := |requests| - 1;
      RunIsSafe(w, cfg, requests[..n]);
      ReconcileKeepsSafe(Run(w, cfg, requests[..n]), cfg, requests[n]);
    }
  }
}
