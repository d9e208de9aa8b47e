/** Undisturbed ensure passes bring every managed child to what is desired, and then stop writing.

    The store keeps objects as they are written. */
module Convergence {
  import opened Api
  import opened RetryableError
  import opened Equality
  import opened Conditions
  import opened Desired
  import opened Validation
  import opened Server
  import opened Evolution
  import opened Objects
  import opened StatusSync
  import opened Controller
  import opened Passes
  import opened Safety

  /** What the operator means to write: labelled as its Sesame's, without a version. */
  predicate Wellformed(want: Wanted, me: Name) {
    && Owned(want.desired, me) && want.desired.meta.version == 0 && WellFormedDesired(want.desired)
  }

  /** If owned, of the right kind, and not the one comparison that panics. */
  predicate Adoptable(w: World, me: Name, want: Wanted) {
    want.key in w.children && Owned(w.children[want.key], me) ==>
      var o := w.children[want.key];
      SameShape(o, want.desired) && !Compare(want.envoy, o, want.desired).Panics?
  }

  /** Under the child's key there is an object the Sesame does not own. */
  predicate Taken(w: World, me: Name, want: Wanted) {
    want.key in w.children && !Owned(w.children[want.key], me)
  }

  /** There, and equal to what is desired in every compared field. */
  predicate Settled(w: World, me: Name, want: Wanted) {
    && want.key in w.children
    && var o := w.children[want.key];
       && Owned(o, me) && SameShape(o, want.desired)
       && !SelectorsDiffer(o, want.desired) && Compare(want.envoy, o, want.desired).Same?
  }

  /** Nothing left to do: settled, or not the operator's to touch. */
  predicate Done(w: World, me: Name, want: Wanted) {
    Settled(w, me, want) || Taken(w, me, want)
  }

  /** A child whose selector has to change, which takes a deleting and a creating pass. */
  predicate Misselected(w: World, me: Name, want: Wanted) {
    && want.key in w.children && Owned(w.children[want.key], me)
    && SelectorsDiffer(w.children[want.key], want.desired)
  }

  /** One child after one undisturbed pass over it. */
  predicate Progressed(w: World, w': World, me: Name, want: Wanted) {
    if Taken(w, me, want) then want.key in w'.children && w'.children[want.key] == w.children[want.key]
    else if Misselected(w, me, want) then want.key !in w'.children
    else Settled(w', me, want)
  }

  ghost predicate SameBut(w: World, w': World, keys: set<Key>) {
    && w.schedule == [] == w'.schedule && w'.sesames == w.sesames && w'.time == w.time && Sound(w')
    && (forall k | k !in keys :: (k in w'.children <==> k in w.children)
                                 && (k in w.children ==> w'.children[k] == w.children[k]))
    && (forall k | k !in keys :: (k in w'.workloads <==> k in w.workloads)
                                 && (k in w.workloads ==> w'.workloads[k] == w.workloads[k]))
  }

  /** One undisturbed ensure. */
  lemma QuietEnsure(w: World, cfg: Config, me: Name, want: Wanted)
    requires Sound(w) && w.schedule == [] && Wellformed(want, me) && Adoptable(w, me, want)
    ensures var (e, w') := Ensure(w, cfg, me, want);
      e.None? && SameBut(w, w', {want.key}) && Progressed(w, w', me, want)
      && (Done(w, me, want) ==> w' == w)
  {
    hide Begin, Compare, SelectorsDiffer, Owned, SameShape, WellFormedDesired, Recreate, DeleteOwned, CreateChild,
      UpdateChild;
    BeginFrame(w);
    if want.key !in w.children {
      QuietCreate(w, me, want, want.desired);
    } else {
      var o := w.children[want.key];
      if !Owned(o, me) {
        QuietLeave(w, cfg, me, want);
      } else if SelectorsDiffer(o, want.desired) {
        SelectorsAreDifferent(want.envoy, o, want.desired);
        QuietDrop(w, me, want.key);
      } else if Compare(want.envoy, o, want.desired).Differs? {
        var u := Compare(want.envoy, o, want.desired).updated;
        UpdateKeepsOwner(want.envoy, o, want.desired, me);
        UpdateVersion(want.envoy, o, want.desired);
        UpdateIsFixedPoint(want.envoy, o, want.desired, w.next);
        if want.desired.body.JobBody? {
          QuietRecreate(w, me, want, u, 1 + cfg.extraJobAttempts);
        } else {
          QuietUpdate(w, me, want, u);
        }
      }
    }
  }

  /** What the Sesame does not own is passed over, and that is no error. */
  lemma QuietLeave(w: World, cfg: Config, me: Name, want: Wanted)
    requires w.schedule == [] && Taken(w, me, want)
    ensures Ensure(w, cfg, me, want) == (None, w)
  {
    hide Begin, Compare, SelectorsDiffer, Owned;
    BeginFrame(w);
  }

  /** So the RBAC objects a deleted Sesame left behind stay labelled for it: the pass of the Sesame that
      shares the namespace skips them and returns nil. */
  lemma OrphanedRbacIsSkipped(w: World, cfg: Config, gone: Name, me: Name, ns: string, i: nat)
    requires w.schedule == [] && gone != me && i < |RbacWanted(me, ns)|
    requires RbacWanted(me, ns)[i].key in w.children && Owned(w.children[RbacWanted(me, ns)[i].key], gone)
    ensures Ensure(w, cfg, me, RbacWanted(me, ns)[i]) == (None, w)
  {
    hide Ensure, RbacWanted;
    QuietLeave(w, cfg, me, RbacWanted(me, ns)[i]);
  }

  lemma StampKeeps(o: Object, v: nat, me: Name)
    ensures Owned(Stamp(o, v), me) == Owned(o, me)
  {
  }

  /** Storing `o` settles the child, if `o` does. */
  lemma StoreSettles(w: World, me: Name, want: Wanted, o: Object)
    requires Sound(w) && w.schedule == [] && Owned(o, me)
    requires var s := Stamp(o, w.next);
      SameShape(s, want.desired) && !SelectorsDiffer(s, want.desired) && Compare(want.envoy, s, want.desired).Same?
    ensures var w' := StoreChild(w, want.key, o);
      SameBut(w, w', {want.key}) && Settled(w', me, want)
  {
    hide Compare, SelectorsDiffer, Owned, SameShape;
    StampKeeps(o, w.next, me);
    StoreChildIsSound(w, want.key, o);
  }

  lemma QuietCreate(w: World, me: Name, want: Wanted, o: Object)
    requires Sound(w) && w.schedule == [] && want.key !in w.children
    requires o == want.desired && Wellformed(want, me)
    ensures var (c, w') := CreateChild(w, want.key, o);
      c.None? && SameBut(w, w', {want.key}) && Settled(w', me, want)
  {
    hide Begin, Compare, SelectorsDiffer, Owned, SameShape, WellFormedDesired;
    BeginFrame(w);
    CreatedMatches(want.envoy, want.desired, w.next);
    StoreSettles(w, me, want, o);
  }

  lemma QuietDrop(w: World, me: Name, key: Key)
    requires Sound(w) && w.schedule == [] && key in w.children && Owned(w.children[key], me)
    ensures var (e, w') := DeleteOwned(w, me, key);
      e.None? && SameBut(w, w', {key}) && key !in w'.children
  {
    hide Begin, Owned;
    BeginFrame(w);
  }

  lemma QuietUpdate(w: World, me: Name, want: Wanted, u: Object)
    requires Sound(w) && w.schedule == [] && want.key in w.children && Owned(u, me)
    requires u.meta.version == 0 || u.meta.version == w.children[want.key].meta.version
    requires var s := Stamp(u, w.next);
      SameShape(s, want.desired) && !SelectorsDiffer(s, want.desired) && Compare(want.envoy, s, want.desired).Same?
    ensures var (c, w') := UpdateChild(w, want.key, u);
      c.None? && SameBut(w, w', {want.key}) && Settled(w', me, want)
  {
    hide Begin, Compare, SelectorsDiffer, Owned, SameShape;
    BeginFrame(w);
    StoreSettles(w, me, want, u);
  }

  lemma QuietRecreate(w: World, me: Name, want: Wanted, u: Object, tries: nat)
    requires Sound(w) && w.schedule == [] && want.key in w.children && Owned(u, me) && tries > 0
    requires var s := Stamp(u, w.next);
      SameShape(s, want.desired) && !SelectorsDiffer(s, want.desired) && Compare(want.envoy, s, want.desired).Same?
    ensures var (c, w') := Recreate(w, want.key, u, tries);
      c.None? && SameBut(w, w', {want.key}) && Settled(w', me, want)
  {
    hide Begin, Compare, SelectorsDiffer, Owned, SameShape;
    BeginFrame(w);
    var w1 := DeleteChild(w, want.key).1;
    BeginFrame(w1);
    StoreSettles(w1, me, want, u);
  }

  lemma SelectorsAreDifferent(envoy: Option<PublishingType>, current: Object, desired: Object)
    requires SelectorsDiffer(current, desired)
    ensures !Compare(envoy, current, desired).Same?
  {
  }

  // ----- lists of children -----

  predicate Distinct(wants: seq<Wanted>) {
    forall i, j | 0 <= i < j < |wants| :: wants[i].key != wants[j].key
  }

  function KeysWanted(wants: seq<Wanted>): set<Key> {
    set i | 0 <= i < |wants| :: wants[i].key
  }

  predicate AllWellformed(wants: seq<Wanted>, me: Name) {
    forall i | 0 <= i < |wants| :: Wellformed(wants[i], me)
  }

  predicate AllAdoptable(w: World, me: Name, wants: seq<Wanted>) {
    forall i | 0 <= i < |wants| :: Adoptable(w, me, wants[i])
  }

  predicate AllDone(w: World, me: Name, wants: seq<Wanted>) {
    forall i | 0 <= i < |wants| :: Done(w, me, wants[i])
  }

  predicate AllProgressed(w: World, w': World, me: Name, wants: seq<Wanted>) {
    forall i | 0 <= i < |wants| :: Progressed(w, w', me, wants[i])
  }

  /** A child's state depends on nothing but the object under its key. */
  lemma SameObject(w: World, w': World, me: Name, want: Wanted)
    requires want.key in w.children <==> want.key in w'.children
    requires want.key in w.children ==> w.children[want.key] == w'.children[want.key]
    ensures Adoptable(w, me, want) == Adoptable(w', me, want)
    ensures Settled(w, me, want) == Settled(w', me, want) && Done(w, me, want) == Done(w', me, want)
    ensures Misselected(w, me, want) == Misselected(w', me, want) && Taken(w, me, want) == Taken(w', me, want)
  {
    hide Compare, SelectorsDiffer, Owned, SameShape;
  }

  lemma {:induction false} QuietEnsureAll(w: World, cfg: Config, me: Name, wants: seq<Wanted>)
    requires Sound(w) && w.schedule == [] && Distinct(wants)
    requires AllWellformed(wants, me) && AllAdoptable(w, me, wants)
    ensures var (results, w') := EnsureAll(w, cfg, me, wants);
      && (forall i | 0 <= i < |results| :: results[i].None?)
      && EnsureUntilError(w, cfg, me, wants) == (None, w')
      && SameBut(w, w', KeysWanted(wants)) && AllProgressed(w, w', me, wants)
      && (AllDone(w, me, wants) ==> w' == w)
    decreases |wants|
  {
    hide Ensure, Settled, Adoptable, Wellformed, Misselected, Done, Sound, Owned;
    if wants != [] {
      var (e, w1) := Ensure(w, cfg, me, wants[0]);
      var rest := wants[1..];
      assert forall i | 0 <= i < |rest| :: rest[i] == wants[i + 1];
      assert forall i | 1 <= i < |wants| :: wants[i] == rest[i - 1];
      QuietEnsure(w, cfg, me, wants[0]);
      forall i | 0 <= i < |rest|
        ensures Adoptable(w1, me, rest[i]) && Done(w, me, rest[i]) == Done(w1, me, rest[i])
                && Misselected(w1, me, rest[i]) == Misselected(w, me, rest[i])
                && Taken(w1, me, rest[i]) == Taken(w, me, rest[i])
      {
        assert wants[i + 1].key != wants[0].key;
        SameObject(w, w1, me, rest[i]);
      }
      QuietEnsureAll(w1, cfg, me, rest);
      var w' := EnsureAll(w1, cfg, me, rest).1;
      SplitKeys(wants);
      assert wants[0].key !in KeysWanted(rest);
      SameObject(w1, w', me, wants[0]);
    }
  }

  lemma SplitKeys(wants: seq<Wanted>)
    requires wants != []
    ensures KeysWanted(wants) == {wants[0].key} + KeysWanted(wants[1..])
  {
    forall k | k in KeysWanted(wants)
      ensures k in {wants[0].key} + KeysWanted(wants[1..])
    {
      var i :| 0 <= i < |wants| && wants[i].key == k;
      if i > 0 { assert wants[1..][i - 1].key == k; }
    }
    forall k | k in KeysWanted(wants[1..])
      ensures k in KeysWanted(wants)
    {
      var i :| 0 <= i < |wants[1..]| && wants[1..][i].key == k;
      assert wants[i + 1].key == k;
    }
  }

  /** Running until the first error, when there is none, is running everything. */
  lemma {:induction false} UntilErrorIsAll(w: World, cfg: Config, me: Name, wants: seq<Wanted>)
    requires EnsureUntilError(w, cfg, me, wants).0.None?
    ensures var (results, w') := EnsureAll(w, cfg, me, wants);
      && EnsureUntilError(w, cfg, me, wants) == (None, w')
      && forall i | 0 <= i < |results| :: results[i].None?
    decreases |wants|
  {
    hide Ensure;
    if wants != [] {
      UntilErrorIsAll(Ensure(w, cfg, me, wants[0]).1, cfg, me, wants[1..]);
    }
  }

  // ----- all the children of a Sesame -----

  /** Everything an ensure pass goes through, in order. */
  function AllWanted(cfg: Config, me: Name, spec: Spec): seq<Wanted> {
    [NamespaceWanted(me, spec.namespace)] + (RbacWanted(me, spec.namespace) + WorkloadsWanted(cfg, me, spec))
  }

  lemma WantedAreDistinct(cfg: Config, me: Name, spec: Spec)
    ensures Distinct(AllWanted(cfg, me, spec))
  {
    hide SesameConfigMap, CertgenJob, SesameDeployment, EnvoyDaemonSet, SesameService, EnvoyServiceObject;
    assert |SESAME| != |ENVOY| && |CERTGEN| != |SESAME| && |CERTGEN| != |ENVOY|;
  }

  lemma WantedAreWellformed(cfg: Config, me: Name, spec: Spec)
    ensures AllWellformed(AllWanted(cfg, me, spec), me)
  {
    hide SesameConfigMap, CertgenJob, SesameDeployment, EnvoyDaemonSet, SesameService, EnvoyServiceObject, Wellformed;
    var ns := spec.namespace;
    RbacIsWellformed(me, ns);
    ServicesAreWellformed(me, spec);
    WorkloadsAreWellformed(cfg, me, spec);
    var early, late := [NamespaceWanted(me, ns)] + RbacWanted(me, ns), WorkloadsWanted(cfg, me, spec);
    assert AllWanted(cfg, me, spec) == early + late;
    assert AllWellformed(late, me);
  }

  lemma RbacIsWellformed(me: Name, ns: string)
    ensures AllWellformed([NamespaceWanted(me, ns)] + RbacWanted(me, ns), me)
  {
  }

  lemma ServicesAreWellformed(me: Name, spec: Spec)
    ensures Wellformed(EnvoyServiceWanted(me, spec), me)
    ensures Wellformed(Wanted(SesameServiceKey(spec.namespace), SesameService(me), None), me)
  {
  }

  lemma WorkloadsAreWellformed(cfg: Config, me: Name, spec: Spec)
    ensures Wellformed(Wanted(ConfigMapKey(spec.namespace), SesameConfigMap(cfg, me, spec), None), me)
    ensures Wellformed(Wanted(JobKey(spec.namespace), CertgenJob(cfg, me), None), me)
    ensures Wellformed(Wanted(DeploymentKey(spec.namespace), SesameDeployment(cfg, me, spec), None), me)
    ensures Wellformed(Wanted(DaemonSetKey(spec.namespace), EnvoyDaemonSet(cfg, me, spec), None), me)
  {
  }

  /** A valid Sesame with the finalizer, alone in its namespace, in an undisturbed cluster. Under its keys
      there may be anything, as long as its own objects are of the right kind. */
  ghost predicate Undisturbed(w: World, cfg: Config, me: Name) {
    && Sound(w) && w.schedule == []
    && me in w.sesames && !w.sesames[me].deleting
    && Sole(w, me, w.sesames[me].spec.namespace)
    && SpecError(cfg, w.sesames[me].spec).None?
    && AllAdoptable(w, me, AllWanted(cfg, me, w.sesames[me].spec))
  }

  /** The world when an undisturbed pass comes to its status sync. */
  function AfterChildren(w: World, cfg: Config, me: Name, spec: Spec): World {
    EnsureAll(w, cfg, me, AllWanted(cfg, me, spec)).1
  }

  lemma QuietEnsureSesame(w: World, cfg: Config, me: Name, spec: Spec)
    requires Sound(w) && w.schedule == [] && AllAdoptable(w, me, AllWanted(cfg, me, spec))
    ensures var w' := AfterChildren(w, cfg, me, spec);
      && EnsureSesame(w, cfg, me, spec).1 == Sync(w', me).world
      && (EnsureSesame(w, cfg, me, spec).0.None? <==> Sync(w', me).err.None?)
  {
    hide Ensure, EnsureAll, EnsureUntilError, Adoptable, Wellformed, NamespaceWanted, RbacWanted, WorkloadsWanted,
      Sync, Sound, Distinct, AllDone, AllProgressed, NonNil;
    var first, rbac, rest := NamespaceWanted(me, spec.namespace), RbacWanted(me, spec.namespace),
        WorkloadsWanted(cfg, me, spec);
    WantedAreDistinct(cfg, me, spec);
    WantedAreWellformed(cfg, me, spec);
    QuietEnsureAll(w, cfg, me, AllWanted(cfg, me, spec));
    var (n, w1) := Ensure(w, cfg, me, first);
    UntilErrorAppend(w, cfg, me, [first], rbac + rest);
    OneWanted(w, cfg, me, first);
    var (r, w2) := EnsureUntilError(w1, cfg, me, rbac);
    UntilErrorAppend(w1, cfg, me, rbac, rest);
    assert n.None? && r.None?;
    UntilErrorIsAll(w2, cfg, me, rest);
    var (results, w3) := EnsureAll(w2, cfg, me, rest);
    var errs := [None, None] + WrapAll("workload", results) + [Wrap("status", Sync(w3, me).err)];
    AllNil(errs);
    assert forall i | 2 <= i < |errs| - 1 :: errs[i] == Wrap("workload", results[i - 2]);
    assert errs[|errs| - 1] == Wrap("status", Sync(w3, me).err);
  }

  lemma OneWanted(w: World, cfg: Config, me: Name, want: Wanted)
    ensures EnsureUntilError(w, cfg, me, [want]) == Ensure(w, cfg, me, want)
  {
    hide Ensure;
    var (e, w1) := Ensure(w, cfg, me, want);
    assert [want][1..] == [];
    assert EnsureUntilError(w1, cfg, me, []) == (None, w1);
  }

  /** An undisturbed sync leaves all but the Sesame's status alone. */
  lemma QuietSyncKeeps(w: World, me: Name)
    requires Sound(w) && w.schedule == [] && me in w.sesames && Finalized(w.sesames[me])
    ensures var w' := Sync(w, me).world;
      && Sound(w') && w'.schedule == [] && w'.children == w.children && w'.workloads == w.workloads && w'.time == w.time
      && me in w'.sesames
      && w'.sesames[me] == w.sesames[me].(status := w'.sesames[me].status, version := w'.sesames[me].version)
      && forall n | n != me ::
           (n in w'.sesames <==> n in w.sesames) && (n in w.sesames ==> w'.sesames[n] == w.sesames[n])
  {
    hide Sync, NewStatus, Evolves;
    QuietSync(w, me);
    var p := Pass(me, {}, {});
    SyncEvolves(w, p);
    EvolvesIsSound(w, Sync(w, me).world, p);
  }

  /** With both workloads there, the sync has nothing to complain of. */
  lemma QuietSyncSucceeds(w: World, me: Name)
    requires w.schedule == [] && me in w.sesames
    requires DeploymentKey(w.sesames[me].spec.namespace) in w.children
    requires DaemonSetKey(w.sesames[me].spec.namespace) in w.children
    ensures Sync(w, me).err.None?
  {
    hide NewStatus, Begin;
    BeginFrame(w);
    AllNil([None, None]);
  }

  /** One undisturbed reconcile. */
  lemma QuietReconcile(w: World, cfg: Config, me: Name)
    requires Undisturbed(w, cfg, me)
    ensures var (outcome, w') := Reconcile(w, cfg, me);
      var wants := AllWanted(cfg, me, w.sesames[me].spec);
      var mid := AfterChildren(w, cfg, me, w.sesames[me].spec);
      && w' == Sync(mid, me).world && Sound(mid) && mid.schedule == []
      && (Sync(mid, me).err.None? ==> outcome == Outcome(None, None))
      && AllProgressed(w, w', me, wants)
      && (AllDone(w, me, wants) ==> mid == w)
      && Undisturbed(w', cfg, me) && w'.sesames[me].spec == w.sesames[me].spec
  {
    hide Begin, EnsureSesame, EnsureSesameDeleted, SpecError, OthersInSpecNs, AllWanted, EnsureAll,
      EnsureUntilError, Sync, Distinct, AllWellformed, Settled, Adoptable, Misselected, Sound;
    var spec := w.sesames[me].spec;
    var wants := AllWanted(cfg, me, spec);
    BeginFrame(w);
    OthersAreExact(w.sesames, me, spec.namespace);
    QuietEnsureSesame(w, cfg, me, spec);
    WantedAreDistinct(cfg, me, spec);
    WantedAreWellformed(cfg, me, spec);
    QuietEnsureAll(w, cfg, me, wants);
    var mid := AfterChildren(w, cfg, me, spec);
    QuietSyncKeeps(mid, me);
    var w' := Reconcile(w, cfg, me).1;
    forall i | 0 <= i < |wants|
      ensures Progressed(w, w', me, wants[i]) && Adoptable(w', me, wants[i])
    {
      assert Progressed(w, mid, me, wants[i]);
      SameObject(mid, w', me, wants[i]);
      ProgressedIsAdoptable(w, w', me, wants[i]);
    }
  }

  lemma ProgressedIsAdoptable(w: World, w': World, me: Name, want: Wanted)
    requires Progressed(w, w', me, want)
    ensures Adoptable(w', me, want) && !Misselected(w', me, want) && Taken(w', me, want) == Taken(w, me, want)
  {
    hide Compare, SelectorsDiffer, Owned, SameShape;
  }

  // ----- the theorem -----

  /** How many passes a child is away from what is desired. */
  function Distance(w: World, me: Name, want: Wanted): nat {
    if Done(w, me, want) then 0 else if Misselected(w, me, want) then 2 else 1
  }

  /** Each pass brings every child one step closer. */
  lemma DistanceFalls(w: World, cfg: Config, me: Name, i: nat)
    requires Undisturbed(w, cfg, me) && i < |AllWanted(cfg, me, w.sesames[me].spec)|
    ensures var want := AllWanted(cfg, me, w.sesames[me].spec)[i];
      var d := Distance(w, me, want);
      Distance(Reconcile(w, cfg, me).1, me, want) == if d == 0 then 0 else d - 1
  {
    hide Reconcile, Sync, EnsureAll, AllWanted, Sound, Sole, SpecError, AllAdoptable, Compare, SelectorsDiffer,
      Owned, SameShape;
    QuietReconcile(w, cfg, me);
    var want := AllWanted(cfg, me, w.sesames[me].spec)[i];
    ProgressedIsAdoptable(w, Reconcile(w, cfg, me).1, me, want);
    assert Progressed(w, Reconcile(w, cfg, me).1, me, want);
  }

  /** A child that was taken is as it was, and no other has become so. */
  predicate LeavesTaken(w: World, w': World, me: Name, want: Wanted) {
    && Taken(w', me, want) == Taken(w, me, want)
    && (Taken(w, me, want) ==> w'.children[want.key] == w.children[want.key])
  }

  lemma {:induction false} DistanceAfter(w: World, cfg: Config, me: Name, requests: seq<Name>)
    requires Undisturbed(w, cfg, me) && forall i | 0 <= i < |requests| :: requests[i] == me
    ensures var w' := Run(w, cfg, requests);
      var wants := AllWanted(cfg, me, w.sesames[me].spec);
      && Undisturbed(w', cfg, me) && w'.sesames[me].spec == w.sesames[me].spec
      && forall i | 0 <= i < |wants| ::
           var d := Distance(w, me, wants[i]);
           && Distance(w', me, wants[i]) == (if d <= |requests| then 0 else d - |requests|)
           && LeavesTaken(w, w', me, wants[i])
    decreases |requests|
  {
    hide Reconcile, AllWanted, EnsureAll, Sync, Distance, Sound, Sole, SpecError, AllAdoptable, AllDone, Settled,
      Misselected, Owned;
    if requests != [] {
      var before := Run(w, cfg, requests[..|requests| - 1]);
      DistanceAfter(w, cfg, me, requests[..|requests| - 1]);
      QuietReconcile(before, cfg, me);
      var w' := Run(w, cfg, requests);
      var wants := AllWanted(cfg, me, w.sesames[me].spec);
      forall i | 0 <= i < |wants|
        ensures var d := Distance(before, me, wants[i]);
          Distance(w', me, wants[i]) == (if d == 0 then 0 else d - 1) && LeavesTaken(w, w', me, wants[i])
      {
        DistanceFalls(before, cfg, me, i);
        assert Progressed(before, w', me, wants[i]);
        ProgressedIsAdoptable(before, w', me, wants[i]);
      }
    }
  }

  /** Of a Sesame that holds the finalizer. */
  lemma FinalizedConverges(w: World, cfg: Config, me: Name, requests: seq<Name>, later: int)
    requires Undisturbed(w, cfg, me) && forall i | 0 <= i < |requests| :: requests[i] == me
    ensures var wants := AllWanted(cfg, me, w.sesames[me].spec);
      var w' := Run(w, cfg, requests);
      && (AllDone(w', me, wants) <==> forall i | 0 <= i < |wants| :: Distance(w, me, wants[i]) <= |requests|)
      && (|requests| >= 2 ==> AllDone(w', me, wants) && ChildKeys(w.sesames[me].spec.namespace) <= w'.children.Keys)
      && (requests != [] ==> me in w'.sesames && Finalized(w'.sesames[me]))
      && (forall i | 0 <= i < |wants| :: LeavesTaken(w, w', me, wants[i]))
      && (requests != [] && AllDone(w', me, wants) ==>
            Reconcile(w'.(time := later), cfg, me) == (Outcome(None, None), w'.(time := later)))
  {
    hide Reconcile, AllWanted, EnsureAll, Sync, Done, Misselected, Sound, SpecError, AllAdoptable, Run,
        LeavesTaken, ChildKeys;
    var wants := AllWanted(cfg, me, w.sesames[me].spec);
    var w' := Run(w, cfg, requests);
    DistanceAfter(w, cfg, me, requests);
    assert forall i | 0 <= i < |wants| :: Done(w', me, wants[i]) <==> Distance(w', me, wants[i]) == 0;
    if |requests| >= 2 {
      AdmittedBySound(w, me);
      DoneAreThere(w', cfg, me, w.sesames[me].spec);
    }
    if requests != [] && AllDone(w', me, wants) {
      var before := Run(w, cfg, requests[..|requests| - 1]);
      DistanceAfter(w, cfg, me, requests[..|requests| - 1]);
      LastRequest(w, cfg, requests);
      SettledStays(before, w', cfg, me, later);
    }
  }

  lemma LastRequest(w: World, cfg: Config, requests: seq<Name>)
    requires requests != []
    ensures Run(w, cfg, requests) == Reconcile(Run(w, cfg, requests[..|requests| - 1]), cfg, requests[|requests| - 1]).1
  {
    hide Reconcile;
  }

  lemma {:induction false} FirstRequest(w: World, cfg: Config, requests: seq<Name>)
    requires requests != []
    ensures Run(w, cfg, requests) == Run(Reconcile(w, cfg, requests[0]).1, cfg, requests[1..])
    decreases |requests|
  {
    hide Reconcile;
    var w1 := Reconcile(w, cfg, requests[0]).1;
    LastRequest(w, cfg, requests);
    if |requests| == 1 {
      assert requests[..0] == [] && requests[1..] == [];
      assert Run(w, cfg, []) == w && Run(w1, cfg, []) == w1;
    } else {
      var init := requests[..|requests| - 1];
      FirstRequest(w, cfg, init);
      LastRequest(w1, cfg, requests[1..]);
      assert init[1..] == requests[1..][..|requests[1..]| - 1];
    }
  }

  // ----- from the first reconcile on -----

  /** A valid Sesame alone in its namespace, in an undisturbed cluster, with the finalizer or without. */
  ghost predicate Admissible(w: World, cfg: Config, me: Name) {
    && Sound(w) && w.schedule == []
    && me in w.sesames && !w.sesames[me].deleting
    && !OtherInNs(w.sesames, me, w.sesames[me].spec.namespace)
    && SpecError(cfg, w.sesames[me].spec).None?
    && AllAdoptable(w, me, AllWanted(cfg, me, w.sesames[me].spec))
  }

  lemma FinalizedIsUndisturbed(w: World, cfg: Config, me: Name)
    requires Admissible(w, cfg, me) && Finalized(w.sesames[me])
    ensures Undisturbed(w, cfg, me)
  {
    hide AllAdoptable, AllWanted, Sound, SpecError;
  }

  /** The first reconcile puts the finalizer on, behind those that are there, and does nothing else. */
  lemma FirstReconcile(w: World, cfg: Config, me: Name)
    requires Admissible(w, cfg, me) && !Finalized(w.sesames[me])
    ensures var (outcome, w') := Reconcile(w, cfg, me);
      && outcome == Outcome(None, None)
      && w'.children == w.children && w'.workloads == w.workloads && w'.time == w.time
      && me in w'.sesames
      && w'.sesames[me] == w.sesames[me].(
           finalizers := w.sesames[me].finalizers + [FINALIZER], version := w'.sesames[me].version)
      && (forall n | n != me ::
            (n in w'.sesames <==> n in w.sesames) && (n in w.sesames ==> w'.sesames[n] == w.sesames[n]))
      && Sound(w') && w'.schedule == []
  {
    hide Begin, EnsureSesame, EnsureSesameDeleted, SpecError, OthersInSpecNs, AllAdoptable, AllWanted, UniqueTypes;
    BeginFrame(w);
    var ses := w.sesames[me];
    assert SoundSesame(ses, w.next);
    OthersAreExact(w.sesames, me, ses.spec.namespace);
    var w' := Reconcile(w, cfg, me).1;
    assert forall n | n in w'.sesames :: n == me || (n in w.sesames && w'.sesames[n] == w.sesames[n]);
    assert forall n | n in w'.sesames :: SoundSesame(w'.sesames[n], w'.next);
  }

  lemma FirstReconcileAdmits(w: World, cfg: Config, me: Name)
    requires Admissible(w, cfg, me) && !Finalized(w.sesames[me])
    ensures var w' := Reconcile(w, cfg, me).1;
      && Undisturbed(w', cfg, me) && w'.sesames[me].spec == w.sesames[me].spec
      && forall want :: Adoptable(w', me, want) == Adoptable(w, me, want)
                        && Distance(w', me, want) == Distance(w, me, want) && LeavesTaken(w, w', me, want)
  {
    hide Reconcile, AllWanted, Sound, SpecError, Compare, SelectorsDiffer, Owned, SameShape;
    FirstReconcile(w, cfg, me);
  }

  /** How many reconciles go by before the first ensure pass. */
  function Wait(w: World, me: Name): nat
    requires me in w.sesames
  {
    if Finalized(w.sesames[me]) then 0 else 1
  }

  /** The children of a Sesame, by kind, namespace and name. */
  function ChildKeys(ns: string): set<Key> {
    {Key(NamespaceKind, "", ns),
     Key(ServiceAccountKind, ns, "sesame"), Key(ServiceAccountKind, ns, "envoy"),
     Key(ServiceAccountKind, ns, "sesame-certgen"),
     Key(ClusterRoleKind, "", "sesame-" + ns), Key(ClusterRoleBindingKind, "", "sesame-" + ns),
     Key(RoleKind, ns, "sesame-certgen"), Key(RoleBindingKind, ns, "sesame"),
     Key(ConfigMapKind, ns, "sesame"), Key(JobKind, ns, "sesame-certgen-main"),
     Key(DeploymentKind, ns, "sesame"), Key(DaemonSetKind, ns, "envoy"),
     Key(ServiceKind, ns, "sesame"), Key(ServiceKind, ns, "envoy")}
  }

  /** An ensure pass goes for all of them and for nothing else. */
  lemma WantedAreTheChildren(cfg: Config, me: Name, spec: Spec)
    requires Admitted(spec)
    ensures KeysWanted(AllWanted(cfg, me, spec)) == ChildKeys(spec.namespace)
    ensures ChildKeys(spec.namespace) == ManagedKeys(spec.namespace) - {RoleKey(spec.namespace, SESAME)}
  {
    hide SesameConfigMap, CertgenJob, SesameDeployment, EnvoyDaemonSet, SesameService, EnvoyServiceObject;
    ChildrenAreWanted(cfg, me, spec);
    WantedAreChildren(cfg, me, spec);
    ChildrenAreManaged(spec.namespace);
  }

  /** The steps of an ensure pass, in order, and what each of them wants. */
  lemma StepsInOrder(cfg: Config, me: Name, spec: Spec)
    requires Admitted(spec)
    ensures var ns, wants := spec.namespace, AllWanted(cfg, me, spec);
      && |wants| == 14
      && wants[0] == NamespaceWanted(me, ns) && wants[0].key == Key(NamespaceKind, "", ns)
      && wants[1].key == Key(ServiceAccountKind, ns, "sesame") && wants[2].key == Key(ServiceAccountKind, ns, "envoy")
      && wants[3].key == Key(ServiceAccountKind, ns, "sesame-certgen")
      && wants[4].key == Key(ClusterRoleKind, "", "sesame-" + ns)
      && wants[5].key == Key(ClusterRoleBindingKind, "", "sesame-" + ns)
      && wants[6].key == Key(RoleKind, ns, "sesame-certgen") && wants[7].key == Key(RoleBindingKind, ns, "sesame")
      && wants[8] == Wanted(Key(ConfigMapKind, ns, "sesame"), SesameConfigMap(cfg, me, spec), None)
      && wants[9] == Wanted(Key(JobKind, ns, "sesame-certgen-main"), CertgenJob(cfg, me), None)
      && wants[10] == Wanted(Key(DeploymentKind, ns, "sesame"), SesameDeployment(cfg, me, spec), None)
      && wants[11] == Wanted(Key(DaemonSetKind, ns, "envoy"), EnvoyDaemonSet(cfg, me, spec), None)
      && wants[12] == Wanted(Key(ServiceKind, ns, "sesame"), SesameService(me), None)
      && wants[13] ==
         Wanted(Key(ServiceKind, ns, "envoy"), EnvoyServiceObject(me, spec.publishing), Some(spec.publishing.kind))
  {
    hide SesameConfigMap, CertgenJob, SesameDeployment, EnvoyDaemonSet, SesameService, EnvoyServiceObject;
  }

  lemma ChildrenAreWanted(cfg: Config, me: Name, spec: Spec)
    requires Admitted(spec)
    ensures ChildKeys(spec.namespace) <= KeysWanted(AllWanted(cfg, me, spec))
  {
    hide SesameConfigMap, CertgenJob, SesameDeployment, EnvoyDaemonSet, SesameService, EnvoyServiceObject, AllWanted;
    StepsInOrder(cfg, me, spec);
    var wants := AllWanted(cfg, me, spec);
    KeysAt(wants);
  }

  lemma KeysAt(wants: seq<Wanted>)
    requires |wants| == 14
    ensures {wants[0].key, wants[1].key, wants[2].key, wants[3].key, wants[4].key, wants[5].key, wants[6].key,
             wants[7].key, wants[8].key, wants[9].key, wants[10].key, wants[11].key, wants[12].key, wants[13].key}
            <= KeysWanted(wants)
  {
  }

  lemma WantedAreChildren(cfg: Config, me: Name, spec: Spec)
    requires Admitted(spec)
    ensures KeysWanted(AllWanted(cfg, me, spec)) <= ChildKeys(spec.namespace)
  {
    hide SesameConfigMap, CertgenJob, SesameDeployment, EnvoyDaemonSet, SesameService, EnvoyServiceObject;
  }

  lemma ChildrenAreManaged(ns: string)
    ensures ChildKeys(ns) == ManagedKeys(ns) - {RoleKey(ns, SESAME)}
  {
    assert |SESAME| != |ENVOY| && |CERTGEN| != |SESAME|;
  }

  /** Undisturbed reconciles of a valid Sesame, from the very first on. One puts the finalizer on if it is
      not there; after that, every child the Sesame owns or has yet to create is settled as soon as there
      have been as many passes as the furthest child was away, so two at most, and then all its fourteen
      children are there. An object of others under one of its keys stays exactly as it is. And the next
      reconcile, however much later, succeeds and changes nothing at all. */
  lemma Converges(w: World, cfg: Config, me: Name, requests: seq<Name>, later: int)
    requires Admissible(w, cfg, me) && forall i | 0 <= i < |requests| :: requests[i] == me
    ensures var wants := AllWanted(cfg, me, w.sesames[me].spec);
      var w' := Run(w, cfg, requests);
      var passes := |requests| - Wait(w, me);
      && (requests != [] ==> me in w'.sesames && Finalized(w'.sesames[me]))
      && (passes >= 0 ==>
            (AllDone(w', me, wants) <==> forall i | 0 <= i < |wants| :: Distance(w, me, wants[i]) <= passes))
      && (passes >= 2 ==> AllDone(w', me, wants) && ChildKeys(w.sesames[me].spec.namespace) <= w'.children.Keys)
      && (forall i | 0 <= i < |wants| :: LeavesTaken(w, w', me, wants[i]))
      && (passes > 0 && AllDone(w', me, wants) ==>
            Reconcile(w'.(time := later), cfg, me) == (Outcome(None, None), w'.(time := later)))
  {
    hide Reconcile, AllWanted, AllDone, Distance, Sound, SpecError, AllAdoptable, Run, LeavesTaken, ChildKeys,
      Undisturbed;
    if Finalized(w.sesames[me]) {
      FinalizedIsUndisturbed(w, cfg, me);
      FinalizedConverges(w, cfg, me, requests, later);
    } else if requests == [] {
      NoRequest(w, cfg);
      LeavesTakenItself(w, me);
    } else {
      var w1 := Reconcile(w, cfg, me).1;
      FirstReconcileAdmits(w, cfg, me);
      FirstRequest(w, cfg, requests);
      UndisturbedHolds(w1, cfg, me);
      FinalizedConverges(w1, cfg, me, requests[1..], later);
      if |requests| == 1 { NoRequest(w1, cfg); }
      TakenAllTheWay(w, w1, Run(w, cfg, requests), me, AllWanted(cfg, me, w.sesames[me].spec));
    }
  }

  lemma UndisturbedHolds(w: World, cfg: Config, me: Name)
    requires Undisturbed(w, cfg, me)
    ensures me in w.sesames && Finalized(w.sesames[me])
  {
  }

  lemma TakenAllTheWay(a: World, b: World, c: World, me: Name, wants: seq<Wanted>)
    requires forall i | 0 <= i < |wants| :: LeavesTaken(a, b, me, wants[i])
    requires forall i | 0 <= i < |wants| :: LeavesTaken(b, c, me, wants[i])
    ensures forall i | 0 <= i < |wants| :: LeavesTaken(a, c, me, wants[i])
  {
    hide LeavesTaken;
    forall i | 0 <= i < |wants|
      ensures LeavesTaken(a, c, me, wants[i])
    {
      LeavesTakenThen(a, b, c, me, wants[i]);
    }
  }

  lemma NoRequest(w: World, cfg: Config)
    ensures Run(w, cfg, []) == w
  {
  }

  lemma LeavesTakenItself(w: World, me: Name)
    ensures forall want :: LeavesTaken(w, w, me, want)
  {
  }

  lemma LeavesTakenThen(a: World, b: World, c: World, me: Name, want: Wanted)
    requires LeavesTaken(a, b, me, want) && LeavesTaken(b, c, me, want)
    ensures LeavesTaken(a, c, me, want)
  {
    hide Owned;
  }

  lemma AdmittedBySound(w: World, me: Name)
    requires Sound(w) && me in w.sesames
    ensures Admitted(w.sesames[me].spec)
  {
    assert SoundSesame(w.sesames[me], w.next);
  }

  lemma DoneAreThere(w: World, cfg: Config, me: Name, spec: Spec)
    requires AllDone(w, me, AllWanted(cfg, me, spec)) && Admitted(spec)
    ensures ChildKeys(spec.namespace) <= w.children.Keys
  {
    hide AllWanted, ChildKeys, Compare, SelectorsDiffer, Owned, SameShape;
    WantedAreTheChildren(cfg, me, spec);
    var wants := AllWanted(cfg, me, spec);
    forall k | k in ChildKeys(spec.namespace)
      ensures k in w.children
    {
      var i :| 0 <= i < |wants| && wants[i].key == k;
      assert Done(w, me, wants[i]);
    }
  }

  lemma SettledStays(w1: World, w2: World, cfg: Config, me: Name, later: int)
    requires Undisturbed(w1, cfg, me) && w2 == Reconcile(w1, cfg, me).1 && Undisturbed(w2, cfg, me)
    requires w2.sesames[me].spec == w1.sesames[me].spec
    requires AllDone(w2, me, AllWanted(cfg, me, w2.sesames[me].spec))
    ensures Reconcile(w2.(time := later), cfg, me) == (Outcome(None, None), w2.(time := later))
  {
    hide Reconcile, AllWanted, EnsureAll, Sync, Settled, Misselected, Adoptable, SpecError, Done;
    var spec := w2.sesames[me].spec;
    var wants := AllWanted(cfg, me, spec);
    var w3 := w2.(time := later);
    QuietReconcile(w1, cfg, me);
    SyncSettles(AfterChildren(w1, cfg, me, spec), me, later);
    forall i | 0 <= i < |wants|
      ensures Adoptable(w3, me, wants[i]) && Done(w3, me, wants[i])
    {
      SameObject(w2, w3, me, wants[i]);
    }
    assert Undisturbed(w3, cfg, me);
    QuietReconcile(w3, cfg, me);
    BothWorkloadsAreThere(w3, cfg, me, spec);
    QuietSyncSucceeds(w3, me);
  }

  lemma BothWorkloadsAreThere(w: World, cfg: Config, me: Name, spec: Spec)
    requires AllDone(w, me, AllWanted(cfg, me, spec))
    ensures DeploymentKey(spec.namespace) in w.children && DaemonSetKey(spec.namespace) in w.children
  {
    hide Compare, SelectorsDiffer, Owned, SameShape, SesameConfigMap, CertgenJob, SesameDeployment, EnvoyDaemonSet,
      SesameService, EnvoyServiceObject;
    var wants := AllWanted(cfg, me, spec);
    assert wants[10].key == DeploymentKey(spec.namespace) && wants[11].key == DaemonSetKey(spec.namespace);
    assert Done(w, me, wants[10]) && Done(w, me, wants[11]);
  }
}
