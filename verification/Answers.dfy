/** What the answers of the operator mean, under every schedule: what holds when an operation returns
    nil, and that every failure is reported. */
module Answers {
  import opened Api
  import opened RetryableError
  import opened Equality
  import opened Conditions
  import opened Validation
  import opened Server
  import opened Evolution
  import opened Objects
  import opened StatusSync
  import opened Controller
  import opened Passes
  import opened Safety
  import opened Guarantees
  import opened Completion
  import opened Convergence
  import Slice

  // ----- one child -----

  /** Deleted because what was read has another selector. */
  predicate DroppedForSelector(w: World, w': World, want: Wanted) {
    var r := GetChild(w, want.key).0;
    r.Ok? && SelectorsDiffer(r.value, want.desired) && want.key !in w'.children
  }

  /** A nil from `Ensure*`: at that moment the child is as desired, or in foreign hands; or it had the
      wrong selector and is gone. */
  lemma EnsureNilMeans(w: World, cfg: Config, me: Name, want: Wanted)
    requires Wellformed(want, me)
    ensures var (e, w') := Ensure(w, cfg, me, want);
      e.None? ==> Done(w', me, want) || DroppedForSelector(w, w', want)
  {
    hide Begin, Compare, SelectorsDiffer, Owned, SameShape, WellFormedDesired, Recreate, CreateChild, UpdateChild,
      DeleteChild, DeleteOwned;
    var (r, w1) := GetChild(w, want.key);
    if r == Failed(NotFound) {
      CreateNilMeans(w1, me, want, want.desired);
    } else if r.Ok? {
      var o := r.value;
      if SelectorsDiffer(o, want.desired) {
        DeleteOwnedNilMeans(w1, me, want.key);
      } else if Owned(o, me) {
        SameMeansShape(want.envoy, o, want.desired);
        if Compare(want.envoy, o, want.desired).Differs? {
          var u := Compare(want.envoy, o, want.desired).updated;
          UpdateKeepsOwner(want.envoy, o, want.desired, me);
          if want.desired.body.JobBody? {
            RecreateNilMeans(w1, me, want, o, u, 1 + cfg.extraJobAttempts);
          } else {
            UpdateNilMeans(w1, me, want, o, u);
          }
        }
      }
    }
  }

  lemma SameMeansShape(envoy: Option<PublishingType>, current: Object, desired: Object)
    ensures Compare(envoy, current, desired).Same? ==> SameShape(current, desired)
  {
  }

  /** `u` is what the comparison with `o` gave, or the desired object itself. */
  ghost predicate Fitting(want: Wanted, u: Object) {
    forall v: nat ::
      var s := Stamp(u, v);
      SameShape(s, want.desired) && !SelectorsDiffer(s, want.desired) && Compare(want.envoy, s, want.desired).Same?
  }

  lemma UpdatesFit(want: Wanted, o: Object, u: Object)
    requires WellFormedDesired(want.desired) && !SelectorsDiffer(o, want.desired)
    requires Compare(want.envoy, o, want.desired) == Differs(u)
    ensures Fitting(want, u)
  {
    hide SelectorsDiffer, WellFormedDesired;
    forall v: nat
      ensures var s := Stamp(u, v);
        SameShape(s, want.desired) && !SelectorsDiffer(s, want.desired) && Compare(want.envoy, s, want.desired).Same?
    {
      if SameShape(o, want.desired) {
        UpdateIsFixedPoint(want.envoy, o, want.desired, v);
      } else {
        CreatedMatches(want.envoy, want.desired, v);
      }
    }
  }

  lemma CreateNilMeans(w: World, me: Name, want: Wanted, o: Object)
    requires Owned(o, me) && ((o == want.desired && WellFormedDesired(want.desired)) || Fitting(want, o))
    ensures var (c, w') := CreateChild(w, want.key, o);
      c.None? ==> Settled(w', me, want)
  {
    hide Begin, Compare, SelectorsDiffer, Owned, SameShape, WellFormedDesired;
    StampKeeps(o, Begin(w).1.next, me);
    if o == want.desired && WellFormedDesired(want.desired) {
      CreatedMatches(want.envoy, want.desired, Begin(w).1.next);
    }
  }

  lemma UpdateNilMeans(w: World, me: Name, want: Wanted, o: Object, u: Object)
    requires Owned(u, me) && WellFormedDesired(want.desired) && !SelectorsDiffer(o, want.desired)
    requires Compare(want.envoy, o, want.desired) == Differs(u)
    ensures var (c, w') := UpdateChild(w, want.key, u);
      c.None? ==> Settled(w', me, want)
  {
    hide Begin, Compare, SelectorsDiffer, Owned, SameShape, WellFormedDesired;
    UpdatesFit(want, o, u);
    StampKeeps(u, Begin(w).1.next, me);
  }

  lemma {:induction false} RetryCreateNilMeans(w: World, me: Name, want: Wanted, u: Object, tries: nat)
    requires Owned(u, me) && Fitting(want, u)
    ensures var (c, w') := RetryCreate(w, want.key, u, tries);
      c.None? ==> Settled(w', me, want)
    decreases tries
  {
    hide CreateChild, Fitting, Settled, Owned;
    if tries > 0 {
      CreateNilMeans(w, me, want, u);
      RetryCreateNilMeans(CreateChild(w, want.key, u).1, me, want, u, tries - 1);
    }
  }

  lemma RecreateNilMeans(w: World, me: Name, want: Wanted, o: Object, u: Object, tries: nat)
    requires Owned(u, me) && WellFormedDesired(want.desired) && !SelectorsDiffer(o, want.desired)
    requires Compare(want.envoy, o, want.desired) == Differs(u)
    ensures var (c, w') := Recreate(w, want.key, u, tries);
      c.None? ==> Settled(w', me, want)
  {
    hide DeleteChild, RetryCreate, Fitting, Settled, Owned, Compare, SelectorsDiffer, WellFormedDesired;
    UpdatesFit(want, o, u);
    RetryCreateNilMeans(DeleteChild(w, want.key).1, me, want, u, tries);
  }

  /** A nil from `Ensure*Deleted`: the key is free, or in foreign hands. */
  lemma DeleteOwnedNilMeans(w: World, me: Name, key: Key)
    ensures var (e, w') := DeleteOwned(w, me, key);
      e.None? ==> Free(w', key, me)
  {
    hide Begin;
  }

  /** Every failed call of an `Ensure*` ends it, and the answer carries the server's reason: a read, a
      creation, an update, and the deletion that opens the re-creation of a Job. */
  lemma EnsureFailuresAreReported(w: World, cfg: Config, me: Name, want: Wanted)
    ensures var (e, w') := Ensure(w, cfg, me, want);
      var (r, w1) := GetChild(w, want.key);
      match r
      case Failed(NotFound) =>
        var (c, w2) := CreateChild(w1, want.key, want.desired);
        w' == w2 && (c.None? <==> e.None?) && (c.Some? ==> e == Some(ApiError(c.value)))
      case Failed(reason) =>
        w' == w1 && e == Some(if want.desired.body.DeploymentBody? then Panic else ApiError(reason))
      case Ok(current) =>
        var comparison := Compare(want.envoy, current, want.desired);
        !SelectorsDiffer(current, want.desired) && Owned(current, me) && comparison.Differs? ==>
          if want.desired.body.JobBody? then
            var (d, w2) := DeleteChild(w1, want.key);
            d.Some? && d != Some(NotFound) ==> w' == w2 && e == Some(ApiError(d.value))
          else
            var (u, w2) := UpdateChild(w1, want.key, comparison.updated);
            w' == w2 && (u.None? <==> e.None?) && (u.Some? ==> e == Some(ApiError(u.value)))
  {
    hide GetChild, CreateChild, UpdateChild, DeleteChild, RetryCreate, DeleteOwned, Compare, SelectorsDiffer, Owned;
  }

  /** The worlds of the polls. */
  function AfterTries(w: World, key: Key, o: Object, i: nat): World {
    if i == 0 then w else CreateChild(AfterTries(w, key, o, i - 1), key, o).1
  }

  lemma {:induction false} AfterFirstTry(w: World, key: Key, o: Object, i: nat)
    ensures AfterTries(CreateChild(w, key, o).1, key, o, i) == AfterTries(w, key, o, i + 1)
  {
    hide CreateChild;
    if i > 0 { AfterFirstTry(w, key, o, i - 1); }
  }

  predicate TrySucceeds(w: World, key: Key, o: Object, i: nat) {
    CreateChild(AfterTries(w, key, o, i), key, o).0.None?
  }

  /** The poll succeeds exactly when one of its `tries` creations does. */
  lemma {:induction false} RetryCreateSucceedsIff(w: World, key: Key, o: Object, tries: nat)
    ensures RetryCreate(w, key, o, tries).0.None? <==> exists i: nat | i < tries :: TrySucceeds(w, key, o, i)
    decreases tries
  {
    hide CreateChild;
    if tries > 0 {
      var w1 := CreateChild(w, key, o).1;
      RetryCreateSucceedsIff(w1, key, o, tries - 1);
      assert TrySucceeds(w, key, o, 0) <==> CreateChild(w, key, o).0.None?;
      forall i: nat | i < tries - 1
        ensures TrySucceeds(w1, key, o, i) <==> TrySucceeds(w, key, o, i + 1)
      {
        AfterFirstTry(w, key, o, i);
      }
      if exists i: nat :: i < tries && TrySucceeds(w, key, o, i) {
        var i: nat :| i < tries && TrySucceeds(w, key, o, i);
        if i > 0 { assert TrySucceeds(w1, key, o, i - 1); }
      }
      if exists i: nat :: i < tries - 1 && TrySucceeds(w1, key, o, i) {
        var i: nat :| i < tries - 1 && TrySucceeds(w1, key, o, i);
        assert TrySucceeds(w, key, o, i + 1);
      }
    }
  }

  // ----- the ensure pass -----

  /** What `ensureSesame` does and answers. RBAC is tried even if the namespace failed; the workloads only
      if both succeeded; unless a step panics the status is synced last; and every error is reported. */
  lemma EnsureSesameReports(w: World, cfg: Config, me: Name, spec: Spec)
    ensures var (e, w') := EnsureSesame(w, cfg, me, spec);
      var (n, w1) := Ensure(w, cfg, me, NamespaceWanted(me, spec.namespace));
      var (r, w2) := EnsureUntilError(w1, cfg, me, RbacWanted(me, spec.namespace));
      var (results, w3) := EnsureAll(w2, cfg, me, WorkloadsWanted(cfg, me, spec));
      var early := [Wrap("namespace", n), Wrap("rbac", r)];
      if n.Some? || r.Some? then
        w' == Sync(w2, me).world && Reports(e, early + [Wrap("status", Sync(w2, me).err)])
      else if Panicked(results) then
        w' == w3 && e == Some(Panic)
      else
        && w' == Sync(w3, me).world
        && Reports(e, early + WrapAll("workload", results) + [Wrap("status", Sync(w3, me).err)])
  {
    hide Ensure, EnsureUntilError, EnsureAll, NamespaceWanted, RbacWanted, WorkloadsWanted, Sync, MaybeRetryable,
      Reports, WrapAll, Panicked;
    var (n, w1) := Ensure(w, cfg, me, NamespaceWanted(me, spec.namespace));
    var (r, w2) := EnsureUntilError(w1, cfg, me, RbacWanted(me, spec.namespace));
    var (results, w3) := EnsureAll(w2, cfg, me, WorkloadsWanted(cfg, me, spec));
    var early := [Wrap("namespace", n), Wrap("rbac", r)];
    AggregatesReport(early + [Wrap("status", Sync(w2, me).err)]);
    AggregatesReport(early + WrapAll("workload", results) + [Wrap("status", Sync(w3, me).err)]);
  }

  /** The steps of a pass that returns nil, one after the other. */
  lemma NilPassRunsAll(w: World, cfg: Config, me: Name, spec: Spec)
    requires EnsureSesame(w, cfg, me, spec).0.None?
    ensures var wants := AllWanted(cfg, me, spec);
      && (forall i | 0 <= i < |wants| :: StepAnswer(w, cfg, me, wants, i).None?)
      && var last := AfterSteps(w, cfg, me, wants, |wants|);
         Sync(last, me).err.None? && EnsureSesame(w, cfg, me, spec).1 == Sync(last, me).world
  {
    hide Ensure, EnsureUntilError, EnsureAll, NamespaceWanted, RbacWanted, WorkloadsWanted, Sync, EnsureSesame, WrapAll,
      Reports;
    var first := [NamespaceWanted(me, spec.namespace)];
    var rbac, rest := RbacWanted(me, spec.namespace), WorkloadsWanted(cfg, me, spec);
    EnsureSesameSucceedsIff(w, cfg, me, spec);
    EnsureSesameReports(w, cfg, me, spec);
    var (n, w1) := Ensure(w, cfg, me, first[0]);
    var (r, w2) := EnsureUntilError(w1, cfg, me, rbac);
    var k := UntilErrorStops(w1, cfg, me, rbac);
    EveryStepRuns(w2, cfg, me, rest);
    var (results, w3) := EnsureAll(w2, cfg, me, rest);
    assert AfterSteps(w, cfg, me, first, 0) == w;
    assert AfterSteps(w, cfg, me, first, 1) == w1;
    var wants := first + (rbac + rest);
    assert wants == AllWanted(cfg, me, spec);
    StepsOfParts(w, cfg, me, first, rbac + rest);
    StepsOfParts(w1, cfg, me, rbac, rest);
    assert !Panicked(results);
    forall i | 0 <= i < |wants|
      ensures StepAnswer(w, cfg, me, wants, i).None?
    {
      if i >= 1 {
        assert StepAnswer(w, cfg, me, wants, i) == StepAnswer(w1, cfg, me, rbac + rest, i - 1);
        if i - 1 >= |rbac| {
          var j := i - 1 - |rbac|;
          assert StepAnswer(w1, cfg, me, rbac + rest, i - 1) == StepAnswer(w2, cfg, me, rest, j);
          assert results[j].None?;
        }
      }
    }
    AfterSuffix(w, cfg, me, first, rbac + rest, |rbac + rest|);
    AfterSuffix(w1, cfg, me, rbac, rest, |rest|);
  }

  lemma StepsOfParts(w: World, cfg: Config, me: Name, xs: seq<Wanted>, ys: seq<Wanted>)
    ensures forall i | 0 <= i < |xs| :: StepAnswer(w, cfg, me, xs + ys, i) == StepAnswer(w, cfg, me, xs, i)
    ensures var w1 := AfterSteps(w, cfg, me, xs, |xs|);
      forall i | |xs| <= i < |xs + ys| :: StepAnswer(w, cfg, me, xs + ys, i) == StepAnswer(w1, cfg, me, ys, i - |xs|)
  {
    hide Ensure;
    forall i | 0 <= i < |xs|
      ensures StepAnswer(w, cfg, me, xs + ys, i) == StepAnswer(w, cfg, me, xs, i)
    {
      AfterPrefix(w, cfg, me, xs, ys, i);
    }
    var w1 := AfterSteps(w, cfg, me, xs, |xs|);
    forall i | |xs| <= i < |xs + ys|
      ensures StepAnswer(w, cfg, me, xs + ys, i) == StepAnswer(w1, cfg, me, ys, i - |xs|)
    {
      AfterSuffix(w, cfg, me, xs, ys, i - |xs|);
      assert (xs + ys)[i] == ys[i - |xs|];
    }
  }

  /** A nil from `ensureSesame`, under every schedule: every child of the Sesame was, at the end of its
      own step, as desired or in foreign hands, or dropped for its selector. */
  lemma EnsureSesameNilMeans(w: World, cfg: Config, me: Name, spec: Spec, i: nat)
    requires EnsureSesame(w, cfg, me, spec).0.None? && i < |AllWanted(cfg, me, spec)|
    ensures var wants := AllWanted(cfg, me, spec);
      var before, after := AfterSteps(w, cfg, me, wants, i), AfterSteps(w, cfg, me, wants, i + 1);
      Done(after, me, wants[i]) || DroppedForSelector(before, after, wants[i])
  {
    hide Ensure, AllWanted, EnsureSesame, Wellformed, Done, Sync;
    var wants := AllWanted(cfg, me, spec);
    NilPassRunsAll(w, cfg, me, spec);
    WantedAreWellformed(cfg, me, spec);
    assert StepAnswer(w, cfg, me, wants, i).None?;
    EnsureNilMeans(AfterSteps(w, cfg, me, wants, i), cfg, me, wants[i]);
  }

  // ----- the delete pass -----

  /** A nil from `EnsureNamespaceDeleted`, and when one is expected at all. */
  lemma DeleteNamespaceNilMeans(w: World, me: Name, spec: Spec)
    ensures var (expected, e, w') := DeleteNamespace(w, me, spec);
      var w1 := GetChild(w, NamespaceKey(spec.namespace)).1;
      var all := ListSesames(w1).0;
      && (expected <==> spec.removeOnDeletion && spec.namespace !in CORE_NAMESPACES)
      && (!expected ==> e.None? && w' == w)
      && (expected && e.None? ==>
            Free(w', NamespaceKey(spec.namespace), me) || (all.Ok? && ShowsOtherInNs(all.value, me, spec.namespace)))
  {
    hide Begin, OthersInSpecNs, ShowsOtherInNs, CORE_NAMESPACES;
    var w1 := GetChild(w, NamespaceKey(spec.namespace)).1;
    var all := ListSesames(w1).0;
    if all.Ok? { OthersExistIsExactIff(all.value, me, spec.namespace); }
  }

  /** What `ensureSesameDeleted` does and answers: every deletion is attempted; if any failed, the
      finalizer stays and every error is reported; otherwise the answer is that of the finalizer. */
  lemma EnsureSesameDeletedReports(w: World, me: Name, ses: Sesame)
    ensures var (e, w') := EnsureSesameDeleted(w, me, ses);
      var (results, w1) := DeleteAll(w, me, WorkloadsToDelete(ses.spec));
      var (r, w2) := DeleteRbac(w1, me, ses.spec.namespace);
      var (_, n, w3) := DeleteNamespace(w2, me, ses.spec);
      var errs := WrapAll("workload", results) + [Wrap("rbac", r), Wrap("namespace", n)];
      if exists i | 0 <= i < |errs| :: errs[i].Some? then
        w' == w3 && e.Some? && Reports(e, errs)
      else
        var (f, w4) := RemoveFinalizer(w3, me, ses);
        w' == w4 && Reports(e, [Wrap("finalizer", f)])
  {
    hide DeleteAll, DeleteRbac, DeleteNamespace, RemoveFinalizer, WorkloadsToDelete, NewAggregate, NonNil, Reports,
      ErrorsIn;
    var (results, w1) := DeleteAll(w, me, WorkloadsToDelete(ses.spec));
    var (r, w2) := DeleteRbac(w1, me, ses.spec.namespace);
    var (expected, n, w3) := DeleteNamespace(w2, me, ses.spec);
    DeleteNamespaceNilMeans(w2, me, ses.spec);
    var kept := DeleteChildren(w, me, ses.spec).0;
    var errs := WrapAll("workload", results) + [Wrap("rbac", r), Wrap("namespace", n)];
    AllNil(kept);
    AggregatesReport(kept);
    AggregatesReport([Wrap("finalizer", RemoveFinalizer(w3, me, ses).0)]);
    if expected {
      assert kept == errs;
    } else {
      assert errs == kept + [None];
      ReportsOneNilMore(NewAggregate(kept), kept);
    }
    ReportsSome(NewAggregate(kept), kept);
  }

  lemma ReportsOneNilMore(e: Option<Error>, errs: seq<Option<Error>>)
    requires Reports(e, errs)
    ensures Reports(e, errs + [None])
    ensures (exists i | 0 <= i < |errs + [None]| :: (errs + [None])[i].Some?) <==>
            exists i | 0 <= i < |errs| :: errs[i].Some?
  {
    hide ErrorsIn;
    var more := errs + [None];
    assert forall i | 0 <= i < |errs| :: more[i] == errs[i];
  }

  lemma ReportsSome(e: Option<Error>, errs: seq<Option<Error>>)
    requires Reports(e, errs)
    ensures e.Some? <==> exists i | 0 <= i < |errs| :: errs[i].Some?
  {
    hide ErrorsIn;
  }

  /** A nil from `EnsureFinalizerRemoved`, under every schedule: the finalizer was not there, or it is off and
      the Sesame, unchanged since it was read, is gone with its last finalizer. */
  lemma RemoveFinalizerNilMeans(w0: World, w: World, ses: Sesame, p: Pass)
    requires Sound(w) && Sound(w0) && Versioned(w0, w) && p.me in w0.sesames && w0.sesames[p.me] == ses && ses.deleting
    ensures var (e, w') := RemoveFinalizer(w, p.me, ses);
      var fs := Slice.Without(ses.finalizers, FINALIZER);
      e.None? && Finalized(ses) ==>
        && (fs == [] ==> p.me !in w'.sesames)
        && (fs != [] ==> p.me in w'.sesames && w'.sesames[p.me].finalizers == fs)
  {
    hide Begin, Evolves, Sound, SoundSesame;
    BeginEvolves(w, p);
    EvolvesVersions(w, Begin(w).1, p);
    if Finalized(ses) && RemoveFinalizer(w, p.me, ses).0.None? {
      SnapshotIsCurrent(w0, w, Begin(w).1, p.me, ses);
    }
  }

  /** A nil for a Sesame that was being deleted, under every schedule: it owns no workload, and if it held
      the finalizer that is off, and the Sesame gone if it was the last. */
  lemma NilDeletePass(w: World, cfg: Config, me: Name)
    requires Sound(w) && DeletePass(w, me) && Reconcile(w, cfg, me).0.err.None?
    ensures var w' := Reconcile(w, cfg, me).1;
      var ses := GetSesame(w, me).0.value;
      var fs := Slice.Without(ses.finalizers, FINALIZER);
      && (forall k | k in WorkloadKeys(ses.spec.namespace) :: Free(w', k, me))
      && (Finalized(ses) && fs == [] ==> me !in w'.sesames)
      && (Finalized(ses) && fs != [] ==> me in w'.sesames && w'.sesames[me].finalizers == fs)
  {
    hide GetSesame, DeleteChildren, RemoveFinalizer, WorkloadKeys, ManagedKeys, Evolves, Sound, NonNil, Free,
      Slice.Without, NewAggregate;
    ReconcileNilIff(w, cfg, me);
    var w1, ses, w2 := DeletePassEvolves(w, cfg, me);
    var p := Pass(me, {}, KeysOf(w, me));
    EvolvesIsSound(w1, w2, p);
    EvolvesVersions(w1, w2, p);
    RemoveFinalizerNilMeans(w1, w2, ses, p);
    NilAnswer(DeleteChildren(w1, me, ses.spec).0, RemoveFinalizer(w2, me, ses).0);
    forall k | k in WorkloadKeys(ses.spec.namespace)
      ensures Free(Reconcile(w, cfg, me).1, k, me)
    {
      RemovalKeepsFree(w2, ses, k, me, p);
    }
  }

  lemma NilAnswer(errs: seq<Option<Error>>, f: Option<Error>)
    ensures NonNil(errs) != [] ==> NewAggregate(errs).Some?
    ensures NewAggregate([Wrap("finalizer", f)]).None? <==> f.None?
  {
    AllNil([Wrap("finalizer", f)]);
  }

  // ----- the reconcile -----

  /** `Reconcile` passes on the answer of whatever it did: it returns nil exactly when the Sesame is gone,
      or the one thing it called for succeeded. */
  lemma ReconcileNilIff(w: World, cfg: Config, me: Name)
    ensures var (r, w1) := GetSesame(w, me);
      Reconcile(w, cfg, me).0.err.None? <==>
        match r
        case Failed(reason) => reason == NotFound
        case Ok(ses) =>
          var (v, w2) := Validate(w1, cfg, me, ses.spec);
          if ses.deleting then EnsureSesameDeleted(w1, me, ses).0.None?
          else && v.None?
               && if Finalized(ses) then EnsureSesame(w2, cfg, me, ses.spec).0.None?
                  else AddFinalizer(w2, me, ses).0.None?
  {
    hide GetSesame, Validate, AddFinalizer, EnsureSesame, EnsureSesameDeleted;
    NeverRequeuesAfter(w, cfg, me);
    var (r, w1) := GetSesame(w, me);
    if r.Ok? {
      var (v, w2) := Validate(w1, cfg, me, r.value.spec);
      if r.value.deleting {
        NilMeansNil(EnsureSesameDeleted(w1, me, r.value).0);
      } else if v.None? && Finalized(r.value) {
        NilMeansNil(EnsureSesame(w2, cfg, me, r.value.spec).0);
      }
    }
  }

  lemma NilMeansNil(e: Option<Error>)
    requires Respond(e).requeueAfter.None?
    ensures Respond(e).err == e
  {
  }

  /** And it does that one thing, and no more. */
  lemma ReconcileDoes(w: World, cfg: Config, me: Name)
    ensures var (r, w1) := GetSesame(w, me);
      Reconcile(w, cfg, me).1 ==
        match r
        case Failed(_) => w1
        case Ok(ses) =>
          var (v, w2) := Validate(w1, cfg, me, ses.spec);
          if ses.deleting then EnsureSesameDeleted(w1, me, ses).1
          else if v.Some? then w2
          else if Finalized(ses) then EnsureSesame(w2, cfg, me, ses.spec).1
          else AddFinalizer(w2, me, ses).1
  {
    hide GetSesame, Validate, AddFinalizer, EnsureSesame, EnsureSesameDeleted;
  }

  /** The first reconcile of a Sesame, under every schedule: if a valid Sesame without the finalizer gets
      nil, the stored Sesame is the one read, with the finalizer added at the end. */
  lemma FinalizerIsOn(w: World, cfg: Config, me: Name)
    requires Sound(w)
    requires var (r, w1) := GetSesame(w, me);
      r.Ok? && !r.value.deleting && !Finalized(r.value) && Validate(w1, cfg, me, r.value.spec).0.None?
    ensures var (outcome, w') := Reconcile(w, cfg, me);
      var ses := GetSesame(w, me).0.value;
      outcome.err.None? ==>
        && me in w'.sesames && Finalized(w'.sesames[me])
        && w'.sesames[me] ==
           ses.(finalizers := ses.finalizers + [FINALIZER], version := w'.sesames[me].version)
  {
    hide Begin, Validate, EnsureSesame, EnsureSesameDeleted, Evolves, Sound, SoundSesame;
    var p := Pass(me, {}, {});
    var (r, w1) := GetSesame(w, me);
    ReadEvolves(w, p);
    var w2 := Validate(w1, cfg, me, r.value.spec).1;
    ValidateEvolves(w1, cfg, r.value.spec, p);
    EvolvesVersions(w1, w2, p);
    BeginEvolves(w2, p);
    EvolvesVersions(w2, Begin(w2).1, p);
    if AddFinalizer(w2, me, r.value).0.None? {
      SnapshotIsCurrent(w1, w2, Begin(w2).1, me, r.value);
    }
  }
}
