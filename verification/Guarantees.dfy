/** Staging, errors and owned children, under every schedule. */
module Guarantees {
  import opened Api
  import opened RetryableError
  import opened Equality
  import opened Conditions
  import opened Validation
  import opened Server
  import opened Evolution
  import opened Objects
  import opened StatusSync
  import opened Controller
  import opened Passes
  import opened Safety
  import opened Foreign
  import Slice

  lemma RemoveFinalizerLog(w: World, me: Name, ses: Sesame)
    ensures var w' := RemoveFinalizer(w, me, ses).1;
      w'.log == w.log || exists e: Event :: e.WroteFinalizers? && w'.log == w.log + [e]
  {
    hide ActAll;
    BeginFrame(w);
  }

  // ----- staging -----

  /** If the namespace or RBAC fails, the rest of the pass leaves every workload alone. */
  lemma EarlyFailureSparesWorkloads(w: World, cfg: Config, me: Name, spec: Spec)
    requires Sound(w)
    ensures var (n, w1) := Ensure(w, cfg, me, NamespaceWanted(me, spec.namespace));
      var r := EnsureUntilError(w1, cfg, me, RbacWanted(me, spec.namespace)).0;
      var w' := EnsureSesame(w, cfg, me, spec).1;
      n.Some? || r.Some? ==>
        w.log <= w'.log && forall i | |w.log| <= i < |w'.log| && w'.log[i].Wrote? :: !WorkloadKind(w'.log[i].key.kind)
  {
    hide Ensure, EnsureUntilError, EnsureSesame, EarlyKeys, NamespaceWanted, RbacWanted, Sound;
    var p := Pass(me, EarlyKeys(spec.namespace), EarlyKeys(spec.namespace));
    EarlyEvolves(w, cfg, spec, p);
    var (n, w1) := Ensure(w, cfg, me, NamespaceWanted(me, spec.namespace));
    var r := EnsureUntilError(w1, cfg, me, RbacWanted(me, spec.namespace)).0;
    var w' := EnsureSesame(w, cfg, me, spec).1;
    if n.Some? || r.Some? {
      EvolvesVersions(w, w', p);
      forall i | |w.log| <= i < |w'.log| && w'.log[i].Wrote?
        ensures !WorkloadKind(w'.log[i].key.kind)
      {
        assert Proper(w'.log[i], p);
        EarlyIsNoWorkload(spec.namespace, w'.log[i].key);
      }
    }
  }

  lemma EarlyIsNoWorkload(ns: string, key: Key)
    requires key in EarlyKeys(ns)
    ensures !WorkloadKind(key.kind)
  {
  }

  /** Children are created or updated only for a Sesame that was read holding the finalizer, not being
      deleted, and found valid; and only under that Sesame's keys. */
  lemma WritesNeedTheFinalizer(w: World, cfg: Config, me: Name)
    requires Sound(w)
    ensures var w' := Reconcile(w, cfg, me).1;
      w.log <= w'.log && forall i | |w.log| <= i < |w'.log| && w'.log[i].Wrote? ::
        && w'.log[i].key in KeysOf(w, me)
        && (w'.log[i].op == Deletes ==> EnsurePass(w, cfg, me) || DeletePass(w, me))
        && (w'.log[i].op != Deletes ==> EnsurePass(w, cfg, me))
  {
    hide Evolves, Reconcile, DeleteChildren, RemoveFinalizer, ManagedKeys, WorkloadKeys, DeletePass,
      EnsurePass, KeysOf, Sound;
    var w' := Reconcile(w, cfg, me).1;
    if DeletePass(w, me) {
      var w1, ses, w2 := DeletePassEvolves(w, cfg, me);
      var p := Pass(me, {}, KeysOf(w, me));
      EvolvesTransitive(w, w1, w2, p);
      EvolvesVersions(w, w2, p);
      RemoveFinalizerLog(w2, me, ses);
      assert forall i | |w.log| <= i < |w'.log| && w'.log[i].Wrote? :: Proper(w'.log[i], p);
    } else {
      ReconcileEvolves(w, cfg, me);
      var keys := if EnsurePass(w, cfg, me) then KeysOf(w, me) else {};
      EvolvesVersions(w, w', Pass(me, keys, keys));
      assert forall i | |w.log| <= i < |w'.log| :: Proper(w'.log[i], Pass(me, keys, keys));
    }
  }

  // ----- errors -----

  /** The world after the first `i` of `wants` have been ensured one after the other. */
  function AfterSteps(w: World, cfg: Config, me: Name, wants: seq<Wanted>, i: nat): World
    requires i <= |wants|
  {
    if i == 0 then w else Ensure(AfterSteps(w, cfg, me, wants, i - 1), cfg, me, wants[i - 1]).1
  }

  /** What the `i`th of `wants` answers in its turn. */
  function StepAnswer(w: World, cfg: Config, me: Name, wants: seq<Wanted>, i: nat): Option<Error>
    requires i < |wants|
  {
    Ensure(AfterSteps(w, cfg, me, wants, i), cfg, me, wants[i]).0
  }

  lemma {:induction false} AfterFirstStep(w: World, cfg: Config, me: Name, wants: seq<Wanted>, i: nat)
    requires i < |wants|
    ensures AfterSteps(w, cfg, me, wants, i + 1) == AfterSteps(Ensure(w, cfg, me, wants[0]).1, cfg, me, wants[1..], i)
  {
    hide Ensure;
    if i == 0 {
      assert AfterSteps(w, cfg, me, wants, 0) == w;
    } else {
      AfterFirstStep(w, cfg, me, wants, i - 1);
    }
  }

  lemma {:induction false} AfterPrefix(w: World, cfg: Config, me: Name, xs: seq<Wanted>, ys: seq<Wanted>, i: nat)
    requires i <= |xs|
    ensures AfterSteps(w, cfg, me, xs + ys, i) == AfterSteps(w, cfg, me, xs, i)
  {
    hide Ensure;
    if i > 0 { AfterPrefix(w, cfg, me, xs, ys, i - 1); }
  }

  lemma {:induction false} AfterSuffix(w: World, cfg: Config, me: Name, xs: seq<Wanted>, ys: seq<Wanted>, i: nat)
    requires i <= |ys|
    ensures AfterSteps(w, cfg, me, xs + ys, |xs| + i) ==
            AfterSteps(AfterSteps(w, cfg, me, xs, |xs|), cfg, me, ys, i)
  {
    hide Ensure;
    if i == 0 {
      AfterPrefix(w, cfg, me, xs, ys, |xs|);
    } else {
      AfterSuffix(w, cfg, me, xs, ys, i - 1);
    }
  }

  /** Every later step runs, whatever became of the ones before it, until one panics, which is the last. */
  lemma {:induction false} EveryStepRuns(w: World, cfg: Config, me: Name, wants: seq<Wanted>)
    ensures var (results, w') := EnsureAll(w, cfg, me, wants);
      && |results| <= |wants| && w' == AfterSteps(w, cfg, me, wants, |results|)
      && (forall i | 0 <= i < |results| :: results[i] == StepAnswer(w, cfg, me, wants, i))
      && (forall i | 0 <= i < |results| - 1 :: results[i] != Some(Panic))
      && (|results| < |wants| ==> results != [] && results[|results| - 1] == Some(Panic))
    decreases |wants|
  {
    hide Ensure;
    if wants != [] {
      var (e, w1) := Ensure(w, cfg, me, wants[0]);
      var results := EnsureAll(w, cfg, me, wants).0;
      assert AfterSteps(w, cfg, me, wants, 0) == w;
      assert AfterSteps(w, cfg, me, wants, 1) == w1;
      if e != Some(Panic) {
        var rest := EnsureAll(w1, cfg, me, wants[1..]).0;
        EveryStepRuns(w1, cfg, me, wants[1..]);
        assert results == [e] + rest;
        forall i | 1 <= i < |results|
          ensures results[i] == StepAnswer(w, cfg, me, wants, i)
        {
          AfterFirstStep(w, cfg, me, wants, i - 1);
          assert results[i] == rest[i - 1] == StepAnswer(w1, cfg, me, wants[1..], i - 1);
        }
        if rest != [] { AfterFirstStep(w, cfg, me, wants, |rest| - 1 + 1); }
      }
    }
  }

  /** RBAC steps run in order up to the first error, which is the answer. */
  predicate StopsAt(w: World, cfg: Config, me: Name, wants: seq<Wanted>, n: nat) {
    && n <= |wants|
    && (forall i | 0 <= i < n :: StepAnswer(w, cfg, me, wants, i).None?)
    && var (e, w') := EnsureUntilError(w, cfg, me, wants);
       if n < |wants| then
         e == StepAnswer(w, cfg, me, wants, n) && e.Some? && w' == AfterSteps(w, cfg, me, wants, n + 1)
       else
         e.None? && w' == AfterSteps(w, cfg, me, wants, n)
  }

  lemma {:induction false} UntilErrorStops(w: World, cfg: Config, me: Name, wants: seq<Wanted>) returns (n: nat)
    ensures StopsAt(w, cfg, me, wants, n)
    decreases |wants|
  {
    hide Ensure;
    n := 0;
    if wants != [] {
      var (e, w1) := Ensure(w, cfg, me, wants[0]);
      assert AfterSteps(w, cfg, me, wants, 0) == w;
      assert AfterSteps(w, cfg, me, wants, 1) == w1;
      if e.None? {
        var m := UntilErrorStops(w1, cfg, me, wants[1..]);
        n := m + 1;
        forall i | 0 <= i < n
          ensures StepAnswer(w, cfg, me, wants, i).None?
        {
          if i > 0 {
            AfterFirstStep(w, cfg, me, wants, i - 1);
            assert StepAnswer(w1, cfg, me, wants[1..], i - 1).None?;
          }
        }
        AfterFirstStep(w, cfg, me, wants, m);
        if n < |wants| { AfterFirstStep(w, cfg, me, wants, m + 1); }
      }
    }
  }

  /** The world after the first `i` of `keys` have been deleted one after the other. */
  function AfterDeletions(w: World, me: Name, keys: seq<Key>, i: nat): World
    requires i <= |keys|
  {
    if i == 0 then w else DeleteOwned(AfterDeletions(w, me, keys, i - 1), me, keys[i - 1]).1
  }

  lemma {:induction false} AfterFirstDeletion(w: World, me: Name, keys: seq<Key>, i: nat)
    requires i < |keys|
    ensures AfterDeletions(w, me, keys, i + 1) == AfterDeletions(DeleteOwned(w, me, keys[0]).1, me, keys[1..], i)
  {
    hide DeleteOwned;
    if i == 0 {
      assert AfterDeletions(w, me, keys, 0) == w;
    } else {
      AfterFirstDeletion(w, me, keys, i - 1);
    }
  }

  /** Every deletion is attempted, whatever became of the ones before it, and its answer kept. */
  lemma {:induction false} EveryDeletionRuns(w: World, me: Name, keys: seq<Key>)
    ensures var (results, w') := DeleteAll(w, me, keys);
      && |results| == |keys| && w' == AfterDeletions(w, me, keys, |keys|)
      && forall i | 0 <= i < |keys| :: results[i] == DeleteOwned(AfterDeletions(w, me, keys, i), me, keys[i]).0
    decreases |keys|
  {
    hide DeleteOwned;
    if keys != [] {
      var (e, w1) := DeleteOwned(w, me, keys[0]);
      var rest := DeleteAll(w1, me, keys[1..]).0;
      EveryDeletionRuns(w1, me, keys[1..]);
      assert AfterDeletions(w, me, keys, 0) == w;
      assert DeleteAll(w, me, keys).0 == [e] + rest;
      forall i | 1 <= i < |keys|
        ensures DeleteAll(w, me, keys).0[i] == DeleteOwned(AfterDeletions(w, me, keys, i), me, keys[i]).0
      {
        AfterFirstDeletion(w, me, keys, i - 1);
      }
      AfterFirstDeletion(w, me, keys, |keys| - 1);
    }
  }

  /** A pass succeeds exactly when every step and the status sync did. */
  lemma EnsureSesameSucceedsIff(w: World, cfg: Config, me: Name, spec: Spec)
    ensures var (n, w1) := Ensure(w, cfg, me, NamespaceWanted(me, spec.namespace));
      var (r, w2) := EnsureUntilError(w1, cfg, me, RbacWanted(me, spec.namespace));
      var (results, w3) := EnsureAll(w2, cfg, me, WorkloadsWanted(cfg, me, spec));
      EnsureSesame(w, cfg, me, spec).0.None? <==>
        && n.None? && r.None?
        && (forall i | 0 <= i < |results| :: results[i].None?)
        && Sync(w3, me).err.None?
  {
    hide Ensure, EnsureUntilError, EnsureAll, Sync, NamespaceWanted, RbacWanted, WorkloadsWanted, NonNil, Finish;
    var (n, w1) := Ensure(w, cfg, me, NamespaceWanted(me, spec.namespace));
    var (r, w2) := EnsureUntilError(w1, cfg, me, RbacWanted(me, spec.namespace));
    var (results, w3) := EnsureAll(w2, cfg, me, WorkloadsWanted(cfg, me, spec));
    var early := [Wrap("namespace", n), Wrap("rbac", r)];
    if n.Some? || r.Some? {
      FinishSucceedsIff(w2, me, n, r, []);
      assert early + WrapAll("workload", []) == early;
    } else if !Panicked(results) {
      FinishSucceedsIff(w3, me, n, r, results);
    }
  }

  lemma FinishSucceedsIff(w: World, me: Name, n: Option<Error>, r: Option<Error>, results: seq<Option<Error>>)
    ensures Finish(w, me, [Wrap("namespace", n), Wrap("rbac", r)] + WrapAll("workload", results)).0.None? <==>
            n.None? && r.None? && (forall i | 0 <= i < |results| :: results[i].None?) && Sync(w, me).err.None?
  {
    hide Sync, NonNil, AllRetryable, MinAfter;
    var early, status := [Wrap("namespace", n), Wrap("rbac", r)], [Wrap("status", Sync(w, me).err)];
    NilAppend(early + WrapAll("workload", results), status);
    NilAppend(early, WrapAll("workload", results));
    AllNil(early);
    AllNil(WrapAll("workload", results));
    AllNil(status);
    assert early[0] == Wrap("namespace", n) && early[1] == Wrap("rbac", r) && status[0].None? == Sync(w, me).err.None?;
    assert forall i | 0 <= i < |results| :: WrapAll("workload", results)[i].None? == results[i].None?;
  }

  lemma NilAppend(a: seq<Option<Error>>, b: seq<Option<Error>>)
    ensures NonNil(a + b) == [] <==> NonNil(a) == [] && NonNil(b) == []
  {
    hide NonNil;
    AllNil(a);
    AllNil(b);
    AllNil(a + b);
    assert forall i | 0 <= i < |a| :: (a + b)[i] == a[i];
    assert forall i | 0 <= i < |b| :: (a + b)[|a| + i] == b[i];
  }

  /** The Deployment cannot be read, or the stored form of a NodePort Service has more ports than the
      desired one. */
  predicate StepPanics(w: World, me: Name, want: Wanted) {
    var r := GetChild(w, want.key).0;
    || (want.desired.body.DeploymentBody? && r.Failed? && r.reason != NotFound)
    || (&& r.Ok? && Owned(r.value, me) && want.envoy == Some(NodePortService)
        && r.value.body.ServiceBody? && want.desired.body.ServiceBody?
        && |r.value.body.service.ports| > |want.desired.body.service.ports|)
  }

  lemma EnsurePanicsIff(w: World, cfg: Config, me: Name, want: Wanted)
    ensures Ensure(w, cfg, me, want).0 == Some(Panic) <==> StepPanics(w, me, want)
  {
    hide Begin, CreateChild, DeleteChild, UpdateChild, Owned;
    if GetChild(w, want.key).0.Ok? {
      var w1 := GetChild(w, want.key).1;
      var current := GetChild(w, want.key).0.value;
      if Compare(want.envoy, current, want.desired).Differs? {
        RecreateDoesNotPanic(w1, want.key, Compare(want.envoy, current, want.desired).updated,
            1 + cfg.extraJobAttempts);
      }
    }
  }

  /** A spec that is valid up to a node-port list shorter than the two elements the CRD demands. */
  predicate ShortNodePorts(spec: Spec) {
    var p := spec.publishing;
    && AcceptedContainerPorts(p.containerPorts) && p.kind == NodePortService
    && p.nodePorts.Some? && |p.nodePorts.value| < 2
    && forall i | 0 <= i < |p.nodePorts.value| :: NamedPort(p.nodePorts.value[i])
  }

  lemma ValidationPanicsIff(w: World, cfg: Config, me: Name, spec: Spec)
    ensures Validate(w, cfg, me, spec).0 == Some(Panic) <==>
            var all := ListSesames(w).0;
            all.Ok? && !ShowsOtherInNs(all.value, me, spec.namespace) && ShortNodePorts(spec)
  {
    hide Begin, OthersInSpecNs, ShowsOtherInNs, AcceptedContainerPorts, NamedPort;
    var all := ListSesames(w).0;
    if all.Ok? { OthersExistIsExactIff(all.value, me, spec.namespace); }
  }

  /** The process dies in a reconcile exactly when validation indexes a short node-port list, or a step
      of an ensure pass that gets that far panics. */
  lemma ReconcilePanicsIff(w: World, cfg: Config, me: Name)
    ensures var (r, w1) := GetSesame(w, me);
      Reconcile(w, cfg, me).0.err == Some(Panic) <==>
        && r.Ok? && !r.value.deleting
        && var spec := r.value.spec;
           var (all, w2) := ListSesames(w1);
           || (all.Ok? && !ShowsOtherInNs(all.value, me, spec.namespace) && ShortNodePorts(spec))
           || (EnsurePass(w, cfg, me) && PassPanics(w2, cfg, me, spec))
  {
    hide GetSesame, Validate, AddFinalizer, EnsureSesame, EnsureSesameDeleted, PassPanics, ShowsOtherInNs,
      ShortNodePorts, Begin;
    var (r, w1) := GetSesame(w, me);
    if r.Ok? && r.value.deleting {
      DeletePassDoesNotPanic(w1, me, r.value);
    } else if r.Ok? {
      var spec := r.value.spec;
      var (v, w2) := Validate(w1, cfg, me, spec);
      ValidationPanicsIff(w1, cfg, me, spec);
      ValidateLists(w1, cfg, me, spec);
      FinalizerDoesNotPanic(w2, me, r.value);
      EnsureSesamePanicsIff(w2, cfg, me, spec);
    }
  }

  lemma ValidateLists(w: World, cfg: Config, me: Name, spec: Spec)
    ensures Validate(w, cfg, me, spec).1 == ListSesames(w).1
  {
    hide Begin, OthersInSpecNs;
  }

  lemma FinalizerDoesNotPanic(w: World, me: Name, ses: Sesame)
    ensures AddFinalizer(w, me, ses).0 != Some(Panic)
  {
    hide UpdateSesame;
  }

  lemma DeletePassDoesNotPanic(w: World, me: Name, ses: Sesame)
    ensures EnsureSesameDeleted(w, me, ses).0 != Some(Panic)
  {
    hide DeleteChildren, RemoveFinalizer, NonNil;
  }

  /** Namespace and RBAC are in place, and one of the steps that run panics. */
  predicate PassPanics(w: World, cfg: Config, me: Name, spec: Spec) {
    var (n, w1) := Ensure(w, cfg, me, NamespaceWanted(me, spec.namespace));
    var (r, w2) := EnsureUntilError(w1, cfg, me, RbacWanted(me, spec.namespace));
    var wants := WorkloadsWanted(cfg, me, spec);
    && n.None? && r.None?
    && exists i | 0 <= i < |wants| ::
         && (forall j | 0 <= j < i :: StepAnswer(w2, cfg, me, wants, j) != Some(Panic))
         && StepPanics(AfterSteps(w2, cfg, me, wants, i), me, wants[i])
  }

  lemma EnsureSesamePanicsIff(w: World, cfg: Config, me: Name, spec: Spec)
    ensures EnsureSesame(w, cfg, me, spec).0 == Some(Panic) <==> PassPanics(w, cfg, me, spec)
  {
    hide Ensure, EnsureUntilError, EnsureAll, NamespaceWanted, RbacWanted, WorkloadsWanted, Finish, StepPanics, WrapAll;
    var (n, w1) := Ensure(w, cfg, me, NamespaceWanted(me, spec.namespace));
    var (r, w2) := EnsureUntilError(w1, cfg, me, RbacWanted(me, spec.namespace));
    var wants := WorkloadsWanted(cfg, me, spec);
    var (results, w3) := EnsureAll(w2, cfg, me, wants);
    var early := [Wrap("namespace", n), Wrap("rbac", r)];
    FinishDoesNotPanic(w2, me, early);
    FinishDoesNotPanic(w3, me, early + WrapAll("workload", results));
    if n.None? && r.None? {
      EveryStepRuns(w2, cfg, me, wants);
      forall i | 0 <= i < |wants|
        ensures StepAnswer(w2, cfg, me, wants, i) == Some(Panic) <==>
                StepPanics(AfterSteps(w2, cfg, me, wants, i), me, wants[i])
      {
        EnsurePanicsIff(AfterSteps(w2, cfg, me, wants, i), cfg, me, wants[i]);
      }
      if Panicked(results) {
        assert StepAnswer(w2, cfg, me, wants, |results| - 1) == Some(Panic);
      }
    }
  }

  lemma FinishDoesNotPanic(w: World, me: Name, errs: seq<Option<Error>>)
    ensures Finish(w, me, errs).0 != Some(Panic)
  {
    hide Sync, NonNil, AllRetryable, MinAfter;
  }

  lemma {:induction false} RetryCreateDoesNotPanic(w: World, key: Key, o: Object, tries: nat)
    ensures RetryCreate(w, key, o, tries).0 != Some(Panic)
    decreases tries
  {
    if tries > 0 { RetryCreateDoesNotPanic(CreateChild(w, key, o).1, key, o, tries - 1); }
  }

  lemma RecreateDoesNotPanic(w: World, key: Key, o: Object, tries: nat)
    ensures Recreate(w, key, o, tries).0 != Some(Panic)
  {
    RetryCreateDoesNotPanic(DeleteChild(w, key).1, key, o, tries);
  }

  /** A retryable error would be answered by a delay and no error, any other is returned as it is. */
  lemma RespondFits(e: Option<Error>)
    ensures Respond(e) == if Judge(e).RetryAfter? then Outcome(Some(Judge(e).delay), None) else Outcome(None, e)
  {
  }

  /** Both passes wrap errors before they aggregate them, so `Reconcile` never asks to be called again
      after a delay: its branches for retryable errors are dead. */
  lemma NeverRequeuesAfter(w: World, cfg: Config, me: Name)
    ensures Reconcile(w, cfg, me).0.requeueAfter.None?
  {
    hide GetSesame, Validate, AddFinalizer, DeleteChildren, RemoveFinalizer, Ensure, EnsureUntilError, EnsureAll,
      Sync, MaybeRetryable;
    var (r, w1) := GetSesame(w, me);
    if r.Ok? && !r.value.deleting {
      var spec := r.value.spec;
      var w2 := Validate(w1, cfg, me, spec).1;
      var (n, w3) := Ensure(w2, cfg, me, NamespaceWanted(me, spec.namespace));
      var (rb, w4) := EnsureUntilError(w3, cfg, me, RbacWanted(me, spec.namespace));
      var (results, w5) := EnsureAll(w4, cfg, me, WorkloadsWanted(cfg, me, spec));
      var early := [Wrap("namespace", n), Wrap("rbac", rb)];
      WrappedIsNeverRetryable(early + [Wrap("status", Sync(w4, me).err)]);
      WrappedIsNeverRetryable(early + WrapAll("workload", results) + [Wrap("status", Sync(w5, me).err)]);
    }
  }

  // ----- owned children over runs -----

  function OwnedBy(w: World, n: Name): set<Key> {
    set k | k in w.children && Owned(w.children[k], n)
  }

  /** Only an ensure pass for `n` can add to what `n` owns. */
  lemma OthersAddNothing(w: World, cfg: Config, me: Name, n: Name)
    requires Sound(w) && (me != n || !EnsurePass(w, cfg, me))
    ensures OwnedBy(Reconcile(w, cfg, me).1, n) <= OwnedBy(w, n)
  {
    hide Evolves, Reconcile, DeleteChildren, RemoveFinalizer, ManagedKeys, WorkloadKeys, DeletePass,
      EnsurePass, KeysOf, Sound, OwnedBy;
    var w' := Reconcile(w, cfg, me).1;
    if DeletePass(w, me) {
      var w1, ses, w2 := DeletePassEvolves(w, cfg, me);
      var p := Pass(me, {}, KeysOf(w, me));
      EvolvesTransitive(w, w1, w2, p);
      NoGrowth(w, w2, n, p);
      EvolvesIsSound(w1, w2, p);
      EvolvesVersions(w1, w2, p);
      EvolvesIsSound(w, w1, p);
      RemoveFinalizerEffect(w1, w2, ses, p);
      if w' != w2 {
        var fs := Slice.Without(ses.finalizers, FINALIZER);
        var w3 :|
          && Evolves(w2, w3, p) && w3.log == w2.log
          && (w' == w3
              || (p.me in w3.sesames && w3.sesames[p.me] == ses
                  && w' == Record(StoreSesame(w3, p.me, ses.(finalizers := fs)), WroteFinalizers(p.me, ses, fs))));
        NoGrowth(w2, w3, n, p);
        SameChildren(w3, w', n);
      }
    } else {
      ReconcileEvolves(w, cfg, me);
      var keys := if EnsurePass(w, cfg, me) then KeysOf(w, me) else {};
      NoGrowth(w, w', n, Pass(me, keys, keys));
    }
  }

  lemma NoGrowth(w: World, w': World, n: Name, p: Pass)
    requires Evolves(w, w', p) && (p.writes == {} || n != p.me)
    ensures OwnedBy(w', n) <= OwnedBy(w, n)
  {
  }

  lemma SameChildren(w: World, w': World, n: Name)
    requires w.children == w'.children
    ensures OwnedBy(w, n) == OwnedBy(w', n)
  {
  }

  /** Deletion is monotone: over any run, failing and succeeding passes alike, in which `n` is never
      ensured, the set of children `n` owns never grows. */
  lemma {:induction false} DeletionIsMonotone(w: World, cfg: Config, requests: seq<Name>, n: Name)
    requires Safe(w)
    requires forall i | 0 <= i < |requests| ::
               requests[i] == n ==> !EnsurePass(Run(w, cfg, requests[..i]), cfg, n)
    ensures OwnedBy(Run(w, cfg, requests), n) <= OwnedBy(w, n)
    decreases |requests|
  {
    hide Reconcile, Safe, EnsurePass, OwnedBy;
    if requests != [] {
      var k := |requests| - 1;
      forall i | 0 <= i < k
        ensures requests[..k][i] == n ==> !EnsurePass(Run(w, cfg, requests[..k][..i]), cfg, n)
      {
        assert requests[..k][..i] == requests[..i];
      }
      DeletionIsMonotone(w, cfg, requests[..k], n);
      RunIsSafe(w, cfg, requests[..k]);
      SafeIsSound(Run(w, cfg, requests[..k]));
      OthersAddNothing(Run(w, cfg, requests[..k]), cfg, requests[k], n);
    }
  }
}
