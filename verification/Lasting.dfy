/** What an ensure pass that returns nil leaves behind: the final state of every child that no other
    actor touched during the pass, whatever they did to other objects. */
module Lasting {
  import opened Api
  import opened RetryableError
  import opened Equality
  import opened Conditions
  import opened Server
  import opened Evolution
  import opened Objects
  import opened StatusSync
  import opened Controller
  import opened Guarantees
  import opened Convergence
  import opened Answers

  predicate ActsOn(step: Step, key: Key) {
    (step.PutChild? || step.RemoveChild?) && step.key == key
  }

  predicate TickActsOn(tick: Tick, key: Key) {
    exists i | 0 <= i < |tick.steps| :: ActsOn(tick.steps[i], key)
  }

  /** How many ticks put or remove the child. */
  function Interventions(schedule: seq<Tick>, key: Key): nat {
    if schedule == [] then 0
    else (if TickActsOn(schedule[0], key) then 1 else 0) + Interventions(schedule[1..], key)
  }

  /** No tick used up between the two worlds touches the child. */
  predicate HandsOff(w: World, w': World, key: Key) {
    Interventions(w.schedule, key) == Interventions(w'.schedule, key)
  }

  predicate SameChild(w: World, w': World, key: Key) {
    && (key in w.children <==> key in w'.children)
    && (key in w.children ==> w.children[key] == w'.children[key])
  }

  predicate Spends(w: World, w': World, key: Key) {
    Interventions(w'.schedule, key) <= Interventions(w.schedule, key)
  }

  /** The operator leaves the child alone. */
  predicate Leaves(w: World, w': World, key: Key) {
    Spends(w, w', key) && (HandsOff(w, w', key) ==> SameChild(w, w', key))
  }

  lemma LeavesThen(a: World, b: World, c: World, key: Key)
    requires Leaves(a, b, key) && Leaves(b, c, key)
    ensures Leaves(a, c, key)
  {
    hide Interventions;
  }

  lemma {:induction false} StepsLeave(w: World, steps: seq<Step>, key: Key)
    requires forall i | 0 <= i < |steps| :: !ActsOn(steps[i], key)
    ensures SameChild(w, ActAll(w, steps), key)
  {
    hide Act, ActsOn, SameChild;
    if steps == [] {
      SameChildItself(w, key);
    } else {
      var init := steps[..|steps| - 1];
      assert forall i | 0 <= i < |init| :: init[i] == steps[i];
      StepsLeave(w, init, key);
      StepLeaves(ActAll(w, init), steps[|steps| - 1], key);
      SameChildThen(w, ActAll(w, init), ActAll(w, steps), key);
    }
  }

  lemma SameChildItself(w: World, key: Key)
    ensures SameChild(w, w, key)
  {
  }

  lemma SameChildThen(a: World, b: World, c: World, key: Key)
    requires SameChild(a, b, key) && SameChild(b, c, key)
    ensures SameChild(a, c, key)
  {
  }

  lemma StepLeaves(w: World, step: Step, key: Key)
    requires !ActsOn(step, key)
    ensures SameChild(w, Act(w, step), key)
  {
  }

  lemma BeginLeaves(w: World, key: Key)
    ensures Leaves(w, Begin(w).1, key)
  {
    hide ActAll, TickActsOn;
    BeginFrame(w);
    if w.schedule != [] && !TickActsOn(w.schedule[0], key) {
      TickLeaves(w, key);
    }
  }

  lemma TickLeaves(w: World, key: Key)
    requires w.schedule != [] && !TickActsOn(w.schedule[0], key)
    ensures SameChild(w, Begin(w).1, key)
  {
    hide ActAll, ActsOn;
    StepsLeave(w.(schedule := w.schedule[1..]), w.schedule[0].steps, key);
  }

  lemma CreateLeaves(w: World, at: Key, o: Object, key: Key)
    ensures Spends(w, CreateChild(w, at, o).1, key) && (key != at ==> Leaves(w, CreateChild(w, at, o).1, key))
  {
    hide Begin, Interventions;
    BeginLeaves(w, key);
  }

  lemma UpdateLeaves(w: World, at: Key, o: Object, key: Key)
    ensures Spends(w, UpdateChild(w, at, o).1, key) && (key != at ==> Leaves(w, UpdateChild(w, at, o).1, key))
  {
    hide Begin, Interventions;
    BeginLeaves(w, key);
  }

  lemma DeleteLeaves(w: World, at: Key, key: Key)
    ensures Spends(w, DeleteChild(w, at).1, key) && (key != at ==> Leaves(w, DeleteChild(w, at).1, key))
  {
    hide Begin, Interventions;
    BeginLeaves(w, key);
  }

  lemma DeleteOwnedLeaves(w: World, me: Name, at: Key, key: Key)
    ensures Spends(w, DeleteOwned(w, me, at).1, key) && (key != at ==> Leaves(w, DeleteOwned(w, me, at).1, key))
  {
    hide Begin, Interventions, DeleteChild, Owned, SameChild;
    var w1 := GetChild(w, at).1;
    BeginLeaves(w, key);
    DeleteLeaves(w1, at, key);
    if key != at { LeavesThen(w, w1, DeleteChild(w1, at).1, key); }
  }

  lemma {:induction false} RetryCreateLeaves(w: World, at: Key, o: Object, tries: nat, key: Key)
    ensures Spends(w, RetryCreate(w, at, o, tries).1, key)
    ensures key != at ==> Leaves(w, RetryCreate(w, at, o, tries).1, key)
    decreases tries
  {
    hide CreateChild, Interventions, SameChild;
    SameChildItself(w, key);
    if tries > 0 {
      var w1 := CreateChild(w, at, o).1;
      CreateLeaves(w, at, o, key);
      RetryCreateLeaves(w1, at, o, tries - 1, key);
      if key != at { LeavesThen(w, w1, RetryCreate(w1, at, o, tries - 1).1, key); }
    }
  }

  lemma RecreateLeaves(w: World, at: Key, o: Object, tries: nat, key: Key)
    ensures Spends(w, Recreate(w, at, o, tries).1, key)
    ensures key != at ==> Leaves(w, Recreate(w, at, o, tries).1, key)
  {
    hide DeleteChild, RetryCreate, Interventions, SameChild;
    var w1 := DeleteChild(w, at).1;
    DeleteLeaves(w, at, key);
    RetryCreateLeaves(w1, at, o, tries, key);
    if key != at { LeavesThen(w, w1, RetryCreate(w1, at, o, tries).1, key); }
  }

  lemma EnsureLeaves(w: World, cfg: Config, me: Name, want: Wanted, key: Key)
    ensures Spends(w, Ensure(w, cfg, me, want).1, key)
    ensures key != want.key ==> Leaves(w, Ensure(w, cfg, me, want).1, key)
  {
    hide Begin, Interventions, CreateChild, UpdateChild, DeleteOwned, Recreate, Compare, SelectorsDiffer, Owned,
      SameChild;
    var (r, w1) := GetChild(w, want.key);
    var w' := Ensure(w, cfg, me, want).1;
    BeginLeaves(w, key);
    CreateLeaves(w1, want.key, want.desired, key);
    DeleteOwnedLeaves(w1, me, want.key, key);
    if r.Ok? && Compare(want.envoy, r.value, want.desired).Differs? {
      var u := Compare(want.envoy, r.value, want.desired).updated;
      UpdateLeaves(w1, want.key, u, key);
      RecreateLeaves(w1, want.key, u, 1 + cfg.extraJobAttempts, key);
    }
    if key != want.key && Leaves(w1, w', key) { LeavesThen(w, w1, w', key); }
  }

  /** From after step `i` to after step `j`. */
  lemma {:induction false} StepsInBetween(w: World, cfg: Config, me: Name, wants: seq<Wanted>, i: nat, j: nat, key: Key)
    requires i <= j <= |wants|
    ensures var a, b := AfterSteps(w, cfg, me, wants, i), AfterSteps(w, cfg, me, wants, j);
      && Spends(a, b, key)
      && ((forall k | i <= k < j :: wants[k].key != key) ==> Leaves(a, b, key))
    decreases j
  {
    hide Ensure, Interventions, SameChild;
    var a := AfterSteps(w, cfg, me, wants, i);
    SameChildItself(a, key);
    if i < j {
      var b, c := AfterSteps(w, cfg, me, wants, j - 1), AfterSteps(w, cfg, me, wants, j);
      StepsInBetween(w, cfg, me, wants, i, j - 1, key);
      EnsureLeaves(b, cfg, me, wants[j - 1], key);
      if forall k | i <= k < j :: wants[k].key != key {
        assert Leaves(a, b, key) && wants[j - 1].key != key;
        LeavesThen(a, b, c, key);
      }
    }
  }

  lemma {:induction false} SyncLeaves(w: World, me: Name, key: Key)
    ensures Leaves(w, Sync(w, me).world, key)
    decreases |w.schedule|
  {
    hide Begin, Interventions, NewStatus, MaybeRetryable, SameChild;
    var (r, w1) := GetSesame(w, me);
    BeginFrame(w);
    BeginLeaves(w, key);
    if r.Ok? {
      var (d, w2) := GetWorkload(w1, DeploymentKey(r.value.spec.namespace));
      var (s, w3) := GetWorkload(w2, DaemonSetKey(r.value.spec.namespace));
      BeginFrame(w1);
      BeginFrame(w2);
      BeginFrame(w3);
      BeginLeaves(w1, key);
      BeginLeaves(w2, key);
      LeavesThen(w, w1, w2, key);
      LeavesThen(w, w2, w3, key);
      var updated := NewStatus(r.value.status, Found(d), Found(s), w3.time);
      var (u, w4) := UpdateStatus(w3, me, r.value.version, updated);
      UpdateStatusLeaves(w3, me, r.value.version, updated, key);
      LeavesThen(w, w3, w4, key);
      if u == Some(Conflict) && updated != r.value.status {
        SyncLeaves(w4, me, key);
        LeavesThen(w, w4, Sync(w4, me).world, key);
      }
    }
  }

  lemma UpdateStatusLeaves(w: World, me: Name, version: nat, status: Status, key: Key)
    ensures Leaves(w, UpdateStatus(w, me, version, status).1, key)
  {
    hide Begin, Interventions;
    BeginLeaves(w, key);
  }

  /** If `ensureSesame` returns nil, then every child that no other actor put or removed during the pass is,
      in the end, as desired or in foreign hands as it was; or it had the wrong selector and is gone. */
  lemma NilPassLasts(w: World, cfg: Config, me: Name, spec: Spec, i: nat)
    requires EnsureSesame(w, cfg, me, spec).0.None? && i < |AllWanted(cfg, me, spec)|
    requires HandsOff(w, EnsureSesame(w, cfg, me, spec).1, AllWanted(cfg, me, spec)[i].key)
    ensures var w' := EnsureSesame(w, cfg, me, spec).1;
      var want := AllWanted(cfg, me, spec)[i];
      || Done(w', me, want)
      || (&& want.key in w.children && SelectorsDiffer(w.children[want.key], want.desired)
          && want.key !in w'.children)
  {
    hide Ensure, AllWanted, EnsureSesame, Sync, Interventions, Done, SelectorsDiffer, Begin, Distinct;
    var w' := EnsureSesame(w, cfg, me, spec).1;
    var wants := AllWanted(cfg, me, spec);
    var key := wants[i].key;
    NilPassRunsAll(w, cfg, me, spec);
    EnsureSesameNilMeans(w, cfg, me, spec, i);
    var before, after := AfterSteps(w, cfg, me, wants, i), AfterSteps(w, cfg, me, wants, i + 1);
    var last := AfterSteps(w, cfg, me, wants, |wants|);
    OthersKeys(cfg, me, spec, i);
    assert AfterSteps(w, cfg, me, wants, 0) == w;
    StepsInBetween(w, cfg, me, wants, 0, i, key);
    StepsInBetween(w, cfg, me, wants, i, i + 1, key);
    StepsInBetween(w, cfg, me, wants, i + 1, |wants|, key);
    SyncLeaves(last, me, key);
    LeavesThen(after, last, w', key);
    SameObject(after, w', me, wants[i]);
    BeginLeaves(before, key);
    ReadSpends(before, cfg, me, wants[i]);
  }

  lemma OthersKeys(cfg: Config, me: Name, spec: Spec, i: nat)
    requires i < |AllWanted(cfg, me, spec)|
    ensures var wants := AllWanted(cfg, me, spec);
      forall j | 0 <= j < |wants| && j != i :: wants[j].key != wants[i].key
  {
    hide AllWanted;
    WantedAreDistinct(cfg, me, spec);
  }

  /** The read of an ensure is within it. */
  lemma ReadSpends(w: World, cfg: Config, me: Name, want: Wanted)
    ensures Spends(Begin(w).1, Ensure(w, cfg, me, want).1, want.key)
  {
    hide Begin, Interventions, CreateChild, UpdateChild, DeleteOwned, Recreate, Compare, SelectorsDiffer, Owned,
      SameChild;
    var (r, w1) := GetChild(w, want.key);
    CreateLeaves(w1, want.key, want.desired, want.key);
    DeleteOwnedLeaves(w1, me, want.key, want.key);
    if r.Ok? && Compare(want.envoy, r.value, want.desired).Differs? {
      var u := Compare(want.envoy, r.value, want.desired).updated;
      UpdateLeaves(w1, want.key, u, want.key);
      RecreateLeaves(w1, want.key, u, 1 + cfg.extraJobAttempts, want.key);
    }
  }
}
