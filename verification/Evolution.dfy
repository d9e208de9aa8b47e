/** How the world may change during a pass: the relation every API call of the operator respects,
    whatever the other actors do and whichever calls fail. */
module Evolution {
  import opened Api
  import opened RetryableError
  import opened Conditions
  import opened Server

  /** Versions in use are below the counter, 0 is nobody's version, and stored Sesames are as the
      API server admits them. */
  predicate Sound(w: World) {
    && (forall n | n in w.sesames :: SoundSesame(w.sesames[n], w.next))
    && (forall k | k in w.children :: 0 < w.children[k].meta.version < w.next)
    && 0 < w.next
  }

  predicate SoundSesame(ses: Sesame, next: nat) {
    0 < ses.version < next && Admitted(ses.spec) && UniqueTypes(ses.status.conditions)
  }

  /** A pass of the operator: for whom, where it may create or update children and where delete them. */
  datatype Pass = Pass(me: Name, writes: set<Key>, deletes: set<Key>)

  /** `w'` comes after `w` has used up some of its schedule. */
  predicate Follows(w: World, w': World) {
    |w'.schedule| <= |w.schedule| && w'.schedule == w.schedule[|w.schedule| - |w'.schedule|..]
  }

  /** A Sesame holding the finalizer stays, with the finalizer, in its namespace. */
  predicate Holds(w: World, w': World) {
    forall n | n in w.sesames && Finalized(w.sesames[n]) ::
      n in w'.sesames && Finalized(w'.sesames[n]) && w'.sesames[n].spec.namespace == w.sesames[n].spec.namespace
  }

  /** What kept its version did not change. */
  predicate Versioned(w: World, w': World) {
    && w.next <= w'.next
    && (forall n | n in w'.sesames ::
          (n in w.sesames && w.sesames[n] == w'.sesames[n]) || w.next <= w'.sesames[n].version)
    && (forall k | k in w'.children ::
          (k in w.children && w.children[k] == w'.children[k]) || w.next <= w'.children[k].meta.version)
  }

  /** Owner labels appear only for `me`, at `keys`. */
  predicate Grants(w: World, w': World, me: Name, keys: set<Key>) {
    forall k | k in w'.children && Owner(w'.children[k]).Some? ::
      || (k in w.children && Owner(w.children[k]) == Owner(w'.children[k]))
      || (k in keys && Owner(w'.children[k]) == Some(me))
  }

  /** A write the pass may make. */
  predicate Proper(e: Event, p: Pass) {
    match e
    case Wrote(op, key, before, _, _) =>
      key in (if op == Deletes then p.deletes else p.writes) && (before.None? <==> op == Creates)
    case WroteFinalizers(id, _, finalizers) => id == p.me && FINALIZER in finalizers
    case WroteStatus(id, _, _) => id == p.me
  }

  predicate ProperSince(from: seq<Event>, log: seq<Event>, p: Pass) {
    from <= log && forall i | |from| <= i < |log| :: Proper(log[i], p)
  }

  predicate Evolves(w: World, w': World, p: Pass) {
    && Sound(w) && Sound(w')
    && Holds(w, w')
    && Versioned(w, w')
    && Grants(w, w', p.me, p.writes)
    && ProperSince(w.log, w'.log, p)
    && Follows(w, w')
  }

  lemma EvolvesTransitive(a: World, b: World, c: World, p: Pass)
    requires Evolves(a, b, p) && Evolves(b, c, p)
    ensures Evolves(a, c, p)
  {
    hide Proper, Sound, Finalized;
  }

  // ----- the other actors -----

  /** What other actors may do. */
  predicate Drifts(w: World, w': World) {
    && Sound(w) && Sound(w') && Holds(w, w') && Versioned(w, w')
    && forall k | k in w'.children && Owner(w'.children[k]).Some? ::
         k in w.children && Owner(w.children[k]) == Owner(w'.children[k])
  }

  lemma DriftsTransitive(a: World, b: World, c: World)
    requires Drifts(a, b) && Drifts(b, c)
    ensures Drifts(a, c)
  {
    hide Sound, Finalized;
  }

  /** `ses` may be stored at `id` without loosening anything. */
  predicate MayStore(w: World, id: Name, ses: Sesame) {
    && Admitted(ses.spec) && UniqueTypes(ses.status.conditions)
    && (id in w.sesames && Finalized(w.sesames[id]) ==>
          Finalized(ses) && ses.spec.namespace == w.sesames[id].spec.namespace)
  }

  lemma StoreSesameDrifts(w: World, id: Name, ses: Sesame)
    requires Sound(w) && MayStore(w, id, ses)
    ensures Drifts(w, StoreSesame(w, id, ses))
  {
    var w' := StoreSesame(w, id, ses);
    assert w'.children == w.children;
    assert forall n | n in w'.sesames :: SoundSesame(w'.sesames[n], w'.next);
  }

  lemma StoreChildIsSound(w: World, key: Key, o: Object)
    requires Sound(w)
    ensures var w' := StoreChild(w, key, o);
      && Sound(w') && Holds(w, w') && Versioned(w, w') && Owner(w'.children[key]) == Owner(o)
  {
    var w' := StoreChild(w, key, o);
    assert w'.sesames == w.sesames && Owner(Stamp(o, w.next)) == Owner(o);
    assert forall n | n in w'.sesames :: SoundSesame(w'.sesames[n], w'.next);
  }

  lemma ActOnSesameDrifts(w: World, step: Step)
    requires Sound(w) && (step.CreateSesame? || step.EditSesame? || step.DeleteSesame? || step.EditStatus?)
    ensures Drifts(w, Act(w, step))
  {
    if step.CreateSesame? {
      if step.id !in w.sesames && Admitted(step.spec) {
        StoreSesameDrifts(w, step.id, Sesame(0, step.finalizers, false, step.spec, Status(0, 0, [])));
      }
    } else if step.id in w.sesames {
      var was := w.sesames[step.id];
      assert SoundSesame(was, w.next);
      if step.DeleteSesame? {
        StoreSesameDrifts(w, step.id, was.(deleting := true));
      } else if step.EditStatus? {
        if UniqueTypes(step.status.conditions) {
          StoreSesameDrifts(w, step.id, was.(status := step.status));
        }
      } else if Act(w, step) != w {
        StoreSesameDrifts(w, step.id, was.(finalizers := step.finalizers, spec := step.spec));
      }
    }
  }

  lemma ActDrifts(w: World, step: Step)
    requires Sound(w)
    ensures Drifts(w, Act(w, step))
  {
    match step
    case PutChild(key, o) =>
      if !Forges(w, key, o) { StoreChildIsSound(w, key, o); }
    case RemoveChild(key) =>
    case ReportWorkload(key, workload) =>
    case Elapse(duration) =>
    case _ => ActOnSesameDrifts(w, step);
  }

  lemma ActFrame(w: World, step: Step)
    ensures Act(w, step).log == w.log && Act(w, step).schedule == w.schedule
  {
  }

  lemma {:induction false} ActAllFrame(w: World, steps: seq<Step>)
    ensures ActAll(w, steps).log == w.log && ActAll(w, steps).schedule == w.schedule
  {
    hide Act;
    if steps != [] {
      var init := steps[..|steps| - 1];
      ActAllFrame(w, init);
      ActFrame(ActAll(w, init), steps[|steps| - 1]);
    }
  }

  lemma {:induction false} ActAllDrifts(w: World, steps: seq<Step>)
    requires Sound(w)
    ensures Drifts(w, ActAll(w, steps))
  {
    hide Act;
    if steps != [] {
      var init := ActAll(w, steps[..|steps| - 1]);
      ActAllDrifts(w, steps[..|steps| - 1]);
      ActDrifts(init, steps[|steps| - 1]);
      DriftsTransitive(w, init, ActAll(w, steps));
    }
  }

  lemma BeginFrame(w: World)
    ensures Begin(w).1.log == w.log
    ensures Begin(w).1.schedule == if w.schedule == [] then [] else w.schedule[1..]
    ensures w.schedule == [] ==> Begin(w) == (NoFault, w)
  {
    if w.schedule != [] {
      ActAllFrame(w.(schedule := w.schedule[1..]), w.schedule[0].steps);
    }
  }

  lemma BeginEvolves(w: World, p: Pass)
    requires Sound(w)
    ensures Evolves(w, Begin(w).1, p)
  {
    hide ActAll, Proper;
    BeginFrame(w);
    if w.schedule != [] {
      var w0 := w.(schedule := w.schedule[1..]);
      ActAllDrifts(w0, w.schedule[0].steps);
      ActAllFrame(w0, w.schedule[0].steps);
    }
  }

  // ----- the operator's calls -----

  /** A write's effect on the store, and its entry in the log. */
  lemma RecordEvolves(w: World, w': World, e: Event, p: Pass)
    requires Evolves(w, w', p) && Proper(e, p)
    ensures Evolves(w, Record(w', e), p)
  {
  }

  lemma StoreSesameEvolves(w: World, id: Name, ses: Sesame, p: Pass)
    requires Sound(w) && MayStore(w, id, ses)
    ensures Evolves(w, StoreSesame(w, id, ses), p)
  {
    hide Sound;
    StoreSesameDrifts(w, id, ses);
  }

  lemma StoreChildEvolves(w: World, key: Key, o: Object, p: Pass)
    requires Sound(w) && key in p.writes && Owner(o) == Some(p.me)
    ensures Evolves(w, StoreChild(w, key, o), p)
  {
    hide Sound;
    StoreChildIsSound(w, key, o);
  }

  lemma DropChildEvolves(w: World, key: Key, p: Pass)
    requires Sound(w)
    ensures Evolves(w, DropChild(w, key), p)
  {
  }

  lemma CreateEvolves(w: World, key: Key, o: Object, p: Pass)
    requires Sound(w) && key in p.writes && Owner(o) == Some(p.me)
    ensures Evolves(w, CreateChild(w, key, o).1, p)
  {
    hide Begin, Evolves, StoreChild;
    var w1 := Begin(w).1;
    BeginEvolves(w, p);
    if CreateChild(w, key, o).1 != w1 {
      EvolvesIsSound(w, w1, p);
      StoreChildEvolves(w1, key, o, p);
      EvolvesTransitive(w, w1, StoreChild(w1, key, o), p);
      RecordEvolves(w, StoreChild(w1, key, o), Wrote(Creates, key, None, false, |w1.schedule|), p);
    }
  }

  lemma EvolvesIsSound(w: World, w': World, p: Pass)
    requires Evolves(w, w', p)
    ensures Sound(w) && Sound(w')
  {
  }

  lemma EvolvesVersions(w: World, w': World, p: Pass)
    requires Evolves(w, w', p)
    ensures Versioned(w, w') && Holds(w, w') && Follows(w, w') && ProperSince(w.log, w'.log, p)
  {
  }

  lemma UpdateEvolves(w: World, key: Key, o: Object, p: Pass)
    requires Sound(w) && key in p.writes && Owner(o) == Some(p.me)
    ensures Evolves(w, UpdateChild(w, key, o).1, p)
  {
    hide Begin, StoreChild, Evolves;
    var w1 := Begin(w).1;
    BeginEvolves(w, p);
    if UpdateChild(w, key, o).1 != w1 {
      EvolvesIsSound(w, w1, p);
      var e := Wrote(Updates, key, Some(w1.children[key]), o.meta.version != 0, |w1.schedule|);
      StoreChildEvolves(w1, key, o, p);
      EvolvesTransitive(w, w1, StoreChild(w1, key, o), p);
      RecordEvolves(w, StoreChild(w1, key, o), e, p);
    }
  }

  lemma DeleteEvolves(w: World, key: Key, p: Pass)
    requires Sound(w) && key in p.deletes
    ensures Evolves(w, DeleteChild(w, key).1, p)
  {
    hide Begin, Evolves, DropChild;
    var w1 := Begin(w).1;
    BeginEvolves(w, p);
    if DeleteChild(w, key).1 != w1 {
      EvolvesIsSound(w, w1, p);
      DropChildEvolves(w1, key, p);
      EvolvesTransitive(w, w1, DropChild(w1, key), p);
      var e := Wrote(Deletes, key, Some(w1.children[key]), false, |w1.schedule|);
      RecordEvolves(w, DropChild(w1, key), e, p);
    }
  }

  lemma UpdateStatusEvolves(w: World, version: nat, status: Status, p: Pass)
    requires Sound(w) && UniqueTypes(status.conditions)
    ensures Evolves(w, UpdateStatus(w, p.me, version, status).1, p)
  {
    hide Begin, Evolves, StoreSesame, UniqueTypes;
    var w1 := Begin(w).1;
    BeginEvolves(w, p);
    if UpdateStatus(w, p.me, version, status).1 != w1 {
      EvolvesIsSound(w, w1, p);
      var was := w1.sesames[p.me];
      assert SoundSesame(was, w1.next);
      var w2 := StoreSesame(w1, p.me, was.(status := status));
      StoreSesameEvolves(w1, p.me, was.(status := status), p);
      EvolvesTransitive(w, w1, w2, p);
      RecordEvolves(w, w2, WroteStatus(p.me, was, status), p);
    }
  }
}
