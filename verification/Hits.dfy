/** Exactly when each operation hits an object its Sesame does not own. */
module Hits {
  import opened Api
  import opened RetryableError
  import opened Equality
  import opened Server
  import opened Evolution
  import opened Objects
  import opened Passes
  import opened Safety
  import opened Windows

  predicate HitsForeign(from: seq<Event>, log: seq<Event>, me: Name) {
    exists i | |from| <= i < |log| ::
      log[i].Wrote? && log[i].op != Creates && log[i].before.Some? && !Owned(log[i].before.value, me)
  }

  /** In the tick of the next call, which goes through, an object under `key` is replaced. */
  predicate NextTickReplaces(w: World, key: Key) {
    w.schedule != [] && w.schedule[0].fault != Rejected && Replaced(w.schedule[0].steps, key)
  }

  lemma NextTick(w: World, key: Key)
    ensures NextTickReplaces(w, key) <==>
            Begin(w).0 != Rejected && Replaced(Since(w, |Begin(w).1.schedule|), key)
  {
    hide ActAll, Replaced;
    BeginFrame(w);
    assert w.schedule[..0] == [];
    if w.schedule == [] {
      NothingReplaced(key);
    } else {
      var ticks := w.schedule[..1];
      assert ticks[..0] == [] && ticks[0] == w.schedule[0];
      assert Steps(ticks) == [] + w.schedule[0].steps == w.schedule[0].steps;
    }
  }

  lemma NothingReplaced(key: Key)
    ensures !Replaced([], key)
  {
  }

  lemma DeletionHitsIff(at: World, w: World, key: Key, me: Name)
    requires Tracks(at, w, key, me)
    ensures HitsForeign(w.log, DeleteChild(w, key).1.log, me) <==>
            Begin(w).0 != Rejected && Replaced(Since(at, |Begin(w).1.schedule|), key)
  {
    hide Begin, Replaced, Since;
    BeginFrame(w);
    BeginTracks(at, w, key, me);
    var w1 := Begin(w).1;
    if Begin(w).0 != Rejected && key in w1.children {
      assert DeleteChild(w, key).1.log[|w.log|].before == Some(w1.children[key]);
    }
  }

  /** `Ensure*Deleted` deletes a foreign object exactly when it read an owned one and another actor
      replaces it in the tick of the deletion. */
  lemma DeleteOwnedHitsForeignIff(w: World, me: Name, key: Key)
    ensures var (r, w1) := GetChild(w, key);
      HitsForeign(w.log, DeleteOwned(w, me, key).1.log, me) <==>
        r.Ok? && Owned(r.value, me) && NextTickReplaces(w1, key)
  {
    hide Begin, DeleteChild, NextTickReplaces;
    BeginFrame(w);
    var (r, w1) := GetChild(w, key);
    if r.Ok? && Owned(r.value, me) {
      TracksFromRead(w1, key, me);
      DeletionHitsIff(w1, w1, key, me);
      NextTick(w1, key);
    }
  }

  /** An update hits a foreign object exactly when it has no resource version and the object read is
      replaced in its tick. */
  lemma UpdateHitsForeignIff(w: World, key: Key, o: Object, me: Name)
    requires Sound(w) && key in w.children && Owned(w.children[key], me)
    requires o.meta.version == 0 || o.meta.version == w.children[key].meta.version
    ensures HitsForeign(w.log, UpdateChild(w, key, o).1.log, me) <==> o.meta.version == 0 && NextTickReplaces(w, key)
  {
    hide Begin, Replaced, Since, NextTickReplaces, WatchedSince, StoreChild, Sound;
    BeginFrame(w);
    NextTick(w, key);
    WatchedFromRead(w, key, me);
    BeginWatched(Read(key, w), w, key, me);
    var w1 := Begin(w).1;
    WatchMeans(Read(key, w), w1, key, me);
    if key in w1.children {
      StoreKeeps(w1, key, o);
      if UpdateChild(w, key, o).1 != w1 {
        assert UpdateChild(w, key, o).1.log[|w.log|].before == Some(w1.children[key]);
      }
    }
  }

  lemma WatchMeans(r: Read, w: World, key: Key, me: Name)
    requires WatchedSince(r, w, key, me)
    ensures Tracks(r.at, w, key, me) && Owned(r.at.children[key], me)
    ensures key in w.children && w.children[key].meta.version == r.at.children[key].meta.version ==>
              w.children[key] == r.at.children[key]
  {
    hide Tracks;
  }

  lemma HitsSplit(a: seq<Event>, b: seq<Event>, c: seq<Event>, me: Name)
    requires a <= b <= c
    ensures HitsForeign(a, c, me) <==> HitsForeign(a, b, me) || HitsForeign(b, c, me)
  {
    hide Owned;
    assert forall i | 0 <= i < |b| :: c[i] == b[i];
  }

  lemma NoReadsNoHits(w: World, w': World, me: Name)
    requires Accounted(w, w', me, {})
    ensures !HitsForeign(w.log, w'.log, me) && w.log <= w'.log
  {
    hide Explains, Owned;
  }

  lemma RecreationHitsForeignIff(w: World, key: Key, o: Object, tries: nat, me: Name)
    requires key in w.children && Owned(w.children[key], me)
    ensures HitsForeign(w.log, Recreate(w, key, o, tries).1.log, me) <==> NextTickReplaces(w, key)
  {
    hide RetryCreate, HitsForeign, NextTickReplaces, Begin;
    var w1 := DeleteChild(w, key).1;
    TracksFromRead(w, key, me);
    DeletionHitsIff(w, w, key, me);
    NextTick(w, key);
    RetryCreateAccounted(w1, key, o, tries, me);
    NoReadsNoHits(w1, RetryCreate(w1, key, o, tries).1, me);
    BeginFrame(w);
    HitsSplit(w.log, w1.log, RetryCreate(w1, key, o, tries).1.log, me);
  }

  /** Whether the write that follows the deciding read carries no resource version: a deletion, or the
      update of a kind that is not merged onto what was read. */
  predicate WritesUnguarded(want: Wanted, current: Object) {
    && Compare(want.envoy, current, want.desired).Differs?
    && (want.desired.body.JobBody? || Compare(want.envoy, current, want.desired).updated.meta.version == 0)
  }

  /** `Ensure*` hits a foreign object exactly when its deciding read found an owned one that is
      replaced in the tick of an unguarded write. */
  lemma EnsureHitsForeignIff(w: World, cfg: Config, want: Wanted, p: Pass)
    requires Sound(w) && Mine(want, p)
    ensures var (r, w1) := GetChild(w, want.key);
      var (again, w2) := GetChild(w1, want.key);
      HitsForeign(w.log, Ensure(w, cfg, p.me, want).1.log, p.me) <==>
        && r.Ok?
        && if SelectorsDiffer(r.value, want.desired)
           then again.Ok? && Owned(again.value, p.me) && NextTickReplaces(w2, want.key)
           else Owned(r.value, p.me) && WritesUnguarded(want, r.value) && NextTickReplaces(w1, want.key)
  {
    hide Begin, CreateChild, DeleteChild, UpdateChild, DeleteOwned, Recreate, Compare, Sound, Evolves, HitsForeign,
      NextTickReplaces, SelectorsDiffer, Owned;
    var (r, w1) := GetChild(w, want.key);
    BeginFrame(w);
    BeginEvolves(w, p);
    EvolvesIsSound(w, w1, p);
    NothingHit(w.log, p.me);
    if r == Failed(NotFound) {
      CreateAccounted(w1, want.key, want.desired, p.me);
      NoReadsNoHits(w1, CreateChild(w1, want.key, want.desired).1, p.me);
    } else if r.Ok? {
      var current := r.value;
      if SelectorsDiffer(current, want.desired) {
        DeleteOwnedHitsForeignIff(w1, p.me, want.key);
      } else if Owned(current, p.me) && Compare(want.envoy, current, want.desired).Differs? {
        var u := Compare(want.envoy, current, want.desired).updated;
        UpdateVersion(want.envoy, current, want.desired);
        if want.desired.body.JobBody? {
          RecreationHitsForeignIff(w1, want.key, u, 1 + cfg.extraJobAttempts, p.me);
        } else {
          UpdateHitsForeignIff(w1, want.key, u, p.me);
        }
      }
    }
  }

  lemma NothingHit(log: seq<Event>, me: Name)
    ensures !HitsForeign(log, log, me)
  {
  }

  /** The namespace deletion: its window spans the list of Sesames as well. */
  lemma NamespaceHitsForeignIff(w: World, me: Name, spec: Spec)
    ensures var key := NamespaceKey(spec.namespace);
      var (r, w1) := GetChild(w, key);
      var (all, w2) := ListSesames(w1);
      var w3 := Begin(w2).1;
      HitsForeign(w.log, DeleteNamespace(w, me, spec).2.log, me) <==>
        && spec.removeOnDeletion && spec.namespace !in CORE_NAMESPACES
        && r.Ok? && Owned(r.value, me) && all.Ok? && !ShowsOtherInNs(all.value, me, spec.namespace)
        && Begin(w2).0 != Rejected && Replaced(Since(w1, |w3.schedule|), key)
  {
    hide Begin, OthersInSpecNs, ShowsOtherInNs, DeleteChild, HitsForeign, Replaced, Since, CORE_NAMESPACES;
    var key := NamespaceKey(spec.namespace);
    var (r, w1) := GetChild(w, key);
    var w2 := ListSesames(w1).1;
    BeginFrame(w);
    BeginFrame(w1);
    BeginFrame(w2);
    NothingHit(w.log, me);
    if r.Ok? && Owned(r.value, me) {
      var all := ListSesames(w1).0;
      if all.Ok? { OthersExistIsExactIff(all.value, me, spec.namespace); }
      TracksFromRead(w1, key, me);
      BeginTracks(w1, w1, key, me);
      DeletionHitsIff(w1, w2, key, me);
    }
  }

  /** The deletion of the `i`th collected object is reached, goes through, and the object was replaced
      since it was read. */
  predicate HitAt(w: World, me: Name, objects: seq<(Key, Object)>, i: nat, seen: set<Read>) {
    && i < |objects| && Owned(objects[i].1, me)
    && var (e, before) := DeleteCollected(w, me, objects[..i]);
       && e.None? && Begin(before).0 != Rejected
       && exists r | r in seen ::
            && WatchedSince(r, before, objects[i].0, me)
            && Replaced(Since(r.at, |Begin(before).1.schedule|), objects[i].0)
  }

  lemma FirstHit(w: World, me: Name, objects: seq<(Key, Object)>, seen: set<Read>)
    requires objects != [] && Owned(objects[0].1, me) && AllWatched(w, objects, me, seen)
    ensures HitAt(w, me, objects, 0, seen) <==> HitsForeign(w.log, DeleteChild(w, objects[0].0).1.log, me)
  {
    hide Begin, DeleteChild, HitsForeign, WatchedSince, Replaced, Since, Owned;
    var key := objects[0].0;
    assert objects[..0] == [];
    assert DeleteCollected(w, me, []) == (None, w);
    assert Watched(w, key, me, seen);
    var r :| r in seen && WatchedSince(r, w, key, me);
    WatchMeans(r, w, key, me);
    BeginFrame(w);
    DeletionHitsIff(r.at, w, key, me);
    if HitAt(w, me, objects, 0, seen) {
      var s :| s in seen && WatchedSince(s, w, key, me)
               && Replaced(Since(s.at, |Begin(w).1.schedule|), key);
      WatchMeans(s, w, key, me);
      DeletionHitsIff(s.at, w, key, me);
    }
  }

  lemma {:induction false} DeleteCollectedHitsIff(w: World, me: Name, objects: seq<(Key, Object)>, seen: set<Read>)
    requires Sound(w) && AllWatched(w, objects, me, seen) && DistinctFound(objects)
    ensures w.log <= DeleteCollected(w, me, objects).1.log
    ensures HitsForeign(w.log, DeleteCollected(w, me, objects).1.log, me) <==>
            exists i: nat :: HitAt(w, me, objects, i, seen)
    decreases |objects|
  {
    hide Begin, DeleteChild, HitsForeign, WatchedSince, HitAt, AllWatched, Sound, Owned, Evolves;
    if objects == [] {
      NothingHit(w.log, me);
      assert forall i: nat :: !HitAt(w, me, objects, i, seen) by { NoneToHit(w, me, seen); }
    } else {
      var rest := objects[1..];
      RestWatched(w, me, objects, seen);
      if !Owned(objects[0].1, me) {
        DeleteCollectedHitsIff(w, me, rest, seen);
        SkipsUnowned(w, me, objects, seen);
      } else {
        var key := objects[0].0;
        var (d, w1) := DeleteChild(w, key);
        FirstHit(w, me, objects, seen);
        DeleteGrows(w, key);
        if d.Some? && d != Some(NotFound) {
          StopsThere(w, me, objects, seen);
        } else {
          DeleteEvolves(w, key, Pass(me, {}, {key}));
          EvolvesIsSound(w, w1, Pass(me, {}, {key}));
          DeleteKeepsWatch(w, key, me, rest, seen);
          DeleteCollectedHitsIff(w1, me, rest, seen);
          GoesOn(w, me, objects, seen);
          HitsSplit(w.log, w1.log, DeleteCollected(w1, me, rest).1.log, me);
        }
      }
    }
  }

  lemma NoneToHit(w: World, me: Name, seen: set<Read>)
    ensures forall i: nat :: !HitAt(w, me, [], i, seen)
  {
  }

  lemma RestWatched(w: World, me: Name, objects: seq<(Key, Object)>, seen: set<Read>)
    requires objects != [] && AllWatched(w, objects, me, seen) && DistinctFound(objects)
    ensures AllWatched(w, objects[1..], me, seen) && DistinctFound(objects[1..])
    ensures forall i | 0 <= i < |objects[1..]| :: objects[1..][i].0 != objects[0].0
  {
    hide Watched, Owned;
    assert forall i | 0 <= i < |objects[1..]| :: objects[1..][i] == objects[i + 1];
  }

  lemma DeleteGrows(w: World, key: Key)
    ensures w.log <= DeleteChild(w, key).1.log
  {
    hide Begin;
    BeginFrame(w);
  }

  /** How the hits of a list relate to those of its tail. */
  lemma Shifted(w: World, w1: World, me: Name, objects: seq<(Key, Object)>, seen: set<Read>)
    requires objects != []
    requires forall xs | objects[0] in xs :: |xs| > 0 && xs[0] == objects[0] ==>
               DeleteCollected(w, me, xs) == DeleteCollected(w1, me, xs[1..])
    ensures forall i: nat | i < |objects[1..]| ::
               HitAt(w, me, objects, i + 1, seen) <==> HitAt(w1, me, objects[1..], i, seen)
  {
    hide Begin, DeleteChild, WatchedSince, Owned, Replaced, Since, DeleteCollected;
    var rest := objects[1..];
    forall i: nat | i < |rest|
      ensures HitAt(w, me, objects, i + 1, seen) <==> HitAt(w1, me, rest, i, seen)
    {
      var xs := objects[..i + 1];
      assert xs[0] == objects[0] && xs[1..] == rest[..i] && objects[i + 1] == rest[i];
      assert objects[0] in xs;
    }
  }

  lemma SkipsUnowned(w: World, me: Name, objects: seq<(Key, Object)>, seen: set<Read>)
    requires objects != [] && !Owned(objects[0].1, me)
    ensures (exists i: nat :: HitAt(w, me, objects, i, seen)) <==> exists i: nat :: HitAt(w, me, objects[1..], i, seen)
  {
    hide Begin, DeleteChild, WatchedSince, Owned, Replaced, Since;
    Shifted(w, w, me, objects, seen);
    ShiftExists(w, w, me, objects, seen, false);
  }

  lemma GoesOn(w: World, me: Name, objects: seq<(Key, Object)>, seen: set<Read>)
    requires objects != [] && Owned(objects[0].1, me)
    requires var d := DeleteChild(w, objects[0].0).0; d.None? || d == Some(NotFound)
    ensures var w1 := DeleteChild(w, objects[0].0).1;
      (exists i: nat :: HitAt(w, me, objects, i, seen)) <==>
      HitAt(w, me, objects, 0, seen) || exists i: nat :: HitAt(w1, me, objects[1..], i, seen)
  {
    hide Begin, DeleteChild, WatchedSince, Owned, Replaced, Since;
    var w1 := DeleteChild(w, objects[0].0).1;
    Shifted(w, w1, me, objects, seen);
    ShiftExists(w, w1, me, objects, seen, HitAt(w, me, objects, 0, seen));
  }

  lemma ShiftExists(w: World, w1: World, me: Name, objects: seq<(Key, Object)>, seen: set<Read>, first: bool)
    requires objects != [] && (first <==> HitAt(w, me, objects, 0, seen))
    requires forall i: nat | i < |objects[1..]| ::
               HitAt(w, me, objects, i + 1, seen) <==> HitAt(w1, me, objects[1..], i, seen)
    ensures (exists i: nat :: HitAt(w, me, objects, i, seen)) <==>
            first || exists i: nat :: HitAt(w1, me, objects[1..], i, seen)
  {
    hide HitAt;
    HitInRange(w, me, objects, seen);
    HitInRange(w1, me, objects[1..], seen);
    if exists i: nat :: HitAt(w, me, objects, i, seen) {
      var i: nat :| HitAt(w, me, objects, i, seen);
      if i > 0 { assert HitAt(w1, me, objects[1..], i - 1, seen); }
    }
    if exists i: nat :: HitAt(w1, me, objects[1..], i, seen) {
      var i: nat :| HitAt(w1, me, objects[1..], i, seen);
      assert HitAt(w, me, objects, i + 1, seen);
    }
  }

  lemma HitInRange(w: World, me: Name, objects: seq<(Key, Object)>, seen: set<Read>)
    ensures forall i: nat :: HitAt(w, me, objects, i, seen) ==> i < |objects|
  {
  }

  lemma StopsThere(w: World, me: Name, objects: seq<(Key, Object)>, seen: set<Read>)
    requires objects != [] && Owned(objects[0].1, me)
    requires var d := DeleteChild(w, objects[0].0).0; d.Some? && d != Some(NotFound)
    ensures (exists i: nat :: HitAt(w, me, objects, i, seen)) <==> HitAt(w, me, objects, 0, seen)
  {
    hide Begin, DeleteChild, WatchedSince, Owned, Replaced, Since;
    forall i: nat | 0 < i < |objects|
      ensures !HitAt(w, me, objects, i, seen)
    {
      assert objects[..i][0] == objects[0];
      assert DeleteCollected(w, me, objects[..i]).0.Some?;
    }
    HitInRange(w, me, objects, seen);
  }

  /** The RBAC deletion hits a foreign object exactly when one of the objects it collected with owner
      labels is replaced between its own read and its deletion, and that deletion is reached. */
  lemma RbacHitsForeignIff(w: World, me: Name, ns: string)
    requires Sound(w)
    ensures HitsForeign(w.log, DeleteRbac(w, me, ns).1.log, me) <==>
            var g := Gather(w, me, ns);
            g.Some? && exists i: nat :: HitAt(g.value.world, me, g.value.objects, i, g.value.seen)
  {
    hide DeleteRbac, DeleteCollected, Gather, AllWatched, Sound, HitAt, HitsForeign, DistinctFound;
    GatherFirst(w, me, ns);
    var g := Gather(w, me, ns);
    if g.Some? {
      DeleteCollectedHitsIff(g.value.world, me, g.value.objects, g.value.seen);
    } else {
      NothingHit(w.log, me);
    }
  }

  /** Whatever object another actor puts in the place of an owned one in the tick of an unguarded update
      is overwritten. */
  lemma UpdateHitsWhatIsThere(w: World, cfg: Config, want: Wanted, p: Pass, foreign: Object)
    requires Sound(w) && Mine(want, p) && want.key in w.children && Owned(w.children[want.key], p.me)
    requires !SelectorsDiffer(w.children[want.key], want.desired) && !want.desired.body.JobBody?
    requires WritesUnguarded(want, w.children[want.key]) && Owner(foreign).None?
    requires w.schedule == [Tick([], NoFault), Tick([PutChild(want.key, foreign)], NoFault)]
    ensures Ensure(w, cfg, p.me, want).1.log ==
            w.log + [Wrote(Updates, want.key, Some(Stamp(foreign, w.next)), false, 0)]
  {
    hide Compare, SelectorsDiffer, Owned;
    TwoTicks(w, want.key, foreign);
    var u := Compare(want.envoy, w.children[want.key], want.desired).updated;
    assert UpdateChild(w.(schedule := w.schedule[1..]), want.key, u).1.log ==
           w.log + [Wrote(Updates, want.key, Some(Stamp(foreign, w.next)), false, 0)];
  }

  /** The same for a deletion. */
  lemma DeletionHitsWhatIsThere(w: World, me: Name, key: Key, foreign: Object)
    requires key in w.children && Owned(w.children[key], me) && Owner(foreign).None?
    requires w.schedule == [Tick([], NoFault), Tick([PutChild(key, foreign)], NoFault)]
    ensures DeleteOwned(w, me, key).1.log == w.log + [Wrote(Deletes, key, Some(Stamp(foreign, w.next)), false, 0)]
  {
    hide Owned;
    TwoTicks(w, key, foreign);
  }

  lemma TwoTicks(w: World, key: Key, foreign: Object)
    requires key in w.children && Owner(foreign).None?
    requires w.schedule == [Tick([], NoFault), Tick([PutChild(key, foreign)], NoFault)]
    ensures var w1 := w.(schedule := w.schedule[1..]);
      && GetChild(w, key) == (Ok(w.children[key]), w1)
      && Begin(w1) == (NoFault, StoreChild(w1.(schedule := []), key, foreign))
  {
    var w1 := w.(schedule := w.schedule[1..]);
    assert ActAll(w1, []) == w1;
    var steps := [PutChild(key, foreign)];
    assert steps[..0] == [];
    var w2 := w1.(schedule := []);
    assert w1.schedule[1..] == [];
    assert ActAll(w2, steps) == Act(ActAll(w2, []), steps[0]) == StoreChild(w2, key, foreign);
  }
}
