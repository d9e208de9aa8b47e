/** The window between a read and the write that rests on it.

    The operator reads a child, finds its own labels on it, and writes; between the two other actors
    may act. Every update and deletion in the log is accounted for by the read it rests on, under every
    schedule, together with what happened to the key in between. */
module Windows {
  import opened Api
  import opened RetryableError
  import opened Equality
  import opened Server
  import opened Evolution
  import opened Objects
  import opened Passes

  // ----- replacing an owned object -----

  predicate PutsForeign(step: Step, key: Key) {
    step.PutChild? && step.key == key && Owner(step.child).None?
  }

  /** Another actor stores an unowned object under `key` and does not remove it again. */
  predicate Replaced(steps: seq<Step>, key: Key) {
    exists j | 0 <= j < |steps| ::
      PutsForeign(steps[j], key) && forall i | j < i < |steps| :: steps[i] != RemoveChild(key)
  }

  lemma ReplacedAppend(steps: seq<Step>, step: Step, key: Key)
    ensures Replaced(steps + [step], key) <==>
            PutsForeign(step, key) || (Replaced(steps, key) && step != RemoveChild(key))
  {
    hide PutsForeign;
    var all := steps + [step];
    assert all[|steps|] == step && forall i | 0 <= i < |steps| :: all[i] == steps[i];
    if Replaced(steps, key) && step != RemoveChild(key) {
      var j :| 0 <= j < |steps| && PutsForeign(steps[j], key)
          && forall i | j < i < |steps| :: steps[i] != RemoveChild(key);
      assert PutsForeign(all[j], key);
    }
    if Replaced(all, key) && !PutsForeign(step, key) {
      var j :| 0 <= j < |all| && PutsForeign(all[j], key) && forall i | j < i < |all| :: all[i] != RemoveChild(key);
      assert PutsForeign(steps[j], key);
    }
  }

  /** All that other actors do in these ticks. */
  function Steps(ticks: seq<Tick>): seq<Step> {
    if ticks == [] then [] else Steps(ticks[..|ticks| - 1]) + ticks[|ticks| - 1].steps
  }

  /** All that other actors did until `left` ticks were left. */
  function Since(at: World, left: nat): seq<Step> {
    if left <= |at.schedule| then Steps(at.schedule[..|at.schedule| - left]) else []
  }

  /** What is under a key that `me` owned, depending on whether it was replaced. */
  predicate Stands(w: World, key: Key, me: Name, replaced: bool) {
    if replaced then key in w.children && Owner(w.children[key]).None?
    else key in w.children ==> Owner(w.children[key]) == Some(me)
  }

  lemma ActStands(w: World, step: Step, key: Key, me: Name, replaced: bool)
    requires Stands(w, key, me, replaced)
    ensures Stands(Act(w, step), key, me, PutsForeign(step, key) || (replaced && step != RemoveChild(key)))
  {
  }

  lemma {:induction false} ActAllStands(w: World, steps: seq<Step>, key: Key, me: Name, before: seq<Step>)
    requires Stands(w, key, me, Replaced(before, key))
    ensures Stands(ActAll(w, steps), key, me, Replaced(before + steps, key))
  {
    hide Act, Stands, Replaced, PutsForeign;
    if steps == [] {
      assert before + steps == before;
    } else {
      var init, last := steps[..|steps| - 1], steps[|steps| - 1];
      ActAllStands(w, init, key, me, before);
      ActStands(ActAll(w, init), last, key, me, Replaced(before + init, key));
      assert before + steps == (before + init) + [last];
      ReplacedAppend(before + init, last, key);
    }
  }

  /** From `at`, where `me` owned the object under `key`, to `w`, the operator left the key alone. */
  predicate Tracks(at: World, w: World, key: Key, me: Name) {
    Follows(at, w) && Stands(w, key, me, Replaced(Since(at, |w.schedule|), key))
  }

  lemma TracksFromRead(w: World, key: Key, me: Name)
    requires key in w.children && Owned(w.children[key], me)
    ensures Tracks(w, w, key, me)
  {
    assert w.schedule[..0] == [];
  }

  lemma BeginTracks(at: World, w: World, key: Key, me: Name)
    requires Tracks(at, w, key, me)
    ensures Tracks(at, Begin(w).1, key, me)
  {
    hide ActAll, Stands, Replaced;
    BeginFrame(w);
    if w.schedule != [] {
      var w0 := w.(schedule := w.schedule[1..]);
      var n := |at.schedule| - |w.schedule|;
      assert at.schedule[..n + 1][..n] == at.schedule[..n];
      assert at.schedule[..n + 1][n] == w.schedule[0];
      assert Stands(w0, key, me, Replaced(Since(at, |w.schedule|), key)) by {
        SameChildStands(w, w0, key, me, Replaced(Since(at, |w.schedule|), key));
      }
      ActAllStands(w0, w.schedule[0].steps, key, me, Since(at, |w.schedule|));
    }
  }

  lemma SameChildStands(w: World, w': World, key: Key, me: Name, replaced: bool)
    requires Stands(w, key, me, replaced)
    requires key in w.children <==> key in w'.children
    requires key in w.children ==> w.children[key] == w'.children[key]
    ensures Stands(w', key, me, replaced)
  {
  }

  lemma DeleteOtherTracks(at: World, w: World, key: Key, other: Key, me: Name)
    requires Tracks(at, w, key, me) && key != other
    ensures Tracks(at, DeleteChild(w, other).1, key, me)
  {
    hide Begin, Stands, Replaced;
    BeginTracks(at, w, key, me);
    var w1 := Begin(w).1;
    SameChildStands(w1, DeleteChild(w, other).1, key, me, Replaced(Since(at, |w1.schedule|), key));
  }

  // ----- reads, and the writes that rest on them -----

  /** The operator's deciding read of `key`, and the world at that moment. */
  datatype Read = Read(key: Key, at: World)

  /** The read explains the write: it found an object of `me`; what the write hit is owned by `me`
      unless it was replaced since the read, and then it is an unowned object, stored since the read,
      and the write had no resource version. */
  predicate Explains(r: Read, e: Event, me: Name) {
    && e.Wrote? && e.before.Some? && r.key == e.key
    && r.key in r.at.children && Owned(r.at.children[r.key], me)
    && e.left <= |r.at.schedule|
    && var hit := e.before.value;
       if Replaced(Since(r.at, e.left), e.key)
       then Owner(hit).None? && !e.guarded && r.at.next <= hit.meta.version
       else Owned(hit, me)
  }

  predicate Explained(e: Event, me: Name, seen: set<Read>) {
    e.Wrote? && e.op != Creates ==> exists r | r in seen :: Explains(r, e, me)
  }

  /** Every update and deletion from `w` to `w'` rests on one of `seen`. */
  predicate Accounted(w: World, w': World, me: Name, seen: set<Read>) {
    && Follows(w, w') && w.log <= w'.log
    && forall i | |w.log| <= i < |w'.log| ::
         Explained(w'.log[i], me, seen) && (w'.log[i].Wrote? ==> |w'.schedule| <= w'.log[i].left)
  }

  /** The reads were made from `w` on. */
  predicate From(w: World, seen: set<Read>) {
    forall r | r in seen :: Follows(w, r.at)
  }

  lemma AccountedMore(w: World, w': World, me: Name, seen: set<Read>, more: set<Read>)
    requires Accounted(w, w', me, seen) && seen <= more
    ensures Accounted(w, w', me, more)
  {
    hide Explains;
    forall i | |w.log| <= i < |w'.log|
      ensures Explained(w'.log[i], me, more)
    {
      assert Explained(w'.log[i], me, seen);
    }
  }

  lemma AccountedInTurn(a: World, b: World, c: World, me: Name, seen: set<Read>)
    requires Accounted(a, b, me, seen) && Accounted(b, c, me, seen)
    ensures Accounted(a, c, me, seen)
  {
    hide Explained;
    forall i | |a.log| <= i < |c.log|
      ensures Explained(c.log[i], me, seen) && (c.log[i].Wrote? ==> |c.schedule| <= c.log[i].left)
    {
      if i < |b.log| { assert c.log[i] == b.log[i]; }
    }
  }

  lemma AccountedThen(a: World, b: World, c: World, me: Name, xs: set<Read>, ys: set<Read>)
    requires Accounted(a, b, me, xs) && Accounted(b, c, me, ys) && From(b, ys)
    ensures Accounted(a, c, me, xs + ys) && From(a, ys)
  {
    hide Explained;
    AccountedMore(a, b, me, xs, xs + ys);
    AccountedMore(b, c, me, ys, xs + ys);
    AccountedInTurn(a, b, c, me, xs + ys);
  }

  lemma NoWritesAccounted(w: World, w': World, me: Name)
    requires Follows(w, w') && w'.log == w.log
    ensures Accounted(w, w', me, {})
  {
  }

  lemma BeginAccounted(w: World, me: Name)
    ensures Accounted(w, Begin(w).1, me, {}) && Follows(w, Begin(w).1) && Begin(w).1.log == w.log
  {
    hide ActAll;
    BeginFrame(w);
  }

  /** `key` is watched since a read in `seen` that found it owned. */
  predicate Watched(w: World, key: Key, me: Name, seen: set<Read>) {
    exists r | r in seen :: WatchedSince(r, w, key, me)
  }

  predicate WatchedSince(r: Read, w: World, key: Key, me: Name) {
    && r.key == key && key in r.at.children && Owned(r.at.children[key], me)
    && Sound(r.at) && Versioned(r.at, w) && Tracks(r.at, w, key, me)
  }

  lemma WatchedFromRead(w: World, key: Key, me: Name)
    requires Sound(w) && key in w.children && Owned(w.children[key], me)
    ensures WatchedSince(Read(key, w), w, key, me)
  {
    hide Tracks;
    TracksFromRead(w, key, me);
  }

  lemma VersionedTransitive(a: World, b: World, c: World)
    requires Versioned(a, b) && Versioned(b, c)
    ensures Versioned(a, c)
  {
  }

  lemma BeginWatched(r: Read, w: World, key: Key, me: Name)
    requires Sound(w) && WatchedSince(r, w, key, me)
    ensures WatchedSince(r, Begin(w).1, key, me)
  {
    hide Begin, Tracks, Evolves, Sound, Versioned;
    BeginEvolves(w, Pass(me, {}, {}));
    EvolvesVersions(w, Begin(w).1, Pass(me, {}, {}));
    VersionedTransitive(r.at, w, Begin(w).1);
    BeginTracks(r.at, w, key, me);
  }

  lemma DeleteOtherWatched(r: Read, w: World, key: Key, other: Key, me: Name)
    requires Sound(w) && WatchedSince(r, w, key, me) && key != other
    ensures WatchedSince(r, DeleteChild(w, other).1, key, me)
  {
    hide DeleteChild, Tracks, Evolves, Sound, Versioned;
    var p := Pass(me, {}, {other});
    DeleteEvolves(w, other, p);
    EvolvesVersions(w, DeleteChild(w, other).1, p);
    VersionedTransitive(r.at, w, DeleteChild(w, other).1);
    DeleteOtherTracks(r.at, w, key, other, me);
  }

  /** A write that goes through on a watched key is explained by the read. */
  lemma HitIsExplained(r: Read, w: World, me: Name, e: Event)
    requires e.Wrote? && e.key in w.children && e.before == Some(w.children[e.key]) && e.left == |w.schedule|
    requires WatchedSince(r, w, e.key, me)
    requires e.guarded ==> w.children[e.key].meta.version == r.at.children[e.key].meta.version
    ensures Explains(r, e, me)
  {
    hide Replaced, Since;
  }

  lemma DeleteAccounted(r: Read, w: World, key: Key, me: Name, seen: set<Read>)
    requires Sound(w) && WatchedSince(r, w, key, me) && r in seen
    ensures Accounted(w, DeleteChild(w, key).1, me, seen)
  {
    hide Begin, Explains, WatchedSince;
    BeginAccounted(w, me);
    var w1 := Begin(w).1;
    BeginWatched(r, w, key, me);
    if key in w1.children {
      HitIsExplained(r, w1, me, Wrote(Deletes, key, Some(w1.children[key]), false, |w1.schedule|));
    }
  }

  lemma UpdateAccounted(w: World, key: Key, o: Object, me: Name)
    requires Sound(w) && key in w.children && Owned(w.children[key], me)
    requires o.meta.version == 0 || o.meta.version == w.children[key].meta.version
    ensures Accounted(w, UpdateChild(w, key, o).1, me, {Read(key, w)})
  {
    hide Begin, Explains, WatchedSince, StoreChild;
    var r := Read(key, w);
    BeginAccounted(w, me);
    var w1 := Begin(w).1;
    WatchedFromRead(w, key, me);
    BeginWatched(r, w, key, me);
    if key in w1.children && UpdateChild(w, key, o).1 != w1 {
      HitIsExplained(r, w1, me, Wrote(Updates, key, Some(w1.children[key]), o.meta.version != 0, |w1.schedule|));
      StoreKeeps(w1, key, o);
    }
  }

  lemma StoreKeeps(w: World, key: Key, o: Object)
    ensures StoreChild(w, key, o).log == w.log && StoreChild(w, key, o).schedule == w.schedule
  {
  }

  lemma CreateAccounted(w: World, key: Key, o: Object, me: Name)
    ensures Accounted(w, CreateChild(w, key, o).1, me, {})
  {
    hide Begin;
    BeginAccounted(w, me);
  }

  // ----- the deciding reads of each operation -----

  function DeleteOwnedReads(w: World, key: Key): set<Read> {
    {Read(key, GetChild(w, key).1)}
  }

  /** On a selector change the deletion reads anew. */
  function EnsureReads(w: World, want: Wanted): set<Read> {
    var (r, w1) := GetChild(w, want.key);
    if r.Ok? && SelectorsDiffer(r.value, want.desired) then DeleteOwnedReads(w1, want.key) else {Read(want.key, w1)}
  }

  lemma DeleteOwnedAccounted(w: World, key: Key, me: Name)
    requires Sound(w)
    ensures Accounted(w, DeleteOwned(w, me, key).1, me, DeleteOwnedReads(w, key)) && From(w, DeleteOwnedReads(w, key))
  {
    hide Begin, DeleteChild, Accounted, WatchedSince, Sound, Evolves, Follows;
    var (r, w1) := GetChild(w, key);
    BeginAccounted(w, me);
    var seen := DeleteOwnedReads(w, key);
    AccountedMore(w, w1, me, {}, seen);
    if r.Ok? && Owned(r.value, me) {
      BeginEvolves(w, Pass(me, {}, {}));
      EvolvesIsSound(w, w1, Pass(me, {}, {}));
      WatchedFromRead(w1, key, me);
      DeleteAccounted(Read(key, w1), w1, key, me, seen);
      StartsHere(w1, seen);
      AccountedThen(w, w1, DeleteChild(w1, key).1, me, seen, seen);
      assert seen + seen == seen;
    }
  }

  lemma StartsHere(w: World, seen: set<Read>)
    requires forall r | r in seen :: r.at == w
    ensures From(w, seen)
  {
  }

  lemma EnsureAccounted(w: World, cfg: Config, want: Wanted, p: Pass)
    requires Sound(w) && Mine(want, p)
    ensures Accounted(w, Ensure(w, cfg, p.me, want).1, p.me, EnsureReads(w, want)) && From(w, EnsureReads(w, want))
  {
    hide Begin, CreateChild, DeleteChild, UpdateChild, DeleteOwned, Recreate, Compare, Accounted, Sound, Evolves,
        Follows,
      DeleteOwnedReads;
    var (r, w1) := GetChild(w, want.key);
    var w' := Ensure(w, cfg, p.me, want).1;
    var seen := EnsureReads(w, want);
    BeginAccounted(w, p.me);
    BeginEvolves(w, p);
    EvolvesIsSound(w, w1, p);
    if r == Failed(NotFound) {
      CreateAccounted(w1, want.key, want.desired, p.me);
      AccountedThen(w, w1, w', p.me, {}, {});
      AccountedMore(w, w', p.me, {} + {}, seen);
    } else if r.Failed? {
      AccountedMore(w, w1, p.me, {}, seen);
    } else if SelectorsDiffer(r.value, want.desired) {
      DeleteOwnedAccounted(w1, want.key, p.me);
      AccountedThen(w, w1, w', p.me, {}, seen);
      assert {} + seen == seen;
    } else {
      StartsHere(w1, seen);
      ReadAccounted(w1, cfg, want, p);
      AccountedThen(w, w1, w', p.me, {}, seen);
      assert {} + seen == seen;
    }
  }

  /** From the deciding read on. */
  lemma ReadAccounted(w: World, cfg: Config, want: Wanted, p: Pass)
    requires Sound(w) && Mine(want, p) && want.key in w.children
    requires !SelectorsDiffer(w.children[want.key], want.desired)
    ensures Accounted(w, AfterRead(w, cfg, p.me, want, w.children[want.key]), p.me, {Read(want.key, w)})
  {
    hide Begin, CreateChild, DeleteChild, UpdateChild, Recreate, Compare, Accounted, Sound, SelectorsDiffer;
    var current := w.children[want.key];
    var seen := {Read(want.key, w)};
    NoWritesAccounted(w, w, p.me);
    AccountedMore(w, w, p.me, {}, seen);
    if Owned(current, p.me) && Compare(want.envoy, current, want.desired).Differs? {
      var u := Compare(want.envoy, current, want.desired).updated;
      UpdateVersion(want.envoy, current, want.desired);
      if want.desired.body.JobBody? {
        RecreateAccounted(w, want.key, u, 1 + cfg.extraJobAttempts, p.me);
      } else {
        UpdateAccounted(w, want.key, u, p.me);
      }
    }
  }

  lemma RecreateAccounted(w: World, key: Key, o: Object, tries: nat, me: Name)
    requires Sound(w) && key in w.children && Owned(w.children[key], me)
    ensures Accounted(w, Recreate(w, key, o, tries).1, me, {Read(key, w)})
  {
    hide DeleteChild, RetryCreate, Accounted, WatchedSince, Sound;
    var seen := {Read(key, w)};
    var w1 := DeleteChild(w, key).1;
    WatchedFromRead(w, key, me);
    DeleteAccounted(Read(key, w), w, key, me, seen);
    RetryCreateAccounted(w1, key, o, tries, me);
    AccountedThen(w, w1, RetryCreate(w1, key, o, tries).1, me, seen, {});
    assert seen + {} == seen;
  }

  lemma {:induction false} RetryCreateAccounted(w: World, key: Key, o: Object, tries: nat, me: Name)
    ensures Accounted(w, RetryCreate(w, key, o, tries).1, me, {})
    decreases tries
  {
    hide CreateChild, Accounted;
    if tries == 0 {
      NoWritesAccounted(w, w, me);
    } else {
      var w1 := CreateChild(w, key, o).1;
      CreateAccounted(w, key, o, me);
      RetryCreateAccounted(w1, key, o, tries - 1, me);
      AccountedInTurn(w, w1, RetryCreate(w1, key, o, tries - 1).1, me, {});
    }
  }

  function EnsureUntilErrorReads(w: World, cfg: Config, me: Name, wants: seq<Wanted>): set<Read>
    decreases |wants|
  {
    if wants == [] then {}
    else
      var (e, w1) := Ensure(w, cfg, me, wants[0]);
      EnsureReads(w, wants[0]) + if e.Some? then {} else EnsureUntilErrorReads(w1, cfg, me, wants[1..])
  }

  lemma {:induction false} EnsureUntilErrorAccounted(w: World, cfg: Config, wants: seq<Wanted>, p: Pass)
    requires Sound(w) && AllMine(wants, p)
    ensures var seen := EnsureUntilErrorReads(w, cfg, p.me, wants);
      Accounted(w, EnsureUntilError(w, cfg, p.me, wants).1, p.me, seen) && From(w, seen)
    decreases |wants|
  {
    hide Ensure, EnsureReads, Evolves, Sound, Mine, Accounted;
    if wants == [] {
      NoWritesAccounted(w, w, p.me);
    } else {
      var (e, w1) := Ensure(w, cfg, p.me, wants[0]);
      EnsureEvolves(w, cfg, wants[0], p);
      EvolvesIsSound(w, w1, p);
      EnsureAccounted(w, cfg, wants[0], p);
      if e.None? {
        EnsureUntilErrorAccounted(w1, cfg, wants[1..], p);
        AccountedThen(w, w1, EnsureUntilError(w1, cfg, p.me, wants[1..]).1, p.me,
                      EnsureReads(w, wants[0]), EnsureUntilErrorReads(w1, cfg, p.me, wants[1..]));
      } else {
        assert EnsureReads(w, wants[0]) + {} == EnsureReads(w, wants[0]);
      }
    }
  }

  function EnsureAllReads(w: World, cfg: Config, me: Name, wants: seq<Wanted>): set<Read>
    decreases |wants|
  {
    if wants == [] then {}
    else
      var (e, w1) := Ensure(w, cfg, me, wants[0]);
      EnsureReads(w, wants[0]) + if e == Some(Panic) then {} else EnsureAllReads(w1, cfg, me, wants[1..])
  }

  lemma {:induction false} EnsureAllAccounted(w: World, cfg: Config, wants: seq<Wanted>, p: Pass)
    requires Sound(w) && AllMine(wants, p)
    ensures var seen := EnsureAllReads(w, cfg, p.me, wants);
      Accounted(w, EnsureAll(w, cfg, p.me, wants).1, p.me, seen) && From(w, seen)
    decreases |wants|
  {
    hide Ensure, EnsureReads, Evolves, Sound, Mine, Accounted;
    if wants == [] {
      NoWritesAccounted(w, w, p.me);
    } else {
      var (e, w1) := Ensure(w, cfg, p.me, wants[0]);
      EnsureEvolves(w, cfg, wants[0], p);
      EvolvesIsSound(w, w1, p);
      EnsureAccounted(w, cfg, wants[0], p);
      if e != Some(Panic) {
        EnsureAllAccounted(w1, cfg, wants[1..], p);
        AccountedThen(w, w1, EnsureAll(w1, cfg, p.me, wants[1..]).1, p.me,
                      EnsureReads(w, wants[0]), EnsureAllReads(w1, cfg, p.me, wants[1..]));
      } else {
        assert EnsureReads(w, wants[0]) + {} == EnsureReads(w, wants[0]);
      }
    }
  }

  function DeleteAllReads(w: World, me: Name, keys: seq<Key>): set<Read>
    decreases |keys|
  {
    if keys == [] then {}
    else DeleteOwnedReads(w, keys[0]) + DeleteAllReads(DeleteOwned(w, me, keys[0]).1, me, keys[1..])
  }

  lemma {:induction false} DeleteAllAccounted(w: World, me: Name, keys: seq<Key>)
    requires Sound(w)
    ensures var seen := DeleteAllReads(w, me, keys);
      Accounted(w, DeleteAll(w, me, keys).1, me, seen) && From(w, seen)
    decreases |keys|
  {
    hide DeleteOwned, DeleteOwnedReads, Evolves, Sound, Accounted;
    if keys == [] {
      NoWritesAccounted(w, w, me);
    } else {
      var w1 := DeleteOwned(w, me, keys[0]).1;
      DeleteOwnedEvolves(w, keys[0], Pass(me, {}, {keys[0]}));
      EvolvesIsSound(w, w1, Pass(me, {}, {keys[0]}));
      DeleteOwnedAccounted(w, keys[0], me);
      DeleteAllAccounted(w1, me, keys[1..]);
      AccountedThen(w, w1, DeleteAll(w1, me, keys[1..]).1, me, DeleteOwnedReads(w, keys[0]),
          DeleteAllReads(w1, me, keys[1..]));
    }
  }

  // ----- RBAC: all reads first, then the deletions -----

  function CollectReads(w: World, keys: seq<Key>): set<Read>
    decreases |keys|
  {
    if keys == [] then {} else {Read(keys[0], GetChild(w, keys[0]).1)} + CollectReads(GetChild(w, keys[0]).1, keys[1..])
  }

  predicate DistinctFound(found: seq<(Key, Object)>) {
    forall i, j | 0 <= i < j < |found| :: found[i].0 != found[j].0
  }

  predicate DistinctKeys(keys: seq<Key>) {
    forall i, j | 0 <= i < j < |keys| :: keys[i] != keys[j]
  }

  /** Every object found with the owner labels is watched since its own read. */
  predicate AllWatched(w: World, found: seq<(Key, Object)>, me: Name, seen: set<Read>) {
    forall i | 0 <= i < |found| && Owned(found[i].1, me) :: Watched(w, found[i].0, me, seen)
  }

  lemma {:induction false} CollectKeepsWatch(r: Read, w: World, key: Key, me: Name, keys: seq<Key>)
    requires Sound(w) && WatchedSince(r, w, key, me)
    ensures WatchedSince(r, Collect(w, keys).1, key, me)
    decreases |keys|
  {
    hide Begin, WatchedSince, Sound, Evolves;
    if keys != [] {
      BeginWatched(r, w, key, me);
      BeginEvolves(w, Pass(me, {}, {}));
      EvolvesIsSound(w, Begin(w).1, Pass(me, {}, {}));
      CollectKeepsWatch(r, Begin(w).1, key, me, keys[1..]);
    }
  }

  lemma {:induction false} CollectFrame(w: World, keys: seq<Key>)
    requires Sound(w)
    ensures var w' := Collect(w, keys).1;
      Follows(w, w') && w'.log == w.log && Sound(w') && From(w, CollectReads(w, keys))
    decreases |keys|
  {
    hide Begin, Sound, Evolves;
    if keys != [] {
      var w1 := GetChild(w, keys[0]).1;
      var p := Pass(Name("", ""), {}, {});
      BeginFrame(w);
      BeginEvolves(w, p);
      EvolvesIsSound(w, w1, p);
      CollectFrame(w1, keys[1..]);
    }
  }

  lemma {:induction false} CollectKeys(w: World, keys: seq<Key>)
    requires DistinctKeys(keys)
    ensures var found := Collect(w, keys).0;
      found.Ok? ==> DistinctFound(found.value) && forall i | 0 <= i < |found.value| :: found.value[i].0 in keys
    decreases |keys|
  {
    hide Begin;
    if keys != [] {
      assert forall i | 0 <= i < |keys[1..]| :: keys[1..][i] == keys[i + 1];
      assert keys[0] !in keys[1..];
      CollectKeys(GetChild(w, keys[0]).1, keys[1..]);
    }
  }

  lemma {:induction false} CollectWatched(w: World, me: Name, keys: seq<Key>)
    requires Sound(w)
    ensures var (found, w') := Collect(w, keys);
      found.Ok? ==> AllWatched(w', found.value, me, CollectReads(w, keys))
    decreases |keys|
  {
    hide Begin, WatchedSince, Sound, Evolves, Owned, AllWatched;
    if keys == [] {
      NothingWatched(w, me, {});
    } else {
      var (r, w1) := GetChild(w, keys[0]);
      BeginEvolves(w, Pass(me, {}, {}));
      EvolvesIsSound(w, w1, Pass(me, {}, {}));
      CollectWatched(w1, me, keys[1..]);
      var (rest, w') := Collect(w1, keys[1..]);
      var seen := {Read(keys[0], w1)};
      if rest.Ok? {
        NothingWatched(w', me, seen);
        if r.Ok? {
          OneWatched(w1, keys[0], me, keys[1..]);
          WatchedAppend(w', [(keys[0], r.value)], rest.value, me, seen, CollectReads(w1, keys[1..]));
        } else {
          WatchedAppend(w', [], rest.value, me, seen, CollectReads(w1, keys[1..]));
        }
      }
    }
  }

  lemma NothingWatched(w: World, me: Name, seen: set<Read>)
    ensures AllWatched(w, [], me, seen)
  {
  }

  lemma OneWatched(w: World, key: Key, me: Name, more: seq<Key>)
    requires Sound(w) && key in w.children
    ensures AllWatched(Collect(w, more).1, [(key, w.children[key])], me, {Read(key, w)})
  {
    hide WatchedSince, Sound, Owned;
    if Owned(w.children[key], me) {
      WatchedFromRead(w, key, me);
      CollectKeepsWatch(Read(key, w), w, key, me, more);
    }
  }

  lemma WatchedAppend(
      w: World, a: seq<(Key, Object)>, b: seq<(Key, Object)>, me: Name, xs: set<Read>, ys: set<Read>)
    requires AllWatched(w, a, me, xs) && AllWatched(w, b, me, ys)
    ensures AllWatched(w, a + b, me, xs + ys)
  {
    hide WatchedSince, Owned;
    var all := a + b;
    forall i | 0 <= i < |all| && Owned(all[i].1, me)
      ensures Watched(w, all[i].0, me, xs + ys)
    {
      if i < |a| {
        assert all[i] == a[i];
        var r :| r in xs && WatchedSince(r, w, a[i].0, me);
      } else {
        assert all[i] == b[i - |a|];
        var r :| r in ys && WatchedSince(r, w, b[i - |a|].0, me);
      }
    }
  }

  lemma {:induction false} DeleteCollectedAccounted(w: World, me: Name, objects: seq<(Key, Object)>, seen: set<Read>)
    requires Sound(w) && AllWatched(w, objects, me, seen) && DistinctFound(objects)
    ensures Accounted(w, DeleteCollected(w, me, objects).1, me, seen)
    decreases |objects|
  {
    hide Begin, DeleteChild, WatchedSince, Sound, Evolves, Owned, Accounted;
    NoWritesAccounted(w, w, me);
    AccountedMore(w, w, me, {}, seen);
    if objects != [] {
      var rest := objects[1..];
      assert forall i | 0 <= i < |rest| :: rest[i] == objects[i + 1];
      if !Owned(objects[0].1, me) {
        DeleteCollectedAccounted(w, me, rest, seen);
      } else {
        var key := objects[0].0;
        var w1 := DeleteChild(w, key).1;
        assert Watched(w, key, me, seen);
        var r :| r in seen && WatchedSince(r, w, key, me);
        DeleteAccounted(r, w, key, me, seen);
        DeleteEvolves(w, key, Pass(me, {}, {key}));
        EvolvesIsSound(w, w1, Pass(me, {}, {key}));
        DeleteKeepsWatch(w, key, me, rest, seen);
        DeleteCollectedAccounted(w1, me, rest, seen);
        AccountedInTurn(w, w1, DeleteCollected(w1, me, rest).1, me, seen);
      }
    }
  }

  lemma DeleteKeepsWatch(w: World, key: Key, me: Name, rest: seq<(Key, Object)>, seen: set<Read>)
    requires Sound(w) && AllWatched(w, rest, me, seen) && forall i | 0 <= i < |rest| :: rest[i].0 != key
    ensures AllWatched(DeleteChild(w, key).1, rest, me, seen)
  {
    hide DeleteChild, WatchedSince, Owned, Sound;
    forall i | 0 <= i < |rest| && Owned(rest[i].1, me)
      ensures Watched(DeleteChild(w, key).1, rest[i].0, me, seen)
    {
      var r :| r in seen && WatchedSince(r, w, rest[i].0, me);
      DeleteOtherWatched(r, w, rest[i].0, key, me);
    }
  }

  function CollectUnlessReads(w: World, skip: bool, keys: seq<Key>): set<Read> {
    if skip then {} else CollectReads(w, keys)
  }

  /** `w'` comes after `w` without a write of the operator. */
  predicate OnlyReads(w: World, w': World) {
    Follows(w, w') && w'.log == w.log && Sound(w')
  }

  lemma OnlyReadsThen(a: World, b: World, c: World, seen: set<Read>)
    requires OnlyReads(a, b) && OnlyReads(b, c) && From(b, seen)
    ensures OnlyReads(a, c) && From(a, seen)
  {
    hide Sound;
  }

  lemma BeginOnlyReads(w: World)
    requires Sound(w)
    ensures OnlyReads(w, Begin(w).1) && Sound(Begin(w).1)
  {
    hide Begin, Sound, Evolves;
    var p := Pass(Name("", ""), {}, {});
    BeginFrame(w);
    BeginEvolves(w, p);
    EvolvesIsSound(w, Begin(w).1, p);
    EvolvesVersions(w, Begin(w).1, p);
  }

  lemma CollectUnlessWatched(w: World, me: Name, skip: bool, keys: seq<Key>)
    requires Sound(w) && DistinctKeys(keys)
    ensures var (found, w') := CollectUnless(w, skip, keys);
      var seen := CollectUnlessReads(w, skip, keys);
      && OnlyReads(w, w') && Sound(w') && From(w, seen)
      && (found.Ok? ==>
            && AllWatched(w', found.value, me, seen) && DistinctFound(found.value)
            && forall i | 0 <= i < |found.value| :: found.value[i].0 in keys)
  {
    hide Collect, CollectReads, AllWatched, Sound;
    if skip {
      NothingWatched(w, me, {});
    } else {
      CollectFrame(w, keys);
      CollectKeys(w, keys);
      CollectWatched(w, me, keys);
    }
  }

  lemma BeginKeepsWatch(w: World, found: seq<(Key, Object)>, me: Name, seen: set<Read>)
    requires Sound(w) && AllWatched(w, found, me, seen)
    ensures AllWatched(Begin(w).1, found, me, seen)
  {
    hide Begin, WatchedSince, Sound, Owned;
    forall i | 0 <= i < |found| && Owned(found[i].1, me)
      ensures Watched(Begin(w).1, found[i].0, me, seen)
    {
      var r :| r in seen && WatchedSince(r, w, found[i].0, me);
      BeginWatched(r, w, found[i].0, me);
    }
  }

  lemma CollectUnlessKeepsWatch(
      w: World, found: seq<(Key, Object)>, me: Name, seen: set<Read>, skip: bool, keys: seq<Key>)
    requires Sound(w) && AllWatched(w, found, me, seen)
    ensures AllWatched(CollectUnless(w, skip, keys).1, found, me, seen)
  {
    hide Collect, WatchedSince, Sound, Owned;
    var w' := CollectUnless(w, skip, keys).1;
    forall i | 0 <= i < |found| && Owned(found[i].1, me)
      ensures Watched(w', found[i].0, me, seen)
    {
      var r :| r in seen && WatchedSince(r, w, found[i].0, me);
      if !skip { CollectKeepsWatch(r, w, found[i].0, me, keys); }
    }
  }

  lemma RbacKeysAreDistinct(ns: string)
    ensures DistinctKeys(NamespacedRbacKeys(ns)) && DistinctKeys(ClusterRbacKeys(ns))
    ensures forall k | k in NamespacedRbacKeys(ns) :: k !in ClusterRbacKeys(ns)
  {
    assert |SESAME| != |ENVOY| && |CERTGEN| != |SESAME| && |CERTGEN| != |ENVOY|;
  }

  /** Where an RBAC deletion stands when it has read everything: what it will delete, and its reads. */
  datatype Gathered = Gathered(objects: seq<(Key, Object)>, seen: set<Read>, world: World)

  /** Up to the deletions; nothing if a read fails. */
  function Gather(w: World, me: Name, ns: string): Option<Gathered> {
    var (all, w1) := ListSesames(w);
    if all.Failed? then None
    else
      var skipLocal := OthersInSpecNs(all.value, me, ns);
      var (local, w2) := CollectUnless(w1, skipLocal, NamespacedRbacKeys(ns));
      var (again, w3) := ListSesames(w2);
      if local.Failed? || again.Failed? then None
      else
        var skipGlobal := OthersExist(again.value, me);
        var (global, w4) := CollectUnless(w3, skipGlobal, ClusterRbacKeys(ns));
        if global.Failed? then None
        else
          Some(Gathered(
            local.value + global.value,
            CollectUnlessReads(w1, skipLocal, NamespacedRbacKeys(ns))
            + CollectUnlessReads(w3, skipGlobal, ClusterRbacKeys(ns)),
            w4))
  }

  function RbacReads(w: World, me: Name, ns: string): set<Read> {
    var g := Gather(w, me, ns);
    if g.Some? then g.value.seen else {}
  }

  /** Everything is read before anything is deleted. */
  lemma GatherFirst(w: World, me: Name, ns: string)
    requires Sound(w)
    ensures var g := Gather(w, me, ns);
      if g.Some? then
        && DeleteRbac(w, me, ns) == DeleteCollected(g.value.world, me, g.value.objects)
        && OnlyReads(w, g.value.world) && From(w, g.value.seen)
        && AllWatched(g.value.world, g.value.objects, me, g.value.seen) && DistinctFound(g.value.objects)
      else
        OnlyReads(w, DeleteRbac(w, me, ns).1)
  {
    hide Begin, OthersInSpecNs, OthersExist, CollectUnless, DeleteCollected, NamespacedRbacKeys, ClusterRbacKeys,
      AllWatched, CollectUnlessReads, OnlyReads, From, DistinctFound, DistinctKeys, Sound;
    var (all, w1) := ListSesames(w);
    BeginOnlyReads(w);
    if all.Ok? {
      var skipLocal := OthersInSpecNs(all.value, me, ns);
      var (local, w2) := CollectUnless(w1, skipLocal, NamespacedRbacKeys(ns));
      var xs := CollectUnlessReads(w1, skipLocal, NamespacedRbacKeys(ns));
      RbacKeysAreDistinct(ns);
      CollectUnlessWatched(w1, me, skipLocal, NamespacedRbacKeys(ns));
      OnlyReadsThen(w, w1, w2, xs);
      var (again, w3) := ListSesames(w2);
      BeginOnlyReads(w2);
      NoneFrom();
      OnlyReadsThen(w, w2, w3, {});
      if local.Ok? && again.Ok? {
        var skipGlobal := OthersExist(again.value, me);
        var (global, w4) := CollectUnless(w3, skipGlobal, ClusterRbacKeys(ns));
        var ys := CollectUnlessReads(w3, skipGlobal, ClusterRbacKeys(ns));
        CollectUnlessWatched(w3, me, skipGlobal, ClusterRbacKeys(ns));
        OnlyReadsThen(w, w3, w4, ys);
        if global.Ok? {
          BeginKeepsWatch(w2, local.value, me, xs);
          CollectUnlessKeepsWatch(w3, local.value, me, xs, skipGlobal, ClusterRbacKeys(ns));
          WatchedAppend(w4, local.value, global.value, me, xs, ys);
          BothFrom(w, xs, ys);
          DistinctTogether(local.value, global.value);
        }
      }
    }
  }

  lemma NoneFrom()
    ensures forall v :: From(v, {})
  {
  }

  lemma BothFrom(w: World, xs: set<Read>, ys: set<Read>)
    requires From(w, xs) && From(w, ys)
    ensures From(w, xs + ys)
  {
  }

  lemma DistinctTogether(a: seq<(Key, Object)>, b: seq<(Key, Object)>)
    requires DistinctFound(a) && DistinctFound(b)
    requires forall i, j | 0 <= i < |a| && 0 <= j < |b| :: a[i].0 != b[j].0
    ensures DistinctFound(a + b)
  {
  }

  lemma RbacAccounted(w: World, me: Name, ns: string)
    requires Sound(w)
    ensures Accounted(w, DeleteRbac(w, me, ns).1, me, RbacReads(w, me, ns)) && From(w, RbacReads(w, me, ns))
  {
    hide DeleteRbac, DeleteCollected, Gather, AllWatched, Sound, Explained;
    GatherFirst(w, me, ns);
    var g := Gather(w, me, ns);
    if g.Some? {
      DeleteCollectedAccounted(g.value.world, me, g.value.objects, g.value.seen);
    }
  }

  // ----- the namespace -----

  function NamespaceReads(w: World, spec: Spec): set<Read> {
    if !spec.removeOnDeletion || spec.namespace in CORE_NAMESPACES then {}
    else {Read(NamespaceKey(spec.namespace), GetChild(w, NamespaceKey(spec.namespace)).1)}
  }

  lemma NamespaceAccounted(w: World, me: Name, spec: Spec)
    requires Sound(w)
    ensures Accounted(w, DeleteNamespace(w, me, spec).2, me, NamespaceReads(w, spec))
    ensures From(w, NamespaceReads(w, spec))
  {
    hide Begin, OthersInSpecNs, DeleteChild, Accounted, WatchedSince, Sound, Evolves, Follows, CORE_NAMESPACES;
    NoWritesHere(w, me);
    if spec.removeOnDeletion && spec.namespace !in CORE_NAMESPACES {
      var key := NamespaceKey(spec.namespace);
      var p := Pass(me, {}, {});
      var (r, w1) := GetChild(w, key);
      var seen := {Read(key, w1)};
      BeginAccounted(w, me);
      AccountedMore(w, w1, me, {}, seen);
      if r.Ok? && Owned(r.value, me) {
        BeginEvolves(w, p);
        EvolvesIsSound(w, w1, p);
        var w2 := ListSesames(w1).1;
        BeginAccounted(w1, me);
        AccountedMore(w1, w2, me, {}, seen);
        AccountedInTurn(w, w1, w2, me, seen);
        BeginEvolves(w1, p);
        EvolvesIsSound(w1, w2, p);
        WatchedFromRead(w1, key, me);
        BeginWatched(Read(key, w1), w1, key, me);
        DeleteAccounted(Read(key, w1), w2, key, me, seen);
        AccountedInTurn(w, w2, DeleteChild(w2, key).1, me, seen);
      }
    }
  }

  lemma NoWritesHere(w: World, me: Name)
    ensures Accounted(w, w, me, {})
  {
  }
}
