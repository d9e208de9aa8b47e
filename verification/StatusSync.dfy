/** Syncing a Sesame's status under optimistic concurrency (internal/status/status.go). */
module StatusSync {
  import opened Api
  import opened RetryableError
  import opened Conditions
  import opened Server
  import opened Evolution
  import opened Objects

  /** Error, number of status updates tried, and the world afterwards. */
  datatype SyncResult = SyncResult(err: Option<Error>, attempts: nat, world: World)

  function Found(r: Reply<WorkloadStatus>): Option<WorkloadStatus> {
    if r.Ok? then Some(r.value) else None
  }

  function ReadError(step: string, r: Reply<WorkloadStatus>): Option<Error> {
    if r.Ok? then None else Some(Wrapped(step, ApiError(r.reason)))
  }

  /** The status to store over `status`, given what could be read of the workloads. */
  function NewStatus(status: Status, deployment: Option<WorkloadStatus>, ds: Option<WorkloadStatus>, now: int): Status {
    Status(
      if deployment.Some? then deployment.value.available else status.availableSesames,
      if ds.Some? then ds.value.available else status.availableEnvoys,
      Merged(status.conditions, [AvailableCondition(deployment, ds)], now))
  }

  function Sync(w: World, me: Name): SyncResult
    decreases |w.schedule|
  {
    var (r, w1) := GetSesame(w, me);
    BeginFrame(w);
    match r
    case Failed(NotFound) => SyncResult(None, 0, w1)
    case Failed(reason) => SyncResult(Some(ApiError(reason)), 0, w1)
    case Ok(latest) =>
      var (d, w2) := GetWorkload(w1, DeploymentKey(latest.spec.namespace));
      var (s, w3) := GetWorkload(w2, DaemonSetKey(latest.spec.namespace));
      var errs := [ReadError("deployment", d), ReadError("daemonset", s)];
      var updated := NewStatus(latest.status, Found(d), Found(s), w3.time);
      if updated == latest.status then SyncResult(MaybeRetryable(errs), 0, w3)
      else
        var (u, w4) := UpdateStatus(w3, me, latest.version, updated);
        BeginFrame(w1);
        BeginFrame(w2);
        BeginFrame(w3);
        match u
        case None => SyncResult(MaybeRetryable(errs), 1, w4)
        case Some(NotFound) => SyncResult(MaybeRetryable(errs), 1, w4)
        case Some(Conflict) =>
          var again := Sync(w4, me);
          SyncResult(MaybeRetryable(errs + [Wrap("status", again.err)]), 1 + again.attempts, again.world)
        case Some(reason) =>
          SyncResult(MaybeRetryable(errs + [Some(Wrapped("status", ApiError(reason)))]), 1, w4)
  }

  /** A conflict means another actor wrote, and so used up part of the schedule. */
  lemma ConflictShrinksSchedule(w: World, me: Name)
    requires var (r, w1) := GetSesame(w, me);
      && r.Ok?
      && var (d, w2) := GetWorkload(w1, DeploymentKey(r.value.spec.namespace));
         var (s, w3) := GetWorkload(w2, DaemonSetKey(r.value.spec.namespace));
         UpdateStatus(w3, me, r.value.version, NewStatus(r.value.status, Found(d), Found(s), w3.time)).0 ==
             Some(Conflict)
    ensures var (r, w1) := GetSesame(w, me);
      var (d, w2) := GetWorkload(w1, DeploymentKey(r.value.spec.namespace));
      var (s, w3) := GetWorkload(w2, DaemonSetKey(r.value.spec.namespace));
      var w4 := UpdateStatus(w3, me, r.value.version, NewStatus(r.value.status, Found(d), Found(s), w3.time)).1;
      |w4.schedule| < |w.schedule|
  {
    hide Begin, NewStatus;
    var (r, w1) := GetSesame(w, me);
    var w2 := Begin(w1).1;
    var w3 := Begin(w2).1;
    BeginFrame(w);
    BeginFrame(w1);
    BeginFrame(w2);
    BeginFrame(w3);
  }

  method SyncSesame(cli: Client, me: Name) returns (err: Option<Error>, attempts: nat)
    modifies cli
    ensures SyncResult(err, attempts, cli.world) == Sync(old(cli.world), me)
    decreases |cli.world.schedule|
  {
    hide AvailableCondition, Merged, MaybeRetryable, GetSesame, GetWorkload, UpdateStatus, DeploymentKey,
      DaemonSetKey;
    ghost var w := cli.world;
    var latest := cli.CurrentSesame(me);
    if latest.Failed? {
      if latest.reason == NotFound {
        return None, 0;
      }
      return Some(ApiError(latest.reason)), 0;
    }
    var errs: seq<Option<Error>> := [];
    var updated := latest.value.status;
    var deploy := cli.CurrentWorkload(DeploymentKey(latest.value.spec.namespace));
    if deploy.Failed? {
      errs := errs + [Some(Wrapped("deployment", ApiError(deploy.reason)))];
    } else {
      errs := errs + [None];
      updated := updated.(availableSesames := deploy.value.available);
    }
    var ds := cli.CurrentWorkload(DaemonSetKey(latest.value.spec.namespace));
    if ds.Failed? {
      errs := errs + [Some(Wrapped("daemonset", ApiError(ds.reason)))];
    } else {
      errs := errs + [None];
      updated := updated.(availableEnvoys := ds.value.available);
    }
    assert errs == [ReadError("deployment", deploy), ReadError("daemonset", ds)];
    var condition := ComputeSesameAvailableCondition(Found(deploy), Found(ds));
    var conditions := MergeConditions(updated.conditions, [condition], cli.world.time);
    updated := updated.(conditions := conditions);
    attempts := 0;
    if updated != latest.value.status {
      var u := cli.StatusUpdate(me, latest.value.version, updated);
      attempts := 1;
      if u.Some? {
        match u.value {
          case NotFound =>
          case Conflict =>
            ConflictShrinksSchedule(w, me);
            var e, more := SyncSesame(cli, me);
            errs := errs + [Wrap("status", e)];
            attempts := attempts + more;
          case _ =>
            errs := errs + [Some(Wrapped("status", ApiError(u.value)))];
        }
      }
    }
    err := NewMaybeRetryableAggregate(errs);
  }

  // ----- properties -----

  /** A sync's errors are wrapped, so it never asks for a delayed retry. */
  lemma SyncIsNeverRetryable(w: World, me: Name)
    ensures !Judge(Sync(w, me).err).RetryAfter?
  {
    hide Begin, NewStatus, MaybeRetryable;
    var (r, w1) := GetSesame(w, me);
    if r.Ok? {
      var (d, w2) := GetWorkload(w1, DeploymentKey(r.value.spec.namespace));
      var (s, w3) := GetWorkload(w2, DaemonSetKey(r.value.spec.namespace));
      var errs := [ReadError("deployment", d), ReadError("daemonset", s)];
      WrappedIsNeverRetryable(errs);
      var updated := NewStatus(r.value.status, Found(d), Found(s), w3.time);
      var (u, w4) := UpdateStatus(w3, me, r.value.version, updated);
      if u.Some? {
        WrappedIsNeverRetryable(errs + [Some(Wrapped("status", ApiError(u.value)))]);
        if u.value == Conflict && updated != r.value.status {
          BeginFrame(w);
          BeginFrame(w1);
          BeginFrame(w2);
          BeginFrame(w3);
          WrappedIsNeverRetryable(errs + [Wrap("status", Sync(w4, me).err)]);
        }
      }
    }
  }

  /** When a sync returns nil, under every schedule: the Sesame is gone, or both workloads could be read and
      the status needed no write, was written, lost its Sesame, or was settled by the retry. */
  lemma SyncNilIff(w: World, me: Name)
    ensures var (r, w1) := GetSesame(w, me);
      Sync(w, me).err.None? <==>
        match r
        case Failed(reason) => reason == NotFound
        case Ok(latest) =>
          var (d, w2) := GetWorkload(w1, DeploymentKey(latest.spec.namespace));
          var (s, w3) := GetWorkload(w2, DaemonSetKey(latest.spec.namespace));
          var updated := NewStatus(latest.status, Found(d), Found(s), w3.time);
          && d.Ok? && s.Ok?
          && (updated != latest.status ==>
                var (u, w4) := UpdateStatus(w3, me, latest.version, updated);
                u.None? || u == Some(NotFound) || (u == Some(Conflict) && Sync(w4, me).err.None?))
  {
    hide Begin, NewStatus, NonNil, AllRetryable, MinAfter, UpdateStatus, ErrorsIn;
    var (r, w1) := GetSesame(w, me);
    if r.Ok? {
      var (d, w2) := GetWorkload(w1, DeploymentKey(r.value.spec.namespace));
      var (s, w3) := GetWorkload(w2, DaemonSetKey(r.value.spec.namespace));
      var errs := [ReadError("deployment", d), ReadError("daemonset", s)];
      var updated := NewStatus(r.value.status, Found(d), Found(s), w3.time);
      var (u, w4) := UpdateStatus(w3, me, r.value.version, updated);
      NilIff2(errs);
      if u.Some? {
        NilIff3(errs, Some(Wrapped("status", ApiError(u.value))));
        NilIff3(errs, Wrap("status", Sync(w4, me).err));
      }
    }
  }

  lemma NilIff2(errs: seq<Option<Error>>)
    requires |errs| == 2
    ensures MaybeRetryable(errs).None? <==> errs[0].None? && errs[1].None?
  {
    hide NonNil, AllRetryable, MinAfter, ErrorsIn, MaybeRetryable;
    AggregatesReport(errs);
  }

  lemma NilIff3(errs: seq<Option<Error>>, last: Option<Error>)
    requires |errs| == 2
    ensures MaybeRetryable(errs + [last]).None? <==> errs[0].None? && errs[1].None? && last.None?
  {
    hide NonNil, AllRetryable, MinAfter, ErrorsIn, MaybeRetryable;
    var all := errs + [last];
    AggregatesReport(all);
    assert all[0] == errs[0] && all[1] == errs[1] && all[2] == last;
  }

  lemma NewStatusKeepsUniqueTypes(status: Status, d: Option<WorkloadStatus>, s: Option<WorkloadStatus>, now: int)
    requires UniqueTypes(status.conditions)
    ensures UniqueTypes(NewStatus(status, d, s, now).conditions)
  {
    MergeKeepsUniqueTypes(status.conditions, [AvailableCondition(d, s)], now);
  }

  /** What one attempt of a sync read: the status of either workload, if it could be read, and the time. */
  datatype Observation = Observation(deployment: Option<WorkloadStatus>, daemonSet: Option<WorkloadStatus>, now: int)

  /** The observations of all attempts: the Deployment `sesame` and the DaemonSet `envoy` of the spec
      namespace, read in this order after the Sesame. */
  function Observations(w: World, me: Name): set<Observation>
    decreases |w.schedule|
  {
    var (r, w1) := GetSesame(w, me);
    if r.Failed? then {}
    else
      var ns := r.value.spec.namespace;
      var (d, w2) := GetWorkload(w1, Key(DeploymentKind, ns, "sesame"));
      var (s, w3) := GetWorkload(w2, Key(DaemonSetKind, ns, "envoy"));
      var (u, w4) := UpdateStatus(w3, me, r.value.version, r.value.status);
      BeginFrame(w);
      BeginFrame(w1);
      BeginFrame(w2);
      BeginFrame(w3);
      {Observation(Found(d), Found(s), w3.time)} + if u == Some(Conflict) then Observations(w4, me) else {}
  }

  /** A status write of the operator: the counts observed over those it replaces, the Available condition
      computed from the observation merged into the conditions it replaces, and theirs otherwise. */
  predicate Records(e: Event, o: Observation) {
    && e.WroteStatus?
    && e.status.availableSesames ==
       (if o.deployment.Some? then o.deployment.value.available else e.was.status.availableSesames)
    && e.status.availableEnvoys ==
       (if o.daemonSet.Some? then o.daemonSet.value.available else e.was.status.availableEnvoys)
    && e.status.conditions == Merged(e.was.status.conditions, [AvailableCondition(o.deployment, o.daemonSet)], o.now)
    && OfOtherTypes(e.status.conditions, AVAILABLE) == OfOtherTypes(e.was.status.conditions, AVAILABLE)
  }

  predicate FaithfulWrite(e: Event, me: Name, seen: set<Observation>) {
    e.WroteStatus? && e.id == me && exists o | o in seen :: Records(e, o)
  }

  predicate FaithfulSince(from: seq<Event>, log: seq<Event>, me: Name, seen: set<Observation>) {
    from <= log && forall i | |from| <= i < |log| :: FaithfulWrite(log[i], me, seen)
  }

  /** No update is lost: every status the operator stores records one of its observations over the very
      status it overwrites, so conditions of other types, written by others at any moment, survive. */
  lemma SyncLosesNoUpdate(w: World, me: Name)
    requires Sound(w)
    ensures FaithfulSince(w.log, Sync(w, me).world.log, me, Observations(w, me))
  {
    SyncEvolves(w, Pass(me, {}, {}));
  }

  /** The three reads of a sync. */
  lemma ReadsEvolve(w: World, p: Pass)
    requires Sound(w)
    ensures var (r, w1) := GetSesame(w, p.me);
      && Evolves(w, w1, p)
      && (r.Ok? ==>
            var w2 := GetWorkload(w1, DeploymentKey(r.value.spec.namespace)).1;
            var w3 := GetWorkload(w2, DaemonSetKey(r.value.spec.namespace)).1;
            && Evolves(w, w3, p) && Versioned(w1, w3) && Sound(w1) && Sound(w3) && w3.log == w.log
            && p.me in w1.sesames && w1.sesames[p.me] == r.value && UniqueTypes(r.value.status.conditions)
            && (w.schedule != [] ==> |w3.schedule| < |w.schedule|) && (w.schedule == [] ==> w3 == w))
  {
    hide Begin, Evolves;
    var (r, w1) := GetSesame(w, p.me);
    BeginFrame(w);
    BeginEvolves(w, p);
    EvolvesIsSound(w, w1, p);
    if r.Ok? {
      var w2 := Begin(w1).1;
      var w3 := Begin(w2).1;
      BeginFrame(w1);
      BeginFrame(w2);
      assert Evolves(w1, w3, p) by {
        BeginEvolves(w1, p);
        EvolvesIsSound(w1, w2, p);
        BeginEvolves(w2, p);
        EvolvesTransitive(w1, w2, w3, p);
      }
      EvolvesIsSound(w1, w3, p);
      EvolvesVersions(w1, w3, p);
      EvolvesTransitive(w, w1, w3, p);
      assert SoundSesame(r.value, w1.next);
    }
  }

  lemma {:induction false} SyncEvolves(w: World, p: Pass)
    requires Sound(w)
    ensures Evolves(w, Sync(w, p.me).world, p)
    ensures FaithfulSince(w.log, Sync(w, p.me).world.log, p.me, Observations(w, p.me))
    decreases |w.schedule|
  {
    hide Begin, AvailableCondition, Merged, Evolves, Versioned, Records;
    var (r, w1) := GetSesame(w, p.me);
    BeginFrame(w);
    ReadsEvolve(w, p);
    if r.Ok? {
      var latest := r.value;
      var (d, w2) := GetWorkload(w1, DeploymentKey(latest.spec.namespace));
      var (s, w3) := GetWorkload(w2, DaemonSetKey(latest.spec.namespace));
      var updated := NewStatus(latest.status, Found(d), Found(s), w3.time);
      NewStatusKeepsUniqueTypes(latest.status, Found(d), Found(s), w3.time);
      if updated != latest.status {
        var (u, w4) := UpdateStatus(w3, p.me, latest.version, updated);
        BeginFrame(w3);
        UpdateStatusEvolves(w3, latest.version, updated, p);
        EvolvesTransitive(w, w3, w4, p);
        WriteIsFaithful(w1, w3, p, latest, Found(d), Found(s));
        FaithfulMore(w.log, w4.log, p.me, {Observation(Found(d), Found(s), w3.time)}, Observations(w, p.me));
        if u == Some(Conflict) {
          EvolvesIsSound(w3, w4, p);
          SyncEvolves(w4, p);
          EvolvesTransitive(w, w4, Sync(w4, p.me).world, p);
          SameConflict(w3, p.me, latest.version, updated, latest.status);
          FaithfulAppend(w.log, w4.log, Sync(w4, p.me).world.log, p.me,
                         {Observation(Found(d), Found(s), w3.time)}, Observations(w4, p.me));
        }
      }
    }
  }

  lemma SameConflict(w: World, id: Name, version: nat, a: Status, b: Status)
    requires UpdateStatus(w, id, version, a).0 == Some(Conflict)
    ensures UpdateStatus(w, id, version, a) == UpdateStatus(w, id, version, b)
  {
    hide Begin;
  }

  lemma FaithfulMore(from: seq<Event>, log: seq<Event>, me: Name, seen: set<Observation>, more: set<Observation>)
    requires FaithfulSince(from, log, me, seen) && seen <= more
    ensures FaithfulSince(from, log, me, more)
  {
    hide Records;
    forall i | |from| <= i < |log|
      ensures FaithfulWrite(log[i], me, more)
    {
      assert FaithfulWrite(log[i], me, seen);
    }
  }

  lemma FaithfulAppend(
      a: seq<Event>, b: seq<Event>, c: seq<Event>, me: Name, xs: set<Observation>, ys: set<Observation>)
    requires FaithfulSince(a, b, me, xs) && FaithfulSince(b, c, me, ys)
    ensures FaithfulSince(a, c, me, xs + ys)
  {
    hide FaithfulWrite;
    FaithfulMore(a, b, me, xs, xs + ys);
    FaithfulMore(b, c, me, ys, xs + ys);
    assert forall i | |a| <= i < |b| :: c[i] == b[i];
  }

  /** What is stored under a version in use earlier is what was stored then. */
  lemma SameVersionSameSesame(w: World, w': World, id: Name)
    requires Versioned(w, w') && id in w'.sesames && w'.sesames[id].version < w.next
    ensures id in w.sesames && w.sesames[id] == w'.sesames[id]
  {
  }

  /** A version match at the write means nothing intervened since the read. */
  lemma WriteIsFaithful(
      w1: World, w3: World, p: Pass, latest: Sesame, d: Option<WorkloadStatus>, s: Option<WorkloadStatus>)
    requires Versioned(w1, w3) && Sound(w1) && Sound(w3) && p.me in w1.sesames && w1.sesames[p.me] == latest
    ensures var updated := NewStatus(latest.status, d, s, w3.time);
      FaithfulSince(w3.log, UpdateStatus(w3, p.me, latest.version, updated).1.log, p.me, {Observation(d, s, w3.time)})
  {
    hide Begin, AvailableCondition, Merged, Evolves, UpdateStatus, UniqueTypes;
    var w' := Begin(w3).1;
    BeginEvolves(w3, p);
    EvolvesVersions(w3, w', p);
    MergeKeepsOtherTypes(latest.status.conditions, AvailableCondition(d, s), w3.time);
    var updated := NewStatus(latest.status, d, s, w3.time);
    UpdateStatusLog(w3, p.me, latest.version, updated);
    if p.me in w'.sesames && w'.sesames[p.me].version == latest.version {
      assert SoundSesame(latest, w1.next);
      SameVersionSameSesame(w3, w', p.me);
      SameVersionSameSesame(w1, w3, p.me);
      assert Records(WroteStatus(p.me, latest, updated), Observation(d, s, w3.time));
    }
  }

  lemma UpdateStatusLog(w: World, id: Name, version: nat, status: Status)
    ensures var w1 := Begin(w).1;
      var log := UpdateStatus(w, id, version, status).1.log;
      || log == w.log
      || (id in w1.sesames && w1.sesames[id].version == version
          && log == w.log + [WroteStatus(id, w1.sesames[id], status)])
  {
    hide ActAll;
    BeginFrame(w);
  }

  // ----- termination and attempts -----

  predicate Touches(step: Step, id: Name) {
    (step.CreateSesame? || step.EditSesame? || step.DeleteSesame? || step.EditStatus?) && step.id == id
  }

  predicate TickTouches(tick: Tick, id: Name) {
    exists i | 0 <= i < |tick.steps| :: Touches(tick.steps[i], id)
  }

  /** How many ticks write the Sesame. */
  function Interferences(schedule: seq<Tick>, id: Name): nat {
    if schedule == [] then 0
    else (if TickTouches(schedule[0], id) then 1 else 0) + Interferences(schedule[1..], id)
  }

  predicate SameEntry(w: World, w': World, id: Name) {
    (id in w.sesames <==> id in w'.sesames) && (id in w.sesames ==> w.sesames[id] == w'.sesames[id])
  }

  lemma UntouchedStep(w: World, step: Step, id: Name)
    requires !Touches(step, id)
    ensures SameEntry(w, Act(w, step), id)
  {
  }

  lemma {:induction false} UntouchedSteps(w: World, steps: seq<Step>, id: Name)
    requires forall i | 0 <= i < |steps| :: !Touches(steps[i], id)
    ensures SameEntry(w, ActAll(w, steps), id)
  {
    hide Act, Touches;
    if steps != [] {
      var init := steps[..|steps| - 1];
      assert forall i | 0 <= i < |init| :: init[i] == steps[i];
      UntouchedSteps(w, init, id);
      UntouchedStep(ActAll(w, init), steps[|steps| - 1], id);
    }
  }

  /** A tick either touches the Sesame, and is one interference fewer to come, or leaves it as it was. */
  lemma BeginInterferes(w: World, id: Name)
    ensures var w' := Begin(w).1;
      && Interferences(w'.schedule, id) <= Interferences(w.schedule, id)
      && (SameEntry(w, w', id) || Interferences(w'.schedule, id) < Interferences(w.schedule, id))
  {
    BeginFrame(w);
    if w.schedule != [] && !TickTouches(w.schedule[0], id) {
      UntouchedSteps(w.(schedule := w.schedule[1..]), w.schedule[0].steps, id);
    }
  }

  /** With n interfering writes a sync tries its status update at most n + 1 times. That it
      terminates at all is the termination of `Sync` itself. */
  lemma {:induction false} AttemptsAreBounded(w: World, me: Name)
    ensures Sync(w, me).attempts <= 1 + Interferences(w.schedule, me)
    decreases |w.schedule|
  {
    hide Begin, NewStatus, MaybeRetryable, Interferences, StoreSesame;
    var (r, w1) := GetSesame(w, me);
    BeginFrame(w);
    BeginInterferes(w, me);
    if r.Ok? {
      var (d, w2) := GetWorkload(w1, DeploymentKey(r.value.spec.namespace));
      var (s, w3) := GetWorkload(w2, DaemonSetKey(r.value.spec.namespace));
      var updated := NewStatus(r.value.status, Found(d), Found(s), w3.time);
      var (u, w4) := UpdateStatus(w3, me, r.value.version, updated);
      BeginFrame(w1);
      BeginFrame(w2);
      BeginFrame(w3);
      BeginInterferes(w1, me);
      BeginInterferes(w2, me);
      BeginInterferes(w3, me);
      if u == Some(Conflict) && updated != r.value.status {
        AttemptsAreBounded(w4, me);
      }
    }
  }

  /** An undisturbed sync in one step. */
  lemma QuietSync(w: World, me: Name)
    requires w.schedule == []
    ensures me !in w.sesames ==> Sync(w, me).world == w && Sync(w, me).attempts == 0
    ensures me in w.sesames ==>
              var was := w.sesames[me];
              var d := GetWorkload(w, DeploymentKey(was.spec.namespace)).0;
              var s := GetWorkload(w, DaemonSetKey(was.spec.namespace)).0;
              var updated := NewStatus(was.status, Found(d), Found(s), w.time);
              if updated == was.status then Sync(w, me).world == w && Sync(w, me).attempts == 0
              else Sync(w, me).world == Record(StoreSesame(w, me, was.(status := updated)),
                  WroteStatus(me, was, updated))
  {
    hide NewStatus, MaybeRetryable, StoreSesame, Begin;
    BeginFrame(w);
  }

  /** What an undisturbed sync leaves in the status, field by field: the available pods of the Deployment
      `sesame` and of the DaemonSet `envoy` of the spec namespace, or what was there if one is missing; the
      Available condition of the two; and every condition of another type. It returns nil exactly when
      both are there. */
  lemma QuietSyncStores(w: World, me: Name)
    requires Sound(w) && w.schedule == [] && me in w.sesames
    requires !w.sesames[me].deleting || w.sesames[me].finalizers != []
    ensures var was, w' := w.sesames[me], Sync(w, me).world;
      var deployment := Key(DeploymentKind, was.spec.namespace, "sesame");
      var daemonSet := Key(DaemonSetKind, was.spec.namespace, "envoy");
      && me in w'.sesames
      && var now := w'.sesames[me].status;
         && now.availableSesames ==
            (if deployment in w.children then Reported(w, deployment).available else was.status.availableSesames)
         && now.availableEnvoys ==
            (if daemonSet in w.children then Reported(w, daemonSet).available else was.status.availableEnvoys)
         && OfOtherTypes(now.conditions, AVAILABLE) == OfOtherTypes(was.status.conditions, AVAILABLE)
         && (exists i | 0 <= i < |now.conditions| ::
               && now.conditions[i].kind == AVAILABLE
               && !ConditionChanged(
                     now.conditions[i], AvailableCondition(StatusOf(w, deployment), StatusOf(w, daemonSet))))
         && (Sync(w, me).err.None? <==> deployment in w.children && daemonSet in w.children)
  {
    hide Sync, NewStatus, AvailableCondition, Merged, ConditionChanged;
    var was := w.sesames[me];
    var deployment, daemonSet := DeploymentKey(was.spec.namespace), DaemonSetKey(was.spec.namespace);
    assert SoundSesame(was, w.next);
    QuietSync(w, me);
    QuietSyncNilIff(w, me);
    QuietReads(w, deployment);
    QuietReads(w, daemonSet);
    StatusRecords(was.status, StatusOf(w, deployment), StatusOf(w, daemonSet), w.time);
  }

  function Reported(w: World, key: Key): WorkloadStatus {
    if key in w.workloads then w.workloads[key] else WorkloadStatus(0, [])
  }

  /** The status a workload reports, if it exists. */
  function StatusOf(w: World, key: Key): Option<WorkloadStatus> {
    if key in w.children then Some(Reported(w, key)) else None
  }

  lemma QuietReads(w: World, key: Key)
    requires w.schedule == []
    ensures Found(GetWorkload(w, key).0) == StatusOf(w, key)
  {
    hide Begin;
    BeginFrame(w);
  }

  lemma StatusRecords(status: Status, d: Option<WorkloadStatus>, s: Option<WorkloadStatus>, now: int)
    requires UniqueTypes(status.conditions)
    ensures var updated := NewStatus(status, d, s, now);
      && updated.availableSesames == (if d.Some? then d.value.available else status.availableSesames)
      && updated.availableEnvoys == (if s.Some? then s.value.available else status.availableEnvoys)
      && OfOtherTypes(updated.conditions, AVAILABLE) == OfOtherTypes(status.conditions, AVAILABLE)
      && exists i | 0 <= i < |updated.conditions| ::
           && updated.conditions[i].kind == AVAILABLE
           && !ConditionChanged(updated.conditions[i], AvailableCondition(d, s))
  {
    hide AvailableCondition;
    MergeKeepsOtherTypes(status.conditions, AvailableCondition(d, s), now);
    MergedIsThere(status.conditions, AvailableCondition(d, s), now);
  }

  lemma QuietSyncNilIff(w: World, me: Name)
    requires w.schedule == [] && me in w.sesames
    ensures Sync(w, me).err.None? <==>
            && DeploymentKey(w.sesames[me].spec.namespace) in w.children
            && DaemonSetKey(w.sesames[me].spec.namespace) in w.children
  {
    hide NewStatus, Begin, NonNil, AllRetryable, MinAfter;
    BeginFrame(w);
    var d := GetWorkload(w, DeploymentKey(w.sesames[me].spec.namespace)).0;
    var s := GetWorkload(w, DaemonSetKey(w.sesames[me].spec.namespace)).0;
    AggregatesReport([ReadError("deployment", d), ReadError("daemonset", s)]);
    var errs := [ReadError("deployment", d), ReadError("daemonset", s)];
    assert errs[0] == ReadError("deployment", d) && errs[1] == ReadError("daemonset", s);
  }

  /** After an undisturbed sync, the next one writes nothing, however much later. */
  lemma SyncSettles(w: World, me: Name, later: int)
    requires Sound(w) && w.schedule == []
    ensures var w' := Sync(w, me).world.(time := later);
      Sync(w', me).world == w' && Sync(w', me).attempts == 0
  {
    hide NewStatus, Sync;
    var w' := Sync(w, me).world.(time := later);
    QuietSync(w, me);
    QuietSync(w', me);
    if me in w.sesames {
      var latest := w.sesames[me];
      assert SoundSesame(latest, w.next);
      var d := GetWorkload(w, DeploymentKey(latest.spec.namespace)).0;
      var s := GetWorkload(w, DaemonSetKey(latest.spec.namespace)).0;
      NewStatusSettles(latest.status, Found(d), Found(s), w.time, later);
    }
  }

  lemma NewStatusSettles(status: Status, d: Option<WorkloadStatus>, s: Option<WorkloadStatus>, now: int, later: int)
    requires UniqueTypes(status.conditions)
    ensures NewStatus(NewStatus(status, d, s, now), d, s, later) == NewStatus(status, d, s, now)
  {
    hide AvailableCondition, Merged;
    MergeIsIdempotent(status.conditions, [AvailableCondition(d, s)], now, later);
  }
}
