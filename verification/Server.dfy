/** The API server as the operator sees it.

    A `World` holds the stored objects and a finite schedule with one `Tick` per API call: before
    the call is served, other actors take the tick's steps; then the call goes through, is rejected,
    or takes effect without the operator hearing of it. When the schedule is used up, calls succeed
    undisturbed. A statement for all worlds is therefore a statement for every interleaving and
    every failure pattern of every finite run; a pass that is cut short is one whose remaining calls
    are rejected.

    Other actors are held to the operator's assumptions by the steps themselves: the API server
    admits only specs the CRD allows, a Sesame's spec namespace is fixed, the operator's finalizer is
    not taken away, and owner labels are not forged. */
module Server {
  import opened Api
  import opened RetryableError
  import opened Conditions

  datatype Op = Creates | Updates | Deletes

  /** The operator's effective writes: what the write hit, whether a resource version guarded it, and
      how much of the schedule was left. */
  datatype Event =
    | Wrote(op: Op, key: Key, before: Option<Object>, guarded: bool, left: nat)
    | WroteFinalizers(id: Name, was: Sesame, finalizers: seq<string>)
    | WroteStatus(id: Name, was: Sesame, status: Status)

  datatype Fault = NoFault | Rejected | Lost

  datatype Step =
    | CreateSesame(id: Name, finalizers: seq<string>, spec: Spec)
    | EditSesame(id: Name, finalizers: seq<string>, spec: Spec)
    | DeleteSesame(id: Name)
    | EditStatus(id: Name, status: Status)
    | PutChild(key: Key, child: Object)
    | RemoveChild(key: Key)
    | ReportWorkload(key: Key, workload: WorkloadStatus)
    | Elapse(duration: nat)

  datatype Tick = Tick(steps: seq<Step>, fault: Fault)

  datatype World = World(
    sesames: map<Name, Sesame>,
    children: map<Key, Object>,
    workloads: map<Key, WorkloadStatus>,
    next: nat,
    time: int,
    schedule: seq<Tick>,
    log: seq<Event>)

  datatype Reply<+T> = Ok(value: T) | Failed(reason: Reason)

  // ----- the other actors -----

  /** The CRD's enumeration of publishing types. */
  predicate Admitted(spec: Spec) {
    spec.publishing.kind != UnknownPublishing
  }

  /** A Sesame marked for deletion goes when its last finalizer does. */
  function StoreSesame(w: World, id: Name, ses: Sesame): World {
    if ses.deleting && ses.finalizers == [] then w.(sesames := w.sesames - {id})
    else w.(sesames := w.sesames[id := ses.(version := w.next)], next := w.next + 1)
  }

  function StoreChild(w: World, key: Key, o: Object): World {
    w.(children := w.children[key := Stamp(o, w.next)], next := w.next + 1)
  }

  function DropChild(w: World, key: Key): World {
    w.(children := w.children - {key}, workloads := w.workloads - {key})
  }

  /** Whether storing `o` would put an owner's labels where they were not. */
  predicate Forges(w: World, key: Key, o: Object) {
    Owner(o).Some? && !(key in w.children && Owner(w.children[key]) == Owner(o))
  }

  function Act(w: World, step: Step): World {
    match step
    case CreateSesame(id, finalizers, spec) =>
      if id in w.sesames || !Admitted(spec) then w
      else StoreSesame(w, id, Sesame(0, finalizers, false, spec, Status(0, 0, [])))
    case EditSesame(id, finalizers, spec) =>
      if id !in w.sesames || !Admitted(spec) || spec.namespace != w.sesames[id].spec.namespace
         || (Finalized(w.sesames[id]) && FINALIZER !in finalizers) then w
      else StoreSesame(w, id, w.sesames[id].(finalizers := finalizers, spec := spec))
    case DeleteSesame(id) =>
      if id !in w.sesames then w else StoreSesame(w, id, w.sesames[id].(deleting := true))
    case EditStatus(id, status) =>
      if id !in w.sesames || !UniqueTypes(status.conditions) then w
      else StoreSesame(w, id, w.sesames[id].(status := status))
    case PutChild(key, o) =>
      if Forges(w, key, o) then w else StoreChild(w, key, o)
    case RemoveChild(key) => DropChild(w, key)
    case ReportWorkload(key, workload) =>
      if key in w.children then w.(workloads := w.workloads[key := workload]) else w
    case Elapse(duration) => w.(time := w.time + duration)
  }

  function ActAll(w: World, steps: seq<Step>): World {
    if steps == [] then w else Act(ActAll(w, steps[..|steps| - 1]), steps[|steps| - 1])
  }

  /** The next tick: other actors move, and the fate of the call is drawn. */
  function Begin(w: World): (Fault, World) {
    if w.schedule == [] then (NoFault, w)
    else (w.schedule[0].fault, ActAll(w.(schedule := w.schedule[1..]), w.schedule[0].steps))
  }

  // ----- API calls -----

  function Acknowledge(fault: Fault): Option<Reason> {
    if fault == NoFault then None else Some(Unavailable)
  }

  function Record(w: World, e: Event): World {
    w.(log := w.log + [e])
  }

  function GetChild(w: World, key: Key): (Reply<Object>, World) {
    var (fault, w1) := Begin(w);
    if fault != NoFault then (Failed(Unavailable), w1)
    else if key in w1.children then (Ok(w1.children[key]), w1)
    else (Failed(NotFound), w1)
  }

  function CreateChild(w: World, key: Key, o: Object): (Option<Reason>, World) {
    var (fault, w1) := Begin(w);
    if fault == Rejected then (Some(Unavailable), w1)
    else if key in w1.children then (Some(AlreadyExists), w1)
    else (Acknowledge(fault), Record(StoreChild(w1, key, o), Wrote(Creates, key, None, false, |w1.schedule|)))
  }

  function UpdateChild(w: World, key: Key, o: Object): (Option<Reason>, World) {
    var (fault, w1) := Begin(w);
    if fault == Rejected then (Some(Unavailable), w1)
    else if key !in w1.children then (Some(NotFound), w1)
    else if o.meta.version != 0 && o.meta.version != w1.children[key].meta.version then (Some(Conflict), w1)
    else
      (Acknowledge(fault),
       Record(StoreChild(w1, key, o),
              Wrote(Updates, key, Some(w1.children[key]), o.meta.version != 0, |w1.schedule|)))
  }

  /** Deletion is by name, with no precondition. */
  function DeleteChild(w: World, key: Key): (Option<Reason>, World) {
    var (fault, w1) := Begin(w);
    if fault == Rejected then (Some(Unavailable), w1)
    else if key !in w1.children then (Some(NotFound), w1)
    else
      (Acknowledge(fault),
       Record(DropChild(w1, key), Wrote(Deletes, key, Some(w1.children[key]), false, |w1.schedule|)))
  }

  /** Reading a Deployment or DaemonSet for its status. */
  function GetWorkload(w: World, key: Key): (Reply<WorkloadStatus>, World) {
    var (fault, w1) := Begin(w);
    if fault != NoFault then (Failed(Unavailable), w1)
    else if key !in w1.children then (Failed(NotFound), w1)
    else (Ok(if key in w1.workloads then w1.workloads[key] else WorkloadStatus(0, [])), w1)
  }

  function GetSesame(w: World, id: Name): (Reply<Sesame>, World) {
    var (fault, w1) := Begin(w);
    if fault != NoFault then (Failed(Unavailable), w1)
    else if id in w1.sesames then (Ok(w1.sesames[id]), w1)
    else (Failed(NotFound), w1)
  }

  function ListSesames(w: World): (Reply<map<Name, Sesame>>, World) {
    var (fault, w1) := Begin(w);
    if fault != NoFault then (Failed(Unavailable), w1) else (Ok(w1.sesames), w1)
  }

  /** Update of a Sesame read earlier; the status subresource and the deletion mark are the server's. */
  function UpdateSesame(w: World, id: Name, ses: Sesame): (Option<Reason>, World) {
    var (fault, w1) := Begin(w);
    if fault == Rejected then (Some(Unavailable), w1)
    else if id !in w1.sesames then (Some(NotFound), w1)
    else if ses.version != w1.sesames[id].version then (Some(Conflict), w1)
    else
      var was := w1.sesames[id];
      (Acknowledge(fault),
       Record(StoreSesame(w1, id, ses.(deleting := was.deleting, status := was.status)),
              WroteFinalizers(id, was, ses.finalizers)))
  }

  /** Status().Update of a Sesame read at resource version `version`. */
  function UpdateStatus(w: World, id: Name, version: nat, status: Status): (Option<Reason>, World) {
    var (fault, w1) := Begin(w);
    if fault == Rejected then (Some(Unavailable), w1)
    else if id !in w1.sesames then (Some(NotFound), w1)
    else if version != w1.sesames[id].version then (Some(Conflict), w1)
    else
      var was := w1.sesames[id];
      (Acknowledge(fault), Record(StoreSesame(w1, id, was.(status := status)), WroteStatus(id, was, status)))
  }

  /** The controller-runtime client: each call changes the world as the functions above say. */
  class Client {
    var world: World

    constructor (w: World)
      ensures world == w
    {
      world := w;
    }

    method Get(key: Key) returns (r: Reply<Object>)
      modifies this
      ensures (r, world) == GetChild(old(world), key)
    {
      var (reply, after) := GetChild(world, key);
      r, world := reply, after;
    }

    method Create(key: Key, o: Object) returns (err: Option<Reason>)
      modifies this
      ensures (err, world) == CreateChild(old(world), key, o)
    {
      var (reply, after) := CreateChild(world, key, o);
      err, world := reply, after;
    }

    method Update(key: Key, o: Object) returns (err: Option<Reason>)
      modifies this
      ensures (err, world) == UpdateChild(old(world), key, o)
    {
      var (reply, after) := UpdateChild(world, key, o);
      err, world := reply, after;
    }

    method Delete(key: Key) returns (err: Option<Reason>)
      modifies this
      ensures (err, world) == DeleteChild(old(world), key)
    {
      var (reply, after) := DeleteChild(world, key);
      err, world := reply, after;
    }

    method CurrentWorkload(key: Key) returns (r: Reply<WorkloadStatus>)
      modifies this
      ensures (r, world) == GetWorkload(old(world), key)
    {
      var (reply, after) := GetWorkload(world, key);
      r, world := reply, after;
    }

    method CurrentSesame(id: Name) returns (r: Reply<Sesame>)
      modifies this
      ensures (r, world) == GetSesame(old(world), id)
    {
      var (reply, after) := GetSesame(world, id);
      r, world := reply, after;
    }

    /** The items of a list come in no particular order. */
    method List() returns (r: Reply<seq<(Name, Sesame)>>)
      modifies this
      ensures world == ListSesames(old(world)).1
      ensures match ListSesames(old(world)).0
              case Failed(reason) => r == Failed(reason)
              case Ok(all) => r.Ok? && Lists(r.value, all)
    {
      var (reply, after) := ListSesames(world);
      world := after;
      if reply.Failed? {
        return Failed(reply.reason);
      }
      var items: seq<(Name, Sesame)> := [];
      var rest := reply.value;
      while rest.Keys != {}
        invariant rest.Keys <= reply.value.Keys && forall n | n in rest :: rest[n] == reply.value[n]
        invariant |items| + |rest| == |reply.value|
        invariant forall i | 0 <= i < |items| ::
                    items[i].0 in reply.value && reply.value[items[i].0] == items[i].1 && items[i].0 !in rest
        invariant forall n | n in reply.value :: n in rest || (n, reply.value[n]) in items
        decreases |rest|
      {
        var n :| n in rest.Keys;
        items := items + [(n, rest[n])];
        rest := rest - {n};
      }
      return Ok(items);
    }

    method UpdateFinalizers(id: Name, ses: Sesame) returns (err: Option<Reason>)
      modifies this
      ensures (err, world) == UpdateSesame(old(world), id, ses)
    {
      var (reply, after) := UpdateSesame(world, id, ses);
      err, world := reply, after;
    }

    method StatusUpdate(id: Name, version: nat, status: Status) returns (err: Option<Reason>)
      modifies this
      ensures (err, world) == UpdateStatus(old(world), id, version, status)
    {
      var (reply, after) := UpdateStatus(world, id, version, status);
      err, world := reply, after;
    }
  }

  /** `items` lists exactly the entries of `all`, each once. */
  predicate Lists(items: seq<(Name, Sesame)>, all: map<Name, Sesame>) {
    && |items| == |all|
    && (forall i | 0 <= i < |items| :: items[i].0 in all && all[items[i].0] == items[i].1)
    && (forall n | n in all :: (n, all[n]) in items)
  }
}
