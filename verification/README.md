# Sesame operator: a verified model

The Sesame operator watches Sesame custom resources and keeps, for each of them, a namespace, RBAC
objects, a configmap, a certificate Job, a Deployment, a DaemonSet and two Services. This project
models its reconcile loop against an abstract API server and proves what the loop promises.

## How it is modelled

`Server` holds the stored objects, and a schedule with one tick per API call. In a tick other actors
first take any number of steps (create, edit and delete Sesames, write statuses, put and remove
children, report workload status, let time pass); then the call succeeds, is rejected, or takes effect
without the operator learning of it. Every run and every failure pattern is some schedule, so a lemma
for all worlds is a lemma for all of them. A pass that is cut short is one whose remaining calls are
rejected. Every effective write of the operator is logged with the object it hit and the ticks then
left, so that the log tells what other actors did between a read and the write that rests on it.

Each operation exists twice: as a function from world to world, and as a method on a mutable `Client`
with the loops and early returns of the source, proved to do what the function says. The theorems are
about the functions.

| module | source |
|---|---|
| `Api`, `Server`, `Evolution` | the resources, the API server, and the relation every call respects |
| `Slice`, `RetryableError`, `Validation`, `Equality`, `Conditions` | the packages of those names |
| `Desired`, `Ports`, `Fit` | the `Desired*` functions, what they agree on, and that they are what the spec asks for |
| `Objects`, `ObjectMethods` | the ensure and delete operations of `internal/objects` |
| `StatusSync`, `Controller` | `internal/status`, `internal/controller` |
| `Passes`, `Safety` | what every operation keeps; no orphans, single owner |
| `Windows`, `Foreign`, `Hits` | what writes rest on and what they hit |
| `Guarantees`, `Answers`, `Lasting` | staging, panics, and what nil and errors mean |
| `Deletion`, `Completion`, `Convergence` | deletion, convergence |

The steps of the other actors carry the assumptions of the run theorems: specs are as the CRD admits
them (in the publishing type), the spec namespace of a Sesame does not change, nobody else removes the
operator's finalizer or puts owner labels on objects that did not carry them, and condition types are
unique (as the API's list-map key demands).

## What the code does that its documentation does not say

- `Guarantees.NeverRequeuesAfter`: the requeue-after branches of `Reconcile` are dead, because errors are wrapped before they are aggregated.
- `Equality.NodePortIsQuiescentIff`, `Ports.NodePortServiceSettlesIff`: a NodePort Sesame that does not pin both node ports has its Service rewritten on every pass, although the comments promise that the API server may choose.
- `Equality.ClusterIPUpdateLeavesStaleFields`: a change of publishing type to ClusterIP leaves traffic policy, load-balancer address and annotations of the previous type behind.
- `Validation.EqualNodePortsAccepted`: node-port numbers are compared by pointer, so the documented uniqueness is not enforced.
- `Guarantees.ReconcilePanicsIff`: the process dies when a Deployment cannot be read (it is dereferenced as nil), when a stored NodePort Service has surplus ports, or when a node-port list is shorter than two.
- `Hits.EnsureHitsForeignIff`, `Hits.DeleteOwnedHitsForeignIff` and their siblings: some updates and all deletions are not guarded by a resource version; exactly an unowned object put in place between the read and such a write is hit.
- `Deletion.ClusterRbacIsOrphanedIff`, `Deletion.NamespacedRbacIsOrphanedIff`: RBAC of a deleted Sesame stays for ever, labelled for it, if another Sesame exists at that time (anywhere, or for the namespace).
- `Safety.OthersExistIsExactIff`: a single listed Sesame is taken for the asker if only its name fits.
- The comments on Services, Deployments and Jobs say that "the expected" resource is returned; the Service comparisons return the current one with fields overwritten, and the code is what is modelled.

## Model

| member | source | states |
|---|---|---|
| `Safety.RunIsSafe` | internal/controller/controller.go:115-257 | Safety of runs: from any safe cluster, after any sequence of reconcile requests, under every interleaving of other actors and every pattern of failed, lost or cut-short calls, each Service, DaemonSet, Deployment, Job and ConfigMap with owner labels belongs to an existing Sesame that holds the finalizer and has the object's namespace as spec namespace, and all owned workloads of a namespace have one owner. |
| `Safety.ReconcileKeepsSafe` | internal/controller/controller.go:115-170 | One reconcile, in whichever branch it ends and wherever it stops, keeps no-orphans and single-owner. |
| `Safety.EnsurePassIsSafe` | pkg/validation/validation.go:28-37 | Why validation gives single ownership: the ensure pass runs only when the list shows no second Sesame of the spec namespace, and then writes only there. |
| `Safety.EvolvesKeepsNoOrphans` | internal/controller/controller.go:173-216 | A pass that labels objects only for a finalized Sesame, at its keys, orphans nothing. |
| `Safety.EvolvesKeepsSingleOwner` | internal/controller/controller.go:134-146 | The same pass leaves one owner per namespace. |
| `Safety.FinalizerRemovalIsSafe` | internal/controller/controller.go:248-254 | Taking the finalizer off after a clean delete pass orphans nothing, although other actors act between the deletions and the write. |
| `Safety.UnfinalizedIsSafe` | internal/objects/sesame/finalizer.go:42-51 | A Sesame that owns no workload may lose the finalizer, and with it exist no longer. |
| `Safety.UnownedWorkloadsAreSafe` | internal/controller/controller.go:115-170 | Helper, immediate from the definitions: every cluster without owner labels on workloads is a safe start. |
| `Safety.ReconcileEvolves` | internal/controller/controller.go:119-156 | What any reconcile of a Sesame not being deleted may change: the finalizer is never taken off, owner labels appear only for that Sesame under its keys and only in an ensure pass, versions tell changes, and every write is one the pass may make. |
| `Safety.DeletePassEvolves` | internal/controller/controller.go:219-256 | What a delete pass may change: no label appears, only objects under the Sesame's keys are deleted, and if all results are nil every workload key is free. |
| `Safety.RemoveFinalizerEffect` | internal/objects/sesame/finalizer.go:42-51 | Removing the finalizer is at most one write, on a Sesame that has not changed since it was read. |
| `Safety.AddFinalizerEvolves` | internal/objects/sesame/finalizer.go:29-39 | Adding the finalizer writes only over the Sesame as read, and keeps everything else. |
| `Safety.SnapshotIsCurrent` | internal/objects/sesame/finalizer.go:29-51 | A resource-version match at the write means the Sesame is the one read at the start of the reconcile. |
| `Safety.ValidateEvolves` | pkg/validation/validation.go:28-37 | If validation passes for a finalized Sesame, it is at that moment the only one of its spec namespace. |
| `Safety.OthersExistIsExactIff` | internal/objects/sesame/sesame.go:98-130 | `OtherSesamesExist` tells whether another Sesame exists if and only if the list is not misleading, that is, its one item does not have the asker's name in another namespace; on a misleading list both checks answer no, on any other they are exact. |
| `Safety.OthersAreExact` | internal/objects/sesame/sesame.go:98-130 | With the asker in the list, both existence checks are exact. |
| `Evolution.CreateEvolves` | internal/objects/service/service.go:370-376 | Creating an owned object, whatever happens in between, keeps the relation `Evolves` (finalizers held, versions sound, labels only where granted, log proper). |
| `Evolution.UpdateEvolves` | internal/objects/daemonset/daemonset.go:405-418 | So does updating with an owned object. |
| `Evolution.DeleteEvolves` | internal/objects/daemonset/daemonset.go:102-112 | So does deleting. |
| `Evolution.UpdateStatusEvolves` | internal/status/status.go:69-86 | A status update keeps the relation. |
| `Evolution.ActAllDrifts` | internal/controller/controller.go:115-170 | The other actors' steps keep finalizers, namespaces and versions and forge no label. |
| `Passes.EnsureEvolves` | internal/objects/daemonset/daemonset.go:75-92 | Every `Ensure*`, with its selector-change, recreate and update branches, keeps the relation. |
| `Passes.RecreateEvolves` | internal/objects/job/job.go:179-219 | Deleting and re-creating a Job with retries does too. |
| `Passes.DeleteOwnedEvolves` | internal/objects/daemonset/daemonset.go:96-113 | `Ensure*Deleted` keeps the relation, and on nil the Sesame owns nothing under the key. |
| `Passes.DeleteAllEvolves` | internal/controller/controller.go:231-240 | Deleting a list labels nothing, and every key whose result is nil is still free at the end. |
| `Passes.CollectEvolves` | internal/objects/rbac.go:92-132 | After the collecting reads every key is free or in the list as owned. |
| `Passes.DeleteCollectedEvolves` | internal/objects/rbac.go:160-173 | When the deleting loop returns nil, nothing it was given as owned is still owned. |
| `Passes.DeleteRbacEvolves` | internal/objects/rbac.go:83-174 | `EnsureRBACDeleted` keeps the relation, and on nil every group it went for is free. |
| `Passes.DeleteNamespaceEvolves` | internal/objects/namespace/namespace.go:60-92 | `EnsureNamespaceDeleted` keeps the relation. |
| `Passes.DeleteChildrenEvolves` | internal/controller/controller.go:219-246 | When all results of the delete pass are nil, all six workload keys are free, other actors notwithstanding. |
| `Passes.EarlyEvolves` | internal/controller/controller.go:194-199 | Namespace and RBAC, and the whole pass when one of them fails, stay within their own keys. |
| `Passes.EnsureSesameEvolves` | internal/controller/controller.go:173-216 | The whole ensure pass keeps the relation. |
| `Passes.UpdatesAreGuardedIff` | internal/equality/equality.go:28-443 | Helper, immediate from the definitions: an update carries the resource version that was read if and only if the kind is merged onto the current object: configmaps, roles, bindings, daemonsets and the Envoy Service. Namespaces, service accounts, Deployments and the Sesame Service are written unconditionally. |
| `Foreign.ForeignObjectsUntouched` | pkg/labels/labels.go:18-30 | Foreign objects: in any reconcile, ensuring or deleting, under every schedule, each update and deletion of a child rests on the operator's own read of that key, which found both owner labels; it hits an object without them if and only if between that read and the write another actor put an unowned object there and did not remove it again; and then the write had no resource version and the object was stored after the read. |
| `Foreign.RunTouchesOnlyOwned` | internal/objects/rbac.go:160-172 | Over any run, under every schedule, every update and deletion hits an object owned by a reconciled Sesame, unless during the run another actor put an unowned object under that very key and the write had no resource version. |
| `Foreign.AccountedIsRightful` | pkg/labels/labels.go:18-30 | The same for one pass, from its accounts. |
| `Foreign.EnsureSesameAccounted` | internal/controller/controller.go:173-216 | All writes of an ensure pass are accounted for by its deciding reads. |
| `Foreign.DeleteChildrenAccounted` | internal/controller/controller.go:219-246 | All deletions of a delete pass are, too. |
| `Windows.EnsureAccounted` | internal/objects/daemonset/daemonset.go:75-92 | Every `Ensure*` on its own: what it updates or deletes rests on its last read of the key, on a selector change the second one. |
| `Windows.RecreateAccounted` | internal/objects/job/job.go:179-219 | Re-creation of a Job: the deletion rests on the read, the creations hit nothing. |
| `Windows.DeleteOwnedAccounted` | internal/objects/daemonset/daemonset.go:96-113 | `Ensure*Deleted` on its own. |
| `Windows.RbacAccounted` | internal/objects/rbac.go:83-174 | The RBAC deletion on its own: every deletion rests on the read of that very object, however many calls lie between. |
| `Windows.GatherFirst` | internal/objects/rbac.go:83-160 | All lists and reads of the RBAC deletion come before its first deletion, and every object found owned is watched since its own read. |
| `Windows.NamespaceAccounted` | internal/objects/namespace/namespace.go:60-92 | The namespace deletion on its own. |
| `Windows.BeginTracks` | pkg/labels/labels.go:18-30 | From a read that found an owned object on, any steps of other actors leave under the key an unowned object if they replaced it, and otherwise the owned one or nothing. |
| `Windows.HitIsExplained` | pkg/labels/labels.go:18-30 | A write that goes through on a key so tracked is explained by the read. |
| `Hits.DeleteOwnedHitsForeignIff` | internal/objects/daemonset/daemonset.go:96-113 | Exactly when `Ensure*Deleted` deletes a foreign object: it read an owned one, and in the tick of a deletion that goes through another actor replaces it. |
| `Hits.EnsureHitsForeignIff` | internal/objects/deployment/deployment.go:70-89 | Exactly when an `Ensure*` hits one: its deciding read found an owned object, the write is a deletion or carries no version, and the object is replaced in its tick. |
| `Hits.UpdateHitsForeignIff` | internal/objects/deployment/deployment.go:346-358 | Exactly when an update hits one: it has no resource version and the object read is replaced in its tick. |
| `Hits.RecreationHitsForeignIff` | internal/objects/job/job.go:179-196 | Exactly when re-creating a Job deletes one. |
| `Hits.NamespaceHitsForeignIff` | internal/objects/namespace/namespace.go:70-91 | Exactly when the namespace deletion hits one; its window spans the list of Sesames. |
| `Hits.RbacHitsForeignIff` | internal/objects/rbac.go:83-174 | Exactly when the RBAC deletion hits one: a collected owned object is replaced between its own read and its deletion, which is reached and goes through. |
| `Hits.DeleteCollectedHitsIff` | internal/objects/rbac.go:160-173 | The same for the deleting loop alone. |
| `Hits.UpdateHitsWhatIsThere` | internal/objects/deployment/deployment.go:346-358 | A witness: whatever unowned object is put there in the tick of an unguarded update is overwritten. |
| `Hits.DeletionHitsWhatIsThere` | internal/objects/daemonset/daemonset.go:97-104 | A witness for deletions. |
| `Guarantees.EarlyFailureSparesWorkloads` | internal/controller/controller.go:194-199 | If namespace or RBAC fails, no workload is created, updated or deleted in the rest of the pass. |
| `Guarantees.WritesNeedTheFinalizer` | internal/controller/controller.go:132-158 | Children are created or updated only in a pass whose Sesame was read with the finalizer, undeleted and valid, and only under its keys. |
| `Guarantees.EveryStepRuns` | internal/controller/controller.go:204-213 | Each later step runs in the world its predecessors left, whatever their answers, which are all kept; a panic is the last. |
| `Guarantees.UntilErrorStops` | internal/objects/rbac.go:48-79 | RBAC steps run in order up to the first that fails, whose error is the answer, and no further. |
| `Guarantees.EveryDeletionRuns` | internal/controller/controller.go:231-240 | Every deletion is attempted in the world its predecessors left, and every answer kept. |
| `Answers.EnsureNilMeans` | internal/objects/deployment/deployment.go:70-89 | A nil from any `Ensure*`, under every schedule: the child is as desired or in foreign hands, or the object read had another selector and the key is empty. |
| `Answers.EnsureFailuresAreReported` | internal/objects/job/job.go:54-67 | Every failed call of an `Ensure*` ends it and is its answer, with the reason of the server: read, creation, update, and the deletion that opens the re-creation of a Job, after which nothing is created. |
| `Answers.RetryCreateSucceedsIff` | internal/objects/job/job.go:206-219 | The poll succeeds if and only if one of its tries does. |
| `Answers.DeleteOwnedNilMeans` | internal/objects/daemonset/daemonset.go:96-113 | A nil from `Ensure*Deleted`: the Sesame owns nothing under the key. |
| `Answers.DeleteNamespaceNilMeans` | internal/objects/namespace/namespace.go:60-92 | A deletion is expected if and only if removal is requested and the name is not a core one; a nil then means that the Sesame owns no namespace of that name, or that another Sesame was listed for it. |
| `Answers.EnsureSesameReports` | internal/controller/controller.go:173-216 | RBAC is tried even if the namespace failed, the workloads only if neither did; the status is synced at the end unless a step panics; and the answer holds exactly the errors that occurred. |
| `Answers.EnsureSesameNilMeans` | internal/controller/controller.go:173-216 | A nil from `ensureSesame`, under every schedule: each child was, at the end of its step, as desired, in foreign hands, or dropped for its selector. |
| `Answers.NilPassRunsAll` | internal/controller/controller.go:194-215 | A nil pass has run all fourteen steps and the sync, each with nil. |
| `Lasting.NilPassLasts` | internal/controller/controller.go:173-216 | A nil from `ensureSesame` in the final state, under every schedule: each child that no other actor put or removed during the pass is as desired or in foreign hands, or had the wrong selector and is gone. |
| `Answers.EnsureSesameDeletedReports` | internal/controller/controller.go:219-256 | All deletions are attempted; if any failed the finalizer stays and the answer holds exactly the errors that occurred; otherwise the answer is that of the finalizer removal. |
| `Answers.RemoveFinalizerNilMeans` | internal/objects/sesame/finalizer.go:41-52 | A nil from `EnsureFinalizerRemoved`: the finalizer was not there or is off. |
| `Answers.NilDeletePass` | internal/controller/controller.go:219-256 | A nil for a Sesame that was being deleted, under every schedule: it owns no workload, and if it held the finalizer that is off, and the Sesame gone if it was the last. |
| `Answers.ReconcileNilIff` | internal/controller/controller.go:115-170 | `Reconcile` returns nil if and only if the Sesame is gone, or the one thing it called for (finalizer, ensure pass or delete pass) returned nil; a failed read and a failed validation are reported. |
| `Answers.ReconcileDoes` | internal/controller/controller.go:115-170 | And its effect is that one thing and no more. |
| `Answers.FinalizerIsOn` | internal/objects/sesame/finalizer.go:28-39 | Under every schedule, a nil for a valid Sesame without the finalizer means that the stored Sesame is the one read, with the finalizer. |
| `Guarantees.EnsureSesameSucceedsIff` | internal/controller/controller.go:177-215 | `ensureSesame` returns nil if and only if every attempted step and the status sync did. |
| `Guarantees.ReconcilePanicsIff` | internal/controller/controller.go:115-170 | The process dies in a reconcile if and only if validation gets to a node-port list shorter than two, or an ensure pass gets to a step that panics. |
| `Guarantees.EnsureSesamePanicsIff` | internal/controller/controller.go:194-215 | An ensure pass panics if and only if namespace and RBAC are in place and one of the steps that run panics. |
| `Guarantees.ValidationPanicsIff` | pkg/validation/validation.go:28-46 | Validation panics if and only if no other Sesame is shown, the container ports are accepted, and the node-port list is given, names only http and https, and has fewer than two elements. |
| `Guarantees.EnsurePanicsIff` | internal/objects/deployment/deployment.go:70-89 | A step panics if and only if the Deployment read fails other than by NotFound, or the stored NodePort Service has more ports than the desired one. |
| `Guarantees.NeverRequeuesAfter` | internal/controller/controller.go:146-168 | `Reconcile` never returns a requeue delay: both passes wrap errors before aggregating them. |
| `Guarantees.RespondFits` | internal/controller/controller.go:146-153 | Helper, immediate from the definitions: how `Reconcile` would answer a retryable error. |
| `Guarantees.DeletionIsMonotone` | internal/controller/controller.go:219-256 | Over any run in which a Sesame is never ensured, passes failing or not, the set of children it owns never grows. |
| `Completion.SuccessfulDeleteShrinks` | internal/objects/daemonset/daemonset.go:96-113 | Each successful deletion of an owned child shrinks the set. |
| `Completion.DeletePassShrinks` | internal/controller/controller.go:219-256 | A delete pass, under every schedule: every workload whose step returned nil is owned no longer, and if one of them was owned before, strictly fewer children are owned after. |
| `Completion.FaultFreeDeletePass` | internal/controller/controller.go:219-256 | A delete pass in which no call fails and nobody else writes the Sesame, whatever other actors do otherwise: it returns nil, the finalizer goes, the Sesame goes if it was the last, and no workload is owned. |
| `Completion.DeleteChildrenSpares` | internal/controller/controller.go:219-246 | Without failed calls every step of the delete pass returns nil, and the Sesame is as it was read unless someone else wrote it. |
| `Completion.FinalizerComesOff` | internal/objects/sesame/finalizer.go:42-51 | Removing the finalizer from an unchanged Sesame by a call that goes through. |
| `Guarantees.OthersAddNothing` | internal/controller/controller.go:115-170 | Reconciling one Sesame never adds to what another owns. |
| `Deletion.FinalizerGoesLast` | internal/controller/controller.go:248-254 | The finalizer is taken off only in a delete pass in which every step returned nil, after which the Sesame owns no workload. |
| `Deletion.UndisturbedDeletePass` | internal/controller/controller.go:219-256 | With no other actor either, the exact final state: the owned objects in scope go, then the finalizer, and the Sesame if that was its last; nothing else changes. |
| `Deletion.RbacDeletionIsScoped` | internal/objects/rbac.go:83-174 | After a nil result, under every schedule: if the first list read shows another Sesame for the namespace, the namespaced group was not written, otherwise it holds nothing owned; likewise the cluster group, on the second list, for a Sesame anywhere. The exception is a misleading list, taken for nobody, which cannot occur while the Sesame holds the finalizer. |
| `Deletion.QuietDeleteRbac` | internal/objects/rbac.go:83-174 | Undisturbed, it removes exactly the owned objects of the groups in scope and returns nil. |
| `Deletion.NamespaceIsDeletedIff` | internal/objects/namespace/namespace.go:53-92 | Given the two reads, the deletion is issued if and only if removal is requested, the name is not in the core list, the owner labels are there and no other Sesame shares the spec namespace; otherwise nothing is written. |
| `Deletion.ClusterRbacIsOrphanedIff` | internal/objects/rbac.go:133-159 | The cluster role and binding outlive their Sesame if and only if another Sesame exists anywhere. |
| `Deletion.NamespacedRbacIsOrphanedIff` | internal/objects/rbac.go:87-132 | Service accounts, role and binding outlive their Sesame if and only if another Sesame shares the namespace. |
| `Convergence.OrphanedRbacIsSkipped` | internal/objects/rbac.go:48-79 | The pass of that other Sesame skips what was left behind and returns nil. |
| `Deletion.WorkloadsElsewhereAreOrphaned` | internal/controller/controller.go:231-240 | A workload under a former spec namespace survives the deletion of its Sesame: why the namespace is assumed fixed. |
| `Deletion.FinalizerRoundTrip` | internal/objects/sesame/finalizer.go:28-52 | Adding and removing the finalizer gives back the Sesame, up to its version. |
| `Deletion.AllWorkloadsAreDeleted` | internal/controller/controller.go:231-240 | The delete pass goes through exactly the workload keys of the ensure pass. |
| `Deletion.DeletionsInOrder` | internal/controller/controller.go:231-241 | What a delete pass goes for, workloads and RBAC groups, spelled out in the order of the source. |
| `Deletion.QuietDeleteAll` | internal/controller/controller.go:231-240 | Undisturbed, the workload deletions remove exactly what is owned under their keys. |
| `Convergence.Converges` | internal/controller/controller.go:115-216 | Undisturbed reconciles of a valid Sesame from the very first on, whatever is under its keys: one puts the finalizer on if it is missing; then all children are settled or in foreign hands after n ensure passes if and only if none was more than n away, always after two, and all fourteen are there; foreign objects stay as they are; and the next reconcile, at any later time, returns nil and leaves the world, log and status included, as it was. |
| `Convergence.FirstReconcile` | internal/controller/controller.go:137-143 | The first reconcile returns nil, stores the Sesame with the finalizer added behind those it has, and changes nothing else. |
| `Convergence.WantedAreTheChildren` | internal/controller/controller.go:194-213 | An ensure pass goes for exactly the fourteen children: the managed keys but for the unused role `sesame`. |
| `Convergence.StepsInOrder` | internal/controller/controller.go:194-213 | Its steps in the order of the source, each with its key and desired object spelled out. |
| `Convergence.FinalizedConverges` | internal/controller/controller.go:173-216 | Convergence of a Sesame that holds the finalizer. |
| `Convergence.DistanceAfter` | internal/controller/controller.go:173-216 | The measure: n passes bring every child n steps closer, to zero. |
| `Convergence.DistanceFalls` | internal/objects/deployment/deployment.go:81-88 | Each pass brings each child one step closer; a selector change is two away: one deleting and one creating pass. |
| `Convergence.QuietEnsure` | internal/objects/service/service.go:120-150 | One undisturbed ensure settles its child or, on a selector change, deletes it; it leaves a foreign one and every other object alone, and does not write if the child is settled. |
| `Convergence.QuietLeave` | pkg/labels/labels.go:18-30 | An object without the owner labels is passed over without error. |
| `Convergence.QuietEnsureAll` | internal/controller/controller.go:204-213 | So do all of them in sequence. |
| `Convergence.QuietReconcile` | internal/controller/controller.go:115-170 | An undisturbed reconcile of a valid Sesame is its ensure steps and its status sync, and leaves it ready for the next. |
| `Convergence.QuietEnsureSesame` | internal/controller/controller.go:194-215 | An undisturbed pass fails only if its status sync does. |
| `Convergence.QuietSyncKeeps` | internal/status/status.go:34-89 | A status sync changes nothing but the Sesame's status and version. |
| `StatusSync.SyncLosesNoUpdate` | internal/status/status.go:34-89 | Every status stored records an observation of that sync over the very status it replaces: the Deployment's available replicas and the DaemonSet's available pods where they could be read, the Available condition merged in, and all conditions of other types as they were, whoever wrote them and when. |
| `StatusSync.QuietSyncStores` | internal/status/status.go:51-70 | What an undisturbed sync leaves, field by field, in terms of the workloads of the spec namespace; it returns nil if and only if both are there. |
| `StatusSync.SyncNilIff` | internal/status/status.go:34-89 | When a sync returns nil under every schedule: the Sesame is gone, or both workloads could be read and the status needed no write, was written, lost its Sesame, or was settled by the retry. |
| `StatusSync.SyncEvolves` | internal/status/status.go:34-89 | The whole sync, conflicts and recursion included, keeps `Evolves` and writes faithfully. |
| `StatusSync.WriteIsFaithful` | internal/status/status.go:69-70 | A version match at the status update means nobody wrote since the read. |
| `StatusSync.AttemptsAreBounded` | internal/status/status.go:75-80 | With n ticks in which others write the Sesame, at most n + 1 status updates are tried. |
| `StatusSync.ConflictShrinksSchedule` | internal/status/status.go:75-77 | A conflict uses up other actors' steps, so the recursion ends. |
| `StatusSync.SyncSettles` | internal/status/status.go:51-70 | After an undisturbed sync another one, at any later time, writes nothing. |
| `StatusSync.SyncIsNeverRetryable` | internal/status/status.go:74-88 | A sync's error is never a retryable one. |
| `StatusSync.SyncSesame` | internal/status/status.go:34-89 | The method, with its mutations and its recursion on conflict, is the function `Sync`. |
| `Conditions.AvailableIff` | internal/status/conditions.go:33-106 | The condition is True if and only if both workloads exist, an Envoy pod is available and the first Available condition with a recognised status is True. |
| `Conditions.ConditionFits` | internal/status/conditions.go:33-106 | Its status, reason and message in every case. |
| `Conditions.LowerIs` | internal/status/conditions.go:79-87 | Helper, immediate from the definitions: lower-casing of ASCII letters. |
| `Conditions.MergedIsThere` | internal/status/conditions.go:111-137 | After a merge there is a condition with the type and details of the update. |
| `Conditions.ComputeSesameAvailableCondition` | internal/status/conditions.go:33-106 | The loop over conditions computes that condition. |
| `Conditions.MergeConditions` | internal/status/conditions.go:111-137 | The two loops compute the merge. |
| `Conditions.UpdateMatching` | internal/status/conditions.go:116-129 | The inner loop settles the first condition that differs and reports whether the type was there. |
| `Conditions.UpdateIsPointwise` | internal/status/conditions.go:116-129 | With unique types every condition keeps its place; other types are untouched, updated ones take status, reason and message, and a new time only with a new status. |
| `Conditions.AdditionsComeFrom` | internal/status/conditions.go:130-133 | Only types not there before are added, stamped with the time. |
| `Conditions.AdditionsCover` | internal/status/conditions.go:130-133 | All of them are. |
| `Conditions.MergeKeepsUniqueTypes` | internal/status/conditions.go:111-137 | Unique types stay unique. |
| `Conditions.MergeIsIdempotent` | internal/status/conditions.go:111-137 | Merging the same updates again at any later time changes nothing. |
| `Conditions.MergeKeepsOtherTypes` | internal/status/conditions.go:111-137 | On any list, conditions of other types come through in order and unchanged. |
| `Equality.ClusterIPServiceChanged` | internal/equality/equality.go:130-165 | Reports a change exactly when the merged Service differs from the current one, and returns the merge. |
| `Equality.LoadBalancerServiceChanged` | internal/equality/equality.go:170-234 | The same, field by field over the ports. |
| `Equality.MergeServicePorts` | internal/equality/equality.go:174-197 | The port loop takes everything but node ports from the expected ports and flags exactly the real changes. |
| `Equality.NodePortServiceChanged` | internal/equality/equality.go:239-285 | The same for NodePort, with the index panic when current has more ports. |
| `Equality.JobConfigChanged` | internal/equality/equality.go:57-97 | Reports a change, and the expected Job, exactly when the compared fields differ. |
| `Equality.DaemonsetConfigChanged` | internal/equality/equality.go:28-48 | Reports a change exactly when labels or spec differ, and merges them. |
| `Equality.NoChangeMeansAgreement` | internal/equality/equality.go:130-285 | No change reported if and only if every compared field agrees, for each of the three Service comparisons; NodePort panics if and only if current has more ports. |
| `Equality.OtherKindsAgreeIff` | internal/equality/equality.go:28-443 | Helper, immediate from the definitions: no change for the other kinds if and only if labels agree (namespaces, accounts), data agrees (configmaps), labels, parallelism, backoff limit and pod agree and the pod labels, if any, name the owner (Jobs), or labels and body agree (the rest). |
| `Equality.ServiceUpdateIsFixedPoint` | internal/equality/equality.go:130-285 | A reported change, compared again, reports none. |
| `Equality.UpdateIsFixedPoint` | internal/equality/equality.go:28-443 | The same for every kind, under any stored version. |
| `Equality.CreatedMatches` | internal/objects/service/service.go:120-150 | A freshly created object compares equal to desired. |
| `Equality.ServiceUpdateIs` | internal/equality/equality.go:130-285 | The update of a Service in full: which fields come from the desired one and which stay, for each publishing type. |
| `Equality.OtherUpdatesAre` | internal/equality/equality.go:28-443 | The update of every other kind in full. |
| `Equality.SelectorsDifferIff` | internal/equality/equality.go:50-53 | Helper, immediate from the definitions: which objects have different selectors. |
| `Equality.ServiceUpdateKeeps` | internal/equality/equality.go:170-234 | An update keeps cluster IP, health-check port, labels and version, and, for load balancers with equal port counts, each port's node port. |
| `Equality.LoadBalancerIsQuiescent` | internal/equality/equality.go:167-234 | No server assignment of cluster IP, health-check port and node ports is reported as a change. |
| `Equality.NodePortIsQuiescentIff` | internal/equality/equality.go:236-285 | For NodePort Services that holds if and only if every port asks for its node port. |
| `Equality.ClusterIPUpdateLeavesStaleFields` | internal/equality/equality.go:127-165 | Helper, immediate from the definitions: a ClusterIP update meets the desired traffic policy, load-balancer address and annotations if and only if the current Service already does. |
| `Equality.UpdateKeepsOwner` | internal/objects/service/service.go:394-418 | An update never changes the owner. |
| `Ports.PortAgreement` | internal/objects/service/service.go:224-248 | For every accepted spec the Envoy Service has exactly the ports 80 and 443 with the http and https container ports as targets, the DaemonSet opens those, and the Deployment's arguments decode to them with defaults 8080 and 8443. |
| `Ports.ArgsDecode` | internal/objects/deployment/deployment.go:117-138 | The arguments decode, last occurrence winning, to the ports of the spec. |
| `Ports.EnvoyPortsPublish` | internal/objects/service/service.go:225-248 | One Service port for each of http and https, and no other. |
| `Ports.EnvoyPortsInOrder` | internal/objects/service/service.go:225-248 | The Service ports come in the order of the container ports. |
| `Ports.NodePortsAreLookedUp` | internal/objects/service/service.go:323-335 | The nested loop gives each Service port the node port requested for its name and changes nothing else. |
| `Ports.NodePortOrderIsIrrelevant` | internal/objects/service/service.go:323-335 | The order of the requests does not matter. |
| `Ports.MakeNodePorts` | internal/objects/sesame/sesame.go:151-163 | One request for every entry of the map, each with a pointer of its own, in some order. |
| `Ports.MadeNodePortsAreUsed` | internal/objects/service/service.go:323-335 | With requests made from a map, each port gets the map's number for its name, whatever the order. |
| `Ports.NodePortServiceSettlesIff` | internal/equality/equality.go:239-253 | The Service of an accepted NodePort Sesame stays put after server assignment if and only if the spec pins both numbers. |
| `Ports.AnnotationsFitTheProvider` | internal/objects/service/service.go:266-323 | Annotations address the chosen provider only; internal annotations exactly for internal scope; ELB and NLB annotations exclude each other. |
| `Fit.EnvoyServiceFits` | internal/objects/service/service.go:224-340 | The Service type is LoadBalancer, NodePort or ClusterIP if and only if the publishing type is the one of that name; traffic policy `Local` exactly for the first two; the selector is that of the Envoy pods; the address is the one given for the chosen provider, for load balancers only. |
| `Fit.NodePortsFit` | internal/objects/service/service.go:323-335 | A NodePort Service asks for the requested node ports, by name; every other Service leaves them to the server. |
| `Fit.AwsAnnotationsFit` | internal/objects/service/service.go:266-323 | Each AWS annotation is there if and only if the source asks for it, with its value. |
| `Fit.OtherAnnotationsFit` | internal/objects/service/service.go:284-323 | The same for Azure and GCP. |
| `Fit.AllocationIDsReadBack` | internal/objects/service/service.go:280-282 | The allocation IDs can be read back from the annotation. |
| `Fit.DeploymentFits` | internal/objects/deployment/deployment.go:115-323 | The Deployment runs the Sesame image with the replicas and placement of the spec, the fixed arguments first; the Sesame Service selects its pods and targets its xDS port. |
| `Fit.IngressClassIsPassed` | internal/objects/deployment/deployment.go:136-138 | The ingress flag is given if and only if the spec names a class, and names it. |
| `Fit.LabelsFit` | internal/objects/deployment/deployment.go:361-384 | The recommended labels, and selectors that keep the two workloads apart. |
| `Fit.DaemonSetFits` | internal/objects/daemonset/daemonset.go:118-382 | The DaemonSet runs both images with the placement of the spec and opens exactly the container ports. |
| `Fit.JobAndConfigMapFit` | internal/objects/configmap/configmap.go:176-266 | The configmap holds the template of its two parameters with their defaults; the Job runs the Sesame image once, with pods that name their owner. |
| `Fit.BindingsRefer` | internal/objects/rbac.go:61-77 | Each binding gives the right account the right role, both ensured before it. |
| `Desired.AtoiItoa` | internal/objects/deployment/deployment.go:131-133 | Port numbers survive printing and parsing. |
| `Desired.MakeDeploymentArgs` | internal/objects/deployment/deployment.go:117-138 | The argument loop. |
| `Desired.DesiredDeployment` | internal/objects/deployment/deployment.go:115-323 | The desired Deployment. |
| `Desired.DesiredDaemonSet` | internal/objects/daemonset/daemonset.go:118-382 | The desired DaemonSet. |
| `Desired.DesiredEnvoyService` | internal/objects/service/service.go:224-340 | The desired Envoy Service, with its loops and branches. |
| `Desired.MakeEnvoyAnnotations` | internal/objects/service/service.go:266-323 | Its annotations. |
| `Desired.AssignNodePorts` | internal/objects/service/service.go:325-334 | Its nested node-port loop, in place. |
| `Validation.ContainerPorts` | pkg/validation/validation.go:63-88 | Accepts exactly the lists with distinct names, distinct numbers, http and https. |
| `Validation.NodePorts` | pkg/validation/validation.go:92-113 | The loop and the comparisons of elements 0 and 1. |
| `Validation.NodePortsAcceptedIff` | pkg/validation/validation.go:92-113 | A list of two is accepted if and only if it names http and https and the two number pointers are not the same pointer. |
| `Validation.EqualNodePortsAccepted` | pkg/validation/validation.go:106-110 | Helper, immediate from `NodePortsAcceptedIff`: two equal numbers are accepted if and only if they are held by different pointers. |
| `Validation.ValidateSpec` | pkg/validation/validation.go:39-58 | The checks in their order. |
| `Validation.SpecAcceptedIff` | pkg/validation/validation.go:39-160 | A spec is accepted if and only if its container ports are, the node ports of a NodePort Sesame are, and for a load balancer the address of the chosen provider parses and no other provider has parameters. |
| `Validation.ContainerPortsAcceptedIff` | pkg/validation/validation.go:61-88 | Accepted are exactly the lists with distinct names, distinct numbers, http and https. |
| `Validation.NodePortListAcceptedIff` | pkg/validation/validation.go:90-113 | Accepted are no list, and lists of at least two elements, all named http or https, the first two with different names and not the same number pointer. |
| `RetryableError.NewMaybeRetryableAggregate` | internal/retryableerror/retryableerror.go:53-72 | The loop with its running minimum and early exit computes the aggregate. |
| `RetryableError.AggregateIsJoin` | internal/retryableerror/retryableerror.go:47-72 | Kind and delay of the aggregate are the join of those of its parts. |
| `RetryableError.JoinMeaning` | internal/retryableerror/retryableerror.go:47-52 | Nil if and only if all are nil; plain if and only if some error is not retryable; else the least of the delays. |
| `RetryableError.AggregatesReport` | internal/retryableerror/retryableerror.go:47-72 | An aggregate holds exactly the non-nil errors it was given. |
| `RetryableError.PermutationInvariant` | internal/retryableerror/retryableerror.go:53-72 | Order does not matter. |
| `RetryableError.NestingInvariant` | internal/retryableerror/retryableerror.go:53-72 | Aggregating sublists first does not matter. |
| `RetryableError.WrappedIsNeverRetryable` | internal/controller/controller.go:177-192 | Wrapped errors never aggregate to a retryable one. |
| `Slice.RemoveString` | pkg/slice/slice.go:16-32 | The loop computes `Without`. |
| `Slice.WithoutRemovesExactly` | pkg/slice/slice.go:16-32 | Every copy of the string goes, everything else stays as often as it was. |
| `Slice.RemoveUndoesAppend` | internal/objects/sesame/finalizer.go:28-52 | Removing undoes appending. |
| `Slice.ContainsString` | pkg/slice/slice.go:34-42 | Membership. |
| `Slice.ContainsInt32` | pkg/slice/slice.go:44-52 | Membership. |
| `Api.OwnerGuard` | pkg/labels/labels.go:18-30 | The guard holds if and only if both labels are there with the Sesame's name and namespace. |
| `Api.Owned` | pkg/labels/labels.go:18-30 | The guard holds exactly for the one Sesame the labels name, so an object has at most one owner. |
| `Api.EventsReachTheOwner` | internal/controller/controller.go:91-111 | An event wakes exactly the Sesame that owns the object. |
| `Controller.Reconciler.ReconcileRequest` | internal/controller/controller.go:115-170 | The method has the outcome and the effect of the function `Reconcile`. |
| `Controller.Reconciler.EnsureSesamePass` | internal/controller/controller.go:173-216 | `ensureSesame`, its error list and early return. |
| `Controller.Reconciler.EnsureWorkloads` | internal/controller/controller.go:204-213 | The six steps in order. |
| `Controller.Reconciler.SyncSesameStatus` | internal/controller/controller.go:185-192 | The closure at the end of a pass. |
| `Controller.Reconciler.EnsureSesameDeletedPass` | internal/controller/controller.go:219-257 | `ensureSesameDeleted`. |
| `Controller.Reconciler.DeleteWorkloads` | internal/controller/controller.go:231-240 | The deletions in order. |
| `Controller.Reconciler.ValidateSesame` | pkg/validation/validation.go:28-59 | `validation.Sesame`. |
| `Controller.Reconciler.EnsureFinalizer` | internal/objects/sesame/finalizer.go:28-39 | `EnsureFinalizer`. |
| `Controller.Reconciler.EnsureFinalizerRemoved` | internal/objects/sesame/finalizer.go:41-52 | `EnsureFinalizerRemoved`. |
| `ObjectMethods.EnsureObject` | internal/objects/namespace/namespace.go:36-51 | The common pattern, here of namespaces; also that of service accounts, roles, bindings and configmaps. |
| `ObjectMethods.EnsureDeployment` | internal/objects/deployment/deployment.go:70-89 | With the selector check and the nil dereference. |
| `ObjectMethods.EnsureDaemonSet` | internal/objects/daemonset/daemonset.go:75-92 | With the selector check. |
| `ObjectMethods.EnsureDeleted` | internal/objects/daemonset/daemonset.go:96-113 | The common deletion. |
| `ObjectMethods.EnsureJob` | internal/objects/job/job.go:54-67 | Delete and re-create on a difference. |
| `ObjectMethods.RetryJobCreate` | internal/objects/job/job.go:206-219 | The polling loop, bounded. |
| `ObjectMethods.EnsureSesameService` | internal/objects/service/service.go:121-134 | Writes desired wholesale on a difference. |
| `ObjectMethods.EnsureEnvoyService` | internal/objects/service/service.go:137-150 | Merges by publishing type. |
| `ObjectMethods.EnsureRBAC` | internal/objects/rbac.go:48-79 | Accounts, cluster role, cluster binding, role, binding, stopping at the first error. |
| `ObjectMethods.EnsureServiceAccounts` | internal/objects/rbac.go:52-60 | The loop over account names. |
| `ObjectMethods.EnsureRoles` | internal/objects/rbac.go:61-77 | The straight-line part. |
| `ObjectMethods.EnsureRBACDeleted` | internal/objects/rbac.go:83-174 | Two lists, two groups of reads, one loop of deletions. |
| `ObjectMethods.CollectExisting` | internal/objects/rbac.go:92-132 | The reads of a group. |
| `ObjectMethods.DeleteObjects` | internal/objects/rbac.go:160-172 | The loop of deletions. |
| `ObjectMethods.EnsureNamespaceDeleted` | internal/objects/namespace/namespace.go:60-92 | With its guards in order. |
| `ObjectMethods.OtherSesamesExist` | internal/objects/sesame/sesame.go:98-109 | On a list in any order. |
| `ObjectMethods.OtherSesamesExistInSpecNs` | internal/objects/sesame/sesame.go:111-130 | On a list in any order. |

## Left out

- Manager, client and watch wiring, leader election, logging, flags and scheme registration: input and output only.
- Concurrent reconciles: the controller runs one worker, and so does `Run`; other actors still interleave with every call.
- Reads from a cache: a read returns what is stored at that moment, possibly already outdated when the operator writes.
- Pod, container, probe and volume literals, and RBAC rule lists: constants, each one opaque string.
- The configmap template, `net.ParseIP`: parameters of `Config`; a failing template is not modelled.
- Image references and `kubectl exec`: library calls outside the loop.
- Wording of error messages: an error is its kind and what it wraps; a conflict is recognised by kind and not by its text.
- The individual service account, role, role binding, cluster role and cluster role binding packages: instances of `Objects.Ensure`.
- API-server defaulting beyond the assigned Service fields of `Equality.ServerAssigned`; the convergence theorem stores objects verbatim, in which case a NodePort Service that pins no ports also settles.
- Immutable fields: the Sesame Service update writes an empty cluster IP, which a real server may refuse.
- Namespace cascade, graceful termination, and the Job's time to live: a deletion takes effect at once.
- The 3-second poll of `retryJobCreate`: a bounded number of tries, `Config.extraJobAttempts`.
- `strings.ToLower` beyond ASCII letters, and nil as against empty lists and maps where the source does not tell them apart.
- Run-time panics: a panic is an error value that ends the pass; the restart of the process is the next request.
- Deep copies: values are never shared.
- `sesame.New` and the generated code: used outside the loop.
- Deletion.UndisturbedDeletePass: the exact final state is for a pass without other actors; with them it is `Completion.FaultFreeDeletePass`, and with failures `Completion.DeletePassShrinks`.
- Deletion.QuietDeleteRbac: undisturbed only; `Deletion.RbacDeletionIsScoped` is its form under every schedule.
- Convergence.Converges: for an undisturbed cluster, as a pass that is disturbed need not converge.
- Conditions.UpdateIsPointwise: for unique types, which the API's list-map key demands; with repeated types only the first differing condition changes (`Conditions.UpdateMatching`).
