/** Status conditions of a Sesame (internal/status/conditions.go). */
module Conditions {
  import opened Api

  const AVAILABLE := "Available"

  datatype DeploymentCondition = DeploymentCondition(kind: string, status: ConditionStatus, message: string)

  /** What a Deployment or DaemonSet reports: available pods, and a Deployment's conditions. */
  datatype WorkloadStatus = WorkloadStatus(available: int, conditions: seq<DeploymentCondition>)

  // ----- the computed condition -----

  predicate Recognised(c: DeploymentCondition) {
    c.kind == AVAILABLE && c.status != ConditionOther
  }

  /** The first Available condition whose status is True, False or Unknown. */
  function FirstRecognised(cs: seq<DeploymentCondition>): Option<DeploymentCondition> {
    if cs == [] then None else if Recognised(cs[0]) then Some(cs[0]) else FirstRecognised(cs[1..])
  }

  /** `strings.ToLower` on ASCII letters. */
  function Lower(s: string): string {
    seq(|s|, i requires 0 <= i < |s| => if 'A' <= s[i] <= 'Z' then (s[i] as int + 32) as char else s[i])
  }

  /** Upper-case ASCII letters become lower-case, everything else stays. */
  lemma LowerIs(s: string, i: nat)
    requires i < |s|
    ensures |Lower(s)| == |s| && !('A' <= Lower(s)[i] <= 'Z')
    ensures Lower(s)[i] == s[i] || Lower(s)[i] as int - 'a' as int == s[i] as int - 'A' as int
    ensures !('A' <= s[i] <= 'Z') ==> Lower(s)[i] == s[i]
  {
  }

  function Report(status: ConditionStatus, reason: string, message: string): Condition {
    Condition(AVAILABLE, status, reason, message, 0)
  }

  function ReportOn(c: DeploymentCondition, envoyAvailable: bool): Condition {
    match c.status
    case ConditionTrue =>
      if envoyAvailable then Report(ConditionTrue, "SesameAvailable", "Sesame has minimum availability.")
      else Report(ConditionFalse, "SesameUnavailable", "Envoy daemonset does not have minimum availability.")
    case ConditionFalse =>
      if envoyAvailable then Report(ConditionFalse, "SesameUnavailable", "Sesame " + Lower(c.message))
      else Report(ConditionFalse, "SesameUnavailable",
                  "Envoy daemonset does not have minimum availability. Sesame " + Lower(c.message))
    case _ =>
      Report(ConditionUnknown, "SesameUnknown: " + c.message, "Sesame status unknown. " + c.message)
  }

  function AvailableCondition(deployment: Option<WorkloadStatus>, ds: Option<WorkloadStatus>): (r: Condition)
    ensures r.kind == AVAILABLE
  {
    if deployment.None? then Report(ConditionFalse, "SesameUnavailable", "Sesame deployment does not exist.")
    else if ds.None? then Report(ConditionFalse, "SesameUnavailable", "Envoy daemonset does not exist.")
    else
      match FirstRecognised(deployment.value.conditions)
      case Some(c) => ReportOn(c, ds.value.available > 0)
      case None => Report(ConditionUnknown, "SesameUnknown", "Sesame status unknown.")
  }

  method ComputeSesameAvailableCondition(deployment: Option<WorkloadStatus>, ds: Option<WorkloadStatus>)
    returns (r: Condition)
    ensures r == AvailableCondition(deployment, ds)
  {
    if deployment.None? {
      return Report(ConditionFalse, "SesameUnavailable", "Sesame deployment does not exist.");
    }
    if ds.None? {
      return Report(ConditionFalse, "SesameUnavailable", "Envoy daemonset does not exist.");
    }
    var dsAvailable := ds.value.available > 0;
    var conditions := deployment.value.conditions;
    for i := 0 to |conditions|
      invariant FirstRecognised(conditions) == FirstRecognised(conditions[i..])
    {
      var cond := conditions[i];
      if cond.kind != AVAILABLE {
        continue;
      }
      if cond.status == ConditionTrue {
        if dsAvailable {
          return Report(ConditionTrue, "SesameAvailable", "Sesame has minimum availability.");
        }
        return Report(ConditionFalse, "SesameUnavailable", "Envoy daemonset does not have minimum availability.");
      } else if cond.status == ConditionFalse {
        if dsAvailable {
          return Report(ConditionFalse, "SesameUnavailable", "Sesame " + Lower(cond.message));
        }
        return Report(ConditionFalse, "SesameUnavailable",
                      "Envoy daemonset does not have minimum availability. Sesame " + Lower(cond.message));
      } else if cond.status == ConditionUnknown {
        return Report(ConditionUnknown, "SesameUnknown: " + cond.message, "Sesame status unknown. " + cond.message);
      }
    }
    return Report(ConditionUnknown, "SesameUnknown", "Sesame status unknown.");
  }

  /** A Sesame is reported available exactly when both workloads exist, an Envoy pod is available, and
      the first recognised Available condition of the deployment is True. */
  lemma AvailableIff(deployment: Option<WorkloadStatus>, ds: Option<WorkloadStatus>)
    ensures AvailableCondition(deployment, ds).status == ConditionTrue <==>
            && deployment.Some? && ds.Some? && ds.value.available > 0
            && var cs := deployment.value.conditions;
               exists i | 0 <= i < |cs| ::
                 cs[i].kind == AVAILABLE && cs[i].status == ConditionTrue && forall j | 0 <= j < i :: !Recognised(cs[j])
  {
    if deployment.Some? {
      FirstRecognisedIs(deployment.value.conditions);
    }
  }

  /** Status, reason and message of the condition, case by case, given the first recognised Available
      condition of the deployment (`FirstRecognisedIs`). */
  lemma ConditionFits(deployment: Option<WorkloadStatus>, ds: Option<WorkloadStatus>)
    ensures var c := AvailableCondition(deployment, ds);
      var exist := deployment.Some? && ds.Some?;
      var first := if deployment.Some? then FirstRecognised(deployment.value.conditions) else None;
      var envoys := ds.Some? && ds.value.available > 0;
      && c.kind == "Available" && c.lastTransition == 0
      && (c.status == ConditionUnknown <==> exist && (first.None? || first.value.status == ConditionUnknown))
      && (c.status == ConditionTrue <==> exist && first.Some? && first.value.status == ConditionTrue && envoys)
      && c.status != ConditionOther
      && (c.status == ConditionTrue ==>
            c.reason == "SesameAvailable" && c.message == "Sesame has minimum availability.")
      && (c.status == ConditionFalse ==> c.reason == "SesameUnavailable")
      && (c.status == ConditionUnknown ==>
            if first.Some?
            then c.reason == "SesameUnknown: " + first.value.message
                 && c.message == "Sesame status unknown. " + first.value.message
            else c.reason == "SesameUnknown" && c.message == "Sesame status unknown.")
      && (deployment.None? ==> c.message == "Sesame deployment does not exist.")
      && (deployment.Some? && ds.None? ==> c.message == "Envoy daemonset does not exist.")
      && (exist && first.Some? && first.value.status == ConditionTrue && !envoys ==>
            c.message == "Envoy daemonset does not have minimum availability.")
      && (exist && first.Some? && first.value.status == ConditionFalse ==>
            c.message ==
            (if envoys then "Sesame " else "Envoy daemonset does not have minimum availability. Sesame ")
            + Lower(first.value.message))
  {
    hide Lower, FirstRecognised;
    if deployment.Some? { FirstRecognisedIs(deployment.value.conditions); }
  }

  lemma {:induction false} FirstRecognisedIs(cs: seq<DeploymentCondition>)
    ensures FirstRecognised(cs).None? <==> forall i | 0 <= i < |cs| :: !Recognised(cs[i])
    ensures FirstRecognised(cs).Some? ==>
              exists i | 0 <= i < |cs| ::
                cs[i] == FirstRecognised(cs).value && Recognised(cs[i]) && forall j | 0 <= j < i :: !Recognised(cs[j])
  {
    if cs != [] && !Recognised(cs[0]) {
      FirstRecognisedIs(cs[1..]);
      assert forall i | 1 <= i < |cs| :: cs[i] == cs[1..][i - 1];
      if FirstRecognised(cs).Some? {
        var i :| 0 <= i < |cs[1..]| && cs[1..][i] == FirstRecognised(cs).value && Recognised(cs[1..][i])
                 && forall j | 0 <= j < i :: !Recognised(cs[1..][j]);
        assert cs[i + 1] == FirstRecognised(cs).value;
      }
    }
  }

  // ----- merging -----

  predicate ConditionChanged(a: Condition, b: Condition) {
    a.status != b.status || a.reason != b.reason || a.message != b.message
  }

  /** The condition `u` would update and differs from. */
  predicate Stale(c: Condition, u: Condition) {
    c.kind == u.kind && ConditionChanged(c, u)
  }

  /** `c` with the details of `u`; the transition time moves only with the status. */
  function Settle(c: Condition, u: Condition, now: int): Condition {
    c.(status := u.status, reason := u.reason, message := u.message,
       lastTransition := if c.status != u.status then now else c.lastTransition)
  }

  predicate HasType(cs: seq<Condition>, kind: string) {
    exists i | 0 <= i < |cs| :: cs[i].kind == kind
  }

  /** The first condition of the update's type that differs from it is settled. */
  function UpdateFirst(cs: seq<Condition>, u: Condition, now: int): (r: seq<Condition>)
    ensures |r| == |cs|
  {
    if cs == [] then []
    else if Stale(cs[0], u) then [Settle(cs[0], u, now)] + cs[1..]
    else [cs[0]] + UpdateFirst(cs[1..], u, now)
  }

  function UpdateInPlace(cs: seq<Condition>, us: seq<Condition>, now: int): (r: seq<Condition>)
    ensures |r| == |cs|
  {
    if us == [] then cs else UpdateFirst(UpdateInPlace(cs, us[..|us| - 1], now), us[|us| - 1], now)
  }

  function Additions(cs: seq<Condition>, us: seq<Condition>, now: int): seq<Condition> {
    if us == [] then []
    else
      var u := us[|us| - 1];
      Additions(cs, us[..|us| - 1], now) + if HasType(cs, u.kind) then [] else [u.(lastTransition := now)]
  }

  function Merged(cs: seq<Condition>, us: seq<Condition>, now: int): seq<Condition> {
    UpdateInPlace(cs, us, now) + Additions(cs, us, now)
  }

  lemma {:induction false} UpdateFirstKeepsTypes(cs: seq<Condition>, u: Condition, now: int)
    ensures forall j | 0 <= j < |cs| :: UpdateFirst(cs, u, now)[j].kind == cs[j].kind
  {
    if cs != [] {
      UpdateFirstKeepsTypes(cs[1..], u, now);
    }
  }

  lemma {:induction false} UpdateKeepsTypes(cs: seq<Condition>, us: seq<Condition>, now: int)
    ensures forall j | 0 <= j < |cs| :: UpdateInPlace(cs, us, now)[j].kind == cs[j].kind
  {
    if us != [] {
      UpdateKeepsTypes(cs, us[..|us| - 1], now);
      UpdateFirstKeepsTypes(UpdateInPlace(cs, us[..|us| - 1], now), us[|us| - 1], now);
    }
  }

  /** The inner loop of `mergeConditions`. */
  method UpdateMatching(given: seq<Condition>, update: Condition, now: int)
    returns (conditions: seq<Condition>, add: bool)
    ensures conditions == UpdateFirst(given, update, now)
    ensures add <==> !HasType(given, update.kind)
  {
    conditions := given;
    add := true;
    for j := 0 to |given|
      invariant conditions == given
      invariant forall k | 0 <= k < j :: !Stale(given[k], update)
      invariant add <==> forall k | 0 <= k < j :: given[k].kind != update.kind
    {
      var cond := conditions[j];
      if cond.kind == update.kind {
        add := false;
        if ConditionChanged(cond, update) {
          conditions := conditions[
            j := conditions[j].(status := update.status, reason := update.reason, message := update.message)];
          if cond.status != update.status {
            conditions := conditions[j := conditions[j].(lastTransition := now)];
          }
          UpdateFirstAt(given, update, now, j);
          return;
        }
      }
    }
    UpdateFirstAt(given, update, now, |given|);
  }

  lemma {:induction false} UpdateFirstAt(cs: seq<Condition>, u: Condition, now: int, j: nat)
    requires j <= |cs| && forall k | 0 <= k < j :: !Stale(cs[k], u)
    requires j < |cs| ==> Stale(cs[j], u)
    ensures UpdateFirst(cs, u, now) == if j < |cs| then cs[j := Settle(cs[j], u, now)] else cs
  {
    if 0 < j {
      assert !Stale(cs[0], u);
      UpdateFirstAt(cs[1..], u, now, j - 1);
    }
  }

  lemma HasTypeAppend(cs: seq<Condition>, c: Condition, kind: string)
    ensures HasType(cs + [c], kind) <==> HasType(cs, kind) || c.kind == kind
  {
    assert (cs + [c])[|cs|] == c;
    assert forall i | 0 <= i < |cs| :: (cs + [c])[i] == cs[i];
  }

  method MergeConditions(given: seq<Condition>, updates: seq<Condition>, now: int) returns (conditions: seq<Condition>)
    ensures conditions == Merged(given, updates, now)
  {
    conditions := given;
    var additions: seq<Condition> := [];
    for i := 0 to |updates|
      invariant conditions == UpdateInPlace(given, updates[..i], now)
      invariant additions == Additions(given, updates[..i], now)
    {
      assert updates[..i + 1][..i] == updates[..i];
      UpdateKeepsTypes(given, updates[..i], now);
      assert HasType(conditions, updates[i].kind) <==> HasType(given, updates[i].kind);
      var add;
      conditions, add := UpdateMatching(conditions, updates[i], now);
      if add {
        additions := additions + [updates[i].(lastTransition := now)];
      }
    }
    assert updates[..|updates|] == updates;
    conditions := conditions + additions;
  }

  predicate UniqueTypes(cs: seq<Condition>) {
    forall i, j | 0 <= i < j < |cs| :: cs[i].kind != cs[j].kind
  }

  lemma {:induction false} UpdateFirstOnUnique(cs: seq<Condition>, u: Condition, now: int)
    requires UniqueTypes(cs)
    ensures forall j | 0 <= j < |cs| ::
              UpdateFirst(cs, u, now)[j] == if cs[j].kind == u.kind then Settle(cs[j], u, now) else cs[j]
  {
    if cs != [] {
      var rest := cs[1..];
      assert forall i | 0 <= i < |rest| :: rest[i] == cs[i + 1];
      UpdateFirstOnUnique(rest, u, now);
    }
  }

  /** The merge is a map update that keeps the list's order: every old condition keeps its place, one
      of a type not updated is untouched, one of an updated type takes the update's details and a new
      transition time only when its status changes. */
  lemma {:induction false} UpdateIsPointwise(cs: seq<Condition>, us: seq<Condition>, now: int, j: nat)
    requires UniqueTypes(cs) && UniqueTypes(us) && j < |cs|
    ensures !HasType(us, cs[j].kind) ==> UpdateInPlace(cs, us, now)[j] == cs[j]
    ensures forall k | 0 <= k < |us| && us[k].kind == cs[j].kind ::
              UpdateInPlace(cs, us, now)[j] == Settle(cs[j], us[k], now)
    ensures forall k | 0 <= k < |us| && us[k].kind == cs[j].kind ::
              UpdateInPlace(cs, us, now)[j] ==
              Condition(
                cs[j].kind, us[k].status, us[k].reason, us[k].message,
                if cs[j].status == us[k].status then cs[j].lastTransition else now)
  {
    if us != [] {
      var n := |us| - 1;
      var mid := UpdateInPlace(cs, us[..n], now);
      assert forall k | 0 <= k < n :: us[..n][k] == us[k];
      UpdateIsPointwise(cs, us[..n], now, j);
      UpdateKeepsTypes(cs, us[..n], now);
      UpdateFirstOnUnique(mid, us[n], now);
      HasTypeAppend(us[..n], us[n], cs[j].kind);
      assert us == us[..n] + [us[n]];
    }
  }

  lemma {:induction false} AdditionsComeFrom(cs: seq<Condition>, us: seq<Condition>, now: int)
    ensures forall c | c in Additions(cs, us, now) ::
              !HasType(cs, c.kind) && exists k | 0 <= k < |us| :: c == us[k].(lastTransition := now)
  {
    if us != [] {
      var n := |us| - 1;
      AdditionsComeFrom(cs, us[..n], now);
      forall c | c in Additions(cs, us, now)
        ensures !HasType(cs, c.kind) && exists k | 0 <= k < |us| :: c == us[k].(lastTransition := now)
      {
        if c in Additions(cs, us[..n], now) {
          var k :| 0 <= k < n && c == us[..n][k].(lastTransition := now);
          assert c == us[k].(lastTransition := now);
        } else {
          assert c == us[n].(lastTransition := now);
        }
      }
    }
  }

  lemma {:induction false} AdditionsCover(cs: seq<Condition>, us: seq<Condition>, now: int, k: nat)
    requires k < |us| && !HasType(cs, us[k].kind)
    ensures us[k].(lastTransition := now) in Additions(cs, us, now)
  {
    if k < |us| - 1 {
      AdditionsCover(cs, us[..|us| - 1], now, k);
    }
  }

  lemma {:induction false} AdditionsAreUnique(cs: seq<Condition>, us: seq<Condition>, now: int)
    requires UniqueTypes(us)
    ensures UniqueTypes(Additions(cs, us, now))
  {
    if us != [] {
      var n := |us| - 1;
      var init := Additions(cs, us[..n], now);
      assert forall k | 0 <= k < n :: us[..n][k] == us[k];
      AdditionsAreUnique(cs, us[..n], now);
      AdditionsComeFrom(cs, us[..n], now);
      forall i | 0 <= i < |init|
        ensures init[i].kind != us[n].kind
      {
        assert init[i] in init;
      }
    }
  }

  /** The merged list again has unique types. */
  lemma MergeKeepsUniqueTypes(cs: seq<Condition>, us: seq<Condition>, now: int)
    requires UniqueTypes(cs) && UniqueTypes(us)
    ensures UniqueTypes(Merged(cs, us, now))
  {
    UpdateKeepsTypes(cs, us, now);
    AdditionsComeFrom(cs, us, now);
    AdditionsAreUnique(cs, us, now);
    var m := Merged(cs, us, now);
    forall i, j | 0 <= i < j < |m|
      ensures m[i].kind != m[j].kind
    {
      if i < |cs| <= j {
        assert m[j] in Additions(cs, us, now);
        assert m[i].kind == cs[i].kind;
      }
    }
  }

  /** Merging the same updates again, at any later time, changes nothing: no write, no new time. */
  lemma MergeIsIdempotent(cs: seq<Condition>, us: seq<Condition>, now: int, later: int)
    requires UniqueTypes(cs) && UniqueTypes(us)
    ensures Merged(Merged(cs, us, now), us, later) == Merged(cs, us, now)
  {
    var m := Merged(cs, us, now);
    MergeKeepsUniqueTypes(cs, us, now);
    AdditionsComeFrom(cs, us, now);
    UpdateKeepsTypes(cs, us, now);
    forall k | 0 <= k < |us|
      ensures HasType(m, us[k].kind)
    {
      if HasType(cs, us[k].kind) {
        var i :| 0 <= i < |cs| && cs[i].kind == us[k].kind;
        assert m[i].kind == us[k].kind;
      } else {
        AdditionsCover(cs, us, now, k);
        assert us[k].(lastTransition := now) in m;
      }
    }
    NoAdditions(m, us, later);
    forall j | 0 <= j < |m|
      ensures UpdateInPlace(m, us, later)[j] == m[j]
    {
      UpdateIsPointwise(m, us, later, j);
      if HasType(us, m[j].kind) {
        var k :| 0 <= k < |us| && us[k].kind == m[j].kind;
        if j < |cs| {
          UpdateIsPointwise(cs, us, now, j);
        } else {
          assert m[j] in Additions(cs, us, now);
          var l :| 0 <= l < |us| && m[j] == us[l].(lastTransition := now);
          assert us[l].kind == us[k].kind;
        }
      }
    }
  }

  /** After a merge there is a condition with the update's type and details. */
  lemma MergedIsThere(cs: seq<Condition>, u: Condition, now: int)
    requires UniqueTypes(cs)
    ensures exists i | 0 <= i < |Merged(cs, [u], now)| ::
              Merged(cs, [u], now)[i].kind == u.kind && !ConditionChanged(Merged(cs, [u], now)[i], u)
  {
    var m := Merged(cs, [u], now);
    if HasType(cs, u.kind) {
      var i :| 0 <= i < |cs| && cs[i].kind == u.kind;
      UpdateIsPointwise(cs, [u], now, i);
      assert m[i] == Settle(cs[i], u, now);
    } else {
      AdditionsCover(cs, [u], now, 0);
      var a := u.(lastTransition := now);
      assert a in m;
      var i :| 0 <= i < |m| && m[i] == a;
    }
  }

  lemma {:induction false} NoAdditions(cs: seq<Condition>, us: seq<Condition>, now: int)
    requires forall k | 0 <= k < |us| :: HasType(cs, us[k].kind)
    ensures Additions(cs, us, now) == []
  {
    if us != [] {
      var n := |us| - 1;
      assert forall k | 0 <= k < n :: us[..n][k] == us[k];
      NoAdditions(cs, us[..n], now);
    }
  }

  /** Conditions of other types come through the operator's one-condition merge untouched, on any
      list at all. */
  function OfOtherTypes(cs: seq<Condition>, kind: string): seq<Condition> {
    if cs == [] then []
    else
      var init := OfOtherTypes(cs[..|cs| - 1], kind);
      if cs[|cs| - 1].kind == kind then init else init + [cs[|cs| - 1]]
  }

  lemma {:induction false} OtherTypesAppend(a: seq<Condition>, b: seq<Condition>, kind: string)
    ensures OfOtherTypes(a + b, kind) == OfOtherTypes(a, kind) + OfOtherTypes(b, kind)
  {
    if b == [] {
      assert a + b == a;
    } else {
      var n := |b| - 1;
      assert (a + b)[..|a + b| - 1] == a + b[..n];
      OtherTypesAppend(a, b[..n], kind);
    }
  }

  lemma {:induction false} UpdateFirstKeepsOthers(cs: seq<Condition>, u: Condition, now: int)
    ensures OfOtherTypes(UpdateFirst(cs, u, now), u.kind) == OfOtherTypes(cs, u.kind)
  {
    if cs != [] {
      UpdateFirstKeepsOthers(cs[1..], u, now);
      assert cs == [cs[0]] + cs[1..];
      OtherTypesAppend([cs[0]], cs[1..], u.kind);
      var r := UpdateFirst(cs, u, now);
      assert r == [r[0]] + r[1..];
      OtherTypesAppend([r[0]], r[1..], u.kind);
      assert [cs[0]][..0] == [] && [r[0]][..0] == [];
    }
  }

  lemma MergeKeepsOtherTypes(cs: seq<Condition>, u: Condition, now: int)
    ensures OfOtherTypes(Merged(cs, [u], now), u.kind) == OfOtherTypes(cs, u.kind)
  {
    assert [u][..0] == [];
    assert UpdateInPlace(cs, [u], now) == UpdateFirst(cs, u, now);
    UpdateFirstKeepsOthers(cs, u, now);
    OtherTypesAppend(UpdateInPlace(cs, [u], now), Additions(cs, [u], now), u.kind);
    assert Additions(cs, [u], now) == if HasType(cs, u.kind) then [] else [u.(lastTransition := now)];
    assert [u.(lastTransition := now)][..0] == [];
  }
}
