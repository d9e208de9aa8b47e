/** Errors, and the aggregate that keeps them retryable (internal/retryableerror/retryableerror.go). */
module RetryableError {
  import opened Api

  /** Why an API call failed. */
  datatype Reason = NotFound | AlreadyExists | Conflict | Unavailable

  /** A Go error value. Only `Retryable` implements the source's `Error` interface: wrapping with
      %w and `utilerrors.NewAggregate` both hide it. `Panic` stands for a run-time panic, after
      which nothing more of the pass runs. */
  datatype Error =
    | ApiError(reason: Reason)
    | Invalid
    | Panic
    | Wrapped(step: string, cause: Error)
    | Aggregate(errors: seq<Error>)
    | Retryable(cause: Error, after: int)

  /** `handleResult`'s and `fmt.Errorf`'s "%w". */
  function Wrap(step: string, e: Option<Error>): Option<Error> {
    match e
    case None => None
    case Some(cause) => Some(Wrapped(step, cause))
  }

  /** The non-nil errors, in order. */
  function NonNil(errs: seq<Option<Error>>): seq<Error> {
    if errs == [] then []
    else
      var last := errs[|errs| - 1];
      NonNil(errs[..|errs| - 1]) + if last.Some? then [last.value] else []
  }

  /** `utilerrors.NewAggregate`: nil when there is nothing to report. */
  function NewAggregate(errs: seq<Option<Error>>): Option<Error> {
    if NonNil(errs) == [] then None else Some(Aggregate(NonNil(errs)))
  }

  predicate AllRetryable(es: seq<Error>) {
    forall i | 0 <= i < |es| :: es[i].Retryable?
  }

  function MinAfter(es: seq<Error>): int
    requires es != [] && AllRetryable(es)
  {
    var last := es[|es| - 1].after;
    if |es| == 1 then last
    else
      var rest := MinAfter(es[..|es| - 1]);
      if last < rest then last else rest
  }

  /** What `NewMaybeRetryableAggregate` returns. */
  function MaybeRetryable(errs: seq<Option<Error>>): Option<Error> {
    var es := NonNil(errs);
    if es == [] then None
    else if AllRetryable(es) then Some(Retryable(Aggregate(es), MinAfter(es)))
    else Some(Aggregate(es))
  }

  method NewMaybeRetryableAggregate(errs: seq<Option<Error>>) returns (r: Option<Error>)
    ensures r == MaybeRetryable(errs)
  {
    var aggregate := NewAggregate(errs);
    if aggregate.None? {
      return None;
    }
    var afterHasInitialValue := false;
    var after := 0;
    var es := aggregate.value.errors;
    for i := 0 to |es|
      invariant afterHasInitialValue == (i > 0)
      invariant AllRetryable(es[..i])
      invariant i > 0 ==> after == MinAfter(es[..i])
    {
      assert es[..i + 1][..i] == es[..i];
      if es[i].Retryable? {
        if !afterHasInitialValue || es[i].after < after {
          after := es[i].after;
        }
        afterHasInitialValue := true;
      } else {
        return aggregate;
      }
    }
    assert es[..|es|] == es;
    return Some(Retryable(aggregate.value, after));
  }

  // ----- the algebra of aggregates -----

  /** What a caller can tell from an error: nothing, a delay to retry after, or a hard failure. */
  datatype Verdict = Nothing | RetryAfter(delay: int) | Hard

  function Judge(e: Option<Error>): Verdict {
    match e
    case None => Nothing
    case Some(Retryable(_, after)) => RetryAfter(after)
    case Some(_) => Hard
  }

  /** Hard absorbs, nothing is neutral, delays take the minimum. */
  function Join(a: Verdict, b: Verdict): Verdict {
    match (a, b)
    case (Nothing, _) => b
    case (_, Nothing) => a
    case (RetryAfter(x), RetryAfter(y)) => RetryAfter(if x < y then x else y)
    case _ => Hard
  }

  function JoinAll(errs: seq<Option<Error>>): Verdict {
    if errs == [] then Nothing else Join(JoinAll(errs[..|errs| - 1]), Judge(errs[|errs| - 1]))
  }

  lemma AppendOne(es: seq<Error>, e: Error)
    ensures AllRetryable(es + [e]) <==> AllRetryable(es) && e.Retryable?
    ensures AllRetryable(es + [e]) ==>
              MinAfter(es + [e]) == if es == [] || e.after < MinAfter(es) then e.after else MinAfter(es)
  {
    var all := es + [e];
    assert all[..|es|] == es;
    if AllRetryable(all) {
      assert all[|es|] == e;
      assert forall i | 0 <= i < |es| :: es[i] == all[i];
    }
  }

  /** The aggregate is a homomorphism: its verdict is the join of its parts' verdicts. */
  lemma {:induction false} AggregateIsJoin(errs: seq<Option<Error>>)
    ensures Judge(MaybeRetryable(errs)) == JoinAll(errs)
  {
    if errs != [] {
      var rest, last := errs[..|errs| - 1], errs[|errs| - 1];
      AggregateIsJoin(rest);
      var es := NonNil(rest);
      if last.Some? {
        var all := es + [last.value];
        assert NonNil(errs) == all;
        AppendOne(es, last.value);
      } else {
        assert NonNil(errs) == es;
      }
    }
  }

  /** The errors an aggregate holds. */
  function ErrorsIn(e: Error): seq<Error> {
    match e
    case Aggregate(es) => es
    case Retryable(Aggregate(es), _) => es
    case _ => []
  }

  /** `e` is nil when there is nothing to report, and otherwise holds exactly the non-nil errors. */
  predicate Reports(e: Option<Error>, errs: seq<Option<Error>>) {
    if forall i | 0 <= i < |errs| :: errs[i].None? then e.None?
    else
      && e.Some?
      && (forall i | 0 <= i < |errs| && errs[i].Some? :: errs[i].value in ErrorsIn(e.value))
      && forall x | x in ErrorsIn(e.value) :: Some(x) in errs
  }

  lemma {:induction false} NonNilHolds(errs: seq<Option<Error>>)
    ensures forall i | 0 <= i < |errs| && errs[i].Some? :: errs[i].value in NonNil(errs)
    ensures forall x | x in NonNil(errs) :: Some(x) in errs
  {
    if errs != [] {
      var n := |errs| - 1;
      NonNilHolds(errs[..n]);
      assert forall i | 0 <= i < n :: errs[..n][i] == errs[i];
    }
  }

  /** No error is lost in an aggregate, and none is made up. */
  lemma AggregatesReport(errs: seq<Option<Error>>)
    ensures Reports(NewAggregate(errs), errs) && Reports(MaybeRetryable(errs), errs)
  {
    hide NonNil, AllRetryable, MinAfter;
    NonNilHolds(errs);
    if NonNil(errs) != [] {
      assert NonNil(errs)[0] in NonNil(errs);
    }
  }

  /** The documented contract: nil iff all nil; a plain aggregate iff some error is not retryable;
      otherwise the delay is one of the delays and no larger than any. */
  lemma {:induction false} JoinMeaning(errs: seq<Option<Error>>)
    ensures JoinAll(errs).Nothing? <==> forall i | 0 <= i < |errs| :: errs[i].None?
    ensures JoinAll(errs).Hard? <==> exists i | 0 <= i < |errs| :: Judge(errs[i]).Hard?
    ensures JoinAll(errs).RetryAfter? ==>
              && (exists i | 0 <= i < |errs| :: Judge(errs[i]) == JoinAll(errs))
              && forall i | 0 <= i < |errs| && Judge(errs[i]).RetryAfter? ::
                   JoinAll(errs).delay <= Judge(errs[i]).delay
  {
    if errs != [] {
      var n := |errs| - 1;
      JoinMeaning(errs[..n]);
      assert forall i | 0 <= i < n :: errs[..n][i] == errs[i];
    }
  }

  lemma {:induction false} JoinAppend(xs: seq<Option<Error>>, ys: seq<Option<Error>>)
    ensures JoinAll(xs + ys) == Join(JoinAll(xs), JoinAll(ys))
  {
    if ys == [] {
      assert xs + ys == xs;
    } else {
      var n := |ys| - 1;
      JoinAppend(xs, ys[..n]);
      assert (xs + ys)[..|xs + ys| - 1] == xs + ys[..n];
    }
  }

  /** Kind and delay do not depend on the order in which errors were collected. */
  lemma {:induction false} PermutationInvariant(xs: seq<Option<Error>>, ys: seq<Option<Error>>)
    requires multiset(xs) == multiset(ys)
    ensures Judge(MaybeRetryable(xs)) == Judge(MaybeRetryable(ys))
  {
    AggregateIsJoin(xs);
    AggregateIsJoin(ys);
    PermutedJoin(xs, ys);
  }

  lemma {:induction false} PermutedJoin(xs: seq<Option<Error>>, ys: seq<Option<Error>>)
    requires multiset(xs) == multiset(ys)
    ensures JoinAll(xs) == JoinAll(ys)
  {
    if xs == [] {
      assert multiset(ys) == multiset{};
      assert |ys| == 0;
    } else {
      var n := |xs| - 1;
      assert xs[n] in multiset(ys);
      var k :| 0 <= k < |ys| && ys[k] == xs[n];
      TakeOut(ys, k);
      assert xs == xs[..n] + [xs[n]];
      var rest := multiset(ys[..k] + ys[k + 1..]);
      assert multiset(xs[..n]) + multiset{xs[n]} == rest + multiset{xs[n]};
      assert multiset(xs[..n]) == multiset(xs[..n]) + multiset{xs[n]} - multiset{xs[n]};
      assert rest == rest + multiset{xs[n]} - multiset{xs[n]};
      PermutedJoin(xs[..n], ys[..k] + ys[k + 1..]);
    }
  }

  lemma TakeOut(ys: seq<Option<Error>>, k: nat)
    requires k < |ys|
    ensures multiset(ys) == multiset(ys[..k] + ys[k + 1..]) + multiset{ys[k]}
    ensures JoinAll(ys) == Join(JoinAll(ys[..k] + ys[k + 1..]), Judge(ys[k]))
  {
    SplitAt(ys, k);
    TakeOutItems(ys[..k], [ys[k]], ys[k + 1..]);
    TakeOutJoin(ys[..k], ys[k], ys[k + 1..]);
  }

  lemma SplitAt<T>(s: seq<T>, k: nat)
    requires k < |s|
    ensures s == s[..k] + ([s[k]] + s[k + 1..])
  {
  }

  lemma TakeOutJoin(front: seq<Option<Error>>, e: Option<Error>, back: seq<Option<Error>>)
    ensures JoinAll(front + ([e] + back)) == Join(JoinAll(front + back), Judge(e))
  {
    JoinAppend(front, [e] + back);
    JoinAppend([e], back);
    JoinAppend(front, back);
    assert JoinAll([e]) == Judge(e) by {
      assert [e][..0] == [];
    }
    JoinLaws(JoinAll(front), Judge(e), JoinAll(back));
  }

  lemma TakeOutItems(front: seq<Option<Error>>, mid: seq<Option<Error>>, back: seq<Option<Error>>)
    ensures multiset(front + (mid + back)) == multiset(front + back) + multiset(mid)
  {
  }

  /** Verdicts form a commutative, associative, idempotent monoid. */
  lemma JoinLaws(a: Verdict, b: Verdict, c: Verdict)
    ensures Join(a, Join(b, c)) == Join(Join(a, b), c) == Join(Join(a, c), b)
    ensures Join(a, b) == Join(b, a) && Join(a, a) == a && Join(a, Nothing) == Join(Nothing, a) == a
  {
  }

  function Flatten(groups: seq<seq<Option<Error>>>): seq<Option<Error>> {
    if groups == [] then [] else Flatten(groups[..|groups| - 1]) + groups[|groups| - 1]
  }

  function AggregateEach(groups: seq<seq<Option<Error>>>): seq<Option<Error>> {
    if groups == [] then []
    else AggregateEach(groups[..|groups| - 1]) + [MaybeRetryable(groups[|groups| - 1])]
  }

  /** Aggregating sublists first changes neither kind nor delay. */
  lemma {:induction false} NestingInvariant(groups: seq<seq<Option<Error>>>)
    ensures Judge(MaybeRetryable(AggregateEach(groups))) == Judge(MaybeRetryable(Flatten(groups)))
    ensures JoinAll(AggregateEach(groups)) == JoinAll(Flatten(groups))
  {
    AggregateIsJoin(AggregateEach(groups));
    AggregateIsJoin(Flatten(groups));
    if groups != [] {
      var init, last := groups[..|groups| - 1], groups[|groups| - 1];
      NestingInvariant(init);
      AggregateIsJoin(last);
      JoinAppend(Flatten(init), last);
      JoinAppend(AggregateEach(init), [MaybeRetryable(last)]);
      assert [MaybeRetryable(last)][..0] == [];
    }
  }

  /** An aggregate of wrapped errors is never retryable, so a caller that wraps every error first
      never sees a delay. */
  lemma {:induction false} WrappedIsNeverRetryable(errs: seq<Option<Error>>)
    requires forall i | 0 <= i < |errs| :: errs[i].Some? ==> errs[i].value.Wrapped?
    ensures !Judge(MaybeRetryable(errs)).RetryAfter?
    ensures MaybeRetryable(errs) == NewAggregate(errs)
  {
    AggregateIsJoin(errs);
    JoinMeaning(errs);
  }
}
