/**
 * The default consuming methods of the client's iterator traits
 * (`AsyncPaginatedIterator` and `AsyncDiscoveryIterator`): `collect_all` and
 * `take(n)`.
 *
 * An iterator is seen through the outcomes of its successive `next` calls:
 * `steps[i]` is what the (i+1)-th call returns, and once the steps run out
 * every further call returns `Ok(None)`.
 */
module Consumption {
  import opened Wrappers

  /**
   * An iterator consumed by a `while let Some(x) = next()?` loop, as the
   * loop sees it: the items the calls return in turn, then whether the call
   * after the last item returns the end (`None`) or an error.
   */
  datatype Stream<T, E> = Stream(items: seq<T>, error: Option<E>)

  /** The outcome of call number `i` (counted from 0). */
  function StepAt<T, E>(steps: seq<Result<Option<T>, E>>, i: nat): Result<Option<T>, E> {
    if i < |steps| then steps[i] else Ok(None)
  }

  /** `items` in front of a successful outcome; an error stays as it is. */
  function Prepend<T, E>(items: seq<T>, r: Result<seq<T>, E>): Result<seq<T>, E> {
    if r.Ok? then Ok(items + r.value) else r
  }

  lemma PrependEmpty<T, E>(r: Result<seq<T>, E>)
    ensures Prepend([], r) == r
  {
    if r.Ok? {
      assert [] + r.value == r.value;
    }
  }

  lemma PrependTwice<T, E>(a: seq<T>, b: seq<T>, r: Result<seq<T>, E>)
    ensures Prepend(a, Prepend(b, r)) == Prepend(a + b, r)
  {
    if r.Ok? {
      assert a + (b + r.value) == (a + b) + r.value;
    }
  }

  /** Taking the element at `i` off the rest of `items` from `i` on. */
  lemma PrependFrom<T, E>(items: seq<T>, i: nat, r: Result<seq<T>, E>)
    requires i < |items|
    ensures Prepend(items[i..], r) == Prepend([items[i]], Prepend(items[i + 1..], r))
  {
    assert items[i..] == [items[i]] + items[i + 1..];
    PrependTwice([items[i]], items[i + 1..], r);
  }

  lemma PrependOne<T, E>(x: T, r: Result<seq<T>, E>, items: seq<T>)
    requires |items| > 0
    ensures Prepend([x], r) == Ok(items) <==> x == items[0] && r == Ok(items[1..])
  {
    if r.Ok? && [x] + r.value == items {
      assert items[1..] == r.value;
    }
    if x == items[0] && r == Ok(items[1..]) {
      assert [x] + r.value == items;
    }
  }

  /**
   * What repeated calls from call `i` on gather: every item up to the first
   * `None`, in order, or the first error.
   */
  function Collected<T, E>(steps: seq<Result<Option<T>, E>>, i: nat): Result<seq<T>, E>
    decreases |steps| - i
  {
    if i >= |steps| then Ok([])
    else match steps[i]
      case Err(e) => Err(e)
      case Ok(None) => Ok([])
      case Ok(Some(x)) => Prepend([x], Collected(steps, i + 1))
  }

  /** What at most `n` calls from call `i` on gather, stopping at the first `None` or error. */
  function Taken<T, E>(steps: seq<Result<Option<T>, E>>, i: nat, n: nat): (r: Result<seq<T>, E>)
    ensures r.Ok? ==> |r.value| <= n
    decreases n
  {
    if n == 0 then Ok([])
    else match StepAt(steps, i)
      case Err(e) => Err(e)
      case Ok(None) => Ok([])
      case Ok(Some(x)) => Prepend([x], Taken(steps, i + 1, n - 1))
  }

  /** The number of calls `take(n)` makes from call `i` on. */
  function TakeCalls<T, E>(steps: seq<Result<Option<T>, E>>, i: nat, n: nat): (c: nat)
    ensures c <= n
    decreases n
  {
    if n == 0 then 0
    else if StepAt(steps, i).Ok? && StepAt(steps, i).value.Some? then 1 + TakeCalls(steps, i + 1, n - 1)
    else 1
  }

  /** `collect_all`: calls `next` until it yields `None`, pushing every item; an error is passed on. */
  method CollectAll<T, E>(steps: seq<Result<Option<T>, E>>) returns (r: Result<seq<T>, E>)
    ensures r == Collected(steps, 0)
  {
    var items: seq<T> := [];
    var i := 0;
    PrependEmpty(Collected(steps, 0));
    while true
      invariant i <= |steps|
      invariant Collected(steps, 0) == Prepend(items, Collected(steps, i))
      decreases |steps| - i
    {
      var step := StepAt(steps, i);
      if step.Err? {
        return Err(step.error);
      }
      if step.value.None? {
        assert items + [] == items;
        return Ok(items);
      }
      PrependTwice(items, [step.value.value], Collected(steps, i + 1));
      items := items + [step.value.value];
      i := i + 1;
    }
  }

  /**
   * `take(n)`: at most `n` calls to `next`, stopping at the first `None`; an
   * error is passed on. `calls` is the number of calls made.
   */
  method Take<T, E>(steps: seq<Result<Option<T>, E>>, n: nat) returns (r: Result<seq<T>, E>, calls: nat)
    ensures r == Taken(steps, 0, n)
    ensures calls == TakeCalls(steps, 0, n)
    ensures n == 0 ==> calls == 0
  {
    var items: seq<T> := [];
    calls := 0;
    var k := 0;
    PrependEmpty(Taken(steps, 0, n));
    while k < n
      invariant k <= n && calls == k
      invariant Taken(steps, 0, n) == Prepend(items, Taken(steps, k, n - k))
      invariant TakeCalls(steps, 0, n) == k + TakeCalls(steps, k, n - k)
    {
      var step := StepAt(steps, k);
      calls := calls + 1;
      if step.Err? {
        return Err(step.error), calls;
      }
      if step.value.None? {
        break;
      }
      PrependTwice(items, [step.value.value], Taken(steps, k + 1, n - k - 1));
      items := items + [step.value.value];
      k := k + 1;
    }
    assert items + [] == items;
    r := Ok(items);
  }

  /**
   * `collect_all` succeeds with `items` exactly when the calls yield `items`
   * one by one and the next call yields `None`.
   */
  lemma {:induction false} CollectedExactly<T, E>(steps: seq<Result<Option<T>, E>>, i: nat, items: seq<T>)
    ensures Collected(steps, i) == Ok(items) <==> Yields(steps, i, items) && StepAt(steps, i + |items|) == Ok(None)
    decreases |steps| - i
  {
    if |items| > 0 {
      if i < |steps| && steps[i].Ok? && steps[i].value.Some? {
        PrependOne(steps[i].value.value, Collected(steps, i + 1), items);
        CollectedExactly(steps, i + 1, items[1..]);
        YieldsShift(steps, i, items);
      } else {
        assert StepAt(steps, i + 0) != Ok(Some(items[0]));
      }
    }
  }

  /** Calls `i`, `i + 1`, ... yield the items of `items`, in order. */
  ghost predicate Yields<T, E>(steps: seq<Result<Option<T>, E>>, i: nat, items: seq<T>) {
    forall k :: 0 <= k < |items| ==> StepAt(steps, i + k) == Ok(Some(items[k]))
  }

  lemma YieldsShift<T, E>(steps: seq<Result<Option<T>, E>>, i: nat, items: seq<T>)
    requires |items| > 0
    ensures Yields(steps, i, items) <==> StepAt(steps, i) == Ok(Some(items[0])) && Yields(steps, i + 1, items[1..])
  {
    if Yields(steps, i, items) {
      assert StepAt(steps, i + 0) == Ok(Some(items[0]));
      forall k | 0 <= k < |items| - 1
        ensures StepAt(steps, i + 1 + k) == Ok(Some(items[1..][k]))
      {
        assert StepAt(steps, i + (k + 1)) == Ok(Some(items[k + 1]));
      }
    }
    if StepAt(steps, i) == Ok(Some(items[0])) && Yields(steps, i + 1, items[1..]) {
      forall k | 0 <= k < |items|
        ensures StepAt(steps, i + k) == Ok(Some(items[k]))
      {
        if k > 0 {
          assert StepAt(steps, i + 1 + (k - 1)) == Ok(Some(items[1..][k - 1]));
        }
      }
    }
  }

  /** An error of `collect_all` is the first error, after only items. */
  lemma {:induction false} CollectedError<T, E>(steps: seq<Result<Option<T>, E>>, i: nat)
    requires Collected(steps, i).Err?
    ensures exists k :: i <= k < |steps| && steps[k] == Err(Collected(steps, i).error)
                        && (forall j :: i <= j < k ==> steps[j].Ok? && steps[j].value.Some?)
    decreases |steps| - i
  {
    if steps[i].Ok? {
      CollectedError(steps, i + 1);
    }
  }

  /** `take(n)` gathers the first `min(n, m)` items `collect_all` would gather. */
  lemma {:induction false} TakenIsPrefix<T, E>(steps: seq<Result<Option<T>, E>>, i: nat, n: nat)
    requires Collected(steps, i).Ok?
    ensures Taken(steps, i, n).Ok?
    ensures var all := Collected(steps, i).value;
      Taken(steps, i, n).value == if n <= |all| then all[..n] else all
    decreases n
  {
    if n > 0 && i < |steps| && steps[i].Ok? && steps[i].value.Some? {
      TakenIsPrefix(steps, i + 1, n - 1);
    }
  }

  /** With enough calls allowed, `take(n)` gathers what `collect_all` gathers. */
  lemma TakeEnough<T, E>(steps: seq<Result<Option<T>, E>>, n: nat)
    requires n >= |steps|
    ensures Taken(steps, 0, n) == Collected(steps, 0)
  {
    TakenAgrees(steps, 0, n);
  }

  lemma {:induction false} TakenAgrees<T, E>(steps: seq<Result<Option<T>, E>>, i: nat, n: nat)
    requires i + n >= |steps|
    ensures Taken(steps, i, n) == Collected(steps, i)
    decreases n
  {
    if n > 0 && i < |steps| {
      TakenAgrees(steps, i + 1, n - 1);
    }
  }
}
