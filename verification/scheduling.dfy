/** What the thread pool guarantees, without threads: `as_completed` hands the
    submitted futures back one at a time in an order the scheduler chooses.
    The choice is a parameter (`picks`), so every statement proved here holds
    for every completion order. */
module Scheduling {
  import opened Outcomes
  import opened Folds

  /** `ThreadPoolExecutor(max_workers=n)` with `n <= 0`. */
  const BadWorkers := ValueError("max_workers must be greater than 0")

  /** The index a pick names among `n` outstanding results: the pick itself
      when it is in range, otherwise the first. */
  function PickIndex(picks: seq<nat>, n: nat): (p: nat)
    requires n > 0
    ensures p < n
    ensures |picks| > 0 && picks[0] < n ==> p == picks[0]
  {
    if |picks| > 0 && picks[0] < n then picks[0] else 0
  }

  function Later(picks: seq<nat>): seq<nat> {
    if |picks| > 0 then picks[1..] else []
  }

  /** Collecting `as_completed(futures)`: at each step the scheduler returns
      one of the still-outstanding results, `picks[k]` naming which (a missing
      or out-of-range pick means the first). */
  function Drain<T>(pending: seq<T>, picks: seq<nat>): (r: seq<T>)
    ensures |r| == |pending|
    ensures |pending| > 0 ==> r[0] == pending[PickIndex(picks, |pending|)]
    decreases |pending|
  {
    if |pending| == 0 then []
    else
      var p := PickIndex(picks, |pending|);
      [pending[p]] + Drain(Without(pending, p), Later(picks))
  }

  /** Whatever the completion order, every submitted result comes back
      exactly once. */
  lemma {:induction false} DrainPermutes<T>(pending: seq<T>, picks: seq<nat>)
    ensures multiset(Drain(pending, picks)) == multiset(pending)
    decreases |pending|
  {
    if |pending| > 0 {
      var p := PickIndex(picks, |pending|);
      DrainPermutes(Without(pending, p), Later(picks));
    }
  }

  /** A pick below the number of outstanding results is taken literally. */
  lemma DrainPick<T>(pending: seq<T>, p: nat, picks: seq<nat>)
    requires p < |pending|
    ensures Drain(pending, [p] + picks) == [pending[p]] + Drain(Without(pending, p), picks)
  {
    assert Later([p] + picks) == picks;
  }

  lemma DrainExtend<T>(pending: seq<T>, p: nat, picks: seq<nat>, order: seq<T>)
    requires p < |pending| && |order| > 0 && pending[p] == order[0]
    requires Drain(Without(pending, p), picks) == order[1..]
    ensures Drain(pending, [p] + picks) == order
  {
    calc {
      Drain(pending, [p] + picks);
      { DrainPick(pending, p, picks); }
      [pending[p]] + Drain(Without(pending, p), picks);
      [order[0]] + order[1..];
      { assert ([order[0]] + order[1..])[0] == order[0]; }
      order;
    }
  }

  /** Conversely, every rearrangement of the submitted results is a possible
      completion order, so `Drain` leaves none out. */
  lemma {:induction false} DrainReachesEveryOrder<T>(pending: seq<T>, order: seq<T>) returns (picks: seq<nat>)
    requires multiset(order) == multiset(pending)
    ensures Drain(pending, picks) == order
    decreases |pending|
  {
    if |pending| == 0 {
      assert |order| == |multiset(order)| == 0;
      picks := [];
    } else {
      var p := FindFirst(pending, order);
      var later := DrainReachesEveryOrder(Without(pending, p), order[1..]);
      DrainExtend(pending, p, later, order);
      picks := [p] + later;
    }
  }

  /** Where the first result of `order` waits among the outstanding ones. */
  lemma FindFirst<T>(pending: seq<T>, order: seq<T>) returns (p: nat)
    requires |pending| > 0 && multiset(order) == multiset(pending)
    ensures p < |pending| && |order| > 0 && pending[p] == order[0]
    ensures multiset(order[1..]) == multiset(Without(pending, p))
  {
    assert |order| == |multiset(order)| == |pending|;
    assert order[0] in multiset(pending);
    p :| 0 <= p < |pending| && pending[p] == order[0];
    assert order == [order[0]] + order[1..];
  }

  /** `future.result()` on each future in turn: the first task that raised
      re-raises its exception, and otherwise the values come back in order. */
  function Collect<T>(rs: seq<Result<T>>): (r: Result<seq<T>>)
    ensures r.Ok? <==> forall k :: 0 <= k < |rs| ==> rs[k].Ok?
    ensures r.Ok? ==> |r.value| == |rs| && forall k :: 0 <= k < |rs| ==> rs[k] == Ok(r.value[k])
    ensures r.Err? ==> exists k :: 0 <= k < |rs| && rs[k] == Err(r.error) && forall i :: 0 <= i < k ==> rs[i].Ok?
    decreases |rs|
  {
    if |rs| == 0 then Ok([])
    else
      var v :- rs[0];
      var rest :- Collect(rs[1..]);
      assert forall k :: 1 <= k < |rs| ==> rs[k] == rs[1..][k - 1];
      Ok([v] + rest)
  }

  /** Whatever the completion order, the collection succeeds exactly when
      every task did, and an exception it raises is one some task raised. */
  lemma DrainCollectStatus<T>(rs: seq<Result<T>>, picks: seq<nat>)
    ensures Collect(Drain(rs, picks)).Ok? <==> forall k :: 0 <= k < |rs| ==> rs[k].Ok?
    ensures Collect(Drain(rs, picks)).Err? ==> Err(Collect(Drain(rs, picks)).error) in rs
  {
    var d := Drain(rs, picks);
    DrainPermutes(rs, picks);
    if forall k :: 0 <= k < |rs| ==> rs[k].Ok? {
      forall k | 0 <= k < |d| ensures d[k].Ok? {
        assert d[k] in multiset(rs) by { assert d[k] in multiset(d); }
      }
    } else {
      var j :| 0 <= j < |rs| && !rs[j].Ok?;
      assert rs[j] in d by { assert rs[j] in multiset(rs); }
    }
    var c := Collect(d);
    if c.Err? {
      var k :| 0 <= k < |d| && d[k] == Err(c.error);
      assert d[k] in rs by { assert d[k] in multiset(d); }
    }
  }

  /** When every task returns, the values come back in the completion
      order. */
  lemma {:induction false} DrainCollectValues<T>(rs: seq<Result<T>>, vs: seq<T>, picks: seq<nat>)
    requires |rs| == |vs| && forall k :: 0 <= k < |rs| ==> rs[k] == Ok(vs[k])
    ensures Collect(Drain(rs, picks)) == Ok(Drain(vs, picks))
    decreases |rs|
  {
    if |rs| > 0 {
      var p := PickIndex(picks, |rs|);
      var rs', vs' := Without(rs, p), Without(vs, p);
      assert forall k :: 0 <= k < |rs'| ==> rs'[k] == Ok(vs'[k]) by {
        forall k | 0 <= k < |rs'| ensures rs'[k] == Ok(vs'[k]) {
          if k < p {
            assert rs'[k] == rs[k] && vs'[k] == vs[k];
          } else {
            assert rs'[k] == rs[k + 1] && vs'[k] == vs[k + 1];
          }
        }
      }
      DrainCollectValues(rs', vs', Later(picks));
      var tail := Drain(rs', Later(picks));
      var d := [rs[p]] + tail;
      assert Drain(rs, picks) == d;
      assert d[1..] == tail;
      assert Collect(d) == Ok([vs[p]] + Drain(vs', Later(picks)));
    }
  }

  /** Concatenation of a list of lists (`results.extend(...)` repeatedly). */
  function Flatten<T>(parts: seq<seq<T>>): seq<T>
  {
    if |parts| == 0 then [] else parts[0] + Flatten(parts[1..])
  }

  lemma FlattenCons<T>(x: seq<T>, rest: seq<seq<T>>)
    ensures Flatten([x] + rest) == x + Flatten(rest)
  {
    assert ([x] + rest)[1..] == rest;
  }

  lemma FlattenSingle<T>(x: seq<T>)
    ensures Flatten([x]) == x
  {
    assert [x][1..] == [];
  }

  lemma {:induction false} FlattenAppend<T>(a: seq<seq<T>>, b: seq<seq<T>>)
    ensures Flatten(a + b) == Flatten(a) + Flatten(b)
    decreases |a|
  {
    if |a| == 0 {
      assert a + b == b;
    } else {
      assert (a + b)[1..] == a[1..] + b;
      FlattenAppend(a[1..], b);
    }
  }

  /** Concatenating the parts in any completion order keeps every element
      exactly once. */
  lemma {:induction false} FlattenDrain<T>(parts: seq<seq<T>>, picks: seq<nat>)
    ensures multiset(Flatten(Drain(parts, picks))) == multiset(Flatten(parts))
    decreases |parts|
  {
    if |parts| > 0 {
      var p := PickIndex(picks, |parts|);
      var rest := Without(parts, p);
      var before, after := parts[..p], parts[p + 1..];
      assert rest == before + after;
      SplitAt(parts, p);
      FlattenDrain(rest, Later(picks));
      var d := Drain(parts, picks);
      assert d == [parts[p]] + Drain(rest, Later(picks));
      var x := parts[p];
      FlattenCons(x, Drain(rest, Later(picks)));
      FlattenAppend(before + [x], after);
      FlattenAppend(before, [x]);
      FlattenAppend(before, after);
      FlattenSingle(x);
      var fb, fa := Flatten(before), Flatten(after);
      calc {
        Flatten(parts);
        Flatten(before + [x] + after);
        Flatten(before + [x]) + fa;
        fb + x + fa;
      }
      calc {
        multiset(Flatten(d));
        multiset(parts[p]) + multiset(Flatten(Drain(rest, Later(picks))));
        multiset(parts[p]) + multiset(fb + fa);
        multiset(fb + parts[p] + fa);
      }
    }
  }
}
