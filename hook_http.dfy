/** Chaining of reverse-proxy response modifiers (corporal/hook/http.go). A modifier is a value `m`
    run by `run(m, response)`, which gives the response as the modifier left it and its error. */
module HookHttp {
  import opened Wrappers

  /** What running a chain left: the response, the first error, and how many modifiers ran. */
  datatype ChainOutcome<R, E> = ChainOutcome(response: R, err: Option<E>, ran: nat)

  /** `CreateChainedHttpResponseModifierFunc` applied to a response: the modifiers in list order,
      stopping at the first error. */
  function RunChain<M, R, E>(functions: seq<M>, run: (M, R) -> (R, Option<E>), response: R): (o: ChainOutcome<R, E>)
    ensures o.ran <= |functions|
    ensures o.err.None? ==> o.ran == |functions|
    ensures o.err.Some? ==> 1 <= o.ran && o.err == run(functions[o.ran - 1], ChainBefore(functions, run, response, o.ran - 1)).1
    decreases |functions|
  {
    if functions == [] then ChainOutcome(response, None, 0)
    else
      var (next, err) := run(functions[0], response);
      if err.Some? then ChainOutcome(next, err, 1)
      else
        var rest := RunChain(functions[1..], run, next);
        if rest.err.Some? then
          ChainBeforeStep(functions, run, response, rest.ran - 1);
          assert functions[1..][rest.ran - 1] == functions[rest.ran];
          ChainOutcome(rest.response, rest.err, rest.ran + 1)
        else
          ChainOutcome(rest.response, rest.err, rest.ran + 1)
  }

  /** The response the first `k` modifiers leave when none of them fails, threaded in order. */
  function ChainBefore<M, R, E>(functions: seq<M>, run: (M, R) -> (R, Option<E>), response: R, k: nat): R
    requires k <= |functions|
    decreases k
  {
    if k == 0 then response else run(functions[k - 1], ChainBefore(functions, run, response, k - 1)).0
  }

  /** No modifier among the first `k` failed. */
  predicate NoneFailBefore<M, R, E>(functions: seq<M>, run: (M, R) -> (R, Option<E>), response: R, k: nat)
    requires k <= |functions|
  {
    forall j :: 0 <= j < k ==> run(functions[j], ChainBefore(functions, run, response, j)).1.None?
  }

  /** Dropping the first modifier shifts the threaded responses by one. */
  lemma {:induction false} ChainBeforeStep<M, R, E>(functions: seq<M>, run: (M, R) -> (R, Option<E>), response: R, k: nat)
    requires 0 < |functions| && k < |functions|
    ensures ChainBefore(functions[1..], run, run(functions[0], response).0, k) == ChainBefore(functions, run, response, k + 1)
    decreases k
  {
    if k > 0 {
      ChainBeforeStep(functions, run, response, k - 1);
      assert functions[1..][k - 1] == functions[k];
    }
  }

  /** The chain ran exactly the modifiers before the failing one without error, so a later
      modifier never ran; and it succeeds exactly when every modifier succeeded. */
  lemma {:induction false} ChainStopsAtFirstError<M, R, E>(functions: seq<M>, run: (M, R) -> (R, Option<E>), response: R)
    ensures RunChain(functions, run, response).err.Some? ==>
              NoneFailBefore(functions, run, response, RunChain(functions, run, response).ran - 1)
    ensures RunChain(functions, run, response).err.None? <==> NoneFailBefore(functions, run, response, |functions|)
    ensures RunChain(functions, run, response).response ==
              (if RunChain(functions, run, response).err.None? then ChainBefore(functions, run, response, |functions|)
               else run(functions[RunChain(functions, run, response).ran - 1],
                        ChainBefore(functions, run, response, RunChain(functions, run, response).ran - 1)).0)
    decreases |functions|
  {
    if functions != [] {
      var (next, err) := run(functions[0], response);
      if err.None? {
        var tail := functions[1..];
        ChainStopsAtFirstError(tail, run, next);
        forall k | 0 <= k <= |tail|
          ensures ChainBefore(tail, run, next, k) == ChainBefore(functions, run, response, k + 1)
        {
          if k < |tail| {
            ChainBeforeStep(functions, run, response, k);
          } else {
            ShiftLast(functions, run, response);
          }
        }
        forall j | 0 <= j < |tail|
          ensures run(tail[j], ChainBefore(tail, run, next, j)).1 == run(functions[j + 1], ChainBefore(functions, run, response, j + 1)).1
        {
          ChainBeforeStep(functions, run, response, j);
          assert tail[j] == functions[j + 1];
        }
        NoneFailShift(functions, run, response);
      }
    }
  }

  lemma {:induction false} ShiftLast<M, R, E>(functions: seq<M>, run: (M, R) -> (R, Option<E>), response: R)
    requires 0 < |functions|
    ensures ChainBefore(functions[1..], run, run(functions[0], response).0, |functions| - 1) == ChainBefore(functions, run, response, |functions|)
  {
    if |functions| == 1 {
    } else {
      ChainBeforeStep(functions, run, response, |functions| - 2);
      assert functions[1..][|functions| - 2] == functions[|functions| - 1];
    }
  }

  /** Success of all of the list is success of the head followed by success of all of the tail. */
  lemma NoneFailShift<M, R, E>(functions: seq<M>, run: (M, R) -> (R, Option<E>), response: R)
    requires 0 < |functions| && run(functions[0], response).1.None?
    requires forall j :: 0 <= j < |functions| - 1 ==>
      run(functions[1..][j], ChainBefore(functions[1..], run, run(functions[0], response).0, j)).1
        == run(functions[j + 1], ChainBefore(functions, run, response, j + 1)).1
    ensures forall k :: 0 <= k < |functions| ==>
      (NoneFailBefore(functions[1..], run, run(functions[0], response).0, k) <==> NoneFailBefore(functions, run, response, k + 1))
  {
    var tail := functions[1..];
    var next := run(functions[0], response).0;
    forall k | 0 <= k < |functions|
      ensures NoneFailBefore(tail, run, next, k) <==> NoneFailBefore(functions, run, response, k + 1)
    {
      if NoneFailBefore(tail, run, next, k) {
        forall j | 0 <= j < k + 1
          ensures run(functions[j], ChainBefore(functions, run, response, j)).1.None?
        {
          if j > 0 {
            assert run(tail[j - 1], ChainBefore(tail, run, next, j - 1)).1.None?;
          }
        }
      }
      if NoneFailBefore(functions, run, response, k + 1) {
        forall j | 0 <= j < k
          ensures run(tail[j], ChainBefore(tail, run, next, j)).1.None?
        {
          assert run(functions[j + 1], ChainBefore(functions, run, response, j + 1)).1.None?;
        }
      }
    }
  }

  /** The empty chain succeeds and leaves the response alone. */
  lemma EmptyChain<M, R, E>(run: (M, R) -> (R, Option<E>), response: R)
    ensures RunChain([], run, response) == ChainOutcome(response, None, 0)
  {
  }

  /** A one-element chain behaves like its element. */
  lemma SingleChain<M, R, E>(f: M, run: (M, R) -> (R, Option<E>), response: R)
    ensures RunChain([f], run, response).response == run(f, response).0
    ensures RunChain([f], run, response).err == run(f, response).1
  {
    if run(f, response).1.None? {
      assert RunChain([f][1..], run, run(f, response).0) == ChainOutcome(run(f, response).0, None, 0);
    }
  }

  /** Chaining a concatenation is chaining the first list, then, if it succeeded, the second. */
  lemma {:induction false} ChainAppend<M, R, E>(a: seq<M>, b: seq<M>, run: (M, R) -> (R, Option<E>), response: R)
    ensures RunChain(a + b, run, response).err ==
      (if RunChain(a, run, response).err.Some? then RunChain(a, run, response).err
       else RunChain(b, run, RunChain(a, run, response).response).err)
    ensures RunChain(a + b, run, response).response ==
      (if RunChain(a, run, response).err.Some? then RunChain(a, run, response).response
       else RunChain(b, run, RunChain(a, run, response).response).response)
    decreases |a|
  {
    if a == [] {
      assert a + b == b;
    } else {
      assert (a + b)[0] == a[0];
      assert (a + b)[1..] == a[1..] + b;
      var (next, err) := run(a[0], response);
      if err.None? {
        ChainAppend(a[1..], b, run, next);
      }
    }
  }
}
