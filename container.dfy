/** The shutdown handler of the service container (corporal/container/container.go): destructors
    are collected as services are built and run, last added first, when the program stops. */
module Container {
  /** A destructor stands for the `func()` it is; calling it is recorded in `called`. */
  type Destructor = nat

  /** `s` back to front. */
  function Reversed<T>(s: seq<T>): (r: seq<T>)
    ensures |r| == |s|
    ensures forall i :: 0 <= i < |s| ==> r[i] == s[|s| - 1 - i]
  {
    if s == [] then [] else [s[|s| - 1]] + Reversed(s[..|s| - 1])
  }

  /** Reversing keeps every element, as often as it occurs. */
  lemma {:induction false} ReversedIsPermutation<T>(s: seq<T>)
    ensures multiset(Reversed(s)) == multiset(s)
  {
    if s != [] {
      ReversedIsPermutation(s[..|s| - 1]);
      assert s == s[..|s| - 1] + [s[|s| - 1]];
    }
  }

  /** The destructor added last runs first. */
  lemma AddedLastRunsFirst<T>(s: seq<T>, d: T)
    ensures Reversed(s + [d]) == [d] + Reversed(s)
  {
    assert (s + [d])[..|s|] == s;
  }

  class ContainerShutdownHandler {
    var destructors: seq<Destructor>
    /** Every destructor call so far, in order. */
    var called: seq<Destructor>

    constructor()
      ensures destructors == [] && called == []
    {
      destructors := [];
      called := [];
    }

    /** `Add`. */
    method Add(destructor: Destructor)
      modifies this
      ensures destructors == old(destructors) + [destructor]
      ensures called == old(called)
    {
      destructors := destructors + [destructor];
    }

    /** `Shutdown`: calls every destructor once, from the last added to the first, and keeps the
        list, so a second shutdown calls them all again. */
    method Shutdown()
      modifies this
      ensures destructors == old(destructors)
      ensures called == old(called) + Reversed(old(destructors))
    {
      var i := 0;
      while i < |destructors|
        invariant 0 <= i <= |destructors|
        invariant destructors == old(destructors)
        invariant called == old(called) + Reversed(destructors)[..i]
      {
        assert Reversed(destructors)[..i + 1] == Reversed(destructors)[..i] + [destructors[|destructors| - i - 1]];
        called := called + [destructors[|destructors| - i - 1]];
        i := i + 1;
      }
      assert Reversed(destructors)[..i] == Reversed(destructors);
    }
  }

  /** Shutting down after adding `a`, `b` and `c` runs `c`, `b`, `a`; with nothing added it runs
      nothing. */
  method ShutdownOrderExample(a: Destructor, b: Destructor, c: Destructor) returns (called: seq<Destructor>, empty: seq<Destructor>)
    ensures called == [c, b, a]
    ensures empty == []
  {
    var handler := new ContainerShutdownHandler();
    handler.Shutdown();
    empty := handler.called;
    handler.Add(a);
    handler.Add(b);
    handler.Add(c);
    handler.Shutdown();
    called := handler.called;
  }
}
