/**
 * The `with_args` decorator: on every call a provider computes extra
 * positional arguments, which go in front of the caller's.
 */
module WithArgs {
  import opened Values

  /** `list(create_args()) + list(args)`: the provided arguments, in order, then the caller's, in order. */
  function Injected(created: seq<Value>, args: seq<Value>): (r: seq<Value>)
    ensures |r| == |created| + |args|
    ensures forall i :: 0 <= i < |created| ==> r[i] == created[i]
    ensures forall i :: 0 <= i < |args| ==> r[|created| + i] == args[i]
  {
    created + args
  }

  /**
   * The wrapper `with_args(create_args)(fn)` calls. The provider is a
   * function of `w`, the state of the world at this call (random seeds,
   * fixtures), and is applied on every call; the keyword arguments pass
   * through.
   */
  function Entry<W, R>(createArgs: W -> seq<Value>, w: W, fn: (seq<Value>, Kwargs) -> R, args: seq<Value>, kw: Kwargs): (r: R)
    ensures exists pos :: |createArgs(w)| <= |pos| && pos[..|createArgs(w)|] == createArgs(w) && pos[|createArgs(w)|..] == args && r == fn(pos, kw)
  {
    var pos := Injected(createArgs(w), args);
    assert pos[..|createArgs(w)|] == createArgs(w) && pos[|createArgs(w)|..] == args;
    fn(pos, kw)
  }

  /** The caller's arguments are exactly what follows the injected prefix. */
  lemma {:induction false} CallerArgsRecovered(created: seq<Value>, args: seq<Value>)
    ensures Injected(created, args)[|created|..] == args
    ensures Injected(created, args)[..|created|] == created
  {
    var r := Injected(created, args);
    assert |r[|created|..]| == |args|;
    forall i | 0 <= i < |args| ensures r[|created|..][i] == args[i] {
      assert r[|created| + i] == args[i];
    }
  }

  /**
   * The provider is not cached: two calls made in states where it returns
   * different sequences hand the wrapped function different positional
   * arguments (the function here just returns what it receives).
   */
  lemma {:induction false} FreshArgsPerCall<W>(createArgs: W -> seq<Value>, w1: W, w2: W, args: seq<Value>, kw: Kwargs)
    requires createArgs(w1) != createArgs(w2)
    ensures Entry(createArgs, w1, (a, k) => a, args, kw) != Entry(createArgs, w2, (a, k) => a, args, kw)
  {
    var c1, c2 := createArgs(w1), createArgs(w2);
    assert Entry(createArgs, w1, (a, k) => a, args, kw) == Injected(c1, args);
    assert Entry(createArgs, w2, (a, k) => a, args, kw) == Injected(c2, args);
    if |c1| == |c2| {
      var i :| 0 <= i < |c1| && c1[i] != c2[i];
      assert Injected(c1, args)[i] != Injected(c2, args)[i];
    }
  }

  /**
   * Stacked `with_args` decorators: the outer wrapper prepends its arguments
   * first and the inner one prepends its own in front of them, so the
   * provider nearest the function supplies the leading arguments.
   */
  lemma {:induction false} NestedArgs<W, R>(outer: W -> seq<Value>, inner: W -> seq<Value>, w: W, fn: (seq<Value>, Kwargs) -> R, args: seq<Value>, kw: Kwargs)
    ensures Entry(outer, w, (a, k) => Entry(inner, w, fn, a, k), args, kw)
      == fn(inner(w) + outer(w) + args, kw)
  {
    assert Injected(inner(w), Injected(outer(w), args)) == inner(w) + outer(w) + args;
  }
}
