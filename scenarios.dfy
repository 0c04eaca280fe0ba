/**
 * The decorators stacked as the test suites stack them, and the two worked
 * examples of a tagged test vector.
 */
module Scenarios {
  import opened Wrappers
  import opened Values
  import Spectest
  import WithTags
  import WithArgs

  /** A test that yields `("x", 5)` and then `("y", obj, t)`. */
  function ExampleFn(name: string, obj: Value, t: TypeName): Spectest.TestFn
  {
    Spectest.TestFn(name, (a, k) => [Untyped("x", Int(5)), Typed("y", obj, t)])
  }

  /**
   * `spectest("foo")` over the example test, in generator mode, returns
   * `{"description": "foo", "x": 5, "y": encode(obj, t)}` (`int` has no `fields`).
   */
  lemma {:induction false} ExampleOutput(name: string, obj: Value, t: TypeName, args: seq<Value>, kw: Kwargs, c: Codec)
    requires Spectest.GeneratorMode(kw) && !c.hasFields("int")
    ensures Spectest.Outcome(Some("foo"), ExampleFn(name, obj, t), args, kw, c)
      == Some(map["description" := Str("foo"), "x" := Int(5), "y" := c.encode(obj, t)])
  {
    var items := ExampleFn(name, obj, t).body(args, Spectest.WithoutModeFlag(kw));
    assert items == [Untyped("x", Int(5)), Typed("y", obj, t)];
    var init := Spectest.Initial(Some("foo"), name);
    assert init == map["description" := Str("foo")];
    assert items[..1][..0] == [];
    assert Spectest.Collect(init, items[..1], c) == init["x" := Int(5)];
    assert items[..|items| - 1] == items[..1];
    assert Spectest.Collect(init, items, c) == init["x" := Int(5)]["y" := c.encode(obj, t)];
  }

  /** The same test under `with_tags({"fork": "phase0"})` also carries the tag. */
  lemma {:induction false} TaggedExampleOutput(name: string, obj: Value, t: TypeName, args: seq<Value>, kw: Kwargs, c: Codec)
    requires Spectest.GeneratorMode(kw) && !c.hasFields("int")
    ensures WithTags.Entry(map["fork" := Str("phase0")],
                           (a, k) => Spectest.Outcome(Some("foo"), ExampleFn(name, obj, t), a, k, c), args, kw)
      == Some(map["fork" := Str("phase0"), "description" := Str("foo"), "x" := Int(5), "y" := c.encode(obj, t)])
  {
    ExampleOutput(name, obj, t, args, kw, c);
    var out := map["description" := Str("foo"), "x" := Int(5), "y" := c.encode(obj, t)];
    var expected := map["fork" := Str("phase0"), "description" := Str("foo"), "x" := Int(5), "y" := c.encode(obj, t)];
    assert WithTags.Overlay(map["fork" := Str("phase0")], out) == expected;
  }

  /**
   * `with_tags` over `spectest`: in plain mode the call still returns `None`;
   * in generator mode the tags are added but never replace the description
   * or any yielded item.
   */
  lemma TagsOverSpectest(tags: Output, description: Option<string>, fn: Spectest.TestFn, args: seq<Value>, kw: Kwargs, c: Codec)
    ensures var inner := Spectest.Outcome(description, fn, args, kw, c);
      var r := WithTags.Entry(tags, (a, k) => Spectest.Outcome(description, fn, a, k, c), args, kw);
      if Spectest.GeneratorMode(kw) then
        && r.Some?
        && r.value.Keys == tags.Keys + {"description"} + Spectest.KeysOf(fn.body(args, Spectest.WithoutModeFlag(kw)))
        && r.value["description"] == inner.value["description"]
        && forall k :: k in inner.value ==> r.value[k] == inner.value[k]
      else r == None
  {
    var wrapped := (a, k) => Spectest.Outcome(description, fn, a, k, c);
    assert wrapped(args, kw) == Spectest.Outcome(description, fn, args, kw, c);
    Spectest.OutcomeKeys(description, fn, args, kw, c);
  }

  /**
   * `with_args` over `spectest`: the test body receives the provided
   * arguments followed by the caller's, and the mode flag still reaches the
   * spectest wrapper because keyword arguments pass through.
   */
  lemma ArgsOverSpectest<W>(createArgs: W -> seq<Value>, w: W, description: Option<string>, fn: Spectest.TestFn, args: seq<Value>, kw: Kwargs, c: Codec)
    ensures WithArgs.Entry(createArgs, w, (a, k) => Spectest.Outcome(description, fn, a, k, c), args, kw)
      == Spectest.Outcome(description, fn, createArgs(w) + args, kw, c)
  {
    WithArgs.CallerArgsRecovered(createArgs(w), args);
  }
}
