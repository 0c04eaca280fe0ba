/**
 * The `spectest` decorator: a test function that yields items is run either
 * plainly (every item is drained and nothing is returned) or in generator
 * mode, where the items are collected into an output dictionary that
 * becomes a test vector.
 */
module Spectest {
  import opened Wrappers
  import opened Values

  /** The reserved keyword argument that selects generator mode. */
  const ModeFlag := "generator_mode"

  /** The prefix stripped from a function name to make its description. */
  const TestPrefix := "test_"

  /** The key under which the description is stored. */
  const DescriptionKey := "description"

  /** A decorated test function: its `__name__` and what it yields for given arguments. */
  datatype TestFn = TestFn(name: string, body: (seq<Value>, Kwargs) -> seq<Item>)

  /** Python's `s.startswith(p)`. */
  predicate StartsWith(s: string, p: string)
  {
    |p| <= |s| && s[..|p|] == p
  }

  /**
   * The description written into a fresh output: the explicit one when the
   * decorator was given one (even an empty string), otherwise the function
   * name with a leading `test_` removed.
   */
  function Describe(description: Option<string>, name: string): (s: string)
    ensures description.Some? ==> s == description.value
    ensures description.None? && StartsWith(name, TestPrefix) ==> name == TestPrefix + s
    ensures description.None? && !StartsWith(name, TestPrefix) ==> s == name
  {
    match description
    case Some(d) => d
    case None => if StartsWith(name, TestPrefix) then name[|TestPrefix|..] else name
  }

  /** `kw.pop('generator_mode', False) is True`: only the boolean `True` selects generator mode. */
  predicate GeneratorMode(kw: Kwargs)
  {
    ModeFlag in kw && kw[ModeFlag] == Bool(true)
  }

  /** The keyword arguments the inner function receives once the flag has been popped. */
  function WithoutModeFlag(kw: Kwargs): (r: Kwargs)
    ensures ModeFlag !in r
    ensures r.Keys == kw.Keys - {ModeFlag}
    ensures forall k :: k in r ==> r[k] == kw[k]
  {
    kw - {ModeFlag}
  }

  /**
   * The value an item leaves in the output: a typed item is encoded as its
   * given type; an untyped one is encoded as its own class when that class
   * has `fields` (an SSZ container) and is kept as it is otherwise.
   */
  function Stored(item: Item, c: Codec): Value
  {
    match item
    case Typed(_, v, t) => c.encode(v, t)
    case Untyped(_, v) => if c.hasFields(ClassOf(v)) then c.encode(v, ClassOf(v)) else v
  }

  /** The encoder call, if any, that storing one item makes: `(value, typ)`. */
  function CallFor(item: Item, c: Codec): seq<(Value, TypeName)>
  {
    match item
    case Typed(_, v, t) => [(v, t)]
    case Untyped(_, v) => if c.hasFields(ClassOf(v)) then [(v, ClassOf(v))] else []
  }

  /**
   * The encoder calls that collecting `items` makes, in order: one per item
   * that is typed or whose class has `fields`, including items whose key a
   * later item overwrites.
   */
  function EncodeCalls(items: seq<Item>, c: Codec): (r: seq<(Value, TypeName)>)
    ensures |r| <= |items|
    decreases |items|
  {
    if items == [] then []
    else EncodeCalls(items[..|items| - 1], c) + CallFor(items[|items| - 1], c)
  }

  /** The keys of a sequence of items. */
  function KeysOf(items: seq<Item>): set<string>
  {
    set i | 0 <= i < |items| :: items[i].key
  }

  /** The output dictionary before any item has been collected. */
  function Initial(description: Option<string>, name: string): Output
  {
    map[DescriptionKey := Str(Describe(description, name))]
  }

  /** The output after storing `items`, in order, on top of `init`. */
  function Collect(init: Output, items: seq<Item>, c: Codec): (r: Output)
    ensures r.Keys == init.Keys + KeysOf(items)
    decreases |items|
  {
    if items == [] then init
    else
      var last := items[|items| - 1];
      Collect(init, items[..|items| - 1], c)[last.key := Stored(last, c)]
  }

  /** The index of the last item with key `k`, if any. */
  function LastWith(items: seq<Item>, k: string): (r: Option<nat>)
    ensures r.None? <==> k !in KeysOf(items)
    ensures r.Some? ==> r.value < |items| && items[r.value].key == k
    ensures r.Some? ==> forall i :: r.value < i < |items| ==> items[i].key != k
    decreases |items|
  {
    if items == [] then None
    else if items[|items| - 1].key == k then Some(|items| - 1)
    else LastWith(items[..|items| - 1], k)
  }

  /** What a call of the decorated function returns (`None` in plain mode). */
  function Outcome(description: Option<string>, fn: TestFn, args: seq<Value>, kw: Kwargs, c: Codec): Option<Output>
  {
    if GeneratorMode(kw) then
      Some(Collect(Initial(description, fn.name), fn.body(args, WithoutModeFlag(kw)), c))
    else
      None
  }

  /**
   * The wrapper `spectest(description)(fn)` calls. `drained` counts the items
   * it took from the inner function: every one of them, in either mode.
   * `calls` lists the arguments of each call it made to the encoder, in order.
   */
  method Entry(description: Option<string>, fn: TestFn, args: seq<Value>, kw: Kwargs, c: Codec)
    returns (result: Option<Output>, drained: nat, calls: seq<(Value, TypeName)>)
    ensures result == Outcome(description, fn, args, kw, c)
    ensures GeneratorMode(kw) <==> result.Some?
    ensures drained == |fn.body(args, WithoutModeFlag(kw))|
    ensures calls == if GeneratorMode(kw) then EncodeCalls(fn.body(args, WithoutModeFlag(kw)), c) else []
  {
    var generator := ModeFlag in kw && kw[ModeFlag] == Bool(true);
    var inner := kw - {ModeFlag};
    var items := fn.body(args, inner);
    if generator {
      var out: Output := map[];
      if description.None? {
        var name := fn.name;
        if |TestPrefix| <= |name| && name[..|TestPrefix|] == TestPrefix {
          name := name[5..];
        }
        out := out[DescriptionKey := Str(name)];
      } else {
        out := out[DescriptionKey := Str(description.value)];
      }
      ghost var init := out;
      assert init == Initial(description, fn.name);
      var i := 0;
      calls := [];
      while i < |items|
        invariant 0 <= i <= |items|
        invariant out == Collect(init, items[..i], c)
        invariant calls == EncodeCalls(items[..i], c)
      {
        var data := items[i];
        var stored: Value;
        match data {
          case Typed(key, value, typ) =>
            stored := c.encode(value, typ);
            calls := calls + [(value, typ)];
          case Untyped(key, value) =>
            if c.hasFields(ClassOf(value)) {
              stored := c.encode(value, ClassOf(value));
              calls := calls + [(value, ClassOf(value))];
            } else {
              stored := value;
            }
        }
        CollectStep(init, items, i, c);
        out := out[data.key := stored];
        i := i + 1;
      }
      assert items[..i] == items;
      result, drained := Some(out), i;
    } else {
      var i := 0;
      while i < |items|
        invariant 0 <= i <= |items|
      {
        i := i + 1;
      }
      result, drained, calls := None, i, [];
    }
  }

  /** Collecting one more item stores it on top of what the earlier items left. */
  lemma CollectStep(init: Output, items: seq<Item>, i: nat, c: Codec)
    requires i < |items|
    ensures Collect(init, items[..i + 1], c) == Collect(init, items[..i], c)[items[i].key := Stored(items[i], c)]
    ensures EncodeCalls(items[..i + 1], c) == EncodeCalls(items[..i], c) + CallFor(items[i], c)
  {
    assert items[..i + 1][..i] == items[..i];
  }

  /**
   * After collection, a key holds the value stored by the last item that has
   * it, or its initial value when no item has it.
   */
  lemma {:induction false} CollectAt(init: Output, items: seq<Item>, c: Codec, k: string)
    requires k in init || k in KeysOf(items)
    ensures k in Collect(init, items, c)
    ensures Collect(init, items, c)[k] ==
      match LastWith(items, k)
      case Some(j) => Stored(items[j], c)
      case None => init[k]
  {
    if items != [] {
      var front := items[..|items| - 1];
      if items[|items| - 1].key != k {
        assert k in KeysOf(items) ==> k in KeysOf(front) by {
          if k in KeysOf(items) {
            var i :| 0 <= i < |items| && items[i].key == k;
            assert front[i].key == k;
          }
        }
        CollectAt(init, front, c, k);
      }
    }
  }

  /** A typed item `(k, v, t)` not followed by another item with key `k` leaves `encode(v, t)` under `k`. */
  lemma TypedItemStored(init: Output, items: seq<Item>, c: Codec, j: nat)
    requires j < |items| && items[j].Typed?
    requires forall i :: j < i < |items| ==> items[i].key != items[j].key
    ensures Collect(init, items, c)[items[j].key] == c.encode(items[j].value, items[j].typ)
  {
    assert items[j].key in KeysOf(items);
    CollectAt(init, items, c, items[j].key);
  }

  /**
   * An untyped item `(k, v)` not followed by another item with key `k` leaves
   * `encode(v, class(v))` under `k` when the class has `fields`, and `v` itself otherwise.
   */
  lemma UntypedItemStored(init: Output, items: seq<Item>, c: Codec, j: nat)
    requires j < |items| && items[j].Untyped?
    requires forall i :: j < i < |items| ==> items[i].key != items[j].key
    ensures var v := items[j].value;
      Collect(init, items, c)[items[j].key] ==
        if c.hasFields(ClassOf(v)) then c.encode(v, ClassOf(v)) else v
  {
    assert items[j].key in KeysOf(items);
    CollectAt(init, items, c, items[j].key);
  }

  /**
   * In generator mode the output holds exactly `description` and the keys of
   * the yielded items; in any other mode the call returns `None`.
   */
  lemma OutcomeKeys(description: Option<string>, fn: TestFn, args: seq<Value>, kw: Kwargs, c: Codec)
    ensures var r := Outcome(description, fn, args, kw, c);
      if GeneratorMode(kw) then
        r.Some? && r.value.Keys == {DescriptionKey} + KeysOf(fn.body(args, WithoutModeFlag(kw)))
      else r == None
  {
  }

  /**
   * The `description` entry of a generator-mode output: the derived
   * description, unless an item with key `description` overrides it, in
   * which case the last such item wins.
   */
  lemma DescriptionEntry(description: Option<string>, fn: TestFn, args: seq<Value>, kw: Kwargs, c: Codec)
    requires GeneratorMode(kw)
    ensures var items := fn.body(args, WithoutModeFlag(kw));
      var out := Outcome(description, fn, args, kw, c).value;
      DescriptionKey in out &&
      out[DescriptionKey] ==
        match LastWith(items, DescriptionKey)
        case Some(j) => Stored(items[j], c)
        case None => Str(Describe(description, fn.name))
  {
    var items := fn.body(args, WithoutModeFlag(kw));
    CollectAt(Initial(description, fn.name), items, c, DescriptionKey);
  }

  /** With no explicit description and no `description` item, a function `test_X` is described as `X`. */
  lemma DescriptionFromName(fn: TestFn, args: seq<Value>, kw: Kwargs, c: Codec, x: string)
    requires GeneratorMode(kw) && fn.name == TestPrefix + x
    requires DescriptionKey !in KeysOf(fn.body(args, WithoutModeFlag(kw)))
    ensures Outcome(None, fn, args, kw, c).value[DescriptionKey] == Str(x)
  {
    DescriptionEntry(None, fn, args, kw, c);
    assert StartsWith(fn.name, TestPrefix);
  }

  /** An explicit description is used whatever the function is called. */
  lemma DescriptionExplicit(d: string, fn: TestFn, args: seq<Value>, kw: Kwargs, c: Codec)
    requires GeneratorMode(kw)
    requires DescriptionKey !in KeysOf(fn.body(args, WithoutModeFlag(kw)))
    ensures Outcome(Some(d), fn, args, kw, c).value[DescriptionKey] == Str(d)
  {
    DescriptionEntry(Some(d), fn, args, kw, c);
  }

  /**
   * The inner function never sees the mode flag: whatever the flag holds, or
   * whether it is there at all, the inner function gets the same arguments
   * and so yields the same items; plain mode drains exactly the items that
   * generator mode collects.
   */
  lemma ModeFlagHidden(description: Option<string>, fn: TestFn, args: seq<Value>, kw1: Kwargs, kw2: Kwargs, c: Codec)
    requires kw1 - {ModeFlag} == kw2 - {ModeFlag}
    ensures fn.body(args, WithoutModeFlag(kw1)) == fn.body(args, WithoutModeFlag(kw2))
    ensures GeneratorMode(kw1) ==>
      Outcome(description, fn, args, kw1, c) == Some(Collect(Initial(description, fn.name), fn.body(args, WithoutModeFlag(kw2)), c))
  {
  }

  /**
   * A test yielding only typed items makes exactly one encoder call per item,
   * in order, with the item's value and type, even where a later item
   * overwrites the key.
   */
  lemma {:induction false} EncodeCallsTyped(items: seq<Item>, c: Codec)
    requires forall i :: 0 <= i < |items| ==> items[i].Typed?
    ensures |EncodeCalls(items, c)| == |items|
    ensures forall i :: 0 <= i < |items| ==> EncodeCalls(items, c)[i] == (items[i].value, items[i].typ)
  {
    if items != [] {
      var front := items[..|items| - 1];
      EncodeCallsTyped(front, c);
    }
  }

  /**
   * A test yielding only untyped items whose classes lack `fields` makes no
   * encoder call, and each such item's value is stored as it was yielded.
   */
  lemma {:induction false} EncodeCallsRaw(items: seq<Item>, c: Codec)
    requires forall i :: 0 <= i < |items| ==> items[i].Untyped? && !c.hasFields(ClassOf(items[i].value))
    ensures EncodeCalls(items, c) == []
  {
    if items != [] {
      EncodeCallsRaw(items[..|items| - 1], c);
    }
  }
}
