# Test-vector decorators of the Ethereum 2.0 Python spec tests, in Dafny

This project models the three decorators in `test_libs/pyspec/eth2spec/test/utils.py`. Test functions for the executable spec use them to produce test vectors:

- `spectest(description)` runs a test function that yields items. It runs in one of two modes:
  - plain mode drains every item and returns `None`;
  - generator mode (keyword `generator_mode=True`) collects the items into an output dictionary headed by a `description` entry.
- `with_tags(tags)` puts a fixed dictionary of tags under the output of the wrapped function. A `None` output is passed through.
- `with_args(create_args)` calls a provider on every call and puts its arguments in front of the caller's positional arguments.

Modules:

- `Wrappers`: `Option`, standing for Python's `None` versus a present value.
- `Values`: Python values (`Bool`, `Int`, `Str`, or another `Object` with its class), keyword arguments, output dictionaries and yielded items. It also holds the `Codec`, which carries the two outside collaborators: the SSZ `encode(value, typ)` and the probe `hasattr(cls, 'fields')`. A codec is a pair of total functions passed in as a parameter, so nothing is assumed about them.
- `Spectest`: the description, the mode flag, the collection of items and the `Entry` method. `Entry` runs the source's two loops and is proved equal to the specification function `Outcome`, which is built on the fold `Collect`.
- `WithTags`: the overlay `{**tags, **fn_out}` and the tagged entry.
- `WithArgs`: argument injection.
- `Scenarios`: the decorators stacked, and the two worked examples of a tagged test vector.

How the source is represented:

- A decorated test function is its `__name__` together with a function from (positional arguments, keyword arguments) to the finite sequence of items it yields.
- A 2-element item is `Untyped(key, value)` and a 3-element item is `Typed(key, value, typ)`.
- The mode test is `kw.pop('generator_mode', False) is True`. It is an identity test, so only the boolean `True` selects generator mode: `1` does not, and neither does any other value. Either way the flag is removed before the inner function is called.
- The provider of `with_args` is a function of the state of the world at the call (random seeds, fixtures). `WithArgs.Entry` applies it on every call.
- Any value of the flag other than the object `True`, such as `1`, `False` or a missing flag, selects plain mode.

## Model

| member | source | states |
|---|---|---|
| `Spectest.Describe` | test_libs/pyspec/eth2spec/test/utils.py:13-21 | An explicit description is used as it is (even an empty one). Otherwise, a name starting with `test_` is `test_` followed by the description, and any other name is the description unchanged. |
| `Spectest.WithoutModeFlag` | test_libs/pyspec/eth2spec/test/utils.py:11 | The inner function's keyword arguments are the caller's without `generator_mode`. Every other keyword keeps its value. |
| `Spectest.Collect` | test_libs/pyspec/eth2spec/test/utils.py:23-34 | Collecting items keeps every initial key and adds the key of every item, and adds nothing else. |
| `Spectest.Entry` | test_libs/pyspec/eth2spec/test/utils.py:8-39 | The wrapper returns a dictionary exactly when the flag is the boolean `True`. That dictionary is the description entry followed by every yielded item stored in order. Otherwise it returns `None`. In both modes it takes every item the inner function yields. It calls the encoder with exactly the arguments `EncodeCalls` lists in generator mode, and never in plain mode. |
| `Spectest.CollectAt` | test_libs/pyspec/eth2spec/test/utils.py:23-34 | After collection, a key holds the value stored by the last item with that key (last write wins). A key no item has keeps its initial value. |
| `Spectest.TypedItemStored` | test_libs/pyspec/eth2spec/test/utils.py:25-27 | An item `(k, v, t)` that no later item with key `k` follows leaves `encode(v, t)` under `k`. |
| `Spectest.UntypedItemStored` | test_libs/pyspec/eth2spec/test/utils.py:29-34 | An item `(k, v)` that no later item with key `k` follows leaves `encode(v, class(v))` under `k` when that class has `fields`, and `v` itself otherwise. |
| `Spectest.OutcomeKeys` | test_libs/pyspec/eth2spec/test/utils.py:11-39 | In generator mode the output's keys are `description` plus the keys of the yielded items, and nothing else. In any other mode the result is `None`. |
| `Spectest.DescriptionEntry` | test_libs/pyspec/eth2spec/test/utils.py:12-34 | The output's `description` is the derived description, unless an item has the key `description`; then the last such item's value replaces it. |
| `Spectest.DescriptionFromName` | test_libs/pyspec/eth2spec/test/utils.py:13-18 | With no explicit description, a function named `test_X` is described as `X`. |
| `Spectest.DescriptionExplicit` | test_libs/pyspec/eth2spec/test/utils.py:19-21 | An explicit description `D` becomes the `description` entry, whatever the function's name. |
| `Spectest.ModeFlagHidden` | test_libs/pyspec/eth2spec/test/utils.py:9-11 | Calls whose keyword arguments differ only in the flag (its value or its absence) hand the inner function the same keywords, so it yields the same items. Plain mode therefore drains exactly what generator mode would collect, and a generator-mode output is the collection of those items. |
| `Spectest.EncodeCallsTyped` | test_libs/pyspec/eth2spec/test/utils.py:25-27 | A test yielding only typed items calls the encoder exactly once per item, in order, with that item's value and type. This includes items whose key a later item overwrites. |
| `Spectest.EncodeCallsRaw` | test_libs/pyspec/eth2spec/test/utils.py:29-34 | A test yielding only untyped items whose classes lack `fields` makes no encoder call. |
| `WithTags.Overlay` | test_libs/pyspec/eth2spec/test/utils.py:58 | The merged dictionary has every key of the tags and of the output. The output's value wins on a shared key, and a tag's value is used only where the output has no such key. |
| `WithTags.Entry` | test_libs/pyspec/eth2spec/test/utils.py:53-58 | A `None` result stays `None`, with no tags added. Any other result gets the tags under it, with the result's values winning. |
| `WithTags.OverlayFillsGaps` | test_libs/pyspec/eth2spec/test/utils.py:58 | The overlay equals the output plus only those tags whose keys the output lacks, taken in either order. |
| `WithTags.OverlayIdempotent` | test_libs/pyspec/eth2spec/test/utils.py:58 | Applying the same tags twice gives the same dictionary as applying them once. |
| `WithTags.NestedTags` | test_libs/pyspec/eth2spec/test/utils.py:52-58 | Two stacked `with_tags` act as one. Its tags are the outer ones overlaid by the inner ones, so the decorator nearer the function wins. |
| `WithArgs.Injected` | test_libs/pyspec/eth2spec/test/utils.py:72 | The positional arguments are all of the provided ones in order, followed by all of the caller's in order. |
| `WithArgs.Entry` | test_libs/pyspec/eth2spec/test/utils.py:71-72 | The provider is applied to the state at this call. The wrapped function is called with positional arguments that begin with the provided ones and continue with the caller's. The keyword arguments are unchanged. |
| `WithArgs.CallerArgsRecovered` | test_libs/pyspec/eth2spec/test/utils.py:72 | Splitting the injected arguments at the provider's length gives back the provided arguments and the caller's unchanged. |
| `WithArgs.FreshArgsPerCall` | test_libs/pyspec/eth2spec/test/utils.py:71-72 | The provider is not cached. Two calls in states where the provider returns different sequences pass different positional arguments to the wrapped function. |
| `WithArgs.NestedArgs` | test_libs/pyspec/eth2spec/test/utils.py:69-72 | With stacked `with_args`, the wrapped function receives the inner provider's arguments first, then the outer provider's, then the caller's. |
| `Scenarios.ExampleOutput` | test_libs/pyspec/eth2spec/test/utils.py:19-35 | Take `spectest("foo")` over a test that yields `("x", 5)` and then `("y", obj, t)`. In generator mode it returns `{"description": "foo", "x": 5, "y": encode(obj, t)}`. |
| `Scenarios.TaggedExampleOutput` | test_libs/pyspec/eth2spec/test/utils.py:54-58 | The same test under `with_tags({"fork": "phase0"})` returns the same dictionary plus `"fork": "phase0"`. |
| `Scenarios.TagsOverSpectest` | test_libs/pyspec/eth2spec/test/utils.py:53-58 | Under `with_tags`, a plain-mode call still returns `None`. A generator-mode call gains the tag keys and keeps its description and every yielded entry. |
| `Scenarios.ArgsOverSpectest` | test_libs/pyspec/eth2spec/test/utils.py:71-72 | Under `with_args`, the test body receives what the provider returns at this call, followed by the caller's arguments. The mode flag still reaches `spectest`. |

## Left out

- `encode` from `eth2spec.debug.encode` is not part of this model. It is a parameter of the collection (`Codec.encode`). The model fixes which arguments it is called with, one call per typed item or `fields`-bearing item, in order (`Spectest.EncodeCalls`). It also fixes that each result is stored verbatim. What it computes is left open.
- Python reflection is not modelled: `fn.__name__` is a field of `TestFn`, and `hasattr(value.__class__, 'fields')` is the parameter `Codec.hasFields`.
- Generator laziness is not modelled. A test's items are a finite sequence that is already materialised, and side effects and assertions that run while draining are invisible. The `drained` result of `Spectest.Entry` stands in for "every item was consumed", and its `calls` result records the encoder calls. The Python function returns only the dictionary or `None`.
- Exceptions are not modelled. They propagate unchanged from the inner function, the provider or the encoder, and this model has no failing calls.
- Malformed items (tuples whose length is neither 2 nor 3) cannot occur, because `Item` has exactly those two shapes.
- Dictionary insertion order is not modelled. Dafny maps are unordered, so the position of `description` and of the tags in the output is not captured.
- General `*args` / `**kw` calling conventions are reduced to a sequence of positional values and a keyword map.
- `with_args` and `with_tags` wrap without copying the wrapped function's name. A `spectest` applied over one of them would therefore see the name `entry`. The model takes the name as given and does not track it through wrappers.
