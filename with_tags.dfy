/**
 * The `with_tags` decorator: static tags, fixed when the decorator is
 * applied, are placed under the output of the wrapped function, so that
 * the function's own keys win.
 */
module WithTags {
  import opened Wrappers
  import opened Values

  /** `{**tags, **fn_out}`: every key of either, the output's value where both have one. */
  function Overlay(tags: Output, fnOut: Output): (r: Output)
    ensures r.Keys == tags.Keys + fnOut.Keys
    ensures forall k :: k in fnOut ==> r[k] == fnOut[k]
    ensures forall k :: k in tags && k !in fnOut ==> r[k] == tags[k]
  {
    tags + fnOut
  }

  /**
   * The wrapper `with_tags(tags)(fn)` calls: the arguments go to `fn`
   * untouched; a `None` result is passed through and gets no tags.
   */
  function Entry(tags: Output, fn: (seq<Value>, Kwargs) -> Option<Output>, args: seq<Value>, kw: Kwargs): (r: Option<Output>)
    ensures fn(args, kw).None? ==> r.None?
    ensures fn(args, kw).Some? ==> r.Some?
    ensures fn(args, kw).Some? ==> forall k :: k in r.value <==> k in tags || k in fn(args, kw).value
    ensures fn(args, kw).Some? ==> forall k :: k in fn(args, kw).value ==> r.value[k] == fn(args, kw).value[k]
    ensures fn(args, kw).Some? ==> forall k :: k in tags && k !in fn(args, kw).value ==> r.value[k] == tags[k]
  {
    var fnOut := fn(args, kw);
    if fnOut.None? then fnOut else Some(Overlay(tags, fnOut.value))
  }

  /** The result is the same whichever way round the overlay is built, once the
      output's keys are removed from the tags: the tags only fill gaps. */
  lemma {:induction false} OverlayFillsGaps(tags: Output, fnOut: Output)
    ensures Overlay(tags, fnOut) == (tags - fnOut.Keys) + fnOut
    ensures Overlay(tags, fnOut) == fnOut + (tags - fnOut.Keys)
  {
    var r := Overlay(tags, fnOut);
    var s := fnOut + (tags - fnOut.Keys);
    assert r.Keys == s.Keys;
    forall k | k in r ensures r[k] == s[k] {
      if k !in fnOut { assert k in tags - fnOut.Keys; }
    }
  }

  /** Applying the same tags twice adds nothing. */
  lemma {:induction false} OverlayIdempotent(tags: Output, fnOut: Output)
    ensures Overlay(tags, Overlay(tags, fnOut)) == Overlay(tags, fnOut)
  {
    var once := Overlay(tags, fnOut);
    var twice := Overlay(tags, once);
    assert twice.Keys == once.Keys;
    forall k | k in twice ensures twice[k] == once[k] { }
  }

  /**
   * Two stacked `with_tags` decorators act as one whose tags are the outer
   * ones overlaid by the inner ones: the decorator nearer the function wins.
   */
  lemma {:induction false} NestedTags(outer: Output, inner: Output, fn: (seq<Value>, Kwargs) -> Option<Output>, args: seq<Value>, kw: Kwargs)
    ensures Entry(outer, (a, k) => Entry(inner, fn, a, k), args, kw) == Entry(Overlay(outer, inner), fn, args, kw)
  {
    var fnOut := fn(args, kw);
    if fnOut.Some? {
      var m := fnOut.value;
      var lhs := Overlay(outer, Overlay(inner, m));
      var rhs := Overlay(Overlay(outer, inner), m);
      assert lhs.Keys == rhs.Keys;
      forall k | k in lhs ensures lhs[k] == rhs[k] { }
      assert lhs == rhs;
      assert Entry(inner, fn, args, kw) == Some(Overlay(inner, m));
      assert Entry(outer, (a, k) => Entry(inner, fn, a, k), args, kw) == Some(lhs);
      assert Entry(Overlay(outer, inner), fn, args, kw) == Some(rhs);
    }
  }
}
