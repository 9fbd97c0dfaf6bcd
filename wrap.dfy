/**
  Wrap from error.go: a new annotated layer over an existing error, which
  takes over the cause's attributes and then runs the annotators in order
  on the record in place.
 */
module Wrapping {
  import opened Options
  import opened Errors
  import opened Annotators

  /** The attributes a cause hands over: an annotated cause's map, nothing from a foreign one. */
  function Inherited(cause: Err): (m: Attrs)
    ensures cause.Annotated? ==> m == cause.attrs
    ensures cause.Foreign? ==> m == map[]
  {
    match cause
    case Annotated(_, _, _, attrs) => attrs
    case Foreign(_, _) => map[]
  }

  /** The record before any annotator runs: empty message, the cause, a capture at the call site. */
  function Layer(cause: Err, site: seq<nat>): (e: Err)
    ensures e.Annotated? && e.cause == Some(cause)
    ensures e.stack == Callers(site) && |e.stack| <= MaxFrames
    ensures e.attrs == Inherited(cause)
    ensures Render(e) == Render(cause)
  {
    Annotated("", Some(cause), Callers(site), Inherited(cause))
  }

  /**
    The call stack a capture sees from inside an annotator run by Wrap:
    Wrap's own frame on top of its caller's.
   */
  function AnnotatorFrames(site: seq<nat>, wrapPC: nat): (frames: seq<nat>)
  {
    [wrapPC] + site
  }

  /** The value Wrap returns for a non-nil cause. */
  function Wrapped(cause: Err, anns: seq<Annotator>, site: seq<nat>, wrapPC: nat): (e: Err)
    ensures e.Annotated? && e.cause == Some(cause)
    ensures |e.stack| <= MaxFrames
  {
    var frames := AnnotatorFrames(site, wrapPC);
    ApplyAllKeepsCause(anns, Layer(cause, site), frames);
    StackAfterAnnotators(anns, Layer(cause, site), frames);
    ApplyAll(anns, Layer(cause, site), AnnotatorFrames(site, wrapPC))
  }

  /**
    Wrap(err, annotators...). `site` is the call stack of Wrap's caller and
    `wrapPC` the program counter of Wrap's annotator loop.
   */
  method Wrap(err: Option<Err>, annotators: seq<Annotator>, site: seq<nat>, wrapPC: nat) returns (r: Option<Err>)
    ensures r.None? <==> err.None?
    ensures err.Some? ==> r == Some(Wrapped(err.value, annotators, site, wrapPC))
    ensures Unwrap(r) == err
  {
    if err.None? {
      return None;
    }
    var e := new Error("", err, Callers(site), map[]);
    if err.value.Annotated? {
      e.attrs := err.value.attrs;
    }
    ghost var start := e.Snapshot();
    var frames := [wrapPC] + site;
    for i := 0 to |annotators|
      invariant e.Snapshot() == ApplyAll(annotators[..i], start, frames)
    {
      assert annotators[..i + 1][..i] == annotators[..i];
      Annotate(annotators[i], e, frames);
    }
    assert annotators[..|annotators|] == annotators;
    r := Some(e.Snapshot());
    UnwrapWrapped(err.value, annotators, site, wrapPC);
  }

  /** Unwrap(Wrap(e, anns...)) is e, whatever the annotators. */
  lemma UnwrapWrapped(cause: Err, anns: seq<Annotator>, site: seq<nat>, wrapPC: nat)
    ensures Unwrap(Some(Wrapped(cause, anns, site, wrapPC))) == Some(cause)
  {
    ApplyAllKeepsCause(anns, Layer(cause, site), AnnotatorFrames(site, wrapPC));
  }

  /** With no annotators the new layer renders exactly as its cause. */
  lemma WrapRendersAsCause(cause: Err, site: seq<nat>, wrapPC: nat)
    ensures Render(Wrapped(cause, [], site, wrapPC)) == Render(cause)
  {
    RenderLayer("", Some(cause), Callers(site), Inherited(cause));
  }

  /** With WithMessage(x) over a cause rendering y: "x: y", or whichever of x and y is non-empty. */
  lemma WrapWithMessageRenders(cause: Err, x: string, site: seq<nat>, wrapPC: nat)
    ensures var y := Render(cause);
            Render(Wrapped(cause, [WithMessage(x)], site, wrapPC)) ==
              if x != "" && y != "" then x + ": " + y
              else if x != "" then x
              else y
  {
    ApplyOne(WithMessage(x), Layer(cause, site), AnnotatorFrames(site, wrapPC));
    RenderLayer(x, Some(cause), Callers(site), Inherited(cause));
  }

  /**
    With no annotators the new layer carries the cause's attributes when
    the cause is annotated and none when it is foreign.
   */
  lemma WrapTakesOverAttrs(cause: Err, site: seq<nat>, wrapPC: nat)
    ensures Wrapped(cause, [], site, wrapPC).attrs == if cause.Annotated? then cause.attrs else map[]
  {
  }

  /**
    The layer's stack is a capture at Wrap's call site, not the cause's,
    unless a WithStack later captures from inside Wrap; so it does not
    depend on the cause and it keeps the MaxFrames bound.
   */
  lemma WrapStack(cause: Err, anns: seq<Annotator>, site: seq<nat>, wrapPC: nat)
    ensures var s := Wrapped(cause, anns, site, wrapPC).stack;
            s == (if exists j :: 0 <= j < |anns| && anns[j].WithStack?
                  then Callers(AnnotatorFrames(site, wrapPC)) else Callers(site))
    ensures |Wrapped(cause, anns, site, wrapPC).stack| <= MaxFrames
  {
    StackAfterAnnotators(anns, Layer(cause, site), AnnotatorFrames(site, wrapPC));
  }

  /** Wrapping a chain whose layers respect the stack bound gives one that does too. */
  lemma WrapBounded(cause: Err, anns: seq<Annotator>, site: seq<nat>, wrapPC: nat)
    requires Bounded(cause)
    ensures Bounded(Wrapped(cause, anns, site, wrapPC))
  {
    WrapStack(cause, anns, site, wrapPC);
    UnwrapWrapped(cause, anns, site, wrapPC);
  }

  /**
    Replace semantics as written: WithAttrs({key1: v111, key3: v3}) over a
    cause with {key1: v1, key2: v2} leaves exactly the new map, and the
    cause's own map is untouched.
   */
  lemma WithAttrsReplaces(cause: Err, m: Attrs, site: seq<nat>, wrapPC: nat)
    ensures Wrapped(cause, [WithAttrs(m)], site, wrapPC).attrs == m
    ensures Unwrap(Some(Wrapped(cause, [WithAttrs(m)], site, wrapPC))) == Some(cause)
  {
    UnwrapWrapped(cause, [WithAttrs(m)], site, wrapPC);
  }

  /**
    Merge semantics the tests expect (errors_test.go:157-185): over a cause
    carrying {key1: v1, key2: v2}, the pairs (key1, v111), (key3, v3) give
    {key1: v111, key2: v2, key3: v3}: the outer key wins, inherited keys stay.
   */
  lemma WithAttrsMergeOverwrites(base: Err, v1: Value, v2: Value, v111: Value, v3: Value,
                                 site: seq<nat>, wrapPC: nat)
    requires base.Annotated? && base.attrs == map["key1" := v1, "key2" := v2]
    ensures var e := Wrapped(base, [WithAttrsMerge([Attr("key1", v111), Attr("key3", v3)])], site, wrapPC);
            e.attrs == map["key1" := v111, "key2" := v2, "key3" := v3]
  {
    var pairs := [Attr("key1", v111), Attr("key3", v3)];
    assert pairs[..1] == [Attr("key1", v111)];
    assert pairs[..1][..0] == [];
    assert FromPairs(pairs[..1]) == map["key1" := v111];
    assert FromPairs(pairs) == map["key1" := v111, "key3" := v3];
    ApplyOne(WithAttrsMerge(pairs), Layer(base, site), AnnotatorFrames(site, wrapPC));
  }

  /**
    Attributes set on an inner layer reach the outer one through a plain
    Wrap (errors_test.go:140-155).
   */
  lemma AttrsSurviveRewrap(base: Err, pairs: seq<Attr>, site1: seq<nat>, pc1: nat, site2: seq<nat>, pc2: nat)
    requires base.Annotated? && base.attrs == map[]
    ensures var inner := Wrapped(base, [WithAttrsMerge(pairs)], site1, pc1);
            Wrapped(inner, [], site2, pc2).attrs == FromPairs(pairs)
  {
    ApplyOne(WithAttrsMerge(pairs), Layer(base, site1), AnnotatorFrames(site1, pc1));
    assert map[] + FromPairs(pairs) == FromPairs(pairs);
  }
}
