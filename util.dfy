/**
  BaseStackTrace from util.go: walk the cause chain and return the stack of
  the deepest layer that has a non-empty one, stopping at the first error
  that exposes no stack.
 */
module BaseStack {
  import opened Options
  import opened Errors
  import opened Annotators
  import opened Wrapping

  /** BaseStackTrace: empty for nil, otherwise the chain walk. */
  function BaseStackTrace(err: Option<Err>): (r: Stack)
    ensures err.None? ==> r == []
    ensures r == [] || OwnStackOfVisible(err, r)
  {
    if err.None? then []
    else
      Walk(err)
  }

  /**
    baseStackTrace: an error without a stack (nil or foreign) gives
    nothing; otherwise the child's result if it is non-empty, else this
    layer's own stack.
   */
  function Walk(err: Option<Err>): (r: Stack)
    ensures err.None? || err.value.Foreign? ==> r == []
    ensures r == [] || OwnStackOfVisible(err, r)
    decreases err
  {
    match err
    case None => []
    case Some(Foreign(_, _)) => []
    case Some(Annotated(_, cause, stack, _)) =>
      var child := Walk(Unwrap(err));
      assert Visible(err) == [err.value] + Visible(cause);
      if |child| == 0 then stack
      else
        var k :| 0 <= k < |Visible(cause)| && Visible(cause)[k].stack == child;
        assert Visible(err)[k + 1].stack == child;
        child
  }

  /**
    The annotated layers reached from `err` by Unwrap before the chain ends
    or meets an error exposing no stack, outermost first; each one's cause
    is the next.
   */
  function Visible(err: Option<Err>): (layers: seq<Err>)
    ensures forall i :: 0 <= i < |layers| ==> layers[i].Annotated?
    ensures |layers| > 0 <==> err.Some? && err.value.Annotated?
    ensures |layers| > 0 ==> layers[0] == err.value
    ensures forall i :: 0 <= i < |layers| - 1 ==> layers[i].cause == Some(layers[i + 1])
    decreases err
  {
    if err.None? || err.value.Foreign? then [] else [err.value] + Visible(err.value.cause)
  }

  /** `r` is the stack of one of the visible layers of `err`. */
  ghost predicate OwnStackOfVisible(err: Option<Err>, r: Stack)
  {
    exists i :: 0 <= i < |Visible(err)| && Visible(err)[i].stack == r
  }

  /**
    `r` is the base stack of `layers`: the stack of a layer with a non-empty
    stack below which every stack is empty, or empty when no layer has one.
   */
  ghost predicate IsBaseStack(layers: seq<Err>, r: Stack)
    requires forall i :: 0 <= i < |layers| ==> layers[i].Annotated?
  {
    if r == [] then
      forall i :: 0 <= i < |layers| ==> layers[i].stack == []
    else
      exists i :: 0 <= i < |layers| && layers[i].stack == r &&
        forall j :: i < j < |layers| ==> layers[j].stack == []
  }

  /** At most one stack is the base stack of a list of layers. */
  lemma BaseStackUnique(layers: seq<Err>, r1: Stack, r2: Stack)
    requires forall i :: 0 <= i < |layers| ==> layers[i].Annotated?
    requires IsBaseStack(layers, r1) && IsBaseStack(layers, r2)
    ensures r1 == r2
  {
  }

  /** The walk returns exactly the base stack of the visible layers. */
  lemma {:induction false} WalkFindsBaseStack(err: Option<Err>)
    ensures IsBaseStack(Visible(err), BaseStackTrace(err))
    decreases err
  {
    match err
    case None =>
    case Some(Foreign(_, _)) =>
    case Some(Annotated(_, cause, stack, _)) =>
      var layers, below := Visible(err), Visible(cause);
      WalkFindsBaseStack(cause);
      assert layers == [err.value] + below;
      assert forall j :: 0 < j < |layers| ==> layers[j] == below[j - 1];
      var child := Walk(cause);
      assert BaseStackTrace(cause) == child;
      if child == [] {
        assert forall j :: 0 < j < |layers| ==> layers[j].stack == [];
        if stack != [] {
          assert layers[0].stack == stack;
        }
      } else {
        var k :| 0 <= k < |below| && below[k].stack == child &&
          forall j :: k < j < |below| ==> below[j].stack == [];
        assert layers[k + 1].stack == child;
      }
  }

  /** Whether a list of layers holds a stack depends only on the layers' stacks. */
  lemma SameStacksSameBase(l1: seq<Err>, l2: seq<Err>, r: Stack)
    requires forall i :: 0 <= i < |l1| ==> l1[i].Annotated?
    requires forall i :: 0 <= i < |l2| ==> l2[i].Annotated?
    requires |l1| == |l2| && forall i :: 0 <= i < |l1| ==> l1[i].stack == l2[i].stack
    ensures IsBaseStack(l1, r) ==> IsBaseStack(l2, r)
  {
    if r != [] && IsBaseStack(l1, r) {
      var i :| 0 <= i < |l1| && l1[i].stack == r && forall j :: i < j < |l1| ==> l1[j].stack == [];
      assert l2[i].stack == r;
    }
  }

  /**
    Only the stacks of the visible layers matter: two chains whose visible
    layers carry the same stacks have the same result, however they differ
    elsewhere (messages, attributes, and everything below a foreign error).
   */
  lemma BaseStackTraceHidesBelowForeign(a: Option<Err>, b: Option<Err>)
    requires |Visible(a)| == |Visible(b)|
    requires forall i :: 0 <= i < |Visible(a)| ==> Visible(a)[i].stack == Visible(b)[i].stack
    ensures BaseStackTrace(a) == BaseStackTrace(b)
  {
    WalkFindsBaseStack(a);
    WalkFindsBaseStack(b);
    SameStacksSameBase(Visible(a), Visible(b), BaseStackTrace(a));
    BaseStackUnique(Visible(b), BaseStackTrace(a), BaseStackTrace(b));
  }

  /** A wrap over a foreign error reports the same stack whatever that error wraps. */
  lemma ForeignInnerIgnored(text: string, inner1: Option<Err>, inner2: Option<Err>,
                            anns: seq<Annotator>, site: seq<nat>, wrapPC: nat)
    ensures BaseStackTrace(Some(Wrapped(Foreign(text, inner1), anns, site, wrapPC))) ==
            BaseStackTrace(Some(Wrapped(Foreign(text, inner2), anns, site, wrapPC)))
  {
    var e1 := Wrapped(Foreign(text, inner1), anns, site, wrapPC);
    var e2 := Wrapped(Foreign(text, inner2), anns, site, wrapPC);
    WrapStack(Foreign(text, inner1), anns, site, wrapPC);
    WrapStack(Foreign(text, inner2), anns, site, wrapPC);
    assert Visible(Some(e1)) == [e1];
    assert Visible(Some(e2)) == [e2];
    BaseStackTraceHidesBelowForeign(Some(e1), Some(e2));
  }

  /** nil and foreign errors have no base stack (util_test.go:11-23). */
  lemma BaseStackTraceOfNilAndForeign(text: string, inner: Option<Err>)
    ensures BaseStackTrace(None) == []
    ensures BaseStackTrace(Some(Foreign(text, inner))) == []
  {
  }

  /** A root error's base stack is its own capture (util_test.go:25-38). */
  lemma BaseStackTraceOfNew(message: string, site: seq<nat>)
    ensures BaseStackTrace(Some(New(message, site))) == New(message, site).stack
  {
    var e := Some(New(message, site));
    assert Unwrap(e) == None;
    assert Walk(None) == [];
    assert Walk(e) == e.value.stack;
  }

  /** Wrapping never changes a non-empty base stack. */
  lemma BaseStackTraceThroughWrap(cause: Err, anns: seq<Annotator>, site: seq<nat>, wrapPC: nat)
    requires BaseStackTrace(Some(cause)) != []
    ensures BaseStackTrace(Some(Wrapped(cause, anns, site, wrapPC))) == BaseStackTrace(Some(cause))
  {
    UnwrapWrapped(cause, anns, site, wrapPC);
  }

  /** Over a cause without a base stack, the new layer's own stack is the base stack. */
  lemma BaseStackTraceOverEmpty(cause: Err, anns: seq<Annotator>, site: seq<nat>, wrapPC: nat)
    requires BaseStackTrace(Some(cause)) == []
    ensures var e := Wrapped(cause, anns, site, wrapPC);
            BaseStackTrace(Some(e)) == e.stack
  {
    UnwrapWrapped(cause, anns, site, wrapPC);
  }

  /** Two plain wraps over New("base") report New's capture (util_test.go:40-55). */
  lemma BaseStackTraceNested(site0: seq<nat>, site1: seq<nat>, pc1: nat, site2: seq<nat>, pc2: nat)
    requires |site0| > 0
    ensures var base := New("base", site0);
            BaseStackTrace(Some(Wrapped(Wrapped(base, [], site1, pc1), [], site2, pc2))) == base.stack
  {
    var base := New("base", site0);
    BaseStackTraceOfNew("base", site0);
    BaseStackTraceThroughWrap(base, [], site1, pc1);
    BaseStackTraceThroughWrap(Wrapped(base, [], site1, pc1), [], site2, pc2);
  }

  /**
    Over a foreign root, two plain wraps report the inner wrap's capture
    (util_test.go:57-72); with WithStack on the inner wrap, its later
    capture instead.
   */
  lemma BaseStackTraceOverForeign(root: Err, anns: seq<Annotator>, site1: seq<nat>, pc1: nat, site2: seq<nat>, pc2: nat)
    requires root.Foreign? && |site1| > 0
    ensures var inner := Wrapped(root, anns, site1, pc1);
            BaseStackTrace(Some(Wrapped(inner, [], site2, pc2))) == inner.stack
  {
    var inner := Wrapped(root, anns, site1, pc1);
    BaseStackTraceOverEmpty(root, anns, site1, pc1);
    WrapStack(root, anns, site1, pc1);
    BaseStackTraceThroughWrap(inner, [], site2, pc2);
  }
}
