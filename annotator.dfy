/**
  The annotators of annotator.go. In Go each annotator is a closure that
  assigns one field of the *Error it is given; here an annotator is a
  value, `Apply` states what its closure does to a record, and `Annotate`
  performs that assignment on the record under construction.
 */
module Annotators {
  import opened Options
  import opened Errors

  /** One (key, value) pair of the variadic attribute annotator the tests use. */
  datatype Attr = Attr(key: string, value: Value)

  datatype Annotator =
    | WithMessage(message: string)  // sets the layer's own message
    | WithStack                     // replaces the layer's stack with a fresh capture
    | WithAttrs(attrs: Attrs)       // replaces the attribute map wholesale
    | WithAttrsMerge(pairs: seq<Attr>)  // merges pairs over the inherited map, later pairs winning

  /** The map the pairs describe: each key bound to the value of its last pair. */
  function FromPairs(pairs: seq<Attr>): (m: Attrs)
    ensures forall k :: k in m ==> exists i :: 0 <= i < |pairs| && pairs[i].key == k && pairs[i].value == m[k]
    decreases |pairs|
  {
    if |pairs| == 0 then map[]
    else FromPairs(pairs[..|pairs| - 1])[pairs[|pairs| - 1].key := pairs[|pairs| - 1].value]
  }

  /** The keys of `FromPairs(pairs)` are exactly the keys the pairs mention. */
  lemma {:induction false} FromPairsKeys(pairs: seq<Attr>)
    ensures FromPairs(pairs).Keys == set i | 0 <= i < |pairs| :: pairs[i].key
    decreases |pairs|
  {
    if |pairs| > 0 {
      var init := pairs[..|pairs| - 1];
      FromPairsKeys(init);
      assert forall i :: 0 <= i < |init| ==> init[i] == pairs[i];
    }
  }

  /** A key is bound to the value of the last pair that mentions it. */
  lemma {:induction false} FromPairsLastWins(pairs: seq<Attr>, i: nat)
    requires i < |pairs|
    requires forall j :: i < j < |pairs| ==> pairs[j].key != pairs[i].key
    ensures pairs[i].key in FromPairs(pairs) && FromPairs(pairs)[pairs[i].key] == pairs[i].value
    decreases |pairs|
  {
    if i < |pairs| - 1 {
      var init := pairs[..|pairs| - 1];
      assert forall j :: i < j < |init| ==> init[j] == pairs[j];
      FromPairsLastWins(init, i);
    }
  }

  /**
    What one annotator's closure does to a record: it assigns exactly one
    field, and never the cause.
   */
  function Apply(a: Annotator, e: Err, frames: seq<nat>): (r: Err)
    requires e.Annotated?
    ensures r.Annotated? && r.cause == e.cause
    ensures r.message == if a.WithMessage? then a.message else e.message
    ensures r.stack == if a.WithStack? then Callers(frames) else e.stack
    ensures r.attrs == match a
                       case WithAttrs(m) => m
                       case WithAttrsMerge(pairs) => e.attrs + FromPairs(pairs)
                       case _ => e.attrs
  {
    match a
    case WithMessage(m) => e.(message := m)
    case WithStack => e.(stack := Callers(frames))
    case WithAttrs(m) => e.(attrs := m)
    case WithAttrsMerge(pairs) => e.(attrs := e.attrs + FromPairs(pairs))
  }

  /**
    Runs annotator `a` on the record `e`, as Wrap's loop calls each closure.
    `frames` is the call stack that a capture made from the closure sees.
   */
  method Annotate(a: Annotator, e: Error, frames: seq<nat>)
    modifies e
    ensures e.Snapshot() == Apply(a, old(e.Snapshot()), frames)
  {
    match a
    case WithMessage(m) =>
      e.message := m;
    case WithStack =>
      e.stack := Callers(frames);
    case WithAttrs(m) =>
      e.attrs := m;
    case WithAttrsMerge(pairs) =>
      e.attrs := e.attrs + FromPairs(pairs);
  }

  /** The annotators applied one after another, in list order. */
  function ApplyAll(anns: seq<Annotator>, e: Err, frames: seq<nat>): (r: Err)
    requires e.Annotated?
    ensures r.Annotated?
    decreases |anns|
  {
    if |anns| == 0 then e
    else Apply(anns[|anns| - 1], ApplyAll(anns[..|anns| - 1], e, frames), frames)
  }

  /** A one-element list applies its annotator once. */
  lemma ApplyOne(a: Annotator, e: Err, frames: seq<nat>)
    requires e.Annotated?
    ensures ApplyAll([a], e, frames) == Apply(a, e, frames)
  {
    assert [a][..0] == [];
  }

  /** No annotator changes the cause, so the unwrap chain is fixed before they run. */
  lemma {:induction false} ApplyAllKeepsCause(anns: seq<Annotator>, e: Err, frames: seq<nat>)
    requires e.Annotated?
    ensures ApplyAll(anns, e, frames).cause == e.cause
    decreases |anns|
  {
    if |anns| > 0 {
      ApplyAllKeepsCause(anns[..|anns| - 1], e, frames);
    }
  }

  /** The last WithMessage in the list decides the message: plain overwrite. */
  lemma {:induction false} LastMessageWins(anns: seq<Annotator>, e: Err, frames: seq<nat>, i: nat)
    requires e.Annotated?
    requires i < |anns| && anns[i].WithMessage?
    requires forall j :: i < j < |anns| ==> !anns[j].WithMessage?
    ensures ApplyAll(anns, e, frames).message == anns[i].message
    decreases |anns|
  {
    if i < |anns| - 1 {
      var init := anns[..|anns| - 1];
      assert forall j :: i < j < |init| ==> init[j] == anns[j];
      LastMessageWins(init, e, frames, i);
    }
  }

  /** Without a WithMessage the message is the one the record started with. */
  lemma {:induction false} MessageKept(anns: seq<Annotator>, e: Err, frames: seq<nat>)
    requires e.Annotated?
    requires forall j :: 0 <= j < |anns| ==> !anns[j].WithMessage?
    ensures ApplyAll(anns, e, frames).message == e.message
    decreases |anns|
  {
    if |anns| > 0 {
      var init := anns[..|anns| - 1];
      assert forall j :: 0 <= j < |init| ==> init[j] == anns[j];
      MessageKept(init, e, frames);
    }
  }

  /**
    The stack is the starting one when no WithStack runs and a capture
    otherwise; either way it keeps the MaxFrames bound.
   */
  lemma {:induction false} StackAfterAnnotators(anns: seq<Annotator>, e: Err, frames: seq<nat>)
    requires e.Annotated?
    ensures var s := ApplyAll(anns, e, frames).stack;
            s == (if exists j :: 0 <= j < |anns| && anns[j].WithStack? then Callers(frames) else e.stack)
    ensures |e.stack| <= MaxFrames ==> |ApplyAll(anns, e, frames).stack| <= MaxFrames
    decreases |anns|
  {
    if |anns| > 0 {
      var init := anns[..|anns| - 1];
      StackAfterAnnotators(init, e, frames);
      assert forall j :: 0 <= j < |init| ==> init[j] == anns[j];
      if anns[|anns| - 1].WithStack? {
      } else {
        assert (exists j :: 0 <= j < |anns| && anns[j].WithStack?) ==
               (exists j :: 0 <= j < |init| && init[j].WithStack?);
      }
    }
  }

  /**
    The last annotator that touches the attributes decides them when it is
    a WithAttrs: the map it carries, whatever was inherited or set before.
   */
  lemma {:induction false} LastAttrsWins(anns: seq<Annotator>, e: Err, frames: seq<nat>, i: nat)
    requires e.Annotated?
    requires i < |anns| && anns[i].WithAttrs?
    requires forall j :: i < j < |anns| ==> !anns[j].WithAttrs? && !anns[j].WithAttrsMerge?
    ensures ApplyAll(anns, e, frames).attrs == anns[i].attrs
    decreases |anns|
  {
    if i < |anns| - 1 {
      var init := anns[..|anns| - 1];
      assert forall j :: i < j < |init| ==> init[j] == anns[j];
      LastAttrsWins(init, e, frames, i);
    }
  }

  /** Without an attribute annotator the record keeps the map it started with. */
  lemma {:induction false} AttrsKept(anns: seq<Annotator>, e: Err, frames: seq<nat>)
    requires e.Annotated?
    requires forall j :: 0 <= j < |anns| ==> !anns[j].WithAttrs? && !anns[j].WithAttrsMerge?
    ensures ApplyAll(anns, e, frames).attrs == e.attrs
    decreases |anns|
  {
    if |anns| > 0 {
      var init := anns[..|anns| - 1];
      assert forall j :: 0 <= j < |init| ==> init[j] == anns[j];
      AttrsKept(init, e, frames);
    }
  }

  /** WithMessage(a) then WithMessage(b) leaves b, not a prefixed "b: a". */
  lemma MessageOverwrite(a: string, b: string, e: Err, frames: seq<nat>)
    requires e.Annotated?
    ensures ApplyAll([WithMessage(a), WithMessage(b)], e, frames).message == b
  {
    LastMessageWins([WithMessage(a), WithMessage(b)], e, frames, 1);
  }
}
