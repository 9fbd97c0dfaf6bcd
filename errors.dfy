/**
  The annotated error record of error.go: its rendering, its accessors,
  root construction with `New`, the single-level `Unwrap`, `Join`, and the
  bounded stack capture `callers`.
 */
module Errors {
  import opened Options
  import Strings

  /** Capacity of the program-counter buffer handed to the runtime (error.go:93). */
  const MaxFrames: nat := 32

  /** A captured call stack: program counters, innermost frame first. */
  type Stack = seq<nat>

  /** An attribute value; the library stores values of any type and never looks inside. */
  type Value

  /** An attribute map. Go's nil map is the empty map here: reading it behaves the same. */
  type Attrs = map<string, Value>

  /**
    An error value in a chain. `Annotated` is the library's own *Error;
    `Foreign` is any other error: it renders as `text`, exposes neither a
    stack nor attributes, and may expose a single cause `inner` through its
    own Unwrap method.
   */
  datatype Err =
    | Annotated(message: string, cause: Option<Err>, stack: Stack, attrs: Attrs)
    | Foreign(text: string, inner: Option<Err>)

  /**
    `callers`: the runtime fills a 32-slot buffer with the call stack
    `frames` seen from the capture point, so the result is the longest
    prefix of `frames` that fits.
   */
  function Callers(frames: seq<nat>): (s: Stack)
    ensures |s| <= MaxFrames
    ensures |s| <= |frames| && s == frames[..|s|]
    ensures |s| == MaxFrames || s == frames
  {
    if |frames| <= MaxFrames then frames else frames[..MaxFrames]
  }

  /** The rendering of an optional cause; a nil cause contributes nothing. */
  function RenderCause(cause: Option<Err>): (r: string)
  {
    match cause
    case None => ""
    case Some(c) => Render(c)
  }

  /**
    Error(): the non-empty message and the non-empty rendering of the
    cause, in that order, joined by ": ".
   */
  function Render(e: Err): (r: string)
    ensures e.Foreign? ==> r == e.text
    ensures e.Annotated? ==> e.message <= r
    ensures e.Annotated? && e.message == "" && e.cause.Some? ==> r == Render(e.cause.value)
    ensures e.Annotated? && e.cause.None? ==> r == e.message
  {
    match e
    case Foreign(text, _) => text
    case Annotated(message, cause, _, _) =>
      var mine := if message != "" then [message] else [];
      var below := if cause.Some? && |Render(cause.value)| > 0 then [Render(cause.value)] else [];
      Strings.Join(mine + below, ": ")
  }

  /** The four shapes of a rendered layer: "X: Y", "X", "Y" or "". */
  lemma RenderLayer(message: string, cause: Option<Err>, stack: Stack, attrs: Attrs)
    ensures var x, y := message, RenderCause(cause);
            Render(Annotated(message, cause, stack, attrs)) ==
              if x != "" && y != "" then x + ": " + y
              else if x != "" then x
              else y
  {
  }

  /** New: a root error with the given message, no cause, no attributes and a fresh capture. */
  function New(message: string, site: seq<nat>): (e: Err)
    ensures e.Annotated? && e.message == message && e.cause.None? && e.attrs == map[]
    ensures e.stack == Callers(site)
    ensures |site| > 0 ==> |e.stack| > 0
    ensures Render(e) == message
  {
    Annotated(message, None, Callers(site), map[])
  }

  /**
    Unwrap: the single cause an error exposes, nil for nil. The result is
    always strictly smaller than its argument, so every chain is finite.
   */
  function Unwrap(err: Option<Err>): (r: Option<Err>)
    ensures err.None? ==> r.None?
    ensures r.Some? ==> err.Some? && r.value < err.value
    ensures err.Some? && err.value.Annotated? ==> r == err.value.cause
    ensures err.Some? && err.value.Foreign? ==> r == err.value.inner
  {
    match err
    case None => None
    case Some(Annotated(_, cause, _, _)) => cause
    case Some(Foreign(_, inner)) => inner
  }

  /** The errors of `errs` that are not nil, in order. */
  function Present(errs: seq<Option<Err>>): (r: seq<Err>)
    ensures |r| <= |errs|
    ensures |r| == 0 <==> forall i :: 0 <= i < |errs| ==> errs[i].None?
    ensures forall i :: 0 <= i < |errs| && errs[i].Some? ==> errs[i].value in r
    ensures forall x :: x in r ==> Some(x) in errs
  {
    if |errs| == 0 then []
    else match errs[0]
      case None => Present(errs[1..])
      case Some(x) => [x] + Present(errs[1..])
  }

  /** Filtering keeps order: the errors of a concatenation are those of each part, in turn. */
  lemma {:induction false} PresentAppend(xs: seq<Option<Err>>, ys: seq<Option<Err>>)
    ensures Present(xs + ys) == Present(xs) + Present(ys)
    decreases |xs|
  {
    if |xs| > 0 {
      assert (xs + ys)[1..] == xs[1..] + ys;
      PresentAppend(xs[1..], ys);
    } else {
      assert xs + ys == ys;
    }
  }

  /** A nil drops out, a non-nil error stays. */
  lemma PresentOne(x: Err)
    ensures Present([None]) == []
    ensures Present([Some(x)]) == [x]
  {
    var none: seq<Option<Err>> := [None];
    assert none[1..] == [];
    assert [Some(x)][1..] == [];
  }

  /** The renderings of `errs`, in order. */
  function Renders(errs: seq<Err>): (r: seq<string>)
    ensures |r| == |errs|
    ensures forall i :: 0 <= i < |errs| ==> r[i] == Render(errs[i])
  {
    if |errs| == 0 then [] else [Render(errs[0])] + Renders(errs[1..])
  }

  /**
    Join: nil when every member is nil (or there is none); otherwise an
    error that renders the non-nil members' renderings joined by newlines.
    Go's aggregate exposes no stack, no attributes and no single cause,
    so it is a foreign error without an inner one.
   */
  function Join(errs: seq<Option<Err>>): (r: Option<Err>)
    ensures r.None? <==> forall i :: 0 <= i < |errs| ==> errs[i].None?
    ensures r.Some? ==> r.value.Foreign? && Unwrap(r).None?
    ensures r.Some? ==> Render(r.value) == Strings.Join(Renders(Present(errs)), "\n")
  {
    var present := Present(errs);
    if |present| == 0 then None else Some(Foreign(Strings.Join(Renders(present), "\n"), None))
  }

  /**
    Join member by member: a nil member changes nothing, and a non-nil one
    adds a newline and its rendering after the members before it.
   */
  lemma JoinSnoc(errs: seq<Option<Err>>, e: Option<Err>)
    ensures e.None? ==> Join(errs + [e]) == Join(errs)
    ensures e.Some? && Join(errs).None? ==> Join(errs + [e]) == Some(Foreign(Render(e.value), None))
    ensures e.Some? && Join(errs).Some? ==>
              Join(errs + [e]).Some? &&
              Render(Join(errs + [e]).value) == Render(Join(errs).value) + "\n" + Render(e.value)
  {
    PresentAppend(errs, [e]);
    var p := Present(errs);
    match e
    case None =>
      PresentOne(Foreign("", None));
      assert Present(errs + [e]) == p;
    case Some(x) =>
      PresentOne(x);
      assert Present(errs + [e]) == p + [x];
      if |p| > 0 {
        JoinRendersSnoc(p, x);
        assert Join(errs) == Some(Foreign(Strings.Join(Renders(p), "\n"), None));
        assert Join(errs + [e]) == Some(Foreign(Strings.Join(Renders(p + [x]), "\n"), None));
      } else {
        assert p + [x] == [x];
      }
  }

  /** The newline-joined renderings of `p + [x]` extend those of `p` by x's rendering. */
  lemma JoinRendersSnoc(p: seq<Err>, x: Err)
    requires |p| > 0
    ensures Strings.Join(Renders(p + [x]), "\n") == Strings.Join(Renders(p), "\n") + "\n" + Render(x)
  {
    var q := Renders(p + [x]);
    assert q[..|q| - 1] == Renders(p);
    Strings.JoinSnoc(q, "\n");
  }

  /** Join of two root errors renders "x\ny" (errors_test.go:248-251). */
  lemma JoinTwoRoots(x: string, y: string, siteX: seq<nat>, siteY: seq<nat>)
    ensures var r := Join([Some(New(x, siteX)), Some(New(y, siteY))]);
            r.Some? && Render(r.value) == x + "\n" + y
  {
    var errs := [Some(New(x, siteX)), Some(New(y, siteY))];
    assert errs[1..] == [Some(New(y, siteY))];
    assert errs[1..][1..] == [];
    assert Present(errs) == [New(x, siteX), New(y, siteY)];
  }

  /**
    Every annotated layer anywhere in the chain holds a stack of at most
    MaxFrames entries. The record's fields are private to the package, so
    annotated layers come only from New and Wrap, which keep this.
   */
  ghost predicate Bounded(e: Err)
  {
    match e
    case Annotated(_, cause, stack, _) => |stack| <= MaxFrames && (cause.Some? ==> Bounded(cause.value))
    case Foreign(_, inner) => inner.Some? ==> Bounded(inner.value)
  }

  /** New's result keeps the bound; so does Join's, which holds no annotated layer. */
  lemma NewAndJoinBounded(message: string, site: seq<nat>, errs: seq<Option<Err>>)
    ensures Bounded(New(message, site))
    ensures Join(errs).Some? ==> Bounded(Join(errs).value)
  {
  }

  /** The *Error record while the annotators of a Wrap call update it in place. */
  class Error {
    var message: string
    var cause: Option<Err>
    var stack: Stack
    var attrs: Attrs

    constructor (message: string, cause: Option<Err>, stack: Stack, attrs: Attrs)
      ensures this.message == message && this.cause == cause
      ensures this.stack == stack && this.attrs == attrs
    {
      this.message := message;
      this.cause := cause;
      this.stack := stack;
      this.attrs := attrs;
    }

    /** The record's current contents as an error value. */
    function Snapshot(): (e: Err)
      reads this
      ensures e.Annotated? && e.message == message && e.cause == cause
      ensures e.stack == stack && e.attrs == attrs
    {
      Annotated(message, cause, stack, attrs)
    }
  }
}
