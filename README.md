# taxio/errors in Dafny

A model of a small Go library for annotated errors. An annotated error wraps a cause and adds three things: a message, a captured call stack and a map of attributes. `New` builds a root error. `Wrap` builds a new layer over an existing error; it takes over the cause's attributes and then runs a list of annotators (`WithMessage`, `WithStack`, `WithAttrs`) that update the new record in place. `Error()` renders a chain as one line, outermost first. `BaseStackTrace` walks the chain and returns the stack of the deepest layer that still has one.

Files and modules:

- `options.dfy` (`Options`): `Option`, where `None` is Go's nil error.
- `strings.dfy` (`Strings`): `Join`, which is Go's `strings.Join`.
- `errors.dfy` (`Errors`), from error.go:
  - the error value `Err`: `Annotated` is the library's `*Error`, and `Foreign` is any other error, with an optional single cause of its own;
  - the rendering `Render`, with `RenderLayer` giving its four shapes;
  - `New`, `Unwrap` and `Join`;
  - the bounded stack capture `Callers`;
  - the invariant `Bounded`: every annotated layer holds at most 32 frames;
  - the class `Error`, the record that the annotators update while `Wrap` runs.
- `annotator.dfy` (`Annotators`), from annotator.go:
  - the annotator values;
  - `Apply`, which says what each annotator's closure does to a record;
  - the method `Annotate`, which does it in place;
  - `ApplyAll` and the lemmas about annotator order.
- `wrap.dfy` (`Wrapping`): `Wrap` from error.go.
  - It is a method. It allocates the record, takes over the attributes and loops over the annotators.
  - The loop invariant ties the record to the pure `ApplyAll`.
  - The lemmas are about the resulting value `Wrapped`.
- `util.dfy` (`BaseStack`), from util.go:
  - `BaseStackTrace` and the recursive walk `Walk`;
  - a second, independent description of the result. `Visible` is the list of annotated layers reached before the first foreign error. `IsBaseStack` says which stack of that list is the answer.
  - `WalkFindsBaseStack` and `BaseStackUnique` together show the walk returns exactly that stack.

Stack capture is the runtime's job, so it is a parameter here:

- `site` is the call stack of the caller of `New` or `Wrap`.
- A `WithStack` annotator runs inside `Wrap`. The stack it sees is Wrap's own frame `wrapPC` on top of `site`.
- `Callers` keeps the first 32 entries of whatever stack it is given.

Where the sources disagree, the model follows the code:

- `callers` is declared twice. The model uses the error.go:92-96 version, which returns the stack itself. annotator.go:7-12 returns a pointer to it, which does not fit the record's field.
- `WithAttrs` replaces the attribute map wholesale (annotator.go:26-30). The tests call a variadic `WithAttrs(Attr(...))` and expect a merge in which the new keys win and the inherited keys stay (errors_test.go:157-185). The model keeps replace as written. It adds a second annotator, `WithAttrsMerge`, so that the tests' expectation can be stated too.

Errors are values here, so rendering an error cannot change its cause, and rendering twice gives the same string.

## Model

| member | source | states |
|---|---|---|
| Errors.Error.constructor | error.go:11-16 | the record starts with exactly the four given fields: message, cause, stack and attributes |
| Errors.Error.Snapshot | error.go:11-16 | the record's four fields are, field for field, those of the annotated error value it stands for |
| Strings.Join | error.go:29 | no parts give "", one part is itself, two are joined by the separator, and the result starts with the first part |
| Strings.JoinSnoc | error.go:29 | adding a part at the end (to two or more) appends the separator and that part |
| Errors.Callers | error.go:92-96 | a capture holds at most 32 frames: the longest prefix of the call stack that fits in the buffer, and the whole stack when it fits |
| Errors.Render | error.go:18-30 | a foreign error renders as its text; a layer's rendering starts with its message; with no message it is the cause's rendering, and with no cause it is the message |
| Errors.RenderLayer | error.go:18-30 | a layer with message X over a cause rendering Y renders "X: Y" when both are non-empty, X when Y is empty, Y when X is empty, "" when both are |
| Errors.New | error.go:44-51 | New(m) has message m, no cause, no attributes and a capture at the call site (non-empty when the call stack is), and renders exactly as m |
| Errors.Unwrap | error.go:32-34 | Unwrap gives an annotated error's cause, a foreign error's own cause and nil for nil; a foreign error unwraps to its own inner cause; the result is strictly smaller, so every chain ends |
| Errors.Join | error.go:61-63 | Join is nil exactly when every member is nil; otherwise it renders the non-nil members' renderings joined by newlines and exposes no single cause |
| Errors.Present | error.go:61-63 | the non-nil members are empty exactly when every member is nil, every non-nil member is kept, and nothing else appears |
| Errors.PresentAppend | error.go:61-63 | filtering keeps order: the non-nil members of a concatenation are those of the first part followed by those of the second |
| Errors.PresentOne | error.go:61-63 | a nil member drops out and a non-nil one stays |
| Errors.JoinSnoc | error.go:61-63 | appending a nil member changes nothing; appending a non-nil one to an all-nil list gives just its rendering, and otherwise adds a newline and its rendering after the earlier members' rendering |
| Errors.JoinTwoRoots | errors_test.go:248-251 | Join(New("x"), New("y")) renders "x\ny" |
| Errors.NewAndJoinBounded | error.go:44-51 | a root error and a joined error respect the 32-frame bound on every annotated layer |
| Annotators.FromPairs | errors_test.go:157-185 | every key of the merged map comes from a pair that names it and is bound to that pair's value |
| Annotators.Apply | annotator.go:14-30 | WithMessage sets only the message, WithStack only the stack (to a fresh capture), WithAttrs only the attributes (to exactly its map), the merge variant only the attributes (its pairs over the old map); none touches the cause |
| Annotators.Annotate | annotator.go:14-30 | running an annotator on the record in place leaves it as Apply says |
| Annotators.ApplyAll | error.go:85-87 | the annotators applied in list order keep the record annotated |
| Annotators.ApplyAllKeepsCause | error.go:85-87 | no list of annotators changes the cause, so the unwrap chain is fixed by Wrap's argument |
| Annotators.LastMessageWins | error.go:85-87 | the last WithMessage in the list decides the message |
| Annotators.MessageKept | error.go:85-87 | without a WithMessage the message stays as it was |
| Annotators.MessageOverwrite | annotator.go:14-18 | WithMessage(a) then WithMessage(b) leaves b: plain overwrite, no prefixing |
| Annotators.StackAfterAnnotators | annotator.go:20-24 | after the annotators the stack is a fresh capture if any WithStack ran and the starting stack otherwise; the 32-frame bound is kept |
| Annotators.LastAttrsWins | annotator.go:26-30 | when the last attribute annotator is WithAttrs(m), the attributes are exactly m, whatever was inherited or set before |
| Annotators.AttrsKept | error.go:81-87 | without an attribute annotator the attributes stay as taken over |
| Annotators.FromPairsKeys | errors_test.go:157-185 | the merge variant's pairs bind exactly the keys they mention |
| Annotators.FromPairsLastWins | errors_test.go:157-185 | each key is bound to the value of the last pair naming it |
| Wrapping.Inherited | error.go:81-83 | the map an annotated cause exposes through Attributes(), and none for a foreign cause |
| Wrapping.Layer | error.go:74-83 | the layer before the annotators has the cause as cause, a capture at Wrap's call site within 32 frames, the inherited attributes, and renders exactly as its cause |
| Wrapping.Wrapped | error.go:74-87 | whatever the annotators, the returned layer is annotated, its cause is the wrapped error and its stack is within 32 frames |
| Wrapping.Wrap | error.go:69-90 | Wrap(nil, ...) is nil for every annotator list; otherwise the result is the layer over err with the annotators applied in order, and Unwrap of the result is err |
| Wrapping.UnwrapWrapped | error.go:74-79 | Unwrap(Wrap(e, anns...)) is e for every annotator list |
| Wrapping.WrapRendersAsCause | error.go:74-79 | Wrap(e) with no annotators renders exactly as e, since the empty message contributes nothing |
| Wrapping.WrapWithMessageRenders | errors_test.go:93-100 | Wrap(e, WithMessage(x)) renders "x: y" over a cause rendering y, or whichever of x and y is non-empty |
| Wrapping.WrapTakesOverAttrs | error.go:81-83 | with no annotators the new layer has the cause's attributes when the cause is annotated and none when it is foreign |
| Wrapping.WrapStack | error.go:77 | the layer's stack is a capture at Wrap's call site, not the cause's, unless a WithStack re-captures from inside Wrap; it never exceeds 32 frames |
| Wrapping.WrapBounded | error.go:69-90 | wrapping a chain that respects the 32-frame bound gives a chain that does |
| Wrapping.WithAttrsReplaces | annotator.go:26-30 | WithAttrs(m) leaves exactly m on the new layer and the cause unchanged |
| Wrapping.WithAttrsMergeOverwrites | errors_test.go:157-185 | merging (key1, v111), (key3, v3) over {key1: v1, key2: v2} gives {key1: v111, key2: v2, key3: v3} |
| Wrapping.AttrsSurviveRewrap | errors_test.go:140-155 | attributes set on an inner layer are carried by a plain Wrap of it |
| BaseStack.BaseStackTrace | util.go:3-8 | nil gives an empty result; any other result is empty or the stack of a layer reached before the first foreign error |
| BaseStack.Walk | util.go:10-21 | nil and foreign errors give empty; otherwise the result is empty or the stack of a visible layer of the chain |
| BaseStack.WalkFindsBaseStack | util.go:10-21 | the walk returns the stack of the deepest visible layer with a non-empty stack, or empty when every visible stack is empty |
| BaseStack.BaseStackUnique | util.go:15-20 | that description fixes one result, so it characterises the walk exactly |
| BaseStack.SameStacksSameBase | util.go:15-20 | whether a stack is the base stack of a list of layers depends only on the layers' stacks |
| BaseStack.BaseStackTraceHidesBelowForeign | util.go:11-14 | two chains whose visible layers carry the same stacks have the same result, however they differ below the first foreign error or in messages and attributes |
| BaseStack.ForeignInnerIgnored | util.go:11-14 | a wrap over a foreign error reports the same stack whatever that foreign error itself wraps |
| BaseStack.BaseStackTraceOfNilAndForeign | util.go:3-14 | nil, and a foreign error whatever it wraps, give an empty result |
| BaseStack.BaseStackTraceOfNew | util_test.go:25-38 | a root error's result is its own stack |
| BaseStack.BaseStackTraceThroughWrap | util.go:16-20 | wrapping, with any annotators, never changes a non-empty result |
| BaseStack.BaseStackTraceOverEmpty | util.go:17-18 | over a cause with an empty result, the new layer's own stack is the result |
| BaseStack.BaseStackTraceNested | util_test.go:40-55 | the result for Wrap(Wrap(New("base"))) is the stack captured by New |
| BaseStack.BaseStackTraceOverForeign | util_test.go:57-72 | over a foreign root, two wraps report the inner wrap's stack (its WithStack re-capture if it had one) |

## Left out

- Actual program counters are not modelled. `runtime.Callers` is the runtime's service, so the call stack it would see is a parameter: `site`, plus `wrapPC` for annotators run inside `Wrap`.
- `Is` and `As` are left out (error.go:53-59). They delegate to Go's `errors` package. `Is` compares pointer identity and honours custom hooks; `As` uses reflection. Both have nothing to act on in a value model.
- Only the rendering of `Join` is modelled (error.go:61-63). Its `Unwrap() []error` is also left out, since only `Is` and `As` use it.
- The generic `Unwrap` at error.go:65-67 is modelled only for the single-cause form its callers use.
- The callers at annotator.go:7-12 are not modelled. They return a pointer that does not fit the record's field, so the error.go version is used.
- Raw user-written annotators are not modelled. An annotator is a closed datatype of the three built-ins plus the merge variant.
- A foreign error that has its own `StackTrace()` or `Attributes()` method is not modelled. Go's dynamic capability checks (error.go:81, util.go:11) are not modelled either. Each error is either annotated or foreign, with neither capability.
- A Go nil attribute map and an empty one are both the empty map here. Key lookups and `len` treat them alike, but a caller comparing `Attributes()` with nil could tell them apart.
- Map aliasing at error.go:82 is not modelled. Every annotator replaces the map instead of mutating it, so value maps behave the same as the shared one.
- Within one `Wrap` call, all `WithStack` annotators see the same call stack. They are run from the same loop line, so they capture the same frames.
