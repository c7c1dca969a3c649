# jQuery JSX runtime — Dafny model

`jquery.JSX-1.0.0.js` is a small runtime that lets JSX build jQuery/DOM trees.
It has these parts:

- `$.createElement(tag, props, ...children)` builds an element.
  - If `tag` is a component function, it calls the component and returns the result.
  - Otherwise it creates one element.
  - Each own prop becomes either an event listener or a string attribute.
  - Nested child arrays are flattened depth-first, left to right. A node is appended as it is; any other value becomes a text node.
- `$.createFragment(...children)` calls `createElement("fragment", null, ...children)`.
- `$.fn.render(node)` empties a container and appends one node.
- `$.fn.useState(initial, Component)` returns the initial value and a setter. The setter stores the new state and re-renders the anchor's parent with `Component()`.
- `$.fn.useContext(object, property, elementProperty)` turns `object[property]` into a getter and setter over a stored value.
  - Binding copies the value into every target at once.
  - Each write stores the new value and schedules a deferred pass (`setTimeout(…, 0)`).
  - A pass copies the value stored *when it runs* into every target.

The model has four modules:

- `Dom` (`dom.dfy`) is the host document.
  - Script values and their string conversion.
  - `Element`, a class with attributes, listeners, DOM properties, children and a parent pointer, all updated in place.
  - `Node`, which is a text node or an element reference.
- `Jsx` (`jsx.dfy`) holds the builder, the fragment builder and `render`.
  - The pure parts are functions: the flattening order (`FlattenChild`/`FlattenAll`) and the prop rule (`Classify`, `AttributesOf`, `ListenersOf`).
  - The imperative parts are methods with loops, proved against those functions: `CreateElement` with its props loop and children loop, the recursive `AppendChild`, and `Render`.
- `StateHook` (`state_hook.dfy`) is the `useState` cell, a class with a `state` field.
- `ContextHook` (`context_hook.dfy`) is the `useContext` binding.
  - It is a class holding the stored value and the queue of pending passes.
  - `Tick` runs one deferred pass, and `RunPending` drains the queue.

These host capabilities are parameters:

- The "recognised event name" check (`lowercaseName in window`) is the set `knownEvents`.
- The component called by `useState`'s setter is opaque. The node that call returns is the setter's argument `rendered`.
- The initial `object[property]` of `useContext` is the constructor's argument `initial`.

Two behaviours of the code are worth noting:

- `createFragment` creates an ordinary element whose tag is `"fragment"`. It is not a document fragment, and `render` inserts it as it is rather than unwrapping it.
- `useState`'s setter looks up the anchor's parent each time it runs. It does not use a parent captured at binding time (see Findings).

## Model

| member | source | states |
|---|---|---|
| `Dom.Element.constructor` | jquery.JSX-1.0.0.js:22 | a created element is detached and carries the tag, with no attributes, listeners, properties or children |
| `Dom.ToString` | jquery.JSX-1.0.0.js:16 | a string is itself, a boolean is "true"/"false", and an integer is its decimal digits without leading zeros, denoting the number, with "-" for a negative one (a function's source text and another object's `toString` result are given by the definition, not the contract) |
| `Dom.IntString` | jquery.JSX-1.0.0.js:31 | an integer prints as decimal digits without leading zeros that denote it, with a single "-" before the digits of a negative one |
| `Dom.NatDigits` | jquery.JSX-1.0.0.js:31 | the digits of a natural number are non-empty, without leading zero, and denote exactly that number |
| `Jsx.FlattenChild` | jquery.JSX-1.0.0.js:7-19 | a non-array child gives exactly one node: a node-like child as it is, `undefined` as the text "undefined", any other value as a text node of its string form |
| `Jsx.FlattenAll` | jquery.JSX-1.0.0.js:37-39 | no children give no nodes; a non-array first child's node comes first |
| `Jsx.FlattenKeepsLeaves` | jquery.JSX-1.0.0.js:8-17 | no non-array child is lost: each one's node is among the appended nodes |
| `Jsx.FlattenConcat` | jquery.JSX-1.0.0.js:8-18 | the nodes appended for `a + b` are those for `a` followed by those for `b` (left-to-right order) |
| `Jsx.FlattenWrap` | jquery.JSX-1.0.0.js:8-11 | a child wrapped in arrays to any depth appends exactly what the bare child appends |
| `Jsx.FlattenFlat` | jquery.JSX-1.0.0.js:13-17 | without arrays, one node per child in the same order: a node child as it is, any other value as a text node of its string form |
| `Jsx.AppendChild` | jquery.JSX-1.0.0.js:7-19 | the parent's children grow by exactly the depth-first flattening of the child, and every appended element's parent is the parent |
| `Jsx.AppendItems` | jquery.JSX-1.0.0.js:8-11 | appending each item in turn (also the children loop at lines 36-39) grows the parent's children by exactly the flattening of all items, and the parent is every appended element's parent |
| `Jsx.Lower` | jquery.JSX-1.0.0.js:27 | the lower-cased name has the same length, holds no upper-case letter, turns each upper-case letter into its lower-case one and keeps every other character |
| `Jsx.LowerIdempotent` | jquery.JSX-1.0.0.js:27 | lower-casing twice is lower-casing once |
| `Jsx.IsEventName` | jquery.JSX-1.0.0.js:28 | a name is an event name iff it starts with "on" in any case and its lower-cased form is a known event |
| `Jsx.EventNameIgnoresCase` | jquery.JSX-1.0.0.js:27-28 | whether a prop is an event depends only on its lower-cased name |
| `Jsx.Classify` | jquery.JSX-1.0.0.js:25-32 | an inherited prop does nothing; an own prop adds a listener iff its lower-cased name starts with "on" and is a known event, on that name without "on" with the prop value as handler; otherwise it sets an attribute under its original-case name holding `value.toString()` |
| `Jsx.AttributesOf` | jquery.JSX-1.0.0.js:24-34 | every own, non-event prop's name is an attribute key |
| `Jsx.ListenersOf` | jquery.JSX-1.0.0.js:24-34 | at most one listener per prop, and every listener a prop is classified to add is registered |
| `Jsx.AttributeKeys` | jquery.JSX-1.0.0.js:24-32 | an attribute is set under `k` iff some own, non-event prop is named `k` |
| `Jsx.AttributeValue` | jquery.JSX-1.0.0.js:30-31 | with distinct prop names, the attribute of a non-event own prop holds its value's string form |
| `Jsx.EventPropSetsNoAttribute` | jquery.JSX-1.0.0.js:28-29 | with distinct prop names, an event prop sets no attribute under its name |
| `Jsx.ListenersConcat` | jquery.JSX-1.0.0.js:24-29 | listeners are registered in prop enumeration order |
| `Jsx.ListenerFrom` | jquery.JSX-1.0.0.js:27-29 | a listener is registered iff some prop is classified as adding exactly that listener |
| `Jsx.OnClickIsAListener` | jquery.JSX-1.0.0.js:27-29 | `onClick={f}` with "onclick" known registers a "click" listener for `f` and sets no attribute |
| `Jsx.OnlineIsAnAttribute` | jquery.JSX-1.0.0.js:28-31 | `online="yes"` starts with "on" but is not a known event, so it becomes the attribute `online="yes"` and no listener |
| `Jsx.CreateElement` | jquery.JSX-1.0.0.js:6-42 | a component tag returns exactly `tag(props, children)`, and the builder itself touches nothing (the component's own effects are not modelled); a name tag yields one fresh element with that tag, the attributes and listeners of the props, and the flattened children, and makes it their parent |
| `Jsx.ApplyProps` | jquery.JSX-1.0.0.js:24-34 | after the props loop the element's attributes and listeners are exactly `AttributesOf` and `ListenersOf` of the enumerated props |
| `Jsx.CreateFragment` | jquery.JSX-1.0.0.js:44-46 | a fresh, detached element tagged "fragment" with no attributes, listeners or properties, and the flattened children |
| `Jsx.Render` | jquery.JSX-1.0.0.js:48-50 | the container's children become exactly `[content]`; every previously held element that is not `content` is detached |
| `Jsx.RenderTwice` | jquery.JSX-1.0.0.js:48-50 | rendering the same node twice ends in the same state a single render gives (idempotence) |
| `StateHook.StateCell.constructor` | jquery.JSX-1.0.0.js:53-55 | the cell holds the initial value and the anchor |
| `StateHook.UseState` | jquery.JSX-1.0.0.js:53-64 | returns the initial value itself (not a live reference) and a fresh cell holding it |
| `StateHook.StateCell.SetStateAsWritten` | jquery.JSX-1.0.0.js:57-62 | stores the state; if the anchor has a parent now, that parent's children become exactly the rendered node and its old elements are detached; with no parent nothing is rendered |
| `StateHook.StateCell.SetState` | jquery.JSX-1.0.0.js:57-62 | the corrected setter: stores the state and re-renders the parent captured at binding time, once per call; with no parent nothing is rendered |
| `StateHook.SecondUpdateLostAsWritten` | jquery.JSX-1.0.0.js:55-61 | as written, after a re-render detaches the anchor, a second setter call leaves the container showing the first output |
| `StateHook.SecondUpdateShown` | jquery.JSX-1.0.0.js:55-61 | with the captured parent, the container shows the second output |
| `ContextHook.ContextBinding.Valid` | jquery.JSX-1.0.0.js:70-85 | the binding invariant: while passes are pending the stored value is the last one written; with none pending every target shows the stored value |
| `ContextHook.ContextBinding.constructor` | jquery.JSX-1.0.0.js:68-90 | stores the initial value and copies it into every target before returning; nothing is pending |
| `ContextHook.ContextBinding.UpdateElements` | jquery.JSX-1.0.0.js:72-76 | every target's element property becomes the stored value; nothing else on them changes |
| `ContextHook.ContextBinding.Get` | jquery.JSX-1.0.0.js:79-81 | returns the stored value in any state and changes nothing; while the binding invariant holds, it is the last value written, and the targets show it once nothing is pending |
| `ContextHook.ContextBinding.Set` | jquery.JSX-1.0.0.js:82-85 | stores the value at once, enqueues exactly one pass, and leaves every target unchanged |
| `ContextHook.ContextBinding.Tick` | jquery.JSX-1.0.0.js:72-85 | runs the oldest pending pass, which copies the current stored value into every target; with nothing pending nothing changes |
| `ContextHook.ContextBinding.RunPending` | jquery.JSX-1.0.0.js:72-85 | once every pending pass has run, every target shows the last value written; nothing else on the targets changes, and with nothing pending nothing changes at all |
| `ContextHook.GetAfterOutsideWrite` | jquery.JSX-1.0.0.js:79-81 | after other code writes a bound element's property, the getter still returns the stored value and the element keeps the outside write |
| `ContextHook.LastWriteWinsPerTick` | jquery.JSX-1.0.0.js:68-91 | each of three targets bound to "red" shows it at once; after writing "a" then "b" each still shows "red"; after one pass each shows "b", and still "b" after the rest |

## Left out

- Real DOM and jQuery objects are abstracted.
  - Text nodes are values, so their identity is not modelled.
  - jQuery's `.empty()` also drops data and handlers of removed descendants; this is not modelled.
- Moving a node. DOM `appendChild` moves a node that already has a parent. The model only re-points its `parentNode`: the old parent's children keep it, and a node given twice appears twice.
- Failures of the host API are not modelled:
  - invalid tag names;
  - appending an element into itself or into one of its descendants;
  - `null` as a child, where the source's `child.nodeType` throws;
  - `null` or `undefined` as a prop value, where `toString` throws.
- `Jsx.ListenersOf` registers a listener whatever the handler value is. The DOM's `addEventListener` throws for a primitive handler, silently ignores `null`, and accepts an object with `handleEvent`.
- `Jsx.ListenersOf` keeps every registration. The DOM drops a second registration of the same event type and handler, so own props `onClick` and `ONCLICK` with the same function give one listener there and two in the model. Handlers are compared as values, not by identity.
- `Jsx.Lower` lower-cases ASCII letters only; `toLowerCase` uses full Unicode case mapping, which is not modelled.
- `Dom.ToString` converts integers only, always in plain decimal. JavaScript numbers are doubles: they print in exponent form from 1e21 (`"1e+21"`), are imprecise beyond 2^53, and non-integer numbers are not modelled.
- Arrays as prop values are not modelled (`["a","b"].toString()` is `"a,b"`). An array given as a child is always flattened.
- The host's own treatment of attributes is left out: HTML documents lower-case attribute names, and some attributes are reflected as DOM properties.
- A jQuery selection with several elements is not modelled. `render` and `useState` work on one container and one anchor.
- `Jsx.CreateElement` treats a component tag as a Dafny function. Its body is opaque, so elements it builds are not fresh in the model.
- `StateHook.StateCell.SetStateAsWritten` and `StateHook.StateCell.SetState` receive the node `Component()` returns as the argument `rendered`, computed before the call. In the source, `currentElement.parent()` is evaluated first and `Component()` runs after it. A component whose tree reuses the anchor element would move the anchor, and the source would still render into the old parent; the model, which has no component effects, cannot show that order.
- Only the `state` assignment is modelled for the state variable; nothing in the source reads it back.
- `ContextHook.ContextBinding.UpdateElements` stores the value as it is under `elementProperty`, while jQuery's `.prop(name, value)` differs in two ways that are not modelled. A function value is called as `fn.call(elem, i, oldValue)` and its result is stored, and nothing is stored when that result is `undefined`. Some names are renamed, such as `"class"` to `className` and `"for"` to `htmlFor`. A context value of `undefined` stores nothing: binding a missing property (`object[property]` is `undefined`) leaves every target untouched, and after a write of `undefined` the targets keep the previous value, so `ContextHook.ContextBinding.RunPending`'s "every target shows the last value written" does not hold for such a write in the source. `null` is not a value of the model.
- The event loop is modelled per binding: `pending` is the FIFO of that binding's passes, and `Tick` runs the oldest one. Interleaving with other tasks and other bindings' passes is not modelled.
- `Object.defineProperty` is replaced by the `Get`/`Set` methods.
  - The external object itself is not modelled; `initial` stands for `object[property]` at binding time.
  - Failure on a non-configurable property is not modelled.
- `useContext` returns `this` for chaining. In the model that collection is the binding's `targets` field.
- The Babel pragma comments and the JSX transform are left out.

## Findings

| source | as written | input that shows it | evidently intended | confidence | as-written member | corrected member |
|---|---|---|---|---|---|---|
| jquery.JSX-1.0.0.js:55-61 | `setState` looks up `currentElement.parent()` when it runs. The first re-render empties that parent, which detaches the anchor, so later calls find no parent and render nothing | The anchor is the only child of a container, and `Component()` returns a node that does not contain the anchor. Call the setter twice: the container keeps the first output | Every setter call re-renders the container the anchor was bound in | medium; not executed | `StateHook.SecondUpdateLostAsWritten` | `StateHook.SecondUpdateShown` |
