# Parameter editor — a Dafny model of its state machine

The repository is a single React component, `ParamEditor`, that lets a user add
name/value parameters through a form and edit their values inline. Apart from
styles and JSX, its behaviour is a small state machine over three things: the
ordered parameter list, the `nextId` counter, and the optional `editingParam`
slot naming the row whose value is shown as an input. This project models that
state machine as an immutable `State` datatype with one pure transition per
event handler, and proves the invariants and frame conditions of each handler.

Modules:

- `Whitespace` (`whitespace.dfy`): the blank check of the add form. It defines
  the characters ECMAScript's `String.prototype.trim` removes, the trim itself, and
  proves that the trimmed string is empty exactly when every character is white space.
- `Params` (`params.dfy`): the `Param` record, predicates over lists of them (unique,
  increasing, bounded ids), `Math.max` over the ids, and the id-keyed value edit
  performed by `updateParamValue`'s `params.map`.
- `Editor` (`editor.dfy`): the component state, the constructor, the handlers
  `onChange` (here `Submit`), `updateParamValue`, `startEditing`, `finishEditing`
  and `getModel`, the per-row display/edit mode, and sessions of user events.
- `Sessions` (`sessions.dfy`): two concrete sessions, computed in full.

Each handler is one atomic, synchronous transition from the old state to the new.
Ids are JavaScript numbers; the model takes them to be (unbounded) integers, so a
caller-supplied negative id is allowed, as in the source.

Three facts about the code shape the model:

- `updateParamValue` and `startEditing` accept any id (index.tsx:257-266); an edit
  for an id no parameter carries changes nothing (`UpdateAbsentIsNoOp`). The rendered
  component only passes the id of a displayed row (index.tsx:359, 369), and under
  that discipline the editing slot always names an existing parameter
  (`FeasibleSessionKeepsEditingKnown`).
- The constructor never checks the ids it is given (index.tsx:201-203). Ids stay
  unique only when the initial list's ids are unique (`SessionFromInit`), and rise
  in list order only when the initial list's ids do (`SessionFromInitIncreasing`).
- In every state reachable from the constructor, duplicate initial ids included,
  `nextId` is the largest id plus one, or 1 while the list is empty
  (`CounterTracksMax`, `SessionFromInitCounter`), so each add assigns the largest
  id plus one (`SubmitAssignsMaxPlusOne`).

## Model

| member | source | states |
|---|---|---|
| `Params.MaxId` | index.tsx:203 | the maximum over a non-empty list is at least every id and is itself one of the ids |
| `Editor.Init` | index.tsx:198-207 | the constructor copies the initial list, clears the editing slot, puts `nextId` above every id, and sets `nextId` to 1 for an empty list and otherwise to one past an id that is present (hence one past the maximum) |
| `Editor.InitCounter` | index.tsx:203 | after construction `nextId` is 1 for an empty list and the maximum id plus one otherwise; with unique initial ids the state is valid (ids unique and below `nextId`) |
| `Whitespace.LeadingSpace` | index.tsx:219 | the count of leading characters `trim` removes: all of them are white space and the next character, if any, is not |
| `Whitespace.TrailingSpace` | index.tsx:219 | the count of trailing characters `trim` removes: all of them are white space and the character before them, if any, is not |
| `Whitespace.Trim` | index.tsx:219 | `trim` returns a contiguous slice of the input, drops only white space before and after it, and the slice neither starts nor ends with white space |
| `Whitespace.TrimEmptyIffBlank` | index.tsx:219 | `!s.trim()` holds exactly when every character of `s` is white space (both directions) |
| `Editor.Submit` | index.tsx:209-226 | a blank name or value leaves the whole state unchanged; otherwise exactly one parameter with the old `nextId` and the untrimmed name and value is appended after the unchanged earlier elements, `nextId` grows by one and the editing slot is kept |
| `Editor.SubmitPreservesValid` | index.tsx:215-226 | an add keeps ids unique and below `nextId`, and the new id is strictly larger than every earlier id |
| `Params.AppendFresh` | index.tsx:224-225 | appending an element whose id exceeds all others keeps uniqueness and increasing order and leaves all ids below that id plus one |
| `Editor.SubmitPreservesIncreasing` | index.tsx:215-225 | if ids rose in insertion order before an add, they still do afterwards |
| `Editor.SubmitAssignsMaxPlusOne` | index.tsx:215-225 | whenever the counter is one past the maximum (or 1 for an empty list), with or without unique ids, the new id is 1 for an empty list and the maximum id plus one otherwise, and this relation between counter and list survives the add |
| `Params.MaxIdOfFreshAppend` | index.tsx:224-225 | after appending an element whose id exceeds all others, the maximum id is that element's id |
| `Editor.SubmitExtendsModel` | index.tsx:224 | after a successful add the snapshot is the previous snapshot followed by the new parameter |
| `Params.SetValue` | index.tsx:263-265 | the map keeps length, order, every id and every name; elements with the edited id get the new value and every other element is unchanged |
| `Editor.UpdateParamValue` | index.tsx:261-267 | the value edit keeps ids and names in place, gives matching elements the new value and others their old one, and changes neither `nextId` nor the editing slot |
| `Params.MaxIdOfSameKeys` | index.tsx:263-265 | an edit that keeps ids cannot move the maximum id |
| `Editor.UpdatePreservesInvariants` | index.tsx:261-267 | the value edit keeps ids unique and below `nextId`, keeps `nextId` one past the maximum, and keeps the editing slot pointing at an existing id |
| `Params.SetValueAbsent` | index.tsx:263-265 | an edit for an id no element carries returns the list unchanged |
| `Editor.UpdateAbsentIsNoOp` | index.tsx:261-267 | an edit for an id no element carries leaves the whole state unchanged |
| `Params.SetValueLastWins` | index.tsx:359 | of two successive live edits to the same id, only the later value survives |
| `Params.SetValueCommutes` | index.tsx:261-267 | edits to two different ids can be applied in either order |
| `Editor.StartEditing` | index.tsx:257-259 | a click sets the editing slot to the clicked id, overwriting any previous one, and touches neither the list nor `nextId` |
| `Editor.FinishEditing` | index.tsx:269-270 | a blur empties the editing slot and touches neither the list nor `nextId` |
| `Editor.AtMostOneRowEditing` | index.tsx:348 | with unique ids, at most one row is rendered as an input |
| `Editor.StartEditingSwitchesRows` | index.tsx:257-259 | after clicking id `b`, a row is in edit mode exactly when its id is `b`; the previously edited row returns to display mode |
| `Editor.FinishEditingClosesAllRows` | index.tsx:269-270 | after a blur no row is in edit mode |
| `Editor.EditingSlotFrame` | index.tsx:257-273 | entering and leaving edit mode keep validity, the counter relation and the snapshot; clicking an existing id leaves the slot pointing at an existing parameter, and a blur always does |
| `Editor.GetModel` | index.tsx:235-239 | the snapshot has the same length as the current list and equals it element by element |
| `Editor.RowEditing` | index.tsx:348 | a row is shown as an input exactly when the editing slot holds that row's id (a predicate; its consequences are stated by `AtMostOneRowEditing`, `StartEditingSwitchesRows` and `FinishEditingClosesAllRows`) |
| `Editor.Step` | index.tsx:310-369 | dispatches one user event to its handler (submit, click, change, blur); an event grows the list by at most one and the counter moves in step with the list's length. It accepts `Clicked` and `Typed` for ids no rendered row carries, as the handlers do; `Offered` names the events the rendered component can actually produce |
| `Editor.Offered` | index.tsx:348-369 | the events the rendered page can raise in a state: the add form always; a click only on a value shown as text; a change only in the input of the row being edited; a blur only while some existing row is being edited (a predicate; `OfferedMatchesRender` ties it to `RowEditing`) |
| `Editor.OfferedMatchesRender` | index.tsx:348-369 | a click is offered exactly when some row with that id is shown as text, a change exactly when a row with that id is shown as an input, and a blur exactly when some row is shown as an input |
| `Editor.Run` | index.tsx:310-369 | a session of events in order: the list grows by at most one per event and the counter advances by exactly the number of parameters added |
| `Editor.StepPreserves` | index.tsx:209-273 | every handler keeps ids unique and below `nextId` and `nextId` one past the maximum |
| `Editor.StepKeepsCounter` | index.tsx:209-273 | every handler keeps `nextId` one past the maximum id (1 for an empty list), without needing unique ids |
| `Editor.SessionKeepsCounter` | index.tsx:209-273 | any session keeps `nextId` one past the maximum id, so every add in it gets the maximum plus one |
| `Editor.SessionFromInitCounter` | index.tsx:198-273 | from any constructor call, even one with duplicate ids, every later state has `nextId` one past the maximum id |
| `Editor.SessionPreserves` | index.tsx:209-273 | any sequence of handler calls from a valid state keeps those invariants |
| `Editor.SessionFromInit` | index.tsx:198-273 | from a constructor call with unique initial ids, every session keeps ids unique, below the counter, and the counter one past the maximum |
| `Editor.StepPreservesIncreasing` | index.tsx:209-267 | no handler breaks the rising order of ids |
| `Editor.SessionKeepsIncreasing` | index.tsx:209-273 | from a valid state with rising ids, every session keeps the ids rising |
| `Editor.SessionFromInitIncreasing` | index.tsx:198-273 | from a constructor call whose ids rise in list order, the ids of every later state rise in list order |
| `Editor.StepKeepsValid` | index.tsx:209-273 | every handler keeps ids unique and below `nextId` |
| `Editor.StepKeepsEditingKnown` | index.tsx:209-273 | an event the rendered component offers leaves the editing slot empty or naming an existing parameter |
| `Editor.FeasibleSessionKeepsEditingKnown` | index.tsx:338-388 | in a session of events the component can produce, the editing slot is always empty or names an existing parameter |
| `Editor.FeasibleEventsOffered` | index.tsx:341-383 | in such a session each event is offered by the state before it, so every value edit targets an id that is present |
| `Editor.StepNeverDeletes` | index.tsx:209-273 | no handler removes, reorders or renames a parameter |
| `Editor.SessionNeverDeletes` | index.tsx:209-273 | after any session the earlier list's ids and names are a prefix of the later list |
| `Sessions.ExampleSession` | index.tsx:209-267 | from an empty editor, adding ("timeout","30") and ("retries","3") then typing "60" into id 1 gives `[{1,timeout,60},{2,retries,3}]` |
| `Sessions.BlankSubmissionDiscarded` | index.tsx:219 | a submission whose name is only white space leaves the state unchanged |

## Left out

- Styles and colours (index.tsx:5-172) and JSX rendering (index.tsx:287-405): presentation with no state change. The per-row display/edit choice of index.tsx:348 is kept as `RowEditing`; the empty-state and tip branches are not modelled.
- `componentDidMount` body styling and its log line, `form.reset()`, `nameInput.focus()`, all `console.log` calls and the `ReactDOM` root mount: DOM side effects and I/O. So clearing the inputs after a successful add is not modelled.
- The hover and focus flags `isButtonHover` and `focusedInput` and their four setters (index.tsx:241-255): cosmetic state that no other state depends on.
- React's asynchronous, batched `setState`: each handler is one atomic transition. In the source `onChange` reads `this.state.nextId` outside the updater, so two submissions batched before a re-render could reuse an id; this race is outside the model.
- The HTML `required` attribute on the form inputs: the browser-side check is not modelled; the handler's own blank check is.
- Whitespace.IsWhiteSpace: the character set is that of current Unicode's category Zs plus ECMAScript's fixed white space and line terminators; engines built on older Unicode tables may differ (U+180E), and JavaScript strings are UTF-16 code units while Dafny `char` is a Unicode scalar value, so lone surrogates cannot be expressed.
- Editor.Init: ids are integers; non-integer, `NaN` or infinite JavaScript numbers, and the engine's limit on spreading a very long list into `Math.max`, are not modelled.
- Editor.SessionFromInit: ids and `nextId` are JavaScript doubles, and `nextId + 1` stops growing at 2^53 (`Number.MAX_SAFE_INTEGER` + 1): from an initial id of 9007199254740991 the first two adds both get id 2^53. The model uses unbounded integers, so its uniqueness, ordering and counter results hold in the source only while ids stay below `Number.MAX_SAFE_INTEGER`.
- Editor.GetModel: `[...this.state.params]` copies only the array; the `Param` objects in the snapshot are the state's own objects, so a host that writes to a snapshot element changes the component's state without `setState`. The model's records are values and cannot express this aliasing.
