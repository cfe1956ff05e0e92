/**
 The state machine of the parameter editor: the ordered parameter list, the
 next-id counter and the single "being edited" slot, with one pure transition
 per event handler. Each handler is one atomic, synchronous step.
 */
module Editor {
  import opened Params
  import opened Whitespace

  datatype Option<T> = None | Some(value: T)

  /** The component state. `editing` is the id whose value is shown as an input, if any. */
  datatype State = State(params: seq<Param>, nextId: int, editing: Option<int>)

  /** The snapshot handed out to the host application. */
  datatype Model = Model(params: seq<Param>)

  /** The state every handler keeps: ids are unique and all below the counter. */
  predicate Valid(s: State) {
    IdsUnique(s.params) && AllIdsBelow(s.params, s.nextId)
  }

  /** The counter is one past the largest id, or 1 while the list is empty. */
  predicate CounterTracksMax(s: State) {
    if |s.params| == 0 then s.nextId == 1 else s.nextId == MaxId(s.params) + 1
  }

  /** The editing slot, when set, names a parameter that exists. */
  predicate EditingKnown(s: State) {
    s.editing.Some? ==> HasId(s.params, s.editing.value)
  }

  /** The constructor: the initial list is copied, nothing is being edited, and the
      counter starts one past the largest initial id (1 for an empty list). */
  function Init(initial: seq<Param>): (s: State)
    ensures s.params == initial && s.editing == None
    ensures AllIdsBelow(s.params, s.nextId)
    ensures |initial| == 0 ==> s.nextId == 1
    ensures |initial| > 0 ==> HasId(initial, s.nextId - 1)
  {
    State(initial, if |initial| > 0 then MaxId(initial) + 1 else 1, None)
  }

  /** The form-submit handler. A blank name or value discards the submission;
      otherwise one parameter carrying the current counter and the untrimmed
      inputs is appended and the counter moves on by one. */
  function Submit(s: State, name: string, value: string): (r: State)
    ensures IsBlank(name) || IsBlank(value) ==> r == s
    ensures !IsBlank(name) && !IsBlank(value) ==>
      && |r.params| == |s.params| + 1
      && r.params[..|s.params|] == s.params
      && r.params[|s.params|] == Param(s.nextId, name, value)
      && r.nextId == s.nextId + 1
      && r.editing == s.editing
  {
    TrimEmptyIffBlank(name);
    TrimEmptyIffBlank(value);
    if Trim(name) == [] || Trim(value) == [] then s
    else s.(params := s.params + [Param(s.nextId, name, value)], nextId := s.nextId + 1)
  }

  /** The value edit: every parameter whose id is `id` takes `v`; the counter and
      the editing slot are untouched. */
  function UpdateParamValue(s: State, id: int, v: string): (r: State)
    ensures SameKeys(r.params, s.params)
    ensures forall i :: 0 <= i < |s.params| ==>
      r.params[i].value == (if s.params[i].id == id then v else s.params[i].value)
    ensures r.nextId == s.nextId && r.editing == s.editing
  {
    s.(params := SetValue(s.params, id, v))
  }

  /** Click on a value: `id` takes the one editing slot, displacing any other. */
  function StartEditing(s: State, id: int): (r: State)
    ensures r.editing == Some(id)
    ensures r.params == s.params && r.nextId == s.nextId
  {
    s.(editing := Some(id))
  }

  /** Blur of the edit input: nothing is being edited any more. */
  function FinishEditing(s: State): (r: State)
    ensures r.editing == None
    ensures r.params == s.params && r.nextId == s.nextId
  {
    s.(editing := None)
  }

  /** `getModel`: a fresh list holding the current parameters, element by element. */
  function GetModel(s: State): (m: Model)
    ensures |m.params| == |s.params|
    ensures forall i :: 0 <= i < |s.params| ==> m.params[i] == s.params[i]
  {
    Model(s.params)
  }

  /** Whether the row at position `i` shows an input (true) or plain text (false). */
  predicate RowEditing(s: State, i: int)
    requires 0 <= i < |s.params|
  {
    s.editing == Some(s.params[i].id)
  }

  // ---------------------------------------------------------------------------
  // The constructor

  /** After construction the counter exceeds every id, and with a non-empty initial
      list it is exactly one past the largest. */
  lemma InitCounter(initial: seq<Param>)
    ensures CounterTracksMax(Init(initial))
    ensures IdsUnique(initial) ==> Valid(Init(initial))
  {
  }

  // ---------------------------------------------------------------------------
  // Submit

  /** A successful add keeps ids unique and below the counter, and the new id is
      strictly the largest in the list. */
  lemma SubmitPreservesValid(s: State, name: string, value: string)
    requires Valid(s)
    ensures Valid(Submit(s, name, value))
    ensures !IsBlank(name) && !IsBlank(value) ==>
      AllIdsBelow(s.params, Submit(s, name, value).params[|s.params|].id)
  {
    if !IsBlank(name) && !IsBlank(value) {
      var p := Param(s.nextId, name, value);
      assert Submit(s, name, value).params == s.params + [p];
      AppendFresh(s.params, p);
    }
  }

  /** When ids rose in insertion order before an add, they still do afterwards. */
  lemma SubmitPreservesIncreasing(s: State, name: string, value: string)
    requires Valid(s) && IdsIncreasing(s.params)
    ensures IdsIncreasing(Submit(s, name, value).params)
  {
    if !IsBlank(name) && !IsBlank(value) {
      var p := Param(s.nextId, name, value);
      assert Submit(s, name, value).params == s.params + [p];
      AppendFresh(s.params, p);
    }
  }

  /** The add assigns one more than the current largest id, or 1 to the first
      parameter, and the counter keeps tracking the maximum. */
  lemma SubmitAssignsMaxPlusOne(s: State, name: string, value: string)
    requires CounterTracksMax(s)
    ensures CounterTracksMax(Submit(s, name, value))
    ensures !IsBlank(name) && !IsBlank(value) ==>
      Submit(s, name, value).params[|s.params|].id == (if |s.params| == 0 then 1 else MaxId(s.params) + 1)
  {
    var r := Submit(s, name, value);
    if !IsBlank(name) && !IsBlank(value) {
      assert r.params == s.params + [Param(s.nextId, name, value)];
      MaxIdOfFreshAppend(s.params, Param(s.nextId, name, value));
    }
  }

  /** The snapshot after a successful add is the previous snapshot plus the new parameter. */
  lemma SubmitExtendsModel(s: State, name: string, value: string)
    requires !IsBlank(name) && !IsBlank(value)
    ensures GetModel(Submit(s, name, value)).params == GetModel(s).params + [Param(s.nextId, name, value)]
  {
    var r := Submit(s, name, value);
    assert r.params == r.params[..|s.params|] + [r.params[|s.params|]];
  }

  // ---------------------------------------------------------------------------
  // UpdateParamValue

  /** The value edit keeps every invariant of the state, and the counter's
      relation to the largest id. */
  lemma UpdatePreservesInvariants(s: State, id: int, v: string)
    ensures Valid(s) ==> Valid(UpdateParamValue(s, id, v))
    ensures CounterTracksMax(s) ==> CounterTracksMax(UpdateParamValue(s, id, v))
    ensures EditingKnown(s) ==> EditingKnown(UpdateParamValue(s, id, v))
  {
    var r := UpdateParamValue(s, id, v);
    if |s.params| > 0 {
      MaxIdOfSameKeys(r.params, s.params);
    }
    if s.editing.Some? && HasId(s.params, s.editing.value) {
      var k :| 0 <= k < |s.params| && s.params[k].id == s.editing.value;
      assert r.params[k].id == s.editing.value;
    }
  }

  /** Editing an id that is not in the list changes nothing. */
  lemma UpdateAbsentIsNoOp(s: State, id: int, v: string)
    requires !HasId(s.params, id)
    ensures UpdateParamValue(s, id, v) == s
  {
    SetValueAbsent(s.params, id, v);
  }

  // ---------------------------------------------------------------------------
  // The editing slot

  /** With unique ids at most one row is in edit mode. */
  lemma AtMostOneRowEditing(s: State, i: int, j: int)
    requires IdsUnique(s.params)
    requires 0 <= i < |s.params| && 0 <= j < |s.params|
    requires RowEditing(s, i) && RowEditing(s, j)
    ensures i == j
  {
  }

  /** Clicking row `b` puts exactly the rows carrying its id into edit mode and
      returns every other row, the previously edited one included, to display mode. */
  lemma StartEditingSwitchesRows(s: State, b: int)
    ensures forall i :: 0 <= i < |s.params| ==>
      (RowEditing(StartEditing(s, b), i) <==> s.params[i].id == b)
  {
  }

  /** After a blur no row is in edit mode. */
  lemma FinishEditingClosesAllRows(s: State)
    ensures forall i :: 0 <= i < |s.params| ==> !RowEditing(FinishEditing(s), i)
  {
  }

  /** Entering and leaving edit mode keep the state's invariants and the snapshot. */
  lemma EditingSlotFrame(s: State, id: int)
    ensures Valid(s) ==> Valid(StartEditing(s, id)) && Valid(FinishEditing(s))
    ensures CounterTracksMax(s) ==> CounterTracksMax(StartEditing(s, id)) && CounterTracksMax(FinishEditing(s))
    ensures GetModel(StartEditing(s, id)) == GetModel(s) == GetModel(FinishEditing(s))
    ensures HasId(s.params, id) ==> EditingKnown(StartEditing(s, id))
    ensures EditingKnown(FinishEditing(s))
  {
  }

  // ---------------------------------------------------------------------------
  // Sessions

  /** The user events the rendered component turns into handler calls. */
  datatype Event =
    | Submitted(name: string, value: string)  // the add form is submitted
    | Clicked(id: int)                        // a displayed value is clicked
    | Typed(id: int, v: string)               // the edit input changes
    | Blurred                                 // the edit input loses focus

  /** Dispatches one event to its handler. Any id is accepted, as the handlers
      themselves accept any id. Only an add grows the list, by one, and the
      counter moves in step with the list's length. */
  function Step(s: State, e: Event): (r: State)
    ensures |s.params| <= |r.params| <= |s.params| + 1
    ensures r.nextId - s.nextId == |r.params| - |s.params|
  {
    match e
    case Submitted(n, v) => Submit(s, n, v)
    case Clicked(id) => StartEditing(s, id)
    case Typed(id, v) => UpdateParamValue(s, id, v)
    case Blurred => FinishEditing(s)
  }

  /** The state after handling `es` in order: at most one parameter per event is
      added, and the counter has advanced by exactly the number added. */
  function Run(s: State, es: seq<Event>): (r: State)
    ensures |s.params| <= |r.params| <= |s.params| + |es|
    ensures r.nextId - s.nextId == |r.params| - |s.params|
    decreases |es|
  {
    if |es| == 0 then s else Run(Step(s, es[0]), es[1..])
  }

  /** The events the rendered component can produce in state `s`: the add form is
      always there; a value can be clicked only on a row shown as text; the edit
      input, and so its change and blur events, exists only for the row being edited. */
  predicate Offered(s: State, e: Event) {
    match e
    case Submitted(_, _) => true
    case Clicked(id) => HasId(s.params, id) && s.editing != Some(id)
    case Typed(id, _) => HasId(s.params, id) && s.editing == Some(id)
    case Blurred => s.editing.Some? && HasId(s.params, s.editing.value)
  }

  /** `Offered` is what the render wires up: a click comes from a row shown as text,
      a change from the row shown as an input with that id, and a blur from some row
      shown as an input. */
  lemma OfferedMatchesRender(s: State, e: Event)
    ensures e.Clicked? ==> (Offered(s, e) <==>
      exists i :: 0 <= i < |s.params| && s.params[i].id == e.id && !RowEditing(s, i))
    ensures e.Typed? ==> (Offered(s, e) <==>
      exists i :: 0 <= i < |s.params| && s.params[i].id == e.id && RowEditing(s, i))
    ensures e.Blurred? ==> (Offered(s, e) <==>
      exists i :: 0 <= i < |s.params| && RowEditing(s, i))
  {
    if e.Blurred? && Offered(s, e) {
      var k :| 0 <= k < |s.params| && s.params[k].id == s.editing.value;
      assert RowEditing(s, k);
    }
  }

  /** Every event of `es` is offered by the state it arrives in. */
  predicate Feasible(s: State, es: seq<Event>)
    decreases |es|
  {
    |es| == 0 || (Offered(s, es[0]) && Feasible(Step(s, es[0]), es[1..]))
  }

  /** One handler keeps both invariants. */
  lemma StepPreserves(s: State, e: Event)
    requires Valid(s) && CounterTracksMax(s)
    ensures Valid(Step(s, e)) && CounterTracksMax(Step(s, e))
  {
    StepKeepsValid(s, e);
    StepKeepsCounter(s, e);
  }

  /** Every handler keeps the counter one past the largest id, whether or not the
      ids are unique. */
  lemma StepKeepsCounter(s: State, e: Event)
    requires CounterTracksMax(s)
    ensures CounterTracksMax(Step(s, e))
  {
    match e
    case Submitted(n, v) =>
      SubmitAssignsMaxPlusOne(s, n, v);
    case Clicked(id) =>
    case Typed(id, v) =>
      UpdatePreservesInvariants(s, id, v);
    case Blurred =>
  }

  /** Any session keeps the counter one past the largest id, so every add in it
      assigns the largest id plus one. */
  lemma {:induction false} SessionKeepsCounter(s: State, es: seq<Event>)
    requires CounterTracksMax(s)
    ensures CounterTracksMax(Run(s, es))
    decreases |es|
  {
    if |es| > 0 {
      StepKeepsCounter(s, es[0]);
      SessionKeepsCounter(Step(s, es[0]), es[1..]);
    }
  }

  /** From any constructor call, duplicate initial ids included, the counter stays
      one past the largest id through every session. */
  lemma SessionFromInitCounter(initial: seq<Param>, es: seq<Event>)
    ensures CounterTracksMax(Run(Init(initial), es))
  {
    InitCounter(initial);
    SessionKeepsCounter(Init(initial), es);
  }

  /** Any session from a valid state whose counter tracks the maximum keeps ids
      unique, below the counter, and the counter one past the largest id. */
  lemma {:induction false} SessionPreserves(s: State, es: seq<Event>)
    requires Valid(s) && CounterTracksMax(s)
    ensures Valid(Run(s, es)) && CounterTracksMax(Run(s, es))
    decreases |es|
  {
    if |es| > 0 {
      StepPreserves(s, es[0]);
      SessionPreserves(Step(s, es[0]), es[1..]);
    }
  }

  /** Any session that starts from a constructor call with unique initial ids keeps
      ids unique, below the counter, and the counter one past the largest id. */
  lemma SessionFromInit(initial: seq<Param>, es: seq<Event>)
    requires IdsUnique(initial)
    ensures Valid(Run(Init(initial), es)) && CounterTracksMax(Run(Init(initial), es))
  {
    InitCounter(initial);
    SessionPreserves(Init(initial), es);
  }

  /** No handler deletes, reorders or renames a parameter. */
  lemma StepNeverDeletes(s: State, e: Event)
    ensures KeysExtend(Step(s, e).params, s.params)
  {
    match e
    case Submitted(n, v) =>
    case Clicked(id) =>
    case Typed(id, v) =>
    case Blurred =>
  }

  /** Every session keeps the earlier list's ids and names as a prefix of the later one. */
  lemma {:induction false} SessionNeverDeletes(s: State, es: seq<Event>)
    ensures KeysExtend(Run(s, es).params, s.params)
    decreases |es|
  {
    if |es| > 0 {
      StepNeverDeletes(s, es[0]);
      SessionNeverDeletes(Step(s, es[0]), es[1..]);
    }
  }

  /** No handler breaks the insertion order of ids. */
  lemma StepPreservesIncreasing(s: State, e: Event)
    requires Valid(s) && IdsIncreasing(s.params)
    ensures IdsIncreasing(Step(s, e).params)
  {
    match e
    case Submitted(n, v) =>
      SubmitPreservesIncreasing(s, n, v);
    case Clicked(id) =>
    case Typed(id, v) =>
    case Blurred =>
  }

  /** From a constructor call whose initial ids rise in list order, the ids of
      every later state rise in list order too (and so are unique). */
  lemma SessionFromInitIncreasing(initial: seq<Param>, es: seq<Event>)
    requires IdsIncreasing(initial)
    ensures IdsIncreasing(Run(Init(initial), es).params)
  {
    InitCounter(initial);
    SessionKeepsIncreasing(Init(initial), es);
  }

  /** Increasing ids survive any session from a valid state. */
  lemma {:induction false} SessionKeepsIncreasing(s: State, es: seq<Event>)
    requires Valid(s) && IdsIncreasing(s.params)
    ensures IdsIncreasing(Run(s, es).params)
    decreases |es|
  {
    if |es| > 0 {
      StepPreservesIncreasing(s, es[0]);
      StepKeepsValid(s, es[0]);
      SessionKeepsIncreasing(Step(s, es[0]), es[1..]);
    }
  }

  /** Every handler keeps ids unique and below the counter. */
  lemma StepKeepsValid(s: State, e: Event)
    requires Valid(s)
    ensures Valid(Step(s, e))
  {
    match e
    case Submitted(n, v) =>
      SubmitPreservesValid(s, n, v);
    case Clicked(id) =>
    case Typed(id, v) =>
      UpdatePreservesInvariants(s, id, v);
    case Blurred =>
  }

  /** An event the rendered component offers leaves the editing slot naming an
      existing parameter, or empty. */
  lemma StepKeepsEditingKnown(s: State, e: Event)
    requires EditingKnown(s) && Offered(s, e)
    ensures EditingKnown(Step(s, e))
  {
    match e
    case Submitted(n, v) =>
      if s.editing.Some? && !IsBlank(n) && !IsBlank(v) {
        var k :| 0 <= k < |s.params| && s.params[k].id == s.editing.value;
        assert Submit(s, n, v).params[k] == s.params[k];
      }
    case Clicked(id) =>
    case Typed(id, v) =>
      UpdatePreservesInvariants(s, id, v);
    case Blurred =>
  }

  /** In a session of events the component can produce, the editing slot always
      names an existing parameter or is empty. */
  lemma {:induction false} FeasibleSessionKeepsEditingKnown(s: State, es: seq<Event>)
    requires EditingKnown(s) && Feasible(s, es)
    ensures EditingKnown(Run(s, es))
    decreases |es|
  {
    if |es| > 0 {
      StepKeepsEditingKnown(s, es[0]);
      FeasibleSessionKeepsEditingKnown(Step(s, es[0]), es[1..]);
    }
  }

  /** In such a session the `k`-th event is offered by the state the first `k`
      events lead to; in particular every value edit targets an id that is present. */
  lemma {:induction false} FeasibleEventsOffered(s: State, es: seq<Event>, k: int)
    requires Feasible(s, es) && 0 <= k < |es|
    ensures Offered(Run(s, es[..k]), es[k])
    ensures es[k].Typed? ==> HasId(Run(s, es[..k]).params, es[k].id)
    decreases k
  {
    if k == 0 {
      assert es[..0] == [];
    } else {
      FeasibleEventsOffered(Step(s, es[0]), es[1..], k - 1);
      assert es[..k][0] == es[0];
      assert es[..k][1..] == es[1..][..k - 1];
    }
  }
}
