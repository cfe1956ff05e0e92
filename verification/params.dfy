/**
 The parameter records of the editor and the operations over a list of them:
 the maximum id the constructor computes and the id-keyed value edit.
 */
module Params {

  /** One user-defined name/value pair. The id is a JavaScript number; the model
      takes it to be an integer. */
  datatype Param = Param(id: int, name: string, value: string)

  /** `id` is the id of some element of `ps`. */
  predicate HasId(ps: seq<Param>, id: int) {
    exists i :: 0 <= i < |ps| && ps[i].id == id
  }

  /** Every id in `ps` is strictly below `bound`. */
  predicate AllIdsBelow(ps: seq<Param>, bound: int) {
    forall i :: 0 <= i < |ps| ==> ps[i].id < bound
  }

  /** No two elements share an id. */
  predicate IdsUnique(ps: seq<Param>) {
    forall i, j :: 0 <= i < j < |ps| ==> ps[i].id != ps[j].id
  }

  /** Ids rise strictly in list (insertion) order. */
  predicate IdsIncreasing(ps: seq<Param>) {
    forall i, j :: 0 <= i < j < |ps| ==> ps[i].id < ps[j].id
  }

  /** `ps` and `qs` agree position by position on id and name. */
  predicate SameKeys(ps: seq<Param>, qs: seq<Param>) {
    |ps| == |qs| && forall i :: 0 <= i < |ps| ==> ps[i].id == qs[i].id && ps[i].name == qs[i].name
  }

  /** `qs` begins with the ids and names of `ps`, in the same order. */
  predicate KeysExtend(qs: seq<Param>, ps: seq<Param>) {
    |qs| >= |ps| && forall i :: 0 <= i < |ps| ==> qs[i].id == ps[i].id && qs[i].name == ps[i].name
  }

  /** `Math.max` over the ids of a non-empty list: an upper bound that is itself an id. */
  function MaxId(ps: seq<Param>): (m: int)
    requires |ps| > 0
    ensures forall i :: 0 <= i < |ps| ==> ps[i].id <= m
    ensures HasId(ps, m)
  {
    if |ps| == 1 then ps[0].id
    else
      var rest := MaxId(ps[1..]);
      var k :| 0 <= k < |ps| - 1 && ps[1..][k].id == rest;
      assert ps[k + 1].id == rest;
      if ps[0].id >= rest then ps[0].id else rest
  }

  /** The maximum is determined by the ids alone. */
  lemma MaxIdOfSameKeys(ps: seq<Param>, qs: seq<Param>)
    requires |ps| > 0 && SameKeys(ps, qs)
    ensures MaxId(ps) == MaxId(qs)
  {
    var k :| 0 <= k < |qs| && qs[k].id == MaxId(qs);
    var l :| 0 <= l < |ps| && ps[l].id == MaxId(ps);
    assert ps[k].id <= MaxId(ps);
    assert qs[l].id <= MaxId(qs);
  }

  /** The maximum after appending an element whose id exceeds every existing one is that id. */
  lemma MaxIdOfFreshAppend(ps: seq<Param>, p: Param)
    requires AllIdsBelow(ps, p.id)
    ensures MaxId(ps + [p]) == p.id
  {
    var qs := ps + [p];
    assert qs[|ps|] == p;
    var k :| 0 <= k < |qs| && qs[k].id == MaxId(qs);
    if k < |ps| {
      assert qs[k] == ps[k];
    }
  }

  /** Appending an element whose id exceeds every existing id keeps ids unique
      (and rising, if they rose before), and leaves every id below the next one. */
  lemma AppendFresh(ps: seq<Param>, p: Param)
    requires AllIdsBelow(ps, p.id)
    ensures IdsUnique(ps) ==> IdsUnique(ps + [p])
    ensures IdsIncreasing(ps) ==> IdsIncreasing(ps + [p])
    ensures AllIdsBelow(ps + [p], p.id + 1)
  {
    var qs := ps + [p];
    assert forall i :: 0 <= i < |ps| ==> qs[i] == ps[i];
    assert qs[|ps|] == p;
  }

  /** The `params.map` of `updateParamValue`: every element whose id is `id`
      takes value `v`; every other element, and every id and name, is kept. */
  function SetValue(ps: seq<Param>, id: int, v: string): (r: seq<Param>)
    ensures SameKeys(r, ps)
    ensures forall i :: 0 <= i < |ps| && ps[i].id == id ==> r[i].value == v
    ensures forall i :: 0 <= i < |ps| && ps[i].id != id ==> r[i] == ps[i]
  {
    if |ps| == 0 then []
    else [if ps[0].id == id then ps[0].(value := v) else ps[0]] + SetValue(ps[1..], id, v)
  }

  /** An edit keyed by an id that no element carries leaves the list as it was. */
  lemma {:induction false} SetValueAbsent(ps: seq<Param>, id: int, v: string)
    requires !HasId(ps, id)
    ensures SetValue(ps, id, v) == ps
  {
    var r := SetValue(ps, id, v);
    forall i | 0 <= i < |ps|
      ensures r[i] == ps[i]
    {
      assert ps[i].id != id;
    }
  }

  /** Live editing: of two successive edits of the same id, the later wins. */
  lemma {:induction false} SetValueLastWins(ps: seq<Param>, id: int, v: string, w: string)
    ensures SetValue(SetValue(ps, id, v), id, w) == SetValue(ps, id, w)
  {
    var a := SetValue(SetValue(ps, id, v), id, w);
    var b := SetValue(ps, id, w);
    forall i | 0 <= i < |ps|
      ensures a[i] == b[i]
    {
      if ps[i].id == id {
        assert a[i].value == w == b[i].value;
      }
    }
  }

  /** Edits of two different ids commute. */
  lemma {:induction false} SetValueCommutes(ps: seq<Param>, id1: int, v1: string, id2: int, v2: string)
    requires id1 != id2
    ensures SetValue(SetValue(ps, id1, v1), id2, v2) == SetValue(SetValue(ps, id2, v2), id1, v1)
  {
    var a := SetValue(SetValue(ps, id1, v1), id2, v2);
    var b := SetValue(SetValue(ps, id2, v2), id1, v1);
    forall i | 0 <= i < |ps|
      ensures a[i] == b[i]
    {
      if ps[i].id == id1 {
        assert a[i].value == v1 == b[i].value;
      } else if ps[i].id == id2 {
        assert a[i].value == v2 == b[i].value;
      }
    }
  }
}
