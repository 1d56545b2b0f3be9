/**
 * The per-request intensity assignment: validating the caller's
 * `(id, scale)` list and folding it into the scale map (main.go, inside
 * `mapHandler`).
 */
module Intensities {

  datatype Result<T, E> = Ok(value: T) | Err(error: E)

  /** One decoded entry of the `scale` query parameter. */
  datatype IntensityQuery = IntensityQuery(id: int, scale: int)

  /** The request is refused: an entry's scale lies outside 0..7 (a 400 response). */
  datatype ScaleError = InvalidScale(id: int, scale: int)

  const MaxScale: int := 7

  predicate ValidScale(scale: int)
  {
    0 <= scale <= MaxScale
  }

  /** A Go map read: a missing id reads as level 0. */
  function ScaleOf(scaleMap: map<int, int>, id: int): int
  {
    if id in scaleMap then scaleMap[id] else 0
  }

  /** The ids mentioned by a list of entries. */
  function Ids(qs: seq<IntensityQuery>): set<int>
  {
    set i | 0 <= i < |qs| :: qs[i].id
  }

  /**
   * Processing `qs` in order, starting from `scaleMap`: the first invalid
   * entry ends everything with an error, a valid one is stored under its id.
   */
  function ScaleMapFrom(scaleMap: map<int, int>, qs: seq<IntensityQuery>): Result<map<int, int>, ScaleError>
    decreases |qs|
  {
    if qs == [] then Ok(scaleMap)
    else if !ValidScale(qs[0].scale) then Err(InvalidScale(qs[0].id, qs[0].scale))
    else ScaleMapFrom(scaleMap[qs[0].id := qs[0].scale], qs[1..])
  }

  /** The scale map a request builds, starting from the empty map. */
  function ScaleMapOf(qs: seq<IntensityQuery>): Result<map<int, int>, ScaleError>
  {
    ScaleMapFrom(map[], qs)
  }

  /** The validation loop of `mapHandler`, with its early return. */
  method BuildScaleMap(qs: seq<IntensityQuery>) returns (r: Result<map<int, int>, ScaleError>)
    ensures r == ScaleMapOf(qs)
  {
    var scaleMap: map<int, int> := map[];
    for i := 0 to |qs|
      invariant ScaleMapFrom(scaleMap, qs[i..]) == ScaleMapOf(qs)
    {
      var q := qs[i];
      assert qs[i..][1..] == qs[i + 1..];
      if q.scale < 0 || q.scale > 7 {
        return Err(InvalidScale(q.id, q.scale));
      }
      scaleMap := scaleMap[q.id := q.scale];
    }
    assert qs[|qs|..] == [];
    return Ok(scaleMap);
  }

  lemma {:induction false} ScaleMapFromFailsIff(scaleMap: map<int, int>, qs: seq<IntensityQuery>)
    ensures ScaleMapFrom(scaleMap, qs).Err? <==> exists i :: 0 <= i < |qs| && !ValidScale(qs[i].scale)
    decreases |qs|
  {
    if qs != [] && ValidScale(qs[0].scale) {
      ScaleMapFromFailsIff(scaleMap[qs[0].id := qs[0].scale], qs[1..]);
      if exists i :: 0 <= i < |qs| && !ValidScale(qs[i].scale) {
        var i :| 0 <= i < |qs| && !ValidScale(qs[i].scale);
        assert qs[1..][i - 1] == qs[i];
      }
    }
  }

  /** The request fails exactly when some entry has a scale outside 0..7. */
  lemma ScaleMapFailsIff(qs: seq<IntensityQuery>)
    ensures ScaleMapOf(qs).Err? <==> exists i :: 0 <= i < |qs| && !ValidScale(qs[i].scale)
  {
    ScaleMapFromFailsIff(map[], qs);
  }

  lemma {:induction false} ScaleMapFromNamesFirstInvalid(scaleMap: map<int, int>, qs: seq<IntensityQuery>, k: nat)
    requires k < |qs| && !ValidScale(qs[k].scale)
    requires forall j :: 0 <= j < k ==> ValidScale(qs[j].scale)
    ensures ScaleMapFrom(scaleMap, qs) == Err(InvalidScale(qs[k].id, qs[k].scale))
    decreases k
  {
    if k > 0 {
      assert ValidScale(qs[0].scale);
      ScaleMapFromNamesFirstInvalid(scaleMap[qs[0].id := qs[0].scale], qs[1..], k - 1);
    }
  }

  /** The error reports the id and scale of the first offending entry. */
  lemma ScaleMapNamesFirstInvalid(qs: seq<IntensityQuery>, k: nat)
    requires k < |qs| && !ValidScale(qs[k].scale)
    requires forall j :: 0 <= j < k ==> ValidScale(qs[j].scale)
    ensures ScaleMapOf(qs) == Err(InvalidScale(qs[k].id, qs[k].scale))
  {
    ScaleMapFromNamesFirstInvalid(map[], qs, k);
  }

  lemma {:induction false} ScaleMapFromValuesValid(scaleMap: map<int, int>, qs: seq<IntensityQuery>)
    requires forall id :: id in scaleMap ==> ValidScale(scaleMap[id])
    requires ScaleMapFrom(scaleMap, qs).Ok?
    ensures forall id :: id in ScaleMapFrom(scaleMap, qs).value ==> ValidScale(ScaleMapFrom(scaleMap, qs).value[id])
    decreases |qs|
  {
    if qs != [] {
      ScaleMapFromValuesValid(scaleMap[qs[0].id := qs[0].scale], qs[1..]);
    }
  }

  /** On success every stored level lies in 0..7. */
  lemma ScaleMapValuesValid(qs: seq<IntensityQuery>)
    requires ScaleMapOf(qs).Ok?
    ensures forall id :: id in ScaleMapOf(qs).value ==> ValidScale(ScaleMapOf(qs).value[id])
  {
    ScaleMapFromValuesValid(map[], qs);
  }

  lemma {:induction false} ScaleMapFromKeys(scaleMap: map<int, int>, qs: seq<IntensityQuery>)
    requires ScaleMapFrom(scaleMap, qs).Ok?
    ensures ScaleMapFrom(scaleMap, qs).value.Keys == scaleMap.Keys + Ids(qs)
    decreases |qs|
  {
    if qs != [] {
      ScaleMapFromKeys(scaleMap[qs[0].id := qs[0].scale], qs[1..]);
      assert Ids(qs) == {qs[0].id} + Ids(qs[1..]) by {
        forall id | id in Ids(qs) ensures id in {qs[0].id} + Ids(qs[1..]) {
          var i :| 0 <= i < |qs| && qs[i].id == id;
          if i > 0 {
            assert qs[1..][i - 1] == qs[i];
          }
        }
        forall id | id in Ids(qs[1..]) ensures id in Ids(qs) {
          var i :| 0 <= i < |qs[1..]| && qs[1..][i].id == id;
          assert qs[i + 1] == qs[1..][i];
        }
      }
    }
  }

  /** On success the map holds exactly the ids of the request. */
  lemma ScaleMapKeys(qs: seq<IntensityQuery>)
    requires ScaleMapOf(qs).Ok?
    ensures ScaleMapOf(qs).value.Keys == Ids(qs)
  {
    ScaleMapFromKeys(map[], qs);
  }

  lemma {:induction false} ScaleMapFromLastWins(scaleMap: map<int, int>, qs: seq<IntensityQuery>, i: nat)
    requires ScaleMapFrom(scaleMap, qs).Ok?
    requires i < |qs|
    requires forall j :: i < j < |qs| ==> qs[j].id != qs[i].id
    ensures qs[i].id in ScaleMapFrom(scaleMap, qs).value
    ensures ScaleMapFrom(scaleMap, qs).value[qs[i].id] == qs[i].scale
    decreases |qs|
  {
    var next := scaleMap[qs[0].id := qs[0].scale];
    if i > 0 {
      forall j | i - 1 < j < |qs[1..]| ensures qs[1..][j].id != qs[1..][i - 1].id {
        assert qs[1..][j] == qs[j + 1];
      }
      ScaleMapFromLastWins(next, qs[1..], i - 1);
    } else {
      ScaleMapFromUntouched(next, qs[1..], qs[0].id);
    }
  }

  lemma {:induction false} ScaleMapFromUntouched(scaleMap: map<int, int>, qs: seq<IntensityQuery>, id: int)
    requires ScaleMapFrom(scaleMap, qs).Ok?
    requires id in scaleMap && id !in Ids(qs)
    ensures id in ScaleMapFrom(scaleMap, qs).value
    ensures ScaleMapFrom(scaleMap, qs).value[id] == scaleMap[id]
    decreases |qs|
  {
    if qs != [] {
      assert qs[0].id in Ids(qs);
      assert Ids(qs[1..]) <= Ids(qs) by {
        forall x | x in Ids(qs[1..]) ensures x in Ids(qs) {
          var j :| 0 <= j < |qs[1..]| && qs[1..][j].id == x;
          assert qs[j + 1] == qs[1..][j];
        }
      }
      ScaleMapFromUntouched(scaleMap[qs[0].id := qs[0].scale], qs[1..], id);
    }
  }

  /** On success an id's level is the scale of its last entry: later entries overwrite earlier ones. */
  lemma ScaleMapLastWins(qs: seq<IntensityQuery>, i: nat)
    requires ScaleMapOf(qs).Ok?
    requires i < |qs|
    requires forall j :: i < j < |qs| ==> qs[j].id != qs[i].id
    ensures ScaleOf(ScaleMapOf(qs).value, qs[i].id) == qs[i].scale
  {
    ScaleMapFromLastWins(map[], qs, i);
  }
}
