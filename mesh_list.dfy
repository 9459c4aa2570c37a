/**
 * The placed-object records (`MeshData`) and the facts about names that the
 * list handlers rely on: appending, splicing out and overwriting a record.
 */
module MeshList {
  import opened Wrappers
  import opened Geometry
  import NameSearch
  import Sequences

  /**
   * The flat `position_x`, `position_y`, `position_z` and `rotation_y`
   * properties that the memo editor writes onto a record beside its nested
   * `position` and `rotation`; they travel with the record into the store.
   */
  datatype FlatPose = FlatPose(positionX: real, positionY: real, positionZ: real, rotationY: real)

  /** One placed object: its name, its type ("table", "chair"), its transform and its memo. */
  datatype MeshData = MeshData(
    name: string,
    kind: string,
    position: Vec3,
    scale: Vec3,
    rotation: Vec3,
    memo: string,
    flat: Option<FlatPose>)

  /** The names of the records, in list order. */
  function NameSeq(list: seq<MeshData>): seq<string>
  {
    Sequences.Map(list, (m: MeshData) => m.name)
  }

  /** The set of names present in the list. */
  ghost function Names(list: seq<MeshData>): set<string>
  {
    set k | 0 <= k < |list| :: list[k].name
  }

  /** No two records share a name. */
  ghost predicate Unique(list: seq<MeshData>)
  {
    forall i, j :: 0 <= i < j < |list| ==> list[i].name != list[j].name
  }

  /** The first record named by the selection, if there is a selection and such a record. */
  function FirstNamed(list: seq<MeshData>, selected: Option<string>): (r: Option<nat>)
    ensures r.Some? ==> selected.Some? && r.value < |list| && list[r.value].name == selected.value
    ensures r.Some? ==> forall j :: 0 <= j < r.value ==> list[j].name != selected.value
    ensures r.None? <==> selected.None? || selected.value !in Names(list)
  {
    match selected
    case None => None
    case Some(name) =>
      var r := NameSearch.FirstIndex(NameSeq(list), name);
      assert name in NameSeq(list) <==> name in Names(list) by {
        if name in NameSeq(list) {
          var k :| 0 <= k < |NameSeq(list)| && NameSeq(list)[k] == name;
          assert list[k].name == name;
        }
        if name in Names(list) {
          var k :| 0 <= k < |list| && list[k].name == name;
          assert NameSeq(list)[k] == name;
        }
      }
      r
  }

  /** `list.splice(i, 1)`: the list without its i-th record. */
  function RemoveAt(list: seq<MeshData>, i: nat): (r: seq<MeshData>)
    requires i < |list|
    ensures |r| == |list| - 1
    ensures forall k :: 0 <= k < i ==> r[k] == list[k]
    ensures forall k :: i <= k < |r| ==> r[k] == list[k + 1]
  {
    list[..i] + list[i + 1..]
  }

  /** Splicing out a record of a duplicate-free list removes exactly its name and keeps the list duplicate-free. */
  lemma {:induction false} RemoveAtNames(list: seq<MeshData>, i: nat)
    requires i < |list|
    ensures |RemoveAt(list, i)| == |list| - 1
    ensures forall k :: 0 <= k < i ==> RemoveAt(list, i)[k] == list[k]
    ensures forall k :: i <= k < |list| - 1 ==> RemoveAt(list, i)[k] == list[k + 1]
    ensures Unique(list) ==> Unique(RemoveAt(list, i))
    ensures Unique(list) ==> Names(RemoveAt(list, i)) == Names(list) - {list[i].name}
  {
    var r := RemoveAt(list, i);
    assert forall k :: 0 <= k < |r| ==> r[k] == if k < i then list[k] else list[k + 1];
    if Unique(list) {
      forall x | x in Names(r) ensures x in Names(list) - {list[i].name} {
        var k :| 0 <= k < |r| && r[k].name == x;
        if k < i {
          assert list[k].name == x;
        } else {
          assert list[k + 1].name == x;
        }
      }
      forall x | x in Names(list) - {list[i].name} ensures x in Names(r) {
        var k :| 0 <= k < |list| && list[k].name == x;
        if k < i {
          assert r[k].name == x;
        } else {
          assert k != i;
          assert r[k - 1].name == x;
        }
      }
    }
  }

  /** `list.push(m)`: the names grow by exactly the new name, and a fresh name keeps them distinct. */
  lemma {:induction false} AppendNames(list: seq<MeshData>, m: MeshData)
    ensures Names(list + [m]) == Names(list) + {m.name}
    ensures Unique(list) && m.name !in Names(list) ==> Unique(list + [m])
  {
    var r := list + [m];
    forall x | x in Names(list) + {m.name} ensures x in Names(r) {
      if x == m.name {
        assert r[|list|].name == x;
      } else {
        var k :| 0 <= k < |list| && list[k].name == x;
        assert r[k].name == x;
      }
    }
    if Unique(list) && m.name !in Names(list) {
      forall i, j | 0 <= i < j < |r| ensures r[i].name != r[j].name {
        if j == |list| {
          assert list[i].name in Names(list);
        }
      }
    }
  }

  /** Overwriting fields of one record in place, keeping its name, changes neither the names nor their distinctness. */
  lemma {:induction false} ReplaceNames(list: seq<MeshData>, i: nat, m: MeshData)
    requires i < |list| && m.name == list[i].name
    ensures Names(list[i := m]) == Names(list)
    ensures Unique(list) ==> Unique(list[i := m])
  {
    var r := list[i := m];
    forall x | x in Names(list) ensures x in Names(r) {
      var k :| 0 <= k < |list| && list[k].name == x;
      assert r[k].name == x;
    }
    forall x | x in Names(r) ensures x in Names(list) {
      var k :| 0 <= k < |r| && r[k].name == x;
      assert list[k].name == x;
    }
  }
}
