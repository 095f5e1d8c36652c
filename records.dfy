/** The record store, abstracted: a table is the sequence of its records in the
    store's order, each record an opaque id and its cells. */
module Records {
  import opened Wrappers

  /** An opaque record identifier, assigned by the store when a record is created. */
  datatype RecordId = RecordId(serial: nat)

  /** One record of a table. */
  datatype Row<F> = Row(id: RecordId, fields: F)

  type Table<F> = seq<Row<F>>

  /** No two records of the table share an id. */
  predicate DistinctIds<F>(t: Table<F>)
  {
    forall i, j :: 0 <= i < j < |t| ==> t[i].id != t[j].id
  }

  /** Every id in the table was issued before serial `bound`. */
  predicate IdsBelow<F>(t: Table<F>, bound: nat)
  {
    forall i :: 0 <= i < |t| ==> t[i].id.serial < bound
  }

  /** Some record of the table has id `id`. */
  predicate HasId<F>(t: Table<F>, id: RecordId)
  {
    exists i :: 0 <= i < |t| && t[i].id == id
  }

  /** The record with id `id`, if any (the store's `find`). */
  function Lookup<F>(t: Table<F>, id: RecordId): (r: Option<Row<F>>)
    ensures r.None? <==> !HasId(t, id)
    ensures r.Some? ==> exists i :: 0 <= i < |t| && t[i] == r.value && r.value.id == id
  {
    if |t| == 0 then None
    else if t[0].id == id then Some(t[0])
    else
      var r := Lookup(t[1..], id);
      assert HasId(t[1..], id) ==> HasId(t, id) by {
        if HasId(t[1..], id) {
          var i :| 0 <= i < |t[1..]| && t[1..][i].id == id;
          assert t[i + 1].id == id;
        }
      }
      assert HasId(t, id) ==> HasId(t[1..], id) by {
        if HasId(t, id) {
          var i :| 0 <= i < |t| && t[i].id == id;
          assert i > 0 && t[1..][i - 1].id == id;
        }
      }
      assert r.Some? ==> exists i :: 0 <= i < |t| && t[i] == r.value by {
        if r.Some? {
          var i :| 0 <= i < |t[1..]| && t[1..][i] == r.value;
          assert t[i + 1] == r.value;
        }
      }
      r
  }

  /** In a table with distinct ids, looking up the id of a record finds that record. */
  lemma LookupFindsRecord<F>(t: Table<F>, i: int)
    requires DistinctIds(t) && 0 <= i < |t|
    ensures Lookup(t, t[i].id) == Some(t[i])
  {
    var r := Lookup(t, t[i].id);
    assert HasId(t, t[i].id);
    var j :| 0 <= j < |t| && t[j] == r.value && r.value.id == t[i].id;
    assert j == i;
  }

  /** The table after the store's update of record `id`: its cells become `fields`;
      every other record, and the order, stay as they were. */
  function Replace<F>(t: Table<F>, id: RecordId, fields: F): (t': Table<F>)
    ensures |t'| == |t|
    ensures forall i :: 0 <= i < |t| ==> t'[i].id == t[i].id
    ensures forall i :: 0 <= i < |t| && t[i].id != id ==> t'[i] == t[i]
    ensures forall i :: 0 <= i < |t| && t[i].id == id ==> t'[i].fields == fields
  {
    if |t| == 0 then []
    else [if t[0].id == id then Row(id, fields) else t[0]] + Replace(t[1..], id, fields)
  }

  /** After an update, looking the record up gives the new cells. */
  lemma {:induction false} LookupReplaced<F>(t: Table<F>, id: RecordId, fields: F)
    requires HasId(t, id)
    ensures Lookup(Replace(t, id, fields), id) == Some(Row(id, fields))
  {
    var t' := Replace(t, id, fields);
    if t[0].id != id {
      assert HasId(t[1..], id) by {
        var i :| 0 <= i < |t| && t[i].id == id;
        assert t[1..][i - 1].id == id;
      }
      LookupReplaced(t[1..], id, fields);
      assert t'[1..] == Replace(t[1..], id, fields);
    }
  }

  /** An update of one record does not change what any other id looks up to. */
  lemma {:induction false} LookupOtherAfterReplace<F>(t: Table<F>, id: RecordId, fields: F, other: RecordId)
    requires other != id
    ensures Lookup(Replace(t, id, fields), other) == Lookup(t, other)
  {
    if |t| > 0 {
      var t' := Replace(t, id, fields);
      LookupOtherAfterReplace(t[1..], id, fields, other);
      assert t'[1..] == Replace(t[1..], id, fields);
    }
  }

  /** The table after the store's `destroy` of record `id`: every other record, in order. */
  function Remove<F(!new)>(t: Table<F>, id: RecordId): (t': Table<F>)
    ensures forall r :: r in t' <==> r in t && r.id != id
    ensures |t'| <= |t|
    ensures DistinctIds(t) ==> DistinctIds(t')
  {
    if |t| == 0 then []
    else
      var rest := Remove(t[1..], id);
      assert forall r :: r in t <==> r == t[0] || r in t[1..] by {
        assert t == [t[0]] + t[1..];
      }
      if t[0].id == id then rest
      else
        assert DistinctIds(t) ==> DistinctIds([t[0]] + rest) by {
          if DistinctIds(t) {
            assert DistinctIds(t[1..]);
            forall j | 0 <= j < |rest| ensures rest[j].id != t[0].id {
              assert rest[j] in t[1..];
              var k :| 0 <= k < |t[1..]| && t[1..][k] == rest[j];
              assert t[k + 1] == rest[j];
            }
          }
        }
        [t[0]] + rest
  }
}
