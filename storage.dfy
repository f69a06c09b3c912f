/**
 * The per-device key/value store (browser `localStorage`) and its key scheme.
 * Per-patient records live under `<prefix>-<patientId>`; the roster and the
 * session record live under two fixed keys.
 */
module Storage {
  import opened Wrappers
  import opened Text
  import opened Records

  type Data = map<string, Value>

  const RosterKey := "pediatria-pacientes"
  const AuthKey := "pediatria-auth"

  /** The key of a per-patient record: `${prefix}-${id}`. */
  function RecordKey(prefix: string, id: string): (k: string)
    ensures |k| == |prefix| + 1 + |id|
    ensures k[..|prefix|] == prefix && k[|prefix|] == '-' && k[|prefix| + 1..] == id
    ensures OccursAt(k, id, |prefix| + 1)
  {
    prefix + "-" + id
  }

  /** A record key always contains the id it was built from. */
  lemma RecordKeyContainsId(prefix: string, id: string)
    ensures Contains(RecordKey(prefix, id), id)
  {
    assert OccursAt(RecordKey(prefix, id), id, |prefix| + 1);
  }

  /** The stored values whose key contains `id` as a substring (`key.includes(id)`). */
  function RecordsContaining(d: Data, id: string): (m: Data)
    ensures forall k :: k in m <==> k in d && Contains(k, id)
    ensures forall k :: k in m ==> m[k] == d[k]
  {
    map k | k in d && Contains(k, id) :: d[k]
  }

  /** The store after removing every key that contains `id`. */
  function WithoutKeysContaining(d: Data, id: string): (m: Data)
    ensures forall k :: k in m <==> k in d && !Contains(k, id)
    ensures forall k :: k in m ==> m[k] == d[k]
  {
    map k | k in d && !Contains(k, id) :: d[k]
  }

  /** Removing the containing keys and keeping them split the store in two. */
  lemma SplitByContainment(d: Data, id: string)
    ensures RecordsContaining(d, id).Keys !! WithoutKeysContaining(d, id).Keys
    ensures RecordsContaining(d, id) + WithoutKeysContaining(d, id) == d
  {
    var a := RecordsContaining(d, id);
    var b := WithoutKeysContaining(d, id);
    assert (a + b).Keys == d.Keys;
  }

  /** Substring matching reaches the records of another patient whose id extends this one. */
  lemma {:induction false} ContainmentReachesLongerIds(prefix: string, id: string, other: string)
    requires Contains(other, id)
    ensures Contains(RecordKey(prefix, other), id)
  {
    var i :| 0 <= i <= |other| && OccursAt(other, id, i);
    var k := RecordKey(prefix, other);
    var j := |prefix| + 1 + i;
    assert k[j..j + |id|] == other[i..i + |id|];
    assert OccursAt(k, id, j);
  }

  /** The `p_1` / `p_12` collision: the growth record of `p_12` contains `p_1`, not the other way round. */
  lemma PatientIdCollision()
    ensures Contains(RecordKey("crescimento", "p_12"), "p_1")
    ensures !Contains(RecordKey("crescimento", "p_1"), "p_12")
  {
    assert OccursAt("p_12", "p_1", 0);
    ContainmentReachesLongerIds("crescimento", "p_1", "p_12");
    var k := RecordKey("crescimento", "p_1");
    assert k == "crescimento-p_1";
    assert forall j :: 0 <= j < |k| ==> k[j] != '2';
    forall i | 0 <= i <= |k| ensures !OccursAt(k, "p_12", i) {
      if i + 4 <= |k| {
        assert k[i..i + 4][3] == k[i + 3];
      }
    }
  }

  /** The browser store: a string-keyed map of documents. */
  class Store {
    var data: Data

    constructor(initial: Data)
      ensures data == initial
    {
      data := initial;
    }

    /** `localStorage.getItem(key)`, with `None` for `null`. */
    function GetItem(key: string): (r: Option<Value>)
      reads this
      ensures r.Some? <==> key in data
      ensures r.Some? ==> r.value == data[key]
    {
      if key in data then Some(data[key]) else None
    }

    /**
     * The mount-time load of a per-patient record: nothing is read without a
     * patient id (`if (pacienteId)`), otherwise the value under `<prefix>-<id>`.
     */
    function GetRecord(prefix: string, id: string): (r: Option<Value>)
      reads this
      ensures id == "" ==> r.None?
      ensures r.Some? <==> id != "" && RecordKey(prefix, id) in data
      ensures r.Some? ==> r.value == data[RecordKey(prefix, id)]
    {
      if id == "" then None else GetItem(RecordKey(prefix, id))
    }

    /** `localStorage.setItem(key, value)`. */
    method SetItem(key: string, value: Value)
      modifies this
      ensures data == old(data)[key := value]
    {
      data := data[key := value];
    }

    /** `localStorage.removeItem(key)`. */
    method RemoveItem(key: string)
      modifies this
      ensures data == old(data) - {key}
    {
      data := data - {key};
    }
  }
}
