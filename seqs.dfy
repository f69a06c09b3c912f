/**
 * The list operations the handlers build new lists with: JavaScript's
 * `list.filter(x => x.id !== id)`, and the element counts over lists.
 */
module Seqs {

  /** `s.filter(x => key(x) !== id)`: drop every element whose key is `id`, keep the rest in order. */
  function RemoveById<T, K(==)>(s: seq<T>, key: T -> K, id: K): seq<T>
  {
    if s == [] then []
    else if key(s[0]) == id then RemoveById(s[1..], key, id)
    else [s[0]] + RemoveById(s[1..], key, id)
  }

  /** Exactly the elements with a different key survive, and nothing new appears. */
  lemma {:induction false} RemoveByIdMembers<T, K>(s: seq<T>, key: T -> K, id: K)
    ensures forall x :: x in RemoveById(s, key, id) <==> x in s && key(x) != id
  {
    if s != [] {
      RemoveByIdMembers(s[1..], key, id);
      assert s == [s[0]] + s[1..];
    }
  }

  /** Removing an id nobody carries leaves the list as it was. */
  lemma {:induction false} RemoveByIdAbsent<T, K>(s: seq<T>, key: T -> K, id: K)
    requires forall i :: 0 <= i < |s| ==> key(s[i]) != id
    ensures RemoveById(s, key, id) == s
  {
    if s != [] {
      RemoveByIdAbsent(s[1..], key, id);
      assert s == [s[0]] + s[1..];
    }
  }

  /** Filtering distributes over concatenation, so the survivors keep their relative order. */
  lemma {:induction false} RemoveByIdConcat<T, K>(a: seq<T>, b: seq<T>, key: T -> K, id: K)
    ensures RemoveById(a + b, key, id) == RemoveById(a, key, id) + RemoveById(b, key, id)
  {
    if a != [] {
      assert (a + b)[1..] == a[1..] + b;
      RemoveByIdConcat(a[1..], b, key, id);
    } else {
      assert a + b == b;
    }
  }

  /** Number of elements whose key is `id`. */
  function CountId<T, K(==)>(s: seq<T>, key: T -> K, id: K): nat
  {
    if s == [] then 0 else (if key(s[0]) == id then 1 else 0) + CountId(s[1..], key, id)
  }

  /** The list shrinks by exactly the number of elements carrying `id`. */
  lemma {:induction false} RemoveByIdLength<T, K>(s: seq<T>, key: T -> K, id: K)
    ensures |RemoveById(s, key, id)| + CountId(s, key, id) == |s|
  {
    if s != [] {
      RemoveByIdLength(s[1..], key, id);
    }
  }

  /** Removing the id of an element just put in front undoes the insertion, when no older element shares it. */
  lemma RemoveByIdUndoesPrepend<T, K>(x: T, s: seq<T>, key: T -> K)
    requires forall i :: 0 <= i < |s| ==> key(s[i]) != key(x)
    ensures RemoveById([x] + s, key, key(x)) == s
  {
    assert ([x] + s)[1..] == s;
    RemoveByIdAbsent(s, key, key(x));
  }

  /** Removing the id of an element just appended undoes the insertion, when no older element shares it. */
  lemma RemoveByIdUndoesAppend<T, K>(s: seq<T>, x: T, key: T -> K)
    requires forall i :: 0 <= i < |s| ==> key(s[i]) != key(x)
    ensures RemoveById(s + [x], key, key(x)) == s
  {
    RemoveByIdConcat(s, [x], key, key(x));
    RemoveByIdAbsent(s, key, key(x));
    assert RemoveById([x], key, key(x)) == [];
    assert s + [] == s;
  }

  /** `s.map(x => key(x) === id ? f(x) : x)`: update every element carrying `id`, in place. */
  function MapById<T, K(==)>(s: seq<T>, key: T -> K, id: K, f: T -> T): (r: seq<T>)
    ensures |r| == |s|
    ensures forall i :: 0 <= i < |s| ==> r[i] == (if key(s[i]) == id then f(s[i]) else s[i])
  {
    if s == [] then []
    else [if key(s[0]) == id then f(s[0]) else s[0]] + MapById(s[1..], key, id, f)
  }
}
