/** Removal by id, shared by both screens: each deletes with
    `list.filter(x => x.id !== id)`. `key` reads the id of a record. */
module Records {

  /** The list without the records whose key is `id`: a record is kept
      exactly when it was there and has another key. */
  function Removed<T(==,!new)>(xs: seq<T>, key: T -> string, id: string): (r: seq<T>)
    ensures |r| <= |xs|
    ensures forall x :: x in r <==> x in xs && key(x) != id
  {
    if xs == [] then []
    else if key(xs[0]) == id then Removed(xs[1..], key, id)
    else [xs[0]] + Removed(xs[1..], key, id)
  }

  /** Removal keeps the relative order of what it keeps: it distributes over
      concatenation. */
  lemma {:induction false} RemovedConcat<T(!new)>(a: seq<T>, b: seq<T>, key: T -> string, id: string)
    ensures Removed(a + b, key, id) == Removed(a, key, id) + Removed(b, key, id)
  {
    if a == [] {
      assert a + b == b;
    } else {
      assert (a + b)[1..] == a[1..] + b;
      RemovedConcat(a[1..], b, key, id);
    }
  }

  /** Removing an id no record has changes nothing. */
  lemma {:induction false} RemovedAbsent<T(!new)>(xs: seq<T>, key: T -> string, id: string)
    requires forall k :: 0 <= k < |xs| ==> key(xs[k]) != id
    ensures Removed(xs, key, id) == xs
  {
    if xs != [] {
      RemovedAbsent(xs[1..], key, id);
    }
  }

  /** Removal is idempotent. */
  lemma RemovedIdempotent<T(!new)>(xs: seq<T>, key: T -> string, id: string)
    ensures Removed(Removed(xs, key, id), key, id) == Removed(xs, key, id)
  {
    RemovedAbsent(Removed(xs, key, id), key, id);
  }

  /** The records of `xs` whose key is `id`, in order. */
  function WithKey<T>(xs: seq<T>, key: T -> string, id: string): (r: seq<T>)
    ensures forall k :: 0 <= k < |r| ==> key(r[k]) == id
  {
    if xs == [] then []
    else if key(xs[0]) == id then [xs[0]] + WithKey(xs[1..], key, id)
    else WithKey(xs[1..], key, id)
  }

  /** Removing one id leaves the records of every other id exactly as they
      were, in number and order. */
  lemma {:induction false} RemovedKeepsOthers<T(!new)>(xs: seq<T>, key: T -> string, id: string, other: string)
    requires other != id
    ensures WithKey(Removed(xs, key, id), key, other) == WithKey(xs, key, other)
  {
    if xs != [] {
      RemovedKeepsOthers(xs[1..], key, id, other);
    }
  }
}
