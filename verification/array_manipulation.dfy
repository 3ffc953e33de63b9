/** The `NSArray (MTLManipulationAdditions)` category: new arrays derived from
    the receiver by removing elements. Arrays are immutable sequences, so the
    receiver is never changed. Objects are compared with `-isEqual:`
    (`Values.IsEqual`), under which @YES and @1 are the same object. */
module ArrayManipulation {
  import opened Values

  /** How many elements of `a` are equal to `x`. */
  function Occurrences(a: seq<Value>, x: Value): (n: nat)
    ensures n <= |a|
    decreases |a|
  {
    if |a| == 0 then 0 else (if IsEqual(a[0], x) then 1 else 0) + Occurrences(a[1..], x)
  }

  /** `mtl_arrayByRemovingObject:`: every element equal to `x` is dropped. */
  function RemovingObject(a: seq<Value>, x: Value): (r: seq<Value>)
    // no object equal to x survives
    ensures forall i :: 0 <= i < |r| ==> !IsEqual(r[i], x)
    ensures |r| == |a| - Occurrences(a, x)
    decreases |a|
  {
    if |a| == 0 then []
    else
      var rest := RemovingObject(a[1..], x);
      assert a == [a[0]] + a[1..];
      if IsEqual(a[0], x) then rest else [a[0]] + rest
  }

  /** Every object not equal to x keeps its number of occurrences. */
  lemma {:induction false} RemovingObjectCounts(a: seq<Value>, x: Value, y: Value)
    requires !IsEqual(y, x)
    ensures multiset(RemovingObject(a, x))[y] == multiset(a)[y]
    decreases |a|
  {
    if |a| > 0 {
      RemovingObjectCounts(a[1..], x, y);
      assert multiset(a) == multiset([a[0]]) + multiset(a[1..]) by {
        assert a == [a[0]] + a[1..];
      }
    }
  }

  /** Removal is a filter: it distributes over concatenation, so the surviving
      elements keep their relative order. */
  lemma {:induction false} RemovingObjectDistributes(a: seq<Value>, b: seq<Value>, x: Value)
    ensures RemovingObject(a + b, x) == RemovingObject(a, x) + RemovingObject(b, x)
    decreases |a|
  {
    if |a| == 0 {
      assert a + b == b;
    } else {
      assert (a + b)[0] == a[0];
      assert (a + b)[1..] == a[1..] + b;
      RemovingObjectDistributes(a[1..], b, x);
    }
  }

  /** On a single element the filter keeps it exactly when it is not equal to x. */
  lemma RemovingObjectSingle(y: Value, x: Value)
    ensures RemovingObject([y], x) == (if IsEqual(y, x) then [] else [y])
  {
    assert [y][1..] == [];
  }

  /** An array without an object equal to x is returned as it was. */
  lemma {:induction false} RemovingAbsentObject(a: seq<Value>, x: Value)
    requires forall i :: 0 <= i < |a| ==> !IsEqual(a[i], x)
    ensures RemovingObject(a, x) == a
    decreases |a|
  {
    if |a| > 0 {
      assert forall i :: 0 <= i < |a| - 1 ==> a[1..][i] == a[i + 1];
      RemovingAbsentObject(a[1..], x);
      assert a == [a[0]] + a[1..];
    }
  }

  /** Removing twice is removing once. */
  lemma RemovingObjectIdempotent(a: seq<Value>, x: Value)
    ensures RemovingObject(RemovingObject(a, x), x) == RemovingObject(a, x)
  {
    RemovingAbsentObject(RemovingObject(a, x), x);
  }

  /** Removing @1 also removes @YES and [@YES], and keeps @"1". */
  lemma RemovingEqualNumbers()
    ensures RemovingObject([Bool(true), Number(1), Str("1")], Number(1)) == [Str("1")]
    ensures RemovingObject([Array([Bool(true)])], Array([Number(1)])) == []
  {
    var a := [Bool(true), Number(1), Str("1")];
    assert a[1..][1..] == [Str("1")];
    assert RemovingObject([Str("1")], Number(1)) == [Str("1")] by {
      RemovingObjectSingle(Str("1"), Number(1));
    }
    assert Normalized(Array([Bool(true)])).elements[0] == Number(1);
    assert Normalized(Array([Number(1)])).elements[0] == Number(1);
    assert IsEqual(Array([Bool(true)]), Array([Number(1)]));
    RemovingObjectSingle(Array([Bool(true)]), Array([Number(1)]));
  }

  /** `mtl_arrayByRemovingFirstObject`: the empty array stays empty. */
  function RemovingFirstObject<T>(a: seq<T>): (r: seq<T>)
    ensures |r| == if |a| == 0 then 0 else |a| - 1
    // putting the first object back restores the receiver
    ensures |a| > 0 ==> [a[0]] + r == a
    ensures |a| == 0 ==> r == []
  {
    if |a| == 0 then [] else a[1..]
  }

  /** `mtl_arrayByRemovingLastObject`: the empty array stays empty. */
  function RemovingLastObject<T>(a: seq<T>): (r: seq<T>)
    ensures |r| == if |a| == 0 then 0 else |a| - 1
    // putting the last object back restores the receiver
    ensures |a| > 0 ==> r + [a[|a| - 1]] == a
    ensures |a| == 0 ==> r == []
  {
    if |a| == 0 then [] else a[..|a| - 1]
  }
}
