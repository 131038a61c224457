/**
 * A JavaScript `Set` of values, which iterates in insertion order: the worker's set of
 * polyfill specifiers and the plugin's `allPolyfills` are both of this kind. A set is the
 * sequence of its elements in the order they were first added.
 */
module OrderedSet {

  predicate NoDups<T(==)>(s: seq<T>) {
    forall i, j :: 0 <= i < j < |s| ==> s[i] != s[j]
  }

  /** `set.add(x)`: appends `x` unless it is already present. */
  function Add<T(==,!new)>(s: seq<T>, x: T): (r: seq<T>)
    ensures NoDups(s) ==> NoDups(r)
    ensures forall y :: y in r <==> y in s || y == x
    ensures x in s ==> r == s
    ensures x !in s ==> r == s + [x]
  {
    if x in s then s else s + [x]
  }

  /** Adds every element of `xs`, in order: `xs.forEach(x => set.add(x))`. */
  function AddAll<T(==,!new)>(s: seq<T>, xs: seq<T>): (r: seq<T>)
    decreases |xs|
  {
    if xs == [] then s else Add(AddAll(s, xs[..|xs| - 1]), xs[|xs| - 1])
  }

  /** Adding one more element after a list is one more `add`. */
  lemma AddAllSnoc<T(!new)>(s: seq<T>, xs: seq<T>, x: T)
    ensures AddAll(s, xs + [x]) == Add(AddAll(s, xs), x)
  {
    assert (xs + [x])[..|xs|] == xs;
  }

  /** `Array.from(new Set(xs))`. */
  function FromSeq<T(==,!new)>(xs: seq<T>): seq<T> {
    AddAll([], xs)
  }

  /** The position of the first occurrence of `x` in `xs`. */
  function FirstIndex<T(==)>(xs: seq<T>, x: T): (i: nat)
    requires x in xs
    ensures i < |xs| && xs[i] == x
    ensures forall j :: 0 <= j < i ==> xs[j] != x
  {
    if xs[0] == x then 0 else 1 + FirstIndex(xs[1..], x)
  }

  /** Adding keeps what was there as a prefix, never repeats an element, and holds exactly
      the elements added so far. */
  lemma {:induction false} AddAllSpec<T(!new)>(s: seq<T>, xs: seq<T>)
    requires NoDups(s)
    ensures NoDups(AddAll(s, xs))
    ensures |s| <= |AddAll(s, xs)| && AddAll(s, xs)[..|s|] == s
    ensures forall y :: y in AddAll(s, xs) <==> y in s || y in xs
    decreases |xs|
  {
    if xs != [] {
      var front := xs[..|xs| - 1];
      AddAllSpec(s, front);
      assert xs == front + [xs[|xs| - 1]];
    }
  }

  /** `Array.from(new Set(xs))` lists each distinct element of `xs` once, ordered by where it
      first occurs in `xs`. */
  lemma {:induction false} FromSeqFirstSeenOrder<T(!new)>(xs: seq<T>)
    ensures NoDups(FromSeq(xs))
    ensures forall y :: y in FromSeq(xs) <==> y in xs
    ensures forall i, j :: 0 <= i < j < |FromSeq(xs)| ==>
              FirstIndex(xs, FromSeq(xs)[i]) < FirstIndex(xs, FromSeq(xs)[j])
    decreases |xs|
  {
    AddAllSpec([], xs);
    if xs != [] {
      var front := xs[..|xs| - 1];
      var x := xs[|xs| - 1];
      assert xs == front + [x];
      FromSeqFirstSeenOrder(front);
      var r0 := FromSeq(front);
      var r := FromSeq(xs);
      assert r == Add(r0, x);
      forall y | y in front
        ensures FirstIndex(xs, y) == FirstIndex(front, y)
      {
        FirstIndexPrefix(front, [x], y);
      }
      forall i, j | 0 <= i < j < |r|
        ensures FirstIndex(xs, r[i]) < FirstIndex(xs, r[j])
      {
        assert r[i] == r0[i] && r0[i] in front;
        if j < |r0| {
          assert r[j] == r0[j] && r0[j] in front;
          assert FirstIndex(front, r0[i]) < FirstIndex(front, r0[j]);
        } else {
          assert r[j] == x && x !in front;
          assert FirstIndex(xs, x) == |front|;
        }
      }
    }
  }

  lemma {:induction false} FirstIndexPrefix<T>(a: seq<T>, b: seq<T>, y: T)
    requires y in a
    ensures FirstIndex(a + b, y) == FirstIndex(a, y)
  {
    if a[0] != y {
      assert (a + b)[1..] == a[1..] + b;
      FirstIndexPrefix(a[1..], b, y);
    }
  }
}
