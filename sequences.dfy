/**
 Identity-based operations on the graph's two insertion-ordered lists: the
 search done by std::find, the erase of one position, and the filter done by
 std::list::remove_if with an equality test. Elements are compared with `==`
 only, which for class types is reference identity.
 */
module Sequences {

  /** No element occurs twice in `s`. */
  predicate NoDuplicates<T(==)>(s: seq<T>) {
    forall x | x in s :: multiset(s)[x] == 1
  }

  /** `r` is `s` with some elements deleted and the others kept in their order. */
  ghost predicate IsSubsequence<T>(r: seq<T>, s: seq<T>) {
    if s == [] then r == []
    else (r != [] && r[0] == s[0] && IsSubsequence(r[1..], s[1..])) || IsSubsequence(r, s[1..])
  }

  /** A subsequence holds each element at most as often as the sequence it was taken from. */
  lemma {:induction false} SubsequenceMultiset<T>(r: seq<T>, s: seq<T>)
    requires IsSubsequence(r, s)
    ensures multiset(r) <= multiset(s)
  {
    if s == [] {
    } else {
      assert s == [s[0]] + s[1..];
      if r != [] && r[0] == s[0] && IsSubsequence(r[1..], s[1..]) {
        SubsequenceMultiset(r[1..], s[1..]);
        assert r == [r[0]] + r[1..];
      } else {
        SubsequenceMultiset(r, s[1..]);
      }
    }
  }

  /** Deleting elements from a list without duplicates cannot create a duplicate. */
  lemma {:induction false} SubsequenceDistinct<T>(r: seq<T>, s: seq<T>)
    requires IsSubsequence(r, s)
    requires NoDuplicates(s)
    ensures NoDuplicates(r)
  {
    SubsequenceMultiset(r, s);
    forall x | x in r ensures multiset(r)[x] == 1 {
      assert x in multiset(s);
    }
  }

  /**
   The position of the first `x` in `s`, or -1 when `x` does not occur: the
   iterator std::find returns, with -1 standing for the end iterator.
   */
  function IndexOf<T(==)>(s: seq<T>, x: T): (i: int)
    ensures -1 <= i < |s|
    ensures i == -1 <==> x !in s
    ensures 0 <= i ==> s[i] == x && x !in s[..i]
  {
    if s == [] then -1
    else if s[0] == x then 0
    else
      var j := IndexOf(s[1..], x);
      if j == -1 then -1
      else
        assert s[..j + 1] == [s[0]] + s[1..][..j];
        j + 1
  }

  /**
   `s` with every element equal to `x` removed and the rest in their order:
   remove_if with the predicate `e == x`.
   */
  function Without<T(==)>(s: seq<T>, x: T): (r: seq<T>)
    ensures x !in r
  {
    if s == [] then []
    else if s[0] == x then Without(s[1..], x)
    else [s[0]] + Without(s[1..], x)
  }

  /**
   What the filter keeps: exactly the elements of `s` other than `x`, in
   their order, so it shortens `s` by the number of copies of `x` and leaves
   a list without `x` as it is.
   */
  lemma {:induction false} WithoutSpec<T>(s: seq<T>, x: T)
    ensures forall y :: y in Without(s, x) <==> y in s && y != x
    ensures IsSubsequence(Without(s, x), s)
    ensures |Without(s, x)| == |s| - multiset(s)[x]
    ensures x !in s ==> Without(s, x) == s
  {
    if s != [] {
      assert s == [s[0]] + s[1..];
      WithoutSpec(s[1..], x);
      if s[0] != x {
        var r := Without(s, x);
        assert r[0] == s[0] && r[1..] == Without(s[1..], x);
      }
    }
  }

  /** Removing the same element twice leaves what removing it once left. */
  lemma {:induction false} WithoutIdempotent<T>(s: seq<T>, x: T)
    ensures Without(Without(s, x), x) == Without(s, x)
  {
    WithoutSpec(Without(s, x), x);
  }

  /**
   Erasing the only occurrence of `x`, at position `i`, is the same as
   filtering `x` out.
   */
  lemma {:induction false} EraseOnlyIsWithout<T>(s: seq<T>, x: T, i: int)
    requires 0 <= i < |s| && s[i] == x
    requires x !in s[..i] && x !in s[i + 1..]
    ensures s[..i] + s[i + 1..] == Without(s, x)
  {
    if i == 0 {
      assert s[..0] + s[1..] == s[1..];
      WithoutSpec(s[1..], x);
    } else {
      assert s[0] != x by { assert s[0] in s[..i]; }
      var t := s[1..];
      assert x !in t[..i - 1] by { assert t[..i - 1] == s[..i][1..]; }
      assert x !in t[i..] by { assert t[i..] == s[i + 1..]; }
      EraseOnlyIsWithout(t, x, i - 1);
      SpliceCons(s, i - 1);
    }
  }

  /**
   Erasing the position std::find reports removes the element altogether
   when the list has no duplicates, so it is the same as filtering it out.
   */
  lemma {:induction false} EraseFirstIsWithout<T>(s: seq<T>, x: T)
    requires NoDuplicates(s)
    requires x in s
    ensures IndexOf(s, x) >= 0
    ensures s[..IndexOf(s, x)] + s[IndexOf(s, x) + 1..] == Without(s, x)
  {
    var i := IndexOf(s, x);
    assert s == s[..i] + [x] + s[i + 1..];
    assert multiset(s) == multiset(s[..i]) + multiset{x} + multiset(s[i + 1..]);
    assert multiset(s)[x] == 1;
    EraseOnlyIsWithout(s, x, i);
  }

  /** Erasing position `i + 1` of `s` is erasing position `i` of its tail, then putting the head back. */
  lemma {:induction false} SpliceCons<T>(s: seq<T>, i: int)
    requires 0 <= i < |s| - 1
    ensures s[..i + 1] + s[i + 2..] == [s[0]] + (s[1..][..i] + s[1..][i + 1..])
  {
    assert s[..i + 1] == [s[0]] + s[1..][..i];
    assert s[i + 2..] == s[1..][i + 1..];
  }
}
