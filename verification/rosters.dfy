/** A player's roster is a Java List of units; the engine removes a dead unit
    with `List.remove(Object)`, which drops the first element equal to it. */
module Rosters {

  /** No unit is listed twice. */
  predicate NoDuplicates<T(==)>(s: seq<T>)
  {
    forall i, j :: 0 <= i < j < |s| ==> s[i] != s[j]
  }

  /** A list with a head is free of duplicates exactly when its tail is and the
      head does not occur again. */
  lemma ConsNoDuplicates<T>(a: T, t: seq<T>)
    ensures NoDuplicates([a] + t) <==> a !in t && NoDuplicates(t)
  {
    var s := [a] + t;
    if NoDuplicates(s) {
      forall k | 0 <= k < |t| ensures t[k] != a {
        assert s[0] == a && s[k + 1] == t[k];
      }
      forall i, j | 0 <= i < j < |t| ensures t[i] != t[j] {
        assert s[i + 1] == t[i] && s[j + 1] == t[j];
      }
    }
  }

  /** `List.remove(x)`: the list without its first occurrence of `x`, or the
      list itself when `x` is absent. */
  function RemoveFirst<T(==)>(s: seq<T>, x: T): (r: seq<T>)
    ensures x in s ==> |r| == |s| - 1
    ensures x !in s ==> r == s
  {
    if s == [] then []
    else
      assert s == [s[0]] + s[1..];
      if s[0] == x then s[1..]
      else [s[0]] + RemoveFirst(s[1..], x)
  }

  /** Removing deletes the element at the first index holding `x` and keeps
      everything before and after it, in order. */
  lemma {:induction false} RemoveFirstDeletesFirst<T>(s: seq<T>, x: T, i: int)
    requires 0 <= i < |s| && s[i] == x && x !in s[..i]
    ensures RemoveFirst(s, x) == s[..i] + s[i + 1..]
  {
    assert s == [s[0]] + s[1..];
    if i == 0 {
      assert s[..0] == [];
    } else {
      assert s[0] in s[..i];
      assert s[1..][..i - 1] == s[1..i];
      RemoveFirstDeletesFirst(s[1..], x, i - 1);
      assert s[..i] == [s[0]] + s[1..][..i - 1];
      assert s[i + 1..] == s[1..][i..];
    }
  }

  /** Removing takes exactly one occurrence of `x` out of the list, if it has
      one, and leaves every other element's count alone. */
  lemma {:induction false} RemoveFirstMultiset<T>(s: seq<T>, x: T)
    ensures multiset(RemoveFirst(s, x)) == multiset(s) - multiset{x}
  {
    if s != [] {
      assert s == [s[0]] + s[1..];
      RemoveFirstMultiset(s[1..], x);
      if s[0] != x {
        assert RemoveFirst(s, x) == [s[0]] + RemoveFirst(s[1..], x);
      }
    }
  }

  /** Removing from a list without duplicates removes `x` entirely, keeps every
      other element, and keeps the list free of duplicates. */
  lemma {:induction false} RemoveFirstOfDistinct<T>(s: seq<T>, x: T)
    requires NoDuplicates(s)
    ensures NoDuplicates(RemoveFirst(s, x))
    ensures forall y :: y in RemoveFirst(s, x) <==> y in s && y != x
  {
    if s != [] {
      assert s == [s[0]] + s[1..];
      ConsNoDuplicates(s[0], s[1..]);
      if s[0] != x {
        RemoveFirstOfDistinct(s[1..], x);
        ConsNoDuplicates(s[0], RemoveFirst(s[1..], x));
      }
    }
  }
}
