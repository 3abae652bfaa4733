/** `Array.prototype.filter(v => v !== x)` on sequences, and the facts about
    it that list states built from appends and removals rely on. */
module Sequences {

  /** The elements other than `x`, in order. */
  function Removed<T(==)>(s: seq<T>, x: T): (r: seq<T>)
    ensures |r| <= |s|
    decreases |s|
  {
    if |s| == 0 then []
    else
      var rest := Removed(s[..|s| - 1], x);
      if s[|s| - 1] == x then rest else rest + [s[|s| - 1]]
  }

  /** Removal drops every occurrence of `x` and keeps every other element. */
  lemma {:induction false} RemovedMembers<T>(s: seq<T>, x: T, y: T)
    ensures y in Removed(s, x) <==> y in s && y != x
    decreases |s|
  {
    if |s| > 0 {
      var init := s[..|s| - 1];
      RemovedMembers(init, x, y);
      assert s == init + [s[|s| - 1]];
    }
  }

  /** Removal works piece by piece, so the kept elements stay in order. */
  lemma {:induction false} RemovedAppend<T>(a: seq<T>, b: seq<T>, x: T)
    ensures Removed(a + b, x) == Removed(a, x) + Removed(b, x)
    decreases |b|
  {
    if |b| == 0 {
      assert a + b == a;
    } else {
      assert (a + b)[..|a + b| - 1] == a + b[..|b| - 1];
      RemovedAppend(a, b[..|b| - 1], x);
    }
  }

  /** Removing an absent element changes nothing. */
  lemma {:induction false} RemoveAbsent<T>(s: seq<T>, x: T)
    requires x !in s
    ensures Removed(s, x) == s
    decreases |s|
  {
    if |s| > 0 {
      RemoveAbsent(s[..|s| - 1], x);
    }
  }

  predicate NoDuplicates<T(==)>(s: seq<T>) {
    forall i, j :: 0 <= i < j < |s| ==> s[i] != s[j]
  }

  lemma {:induction false} RemovedNoDuplicates<T>(s: seq<T>, x: T)
    requires NoDuplicates(s)
    ensures NoDuplicates(Removed(s, x))
    decreases |s|
  {
    if |s| > 0 {
      var init, last := s[..|s| - 1], s[|s| - 1];
      RemovedNoDuplicates(init, x);
      RemovedMembers(init, x, last);
      var rest := Removed(init, x);
      if last != x {
        forall i, j | 0 <= i < j < |rest| + 1
          ensures (rest + [last])[i] != (rest + [last])[j]
        {
          if j == |rest| {
            assert (rest + [last])[i] == rest[i];
          }
        }
      }
    }
  }
}
