/** Sequence facts used by the session logic, and the de-duplication that
    `Array.from(new Set(xs))` performs: the first occurrence of every element
    is kept, in the order in which the elements first occur. */
module Seqs {

  /** No element occurs twice. */
  predicate NoDups<T(==)>(s: seq<T>) {
    forall i, j :: 0 <= i < j < |s| ==> s[i] != s[j]
  }

  /** `a` can be obtained from `b` by deleting elements (order is kept). */
  ghost predicate IsSubsequence<T>(a: seq<T>, b: seq<T>)
    decreases |b|
  {
    a == [] ||
    (b != [] &&
     ((a[|a| - 1] == b[|b| - 1] && IsSubsequence(a[..|a| - 1], b[..|b| - 1])) ||
      IsSubsequence(a, b[..|b| - 1])))
  }

  /** The position of the first occurrence of `x` in `s`. */
  function FirstIndex<T(==)>(s: seq<T>, x: T): (i: nat)
    requires x in s
    ensures i < |s| && s[i] == x && x !in s[..i]
    decreases |s|
  {
    assert s == s[..|s| - 1] + [s[|s| - 1]];
    if x in s[..|s| - 1] then
      var i := FirstIndex(s[..|s| - 1], x);
      assert s[..|s| - 1][..i] == s[..i];
      i
    else
      |s| - 1
  }

  /** The elements of `s` in insertion order of a set: each element is
      appended when it is met for the first time and skipped afterwards. */
  function Dedup<T(==)>(s: seq<T>): (r: seq<T>)
    decreases |s|
  {
    if s == [] then []
    else
      var d := Dedup(s[..|s| - 1]);
      if s[|s| - 1] in d then d else d + [s[|s| - 1]]
  }

  lemma {:induction false} DedupMembers<T>(s: seq<T>)
    ensures forall x :: x in Dedup(s) <==> x in s
    decreases |s|
  {
    if s != [] {
      DedupMembers(s[..|s| - 1]);
      assert s == s[..|s| - 1] + [s[|s| - 1]];
    }
  }

  lemma {:induction false} DedupNoDups<T>(s: seq<T>)
    ensures NoDups(Dedup(s))
    decreases |s|
  {
    if s != [] {
      DedupNoDups(s[..|s| - 1]);
    }
  }

  /** A sequence that is already duplicate-free is left as it is. */
  lemma {:induction false} DedupOfNoDups<T>(s: seq<T>)
    requires NoDups(s)
    ensures Dedup(s) == s
    decreases |s|
  {
    if s != [] {
      var p := s[..|s| - 1];
      assert NoDups(p);
      DedupOfNoDups(p);
      DedupMembers(p);
      assert s[|s| - 1] !in p;
      assert s == p + [s[|s| - 1]];
    }
  }

  lemma {:induction false} DedupSubsequence<T>(s: seq<T>)
    ensures IsSubsequence(Dedup(s), s)
    decreases |s|
  {
    if s != [] {
      var p := s[..|s| - 1];
      DedupSubsequence(p);
      var d := Dedup(p);
      if s[|s| - 1] !in d {
        assert (d + [s[|s| - 1]])[..|d|] == d;
      }
    }
  }

  /** Elements of `Dedup(s)` appear in the order of their first occurrence in `s`. */
  lemma {:induction false} DedupFirstOccurrenceOrder<T>(s: seq<T>)
    ensures forall x :: x in Dedup(s) ==> x in s
    ensures forall i, j :: 0 <= i < j < |Dedup(s)| ==>
      FirstIndex(s, Dedup(s)[i]) < FirstIndex(s, Dedup(s)[j])
    decreases |s|
  {
    DedupMembers(s);
    if s != [] {
      var p := s[..|s| - 1];
      var x := s[|s| - 1];
      DedupFirstOccurrenceOrder(p);
      DedupMembers(p);
      var d := Dedup(p);
      var r := Dedup(s);
      forall i, j | 0 <= i < j < |r|
        ensures FirstIndex(s, r[i]) < FirstIndex(s, r[j])
      {
        assert r[i] == d[i] && r[i] in p;
        assert FirstIndex(s, r[i]) == FirstIndex(p, d[i]) < |p|;
        if j < |d| {
          assert r[j] == d[j] && r[j] in p;
          assert FirstIndex(s, r[j]) == FirstIndex(p, d[j]);
        } else {
          assert r[j] == x && x !in p;
        }
      }
    }
  }

  /** De-duplicating a longer sequence only adds to the end. */
  lemma {:induction false} DedupPrefix<T>(a: seq<T>, b: seq<T>)
    ensures Dedup(a) <= Dedup(a + b)
    decreases |b|
  {
    if b == [] {
      assert a + b == a;
    } else {
      var b' := b[..|b| - 1];
      DedupPrefix(a, b');
      assert (a + b)[..|a + b| - 1] == a + b';
    }
  }

  /** Appending elements that are all present already changes nothing. */
  lemma {:induction false} DedupAbsorbs<T>(a: seq<T>, b: seq<T>)
    requires forall x :: x in b ==> x in a
    ensures Dedup(a + b) == Dedup(a)
    decreases |b|
  {
    if b == [] {
      assert a + b == a;
    } else {
      var b' := b[..|b| - 1];
      DedupAbsorbs(a, b');
      assert (a + b)[..|a + b| - 1] == a + b';
      DedupMembers(a);
      assert b[|b| - 1] in b;
    }
  }

  /** Duplicate-freedom means every element has multiplicity at most one. */
  lemma {:induction false} NoDupsMultiplicity<T>(s: seq<T>)
    ensures NoDups(s) <==> forall x :: multiset(s)[x] <= 1
    decreases |s|
  {
    if s != [] {
      var p := s[..|s| - 1];
      var x := s[|s| - 1];
      assert s == p + [x];
      NoDupsMultiplicity(p);
      if NoDups(s) {
        assert NoDups(p);
        assert x !in p;
      } else {
        var i, j :| 0 <= i < j < |s| && s[i] == s[j];
        if j < |s| - 1 {
          assert p[i] == p[j];
          assert !NoDups(p);
          var y :| multiset(p)[y] > 1;
          assert multiset(s)[y] == multiset(p)[y] + multiset([x])[y];
        } else {
          assert s[i] in p;
          assert multiset(s)[x] == multiset(p)[x] + 1;
        }
      }
    }
  }
}
