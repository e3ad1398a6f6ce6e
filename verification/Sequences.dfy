/** Facts about sequences that several components share. */
module Sequences {

  /** The first occurrence of every element, in the order in which they first occur. */
  function FirstOccurrences<T(==,!new)>(s: seq<T>): (r: seq<T>)
    ensures forall x :: x in r <==> x in s
    ensures forall q :: 0 <= q < |r| ==> r[q] in s
  {
    if s == [] then []
    else
      var front, last := s[..|s| - 1], s[|s| - 1];
      assert s == front + [last];
      if last in front then FirstOccurrences(front) else FirstOccurrences(front) + [last]
  }

  /** Nothing occurs before everything smaller has occurred. */
  ghost predicate GapFree(s: seq<nat>) {
    forall q, i :: 0 <= q < |s| && 0 <= i < s[q] ==> i in s[..q]
  }

  /** The numbers below `n`, in order. */
  function UpTo(n: nat): (r: seq<nat>)
    ensures |r| == n && forall i :: 0 <= i < n ==> r[i] == i
  {
    seq(n, i => i)
  }

  ghost predicate Within(at: seq<nat>, n: nat) {
    forall q :: 0 <= q < |at| ==> at[q] < n
  }

  /** The elements of `s` whose indices are listed in `at`. */
  function Pick<T>(s: seq<T>, at: seq<nat>): (r: seq<T>)
    requires Within(at, |s|)
    ensures |r| == |at| && forall q :: 0 <= q < |at| ==> r[q] == s[at[q]]
  {
    seq(|at|, q requires 0 <= q < |at| => s[at[q]])
  }

  lemma GapFreeExtend(s: seq<nat>, x: nat)
    requires GapFree(s)
    requires forall i :: 0 <= i < x ==> i in s
    ensures GapFree(s + [x])
  {
    forall q, i | 0 <= q < |s + [x]| && 0 <= i < (s + [x])[q] ensures i in (s + [x])[..q] {
      assert q < |s| ==> (s + [x])[..q] == s[..q];
      assert q == |s| ==> (s + [x])[..q] == s;
    }
  }

  lemma GapFreePrefix(s: seq<nat>, n: nat)
    requires GapFree(s) && n <= |s|
    ensures GapFree(s[..n])
  {
    forall q, i | 0 <= q < n && 0 <= i < s[..n][q] ensures i in s[..n][..q] {
      assert s[..n][..q] == s[..q];
    }
  }

  /** In a gap-free sequence the first occurrences are 0, 1, 2, ... without a hole. */
  lemma {:induction false} GapFreeFirstOccurrences(s: seq<nat>)
    requires GapFree(s)
    ensures FirstOccurrences(s) == UpTo(|FirstOccurrences(s)|)
    ensures forall x: nat :: x in s <==> x < |FirstOccurrences(s)|
  {
    if s != [] {
      var n := |s| - 1;
      GapFreePrefix(s, n);
      GapFreeFirstOccurrences(s[..n]);
      var m := |FirstOccurrences(s[..n])|;
      assert s == s[..n] + [s[n]];
      if s[n] !in s[..n] {
        assert !(m < s[n]) by { assert m !in s[..n]; }
        assert FirstOccurrences(s) == UpTo(m) + [m] == UpTo(m + 1);
      }
      forall x: nat ensures x in s <==> x < |FirstOccurrences(s)| {
        assert x in s <==> x in s[..n] || x == s[n];
      }
    }
  }

  /** Reading a gap-free sequence in a gap-free order of positions is again gap-free. */
  lemma GapFreeCompose(s: seq<nat>, at: seq<nat>)
    requires GapFree(s) && GapFree(at)
    requires Within(at, |s|)
    ensures GapFree(Pick(s, at))
  {
    var c := Pick(s, at);
    forall q, i | 0 <= q < |c| && 0 <= i < c[q] ensures i in c[..q] {
      assert i in s[..at[q]];
      var p :| 0 <= p < at[q] && s[p] == i;
      assert p in at[..q];
      var k :| 0 <= k < q && at[k] == p;
      assert c[..q][k] == i;
    }
  }

  lemma PickMembers<T(!new)>(s: seq<T>, at: seq<nat>, x: nat)
    requires x < |s| && Within(at, |s|)
    requires forall i, j :: 0 <= i < j < |s| ==> s[i] != s[j]
    ensures x in at <==> s[x] in Pick(s, at)
  {
    if x in at {
      var k :| 0 <= k < |at| && at[k] == x;
      assert Pick(s, at)[k] == s[x];
    }
  }

  /** First occurrences commute with a relabelling that keeps different elements different. */
  lemma {:induction false} FirstOccurrencesPick<T(!new)>(s: seq<T>, at: seq<nat>)
    requires Within(at, |s|)
    requires forall i, j :: 0 <= i < j < |s| ==> s[i] != s[j]
    ensures Within(FirstOccurrences(at), |s|)
    ensures FirstOccurrences(Pick(s, at)) == Pick(s, FirstOccurrences(at))
  {
    if at != [] {
      var n := |at| - 1;
      var front := at[..n];
      assert at == front + [at[n]];
      FirstOccurrencesPick(s, front);
      PickMembers(s, front, at[n]);
      assert Pick(s, at) == Pick(s, front) + [s[at[n]]];
      assert Pick(s, FirstOccurrences(front) + [at[n]]) == Pick(s, FirstOccurrences(front)) + [s[at[n]]];
    }
  }
}
