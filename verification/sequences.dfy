/** Pairwise distinctness of sequence elements and disjointness of two sequences. */
module Sequences {

  /** No element occurs twice in `s`. */
  ghost predicate Distinct<T>(s: seq<T>)
  {
    forall i, j :: 0 <= i < |s| && 0 <= j < |s| && i != j ==> s[i] != s[j]
  }

  /** No element of `a` occurs in `b`. */
  ghost predicate Disjoint<T>(a: seq<T>, b: seq<T>)
  {
    forall i, j :: 0 <= i < |a| && 0 <= j < |b| ==> a[i] != b[j]
  }

  lemma AppendAssoc<T>(a: seq<T>, b: seq<T>, c: seq<T>)
    ensures (a + b) + c == a + (b + c)
  {
  }

  lemma DistinctConcat<T>(a: seq<T>, b: seq<T>)
    requires Distinct(a) && Distinct(b) && Disjoint(a, b)
    ensures Distinct(a + b)
  {
    var s := a + b;
    forall i, j | 0 <= i < |s| && 0 <= j < |s| && i != j
      ensures s[i] != s[j]
    {
      if i < |a| && |a| <= j {
        assert s[j] == b[j - |a|];
      } else if j < |a| && |a| <= i {
        assert s[i] == b[i - |a|];
      }
    }
  }

  lemma DisjointConcat<T>(a: seq<T>, b: seq<T>, c: seq<T>)
    requires Disjoint(a, c) && Disjoint(b, c)
    ensures Disjoint(a + b, c)
  {
    var s := a + b;
    forall i, j | 0 <= i < |s| && 0 <= j < |c|
      ensures s[i] != c[j]
    {
      if |a| <= i {
        assert s[i] == b[i - |a|];
      }
    }
  }

  /** In a distinct sequence the head does not occur in the tail, and the tail is distinct. */
  lemma DistinctUncons<T>(s: seq<T>)
    requires |s| > 0 && Distinct(s)
    ensures s[0] !in s[1..] && Distinct(s[1..])
  {
    var t := s[1..];
    forall i, j | 0 <= i < |t| && 0 <= j < |t| && i != j
      ensures t[i] != t[j]
    {
      assert t[i] == s[i + 1] && t[j] == s[j + 1];
    }
  }

  /** Moving the first element of `b` to the end of `a` keeps the whole distinct. */
  lemma DistinctShift<T>(a: seq<T>, b: seq<T>)
    requires |b| > 0 && Distinct(a + b)
    ensures b[0] !in a
    ensures Distinct((a + [b[0]]) + b[1..])
  {
    var s := a + b;
    assert s[|a|] == b[0];
    forall i | 0 <= i < |a|
      ensures a[i] != b[0]
    {
      assert s[i] == a[i];
    }
    assert (a + [b[0]]) + b[1..] == s;
  }

  /** A prefix of a distinct sequence is distinct. */
  lemma DistinctPrefix<T>(a: seq<T>, b: seq<T>)
    requires Distinct(a + b)
    ensures Distinct(a)
  {
    forall i, j | 0 <= i < |a| && 0 <= j < |a| && i != j
      ensures a[i] != a[j]
    {
      assert (a + b)[i] == a[i] && (a + b)[j] == a[j];
    }
  }

  /** `s` with every occurrence of `x` dropped, the rest in order. */
  function Remove<T(==,!new)>(s: seq<T>, x: T): (r: seq<T>)
    ensures forall y :: y in r <==> y in s && y != x
    ensures |r| <= |s|
  {
    if |s| == 0 then [] else (if s[0] == x then [] else [s[0]]) + Remove(s[1..], x)
  }

  /** The elements of `s` that do not occur in `seen`, in order. */
  function Fresh<T(==,!new)>(s: seq<T>, seen: seq<T>): (r: seq<T>)
    ensures forall y :: y in r <==> y in s && y !in seen
    ensures |r| <= |s|
  {
    if |s| == 0 then [] else (if s[0] in seen then [] else [s[0]]) + Fresh(s[1..], seen)
  }

  /** Dropping elements keeps a sequence distinct. */
  lemma {:induction false} DistinctRemove<T(!new)>(s: seq<T>, x: T)
    ensures Distinct(s) ==> Distinct(Remove(s, x))
  {
    if |s| > 0 && Distinct(s) {
      DistinctUncons(s);
      DistinctRemove(s[1..], x);
      var h: seq<T> := if s[0] == x then [] else [s[0]];
      var t := Remove(s[1..], x);
      assert Disjoint(h, t) by {
        forall i, j | 0 <= i < |h| && 0 <= j < |t|
          ensures h[i] != t[j]
        {
          assert t[j] in t;
        }
      }
      DistinctConcat(h, t);
    }
  }

  /** Marking as seen an element that `s` does not contain changes nothing. */
  lemma {:induction false} FreshSkip<T(!new)>(s: seq<T>, seen: seq<T>, x: T)
    requires x !in s
    ensures Fresh(s, seen + [x]) == Fresh(s, seen)
  {
    if |s| > 0 {
      assert s[0] in seen + [x] <==> s[0] in seen;
      assert x !in s[1..];
      FreshSkip(s[1..], seen, x);
    }
  }
}
