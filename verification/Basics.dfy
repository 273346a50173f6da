// Vocabulary shared by the models: optional values, and filtering and first
// occurrences of sequences.  Sequence functions are defined from the end, so that
// a loop that appends one element unfolds each definition exactly once.
module Basics {
  datatype Option<T> = None | Some(value: T)

  function Min(a: int, b: int): int {
    if a < b then a else b
  }

  function Last<T>(s: seq<T>): T
    requires s != []
  {
    s[|s| - 1]
  }

  function Front<T>(s: seq<T>): seq<T>
    requires s != []
  {
    s[..|s| - 1]
  }

  predicate Distinct<T(==)>(s: seq<T>) {
    forall i, j :: 0 <= i < j < |s| ==> s[i] != s[j]
  }

  // The elements of s that satisfy p, in order.
  function Filter<T>(p: T -> bool, s: seq<T>): seq<T> {
    if s == [] then []
    else Filter(p, Front(s)) + (if p(Last(s)) then [Last(s)] else [])
  }

  // The first occurrence of every element of s, in order.
  function Dedup<T(==)>(s: seq<T>): seq<T> {
    if s == [] then []
    else if Last(s) in Front(s) then Dedup(Front(s))
    else Dedup(Front(s)) + [Last(s)]
  }

  // The longest prefix of s that has at most n elements.
  function Take<T>(s: seq<T>, n: nat): seq<T> {
    if n < |s| then s[..n] else s
  }

  // The predicate that keeps everything but x.
  function Not<T(==)>(x: T): T -> bool {
    y => y != x
  }

  lemma {:induction false} FilterConcat<T>(p: T -> bool, s: seq<T>, t: seq<T>)
    ensures Filter(p, s + t) == Filter(p, s) + Filter(p, t)
  {
    if t == [] {
      assert s + t == s;
    } else {
      FilterConcat(p, s, Front(t));
      assert Front(s + t) == s + Front(t);
    }
  }

  lemma FilterSnoc<T>(p: T -> bool, s: seq<T>, x: T)
    ensures Filter(p, s + [x]) == if p(x) then Filter(p, s) + [x] else Filter(p, s)
  {
    assert Front(s + [x]) == s;
  }

  lemma {:induction false} FilterMember<T>(p: T -> bool, s: seq<T>, x: T)
    ensures x in Filter(p, s) <==> x in s && p(x)
  {
    if s != [] {
      FilterMember(p, Front(s), x);
      assert s == Front(s) + [Last(s)];
    }
  }

  lemma {:induction false} FilterCommutes<T>(p: T -> bool, q: T -> bool, s: seq<T>)
    ensures Filter(p, Filter(q, s)) == Filter(q, Filter(p, s))
  {
    if s != [] {
      FilterCommutes(p, q, Front(s));
      FilterConcat(p, Filter(q, Front(s)), if q(Last(s)) then [Last(s)] else []);
      FilterConcat(q, Filter(p, Front(s)), if p(Last(s)) then [Last(s)] else []);
    }
  }

  lemma {:induction false} FilterAll<T>(p: T -> bool, s: seq<T>)
    requires forall x :: x in s ==> p(x)
    ensures Filter(p, s) == s
  {
    if s != [] {
      FilterAll(p, Front(s));
    }
  }

  lemma {:induction false} FilterNone<T>(p: T -> bool, s: seq<T>)
    requires forall x :: x in s ==> !p(x)
    ensures Filter(p, s) == []
  {
    if s != [] {
      FilterNone(p, Front(s));
    }
  }

  lemma {:induction false} DedupMember<T>(s: seq<T>, x: T)
    ensures x in Dedup(s) <==> x in s
  {
    if s != [] {
      DedupMember(Front(s), x);
      assert s == Front(s) + [Last(s)];
    }
  }

  lemma {:induction false} DedupDistinct<T>(s: seq<T>)
    ensures Distinct(Dedup(s))
  {
    if s != [] {
      DedupDistinct(Front(s));
      DedupMember(Front(s), Last(s));
    }
  }

  // First occurrences are unaffected by removing other elements.
  lemma {:induction false} DedupFilter<T>(p: T -> bool, s: seq<T>)
    ensures Dedup(Filter(p, s)) == Filter(p, Dedup(s))
  {
    if s != [] {
      DedupFilter(p, Front(s));
      FilterMember(p, Front(s), Last(s));
      if p(Last(s)) {
        assert Front(Filter(p, s)) == Filter(p, Front(s));
      } else {
        assert Filter(p, s) == Filter(p, Front(s));
      }
      if Last(s) !in Front(s) {
        FilterConcat(p, Dedup(Front(s)), [Last(s)]);
        assert Filter(p, [Last(s)]) == (if p(Last(s)) then [Last(s)] else []);
      }
    }
  }

  // The first occurrences in a prefix are a prefix of the first occurrences.
  lemma {:induction false} DedupPrefix<T>(s: seq<T>, n: nat)
    requires n <= |s|
    ensures Dedup(s[..n]) <= Dedup(s)
    decreases |s|
  {
    if n < |s| {
      DedupPrefix(Front(s), n);
      assert Front(s)[..n] == s[..n];
    } else {
      assert s[..n] == s;
    }
  }

  // First occurrences keep their relative order.
  lemma {:induction false} DedupOrder<T>(s: seq<T>, i: nat, j: nat)
      returns (a: nat)
    requires i < j < |Dedup(s)|
    ensures a < |s| && s[a] == Dedup(s)[i]
    ensures forall b :: 0 <= b < |s| && s[b] == Dedup(s)[j] ==> a < b
  {
    DedupDistinct(s);
    if Last(s) in Front(s) {
      a := DedupOrder(Front(s), i, j);
      var c :| 0 <= c < |Front(s)| && Front(s)[c] == Last(s);
      assert s[c] == Last(s);
    } else if j < |Dedup(s)| - 1 {
      a := DedupOrder(Front(s), i, j);
    } else {
      DedupMember(Front(s), Dedup(s)[i]);
      a :| 0 <= a < |Front(s)| && Front(s)[a] == Dedup(s)[i];
      assert Last(s) == Dedup(s)[j];
    }
  }

  lemma {:induction false} SetOfDistinct<T>(s: seq<T>)
    requires Distinct(s)
    ensures |set x | x in s| == |s|
  {
    if s != [] {
      SetOfDistinct(Front(s));
      assert (set x | x in s) == (set x | x in Front(s)) + {Last(s)};
    }
  }

  lemma NonEmptyHasMember<T>(s: seq<T>)
    ensures s != [] ==> exists x :: x in s
  {
    if s != [] { assert s[0] in s; }
  }

  lemma {:induction false} FilterLength<T>(p: T -> bool, s: seq<T>)
    ensures |Filter(p, s)| <= |s|
    ensures |Filter(p, s)| == |s| <==> forall x :: x in s ==> p(x)
  {
    if s != [] {
      FilterLength(p, Front(s));
      assert s == Front(s) + [Last(s)];
    }
  }

  lemma {:induction false} FilterCount<T>(p: T -> bool, s: seq<T>, x: T)
    ensures multiset(Filter(p, s))[x] == if p(x) then multiset(s)[x] else 0
  {
    if s != [] {
      FilterCount(p, Front(s), x);
      assert s == Front(s) + [Last(s)];
    }
  }

  lemma {:induction false} FilterAgrees<T>(p: T -> bool, q: T -> bool, s: seq<T>)
    requires forall x :: x in s ==> p(x) == q(x)
    ensures Filter(p, s) == Filter(q, s)
  {
    if s != [] { FilterAgrees(p, q, Front(s)); }
  }

  lemma SubsetSize<T>(a: set<T>, b: set<T>)
    requires a < b
    ensures |a| < |b|
  {
    assert b == a + (b - a);
  }

  lemma SubsetAtMost<T>(a: set<T>, b: set<T>)
    requires a <= b
    ensures |a| <= |b|
  {
    if a != b { SubsetSize(a, b); }
  }
}
