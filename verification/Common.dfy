/** Shared result types and facts about sequences that more than one module needs. */
module Common {

  datatype Option<+T> = None | Some(value: T)

  datatype Result<+T, +E> = Success(value: T) | Failure(error: E)

  ghost predicate NoDuplicates<T(!new)>(s: seq<T>) {
    forall i, j :: 0 <= i < j < |s| ==> s[i] != s[j]
  }

  function ToSet<T(!new)>(s: seq<T>): (r: set<T>)
    ensures forall x :: x in r <==> x in s
  {
    set x | x in s
  }

  /** The elements of `s` that lie in `keep`, in their order in `s`. */
  function Restrict<T(==,!new)>(s: seq<T>, keep: set<T>): (r: seq<T>)
    ensures forall x :: x in r <==> x in s && x in keep
    ensures |r| <= |s|
  {
    if s == [] then []
    else (if s[0] in keep then [s[0]] else []) + Restrict(s[1..], keep)
  }

  lemma {:induction false} RestrictAppend<T(!new)>(s: seq<T>, t: seq<T>, keep: set<T>)
    ensures Restrict(s + t, keep) == Restrict(s, keep) + Restrict(t, keep)
  {
    if s == [] {
      assert s + t == t;
    } else {
      assert (s + t)[1..] == s[1..] + t;
      RestrictAppend(s[1..], t, keep);
    }
  }

  lemma {:induction false} RestrictNoDuplicates<T(!new)>(s: seq<T>, keep: set<T>)
    requires NoDuplicates(s)
    ensures NoDuplicates(Restrict(s, keep))
  {
    if s != [] {
      RestrictNoDuplicates(s[1..], keep);
      assert s[0] !in s[1..];
    }
  }

  /** Sequences without repetition over the same elements are permutations of each other. */
  lemma {:induction false} NoDuplicatesMultiset<T(!new)>(s: seq<T>)
    requires NoDuplicates(s)
    ensures forall x :: multiset(s)[x] == if x in s then 1 else 0
  {
    if s != [] {
      NoDuplicatesMultiset(s[1..]);
      assert s == [s[0]] + s[1..];
      assert s[0] !in s[1..];
    }
  }

  lemma {:induction false} NoDuplicatesLength<T(!new)>(s: seq<T>)
    requires NoDuplicates(s)
    ensures |ToSet(s)| == |s|
  {
    if s != [] {
      NoDuplicatesLength(s[1..]);
      assert s[0] !in s[1..];
      assert ToSet(s) == {s[0]} + ToSet(s[1..]);
    } else {
      assert ToSet(s) == {};
    }
  }

  lemma SameSetSameMultiset<T(!new)>(s: seq<T>, t: seq<T>)
    requires NoDuplicates(s) && NoDuplicates(t)
    requires forall x :: x in s <==> x in t
    ensures multiset(s) == multiset(t)
    ensures |s| == |t|
  {
    NoDuplicatesMultiset(s);
    NoDuplicatesMultiset(t);
    NoDuplicatesLength(s);
    NoDuplicatesLength(t);
    assert ToSet(s) == ToSet(t);
  }

  lemma {:induction false} SetNoLarger<T(!new)>(s: seq<T>)
    ensures |ToSet(s)| <= |s|
  {
    if s != [] {
      SetNoLarger(s[1..]);
      assert ToSet(s) == {s[0]} + ToSet(s[1..]);
    } else {
      assert ToSet(s) == {};
    }
  }

  /** A sequence as long as its set of elements repeats nothing. */
  lemma {:induction false} FullSetNoDuplicates<T(!new)>(s: seq<T>)
    requires |ToSet(s)| == |s|
    ensures NoDuplicates(s)
  {
    if s != [] {
      var rest := s[1..];
      assert ToSet(s) == {s[0]} + ToSet(rest);
      SetNoLarger(rest);
      assert s[0] in rest ==> ToSet(s) == ToSet(rest);
      FullSetNoDuplicates(rest);
    }
  }

  ghost predicate IsLeast(b: int, bounds: set<int>) {
    b in bounds && forall c :: c in bounds ==> b <= c
  }

  lemma {:induction false} HasLeast(bounds: set<int>, b: int)
    requires b in bounds
    ensures exists c :: IsLeast(c, bounds)
    decreases |bounds|
  {
    if d :| d in bounds && d < b {
      HasLeast(bounds - {b}, d);
      var c :| IsLeast(c, bounds - {b});
      forall e | e in bounds ensures c <= e {
        assert e == b || e in bounds - {b};
      }
      assert IsLeast(c, bounds);
    } else {
      assert IsLeast(b, bounds);
    }
  }
}
