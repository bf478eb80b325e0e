/** Filtering and mapping of sequences: the in-memory counterpart of a
    `SELECT ... WHERE` and of a list comprehension over its rows. */
module Seqs {

  /** The elements of `s` that satisfy `p`, in their original order. */
  function Select<T(!new)>(s: seq<T>, p: T -> bool): (r: seq<T>)
    ensures |r| <= |s|
    ensures forall x :: x in r <==> x in s && p(x)
    decreases |s|
  {
    if s == [] then []
    else
      var init := Select(s[..|s| - 1], p);
      assert forall x :: x in s <==> x in s[..|s| - 1] || x == s[|s| - 1];
      if p(s[|s| - 1]) then init + [s[|s| - 1]] else init
  }

  /** `[f(x) for x in s]`. */
  function Project<T, U>(f: T -> U, s: seq<T>): seq<U>
  {
    seq(|s|, i requires 0 <= i < |s| => f(s[i]))
  }

  lemma ProjectAppend<T, U>(f: T -> U, s: seq<T>, x: T)
    ensures Project(f, s + [x]) == Project(f, s) + [f(x)]
  {
  }

  function Not<T>(p: T -> bool): T -> bool
  {
    x => !p(x)
  }

  lemma SelectAppend<T(!new)>(s: seq<T>, x: T, p: T -> bool)
    ensures Select(s + [x], p) == if p(x) then Select(s, p) + [x] else Select(s, p)
  {
    assert (s + [x])[..|s|] == s;
  }

  /** Filters that agree on every element select the same elements. */
  lemma {:induction false} SelectCongruent<T(!new)>(s: seq<T>, p: T -> bool, q: T -> bool)
    requires forall x :: p(x) == q(x)
    ensures Select(s, p) == Select(s, q)
    decreases |s|
  {
    if s != [] {
      SelectCongruent(s[..|s| - 1], p, q);
    }
  }

  /** Selecting with `p` and with its negation splits `s` into two parts that
      together hold every element exactly as often as `s` does. */
  lemma {:induction false} SelectPartition<T(!new)>(s: seq<T>, p: T -> bool)
    ensures multiset(Select(s, p)) + multiset(Select(s, Not(p))) == multiset(s)
    decreases |s|
  {
    if s != [] {
      var init, x := s[..|s| - 1], s[|s| - 1];
      assert s == init + [x];
      SelectPartition(init, p);
      SelectAppend(init, x, p);
      SelectAppend(init, x, Not(p));
    }
  }

  /** Filtering the mapped rows with `q` is filtering the rows with `p` and
      then mapping, whenever `p` tests a row exactly as `q` tests its image. */
  lemma {:induction false} ProjectSelect<T(!new), U(!new)>(f: T -> U, s: seq<T>, p: T -> bool, q: U -> bool)
    requires forall x :: p(x) == q(f(x))
    ensures Project(f, Select(s, p)) == Select(Project(f, s), q)
    decreases |s|
  {
    if s != [] {
      var init, x := s[..|s| - 1], s[|s| - 1];
      assert s == init + [x];
      assert Project(f, s) == Project(f, init) + [f(x)];
      ProjectSelect(f, init, p, q);
      SelectAppend(init, x, p);
      SelectAppend(Project(f, init), f(x), q);
      if p(x) {
        assert Project(f, Select(init, p) + [x]) == Project(f, Select(init, p)) + [f(x)];
      }
    }
  }

  /** Selecting twice is selecting with the conjunction. */
  lemma {:induction false} SelectSelect<T(!new)>(s: seq<T>, p: T -> bool, q: T -> bool, pq: T -> bool)
    requires forall x :: pq(x) == (p(x) && q(x))
    ensures Select(Select(s, p), q) == Select(s, pq)
    decreases |s|
  {
    if s != [] {
      var init, x := s[..|s| - 1], s[|s| - 1];
      assert s == init + [x];
      SelectSelect(init, p, q, pq);
      SelectAppend(init, x, p);
      SelectAppend(init, x, pq);
      if p(x) {
        SelectAppend(Select(init, p), x, q);
      }
    }
  }
}
