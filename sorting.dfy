/** `Array.prototype.sort` with a compare function, which the language requires to be
    stable, and lexicographic comparison of sequences. A comparator returns a negative
    number when its first argument goes first, a positive one when it goes last, and
    zero when the two are tied. */
module Sorting {

  /** Swapping the arguments flips the sign, and "does not go after" is transitive:
      the comparator orders its values as a total preorder. */
  ghost predicate TotalPreorder<T(!new)>(cmp: (T, T) -> int) {
    && (forall a, b :: cmp(a, b) < 0 <==> cmp(b, a) > 0)
    && (forall a, b, c :: cmp(a, b) <= 0 && cmp(b, c) <= 0 ==> cmp(a, c) <= 0)
  }

  ghost predicate Sorted<T>(s: seq<T>, cmp: (T, T) -> int) {
    forall i, j :: 0 <= i < j < |s| ==> cmp(s[i], s[j]) <= 0
  }

  /** Places `x` right after the last element of `s` that does not go after it. */
  function Insert<T>(s: seq<T>, x: T, cmp: (T, T) -> int): (r: seq<T>)
    ensures multiset(r) == multiset(s) + multiset{x}
  {
    if s == [] then [x]
    else if cmp(s[|s| - 1], x) <= 0 then s + [x]
    else
      assert s == s[..|s| - 1] + [s[|s| - 1]];
      Insert(s[..|s| - 1], x, cmp) + [s[|s| - 1]]
  }

  /** Sorts all elements but the last, then inserts the last one. */
  function Sort<T>(s: seq<T>, cmp: (T, T) -> int): (r: seq<T>)
    ensures multiset(r) == multiset(s)
  {
    if s == [] then []
    else
      assert s == s[..|s| - 1] + [s[|s| - 1]];
      Insert(Sort(s[..|s| - 1], cmp), s[|s| - 1], cmp)
  }

  /** Every element of `s` does not go after `z`. */
  ghost predicate AllNotAfter<T>(s: seq<T>, z: T, cmp: (T, T) -> int) {
    forall i :: 0 <= i < |s| ==> cmp(s[i], z) <= 0
  }

  lemma AppendSorted<T>(s: seq<T>, z: T, cmp: (T, T) -> int)
    requires Sorted(s, cmp) && AllNotAfter(s, z, cmp)
    ensures Sorted(s + [z], cmp)
  {
  }

  lemma {:induction false} InsertNotAfter<T(!new)>(s: seq<T>, x: T, z: T, cmp: (T, T) -> int)
    requires AllNotAfter(s, z, cmp) && cmp(x, z) <= 0
    ensures AllNotAfter(Insert(s, x, cmp), z, cmp)
  {
    var r := Insert(s, x, cmp);
    forall i | 0 <= i < |r|
      ensures cmp(r[i], z) <= 0
    {
      assert r[i] in multiset(r);
      if r[i] != x {
        assert r[i] in multiset(s);
        var k :| 0 <= k < |s| && s[k] == r[i];
      }
    }
  }

  lemma {:induction false} InsertSorted<T(!new)>(s: seq<T>, x: T, cmp: (T, T) -> int)
    requires TotalPreorder(cmp) && Sorted(s, cmp)
    ensures Sorted(Insert(s, x, cmp), cmp)
  {
    if s != [] {
      var init, last := s[..|s| - 1], s[|s| - 1];
      if cmp(last, x) <= 0 {
        forall i | 0 <= i < |s|
          ensures cmp(s[i], x) <= 0
        {
          if i < |s| - 1 {
            assert cmp(s[i], last) <= 0;
          }
        }
        AppendSorted(s, x, cmp);
      } else {
        InsertSorted(init, x, cmp);
        assert AllNotAfter(init, last, cmp);
        InsertNotAfter(init, x, last, cmp);
        AppendSorted(Insert(init, x, cmp), last, cmp);
      }
    }
  }

  /** The sort yields its input ordered by the comparator. */
  lemma {:induction false} SortSorted<T(!new)>(s: seq<T>, cmp: (T, T) -> int)
    requires TotalPreorder(cmp)
    ensures Sorted(Sort(s, cmp), cmp)
  {
    if s != [] {
      SortSorted(s[..|s| - 1], cmp);
      InsertSorted(Sort(s[..|s| - 1], cmp), s[|s| - 1], cmp);
    }
  }

  /** The elements of `s` tied with `x`, in their order in `s`. */
  function Ties<T>(s: seq<T>, x: T, cmp: (T, T) -> int): seq<T> {
    if s == [] then []
    else Ties(s[..|s| - 1], x, cmp) + (if cmp(s[|s| - 1], x) == 0 then [s[|s| - 1]] else [])
  }

  /** When `y` ties with `x`, whatever goes after `y` does not tie with `x`. */
  ghost predicate AfterTieIsNoTie<T(!new)>(cmp: (T, T) -> int, y: T, x: T) {
    cmp(y, x) == 0 ==> forall z :: cmp(z, y) > 0 ==> cmp(z, x) != 0
  }

  lemma {:induction false} InsertTies<T(!new)>(s: seq<T>, y: T, x: T, cmp: (T, T) -> int)
    requires AfterTieIsNoTie(cmp, y, x)
    ensures Ties(Insert(s, y, cmp), x, cmp) == Ties(s, x, cmp) + (if cmp(y, x) == 0 then [y] else [])
  {
    if s == [] || cmp(s[|s| - 1], y) <= 0 {
      assert Insert(s, y, cmp) == s + [y];
      TiesSnoc(s, y, x, cmp);
    } else {
      var init, last := s[..|s| - 1], s[|s| - 1];
      InsertTies(init, y, x, cmp);
      assert s == init + [last];
      assert Insert(s, y, cmp) == Insert(init, y, cmp) + [last];
      TiesBeforeLast(Insert(init, y, cmp), init, last, y, x, cmp);
    }
  }

  /** The step of `InsertTies` where `y` goes before `last`: `r` is `y` inserted into
      `init`. */
  lemma TiesBeforeLast<T>(r: seq<T>, init: seq<T>, last: T, y: T, x: T, cmp: (T, T) -> int)
    requires cmp(y, x) == 0 ==> cmp(last, x) != 0
    requires Ties(r, x, cmp) == Ties(init, x, cmp) + (if cmp(y, x) == 0 then [y] else [])
    ensures Ties(r + [last], x, cmp) == Ties(init + [last], x, cmp) + (if cmp(y, x) == 0 then [y] else [])
  {
    TiesSnoc(r, last, x, cmp);
    TiesSnoc(init, last, x, cmp);
    if cmp(y, x) == 0 {
      assert Ties(r + [last], x, cmp) == Ties(r, x, cmp) + [];
      assert Ties(init + [last], x, cmp) == Ties(init, x, cmp) + [];
    } else {
      assert Ties(r, x, cmp) == Ties(init, x, cmp) + [];
    }
  }

  lemma TiesSnoc<T>(s: seq<T>, z: T, x: T, cmp: (T, T) -> int)
    ensures Ties(s + [z], x, cmp) == Ties(s, x, cmp) + (if cmp(z, x) == 0 then [z] else [])
  {
    assert (s + [z])[..|s|] == s;
  }

  /** Whatever goes after `y` goes after everything tied with `y`. */
  lemma TieBlocks<T(!new)>(cmp: (T, T) -> int, z: T, y: T, x: T)
    requires TotalPreorder(cmp) && cmp(z, y) > 0 && cmp(y, x) == 0
    ensures cmp(z, x) != 0
  {
    assert cmp(x, y) <= 0;
    assert cmp(z, x) <= 0 && cmp(x, y) <= 0 ==> cmp(z, y) <= 0;
  }

  /** The sort is stable: elements that tie keep their relative order. */
  lemma {:induction false} SortStable<T(!new)>(s: seq<T>, x: T, cmp: (T, T) -> int)
    requires TotalPreorder(cmp)
    ensures Ties(Sort(s, cmp), x, cmp) == Ties(s, x, cmp)
  {
    if s != [] {
      SortStable(s[..|s| - 1], x, cmp);
      var y := s[|s| - 1];
      forall z | cmp(y, x) == 0 && cmp(z, y) > 0
        ensures cmp(z, x) != 0
      {
        TieBlocks(cmp, z, y, x);
      }
      InsertTies(Sort(s[..|s| - 1], cmp), y, x, cmp);
    }
  }

  /** Negating a comparator that orders its values orders them the other way round. */
  lemma NegatedPreorder<T(!new)>(cmp: (T, T) -> int)
    requires TotalPreorder(cmp)
    ensures TotalPreorder((a, b) => -cmp(a, b))
  {
    forall a, b, c | -cmp(a, b) <= 0 && -cmp(b, c) <= 0
      ensures -cmp(a, c) <= 0
    {
      assert cmp(b, a) <= 0 && cmp(c, b) <= 0;
    }
  }

  /** Lexicographic comparison: the first differing position decides, and a proper
      prefix goes first. */
  function LexCompare<T>(a: seq<T>, b: seq<T>, cmp: (T, T) -> int): int {
    if a == [] && b == [] then 0
    else if a == [] then -1
    else if b == [] then 1
    else if cmp(a[0], b[0]) != 0 then cmp(a[0], b[0])
    else LexCompare(a[1..], b[1..], cmp)
  }

  lemma {:induction false} LexFlip<T(!new)>(a: seq<T>, b: seq<T>, cmp: (T, T) -> int)
    requires TotalPreorder(cmp)
    ensures LexCompare(a, b, cmp) < 0 <==> LexCompare(b, a, cmp) > 0
  {
    if a != [] && b != [] && cmp(a[0], b[0]) == 0 {
      LexFlip(a[1..], b[1..], cmp);
    }
  }

  lemma {:induction false} LexTransitive<T(!new)>(a: seq<T>, b: seq<T>, c: seq<T>, cmp: (T, T) -> int)
    requires TotalPreorder(cmp)
    requires LexCompare(a, b, cmp) <= 0 && LexCompare(b, c, cmp) <= 0
    ensures LexCompare(a, c, cmp) <= 0
  {
    if a != [] && b != [] && c != [] {
      if cmp(a[0], b[0]) == 0 && cmp(b[0], c[0]) == 0 {
        LexTransitive(a[1..], b[1..], c[1..], cmp);
      }
    }
  }

  /** Comparing sequences lexicographically by a total preorder is a total preorder. */
  lemma LexPreorder<T(!new)>(cmp: (T, T) -> int)
    requires TotalPreorder(cmp)
    ensures TotalPreorder((a: seq<T>, b: seq<T>) => LexCompare(a, b, cmp))
  {
    forall a: seq<T>, b: seq<T>
      ensures LexCompare(a, b, cmp) < 0 <==> LexCompare(b, a, cmp) > 0
    {
      LexFlip(a, b, cmp);
    }
    forall a: seq<T>, b: seq<T>, c: seq<T> | LexCompare(a, b, cmp) <= 0 && LexCompare(b, c, cmp) <= 0
      ensures LexCompare(a, c, cmp) <= 0
    {
      LexTransitive(a, b, c, cmp);
    }
  }

  /** Compares by `c1`, and by `c2` among the values `c1` ties. */
  function ThenCompare<T>(c1: (T, T) -> int, c2: (T, T) -> int, a: T, b: T): int {
    if c1(a, b) != 0 then c1(a, b) else c2(a, b)
  }

  lemma ThenFlip<T(!new)>(c1: (T, T) -> int, c2: (T, T) -> int, a: T, b: T)
    requires TotalPreorder(c1) && TotalPreorder(c2)
    ensures ThenCompare(c1, c2, a, b) < 0 <==> ThenCompare(c1, c2, b, a) > 0
  {
  }

  /** Breaking the ties of one total preorder by another yields a total preorder. */
  lemma ThenTransitive<T(!new)>(c1: (T, T) -> int, c2: (T, T) -> int, a: T, b: T, c: T)
    requires TotalPreorder(c1) && TotalPreorder(c2)
    requires ThenCompare(c1, c2, a, b) <= 0 && ThenCompare(c1, c2, b, c) <= 0
    ensures ThenCompare(c1, c2, a, c) <= 0
  {
    assert c1(a, b) <= 0 && c1(b, c) <= 0;
    if c1(a, b) == 0 && c1(b, c) == 0 {
      assert c1(c, a) <= 0;
    }
  }

  function Reverse<T>(s: seq<T>): (r: seq<T>)
    ensures |r| == |s| && forall i :: 0 <= i < |s| ==> r[i] == s[|s| - 1 - i]
  {
    if s == [] then [] else Reverse(s[1..]) + [s[0]]
  }

  /** Ordered by the negation of a total preorder means ordered by the preorder itself
      when read backwards. */
  lemma SortedNegatedIsReversed<T(!new)>(s: seq<T>, cmp: (T, T) -> int)
    requires TotalPreorder(cmp)
    ensures Sorted(s, (a, b) => -cmp(a, b)) <==> Sorted(Reverse(s), cmp)
  {
    var r := Reverse(s);
    if Sorted(s, (a, b) => -cmp(a, b)) {
      forall i, j | 0 <= i < j < |r|
        ensures cmp(r[i], r[j]) <= 0
      {
        assert -cmp(s[|s| - 1 - j], s[|s| - 1 - i]) <= 0;
      }
    }
    if Sorted(r, cmp) {
      forall i, j | 0 <= i < j < |s|
        ensures -cmp(s[i], s[j]) <= 0
      {
        assert cmp(r[|s| - 1 - j], r[|s| - 1 - i]) <= 0;
      }
    }
  }
}
