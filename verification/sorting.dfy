/** The string order and sort that `chordsEqual` relies on. JavaScript's
    default `Array.prototype.sort` compares strings code unit by code unit;
    here characters are compared by their code points, and a proper prefix
    comes first. */
module Sorting {

  /** `x` sorts at or before `y` in lexicographic order. */
  predicate LexLe(x: string, y: string)
    decreases |x|
  {
    |x| == 0 || (|y| > 0 && (x[0] < y[0] || (x[0] == y[0] && LexLe(x[1..], y[1..]))))
  }

  lemma {:induction false} LexLeReflexive(x: string)
    ensures LexLe(x, x)
    decreases |x|
  {
    if |x| > 0 {
      LexLeReflexive(x[1..]);
    }
  }

  lemma {:induction false} LexLeTotal(x: string, y: string)
    ensures LexLe(x, y) || LexLe(y, x)
    decreases |x|
  {
    if |x| > 0 && |y| > 0 && x[0] == y[0] {
      LexLeTotal(x[1..], y[1..]);
    }
  }

  lemma {:induction false} LexLeAntisymmetric(x: string, y: string)
    requires LexLe(x, y) && LexLe(y, x)
    ensures x == y
    decreases |x|
  {
    if |x| > 0 {
      LexLeAntisymmetric(x[1..], y[1..]);
      assert x == [x[0]] + x[1..];
      assert y == [y[0]] + y[1..];
    }
  }

  lemma {:induction false} LexLeTransitive(x: string, y: string, z: string)
    requires LexLe(x, y) && LexLe(y, z)
    ensures LexLe(x, z)
    decreases |x|
  {
    if |x| > 0 && x[0] == y[0] && y[0] == z[0] {
      LexLeTransitive(x[1..], y[1..], z[1..]);
    }
  }

  /** Every element sorts at or before every later element. */
  predicate Sorted(s: seq<string>) {
    forall i, j {:trigger LexLe(s[i], s[j])} :: 0 <= i < j < |s| ==> LexLe(s[i], s[j])
  }

  /** Inserts `x` before the first element it sorts at or before. */
  function Insert(x: string, s: seq<string>): (r: seq<string>)
    requires Sorted(s)
    ensures Sorted(r)
    ensures multiset(r) == multiset(s) + multiset{x}
    decreases |s|
  {
    if s == [] || LexLe(x, s[0]) then
      assert forall j :: 0 <= j < |s| ==> LexLe(x, s[j]) by {
        forall j | 0 < j < |s| {
          LexLeTransitive(x, s[0], s[j]);
        }
      }
      [x] + s
    else
      var t := Insert(x, s[1..]);
      assert s == [s[0]] + s[1..];
      assert forall j :: 0 <= j < |t| ==> LexLe(s[0], t[j]) by {
        forall j | 0 <= j < |t|
          ensures LexLe(s[0], t[j])
        {
          assert t[j] in multiset(t);
          if t[j] == x {
            LexLeTotal(x, s[0]);
          } else {
            assert t[j] in multiset(s[1..]);
            var i :| 0 <= i < |s[1..]| && s[1..][i] == t[j];
            assert s[i + 1] == t[j];
          }
        }
      }
      [s[0]] + t
  }

  /** Insertion sort: a sorted permutation of `s`. */
  function Sort(s: seq<string>): (r: seq<string>)
    ensures Sorted(r)
    ensures multiset(r) == multiset(s)
    decreases |s|
  {
    if s == [] then [] else
      assert s == [s[0]] + s[1..];
      Insert(s[0], Sort(s[1..]))
  }

  /** The head of a sorted sequence sorts at or before each of its elements. */
  lemma SortedHeadLeast(s: seq<string>, x: string)
    requires Sorted(s) && x in multiset(s)
    ensures LexLe(s[0], x)
  {
    var i :| 0 <= i < |s| && s[i] == x;
    if i == 0 {
      LexLeReflexive(x);
    }
  }

  lemma MultisetTail(s: seq<string>)
    requires |s| > 0
    ensures multiset(s[1..]) == multiset(s) - multiset{s[0]}
  {
    assert s == [s[0]] + s[1..];
  }

  /** Two sorted sequences holding the same elements are equal. */
  lemma {:induction false} SortedUnique(s: seq<string>, t: seq<string>)
    requires Sorted(s) && Sorted(t)
    requires multiset(s) == multiset(t)
    ensures s == t
    decreases |s|
  {
    assert |s| == |multiset(s)| == |multiset(t)| == |t|;
    if |s| > 0 {
      SortedHeadLeast(s, t[0]);
      SortedHeadLeast(t, s[0]);
      LexLeAntisymmetric(s[0], t[0]);
      MultisetTail(s);
      MultisetTail(t);
      SortedUnique(s[1..], t[1..]);
      assert s == [s[0]] + s[1..];
      assert t == [t[0]] + t[1..];
    }
  }

  /** The sorted copy of a sequence depends on its elements and nothing else. */
  lemma SortCanonical(a: seq<string>, b: seq<string>)
    ensures Sort(a) == Sort(b) <==> multiset(a) == multiset(b)
  {
    if multiset(a) == multiset(b) {
      SortedUnique(Sort(a), Sort(b));
    }
  }
}
