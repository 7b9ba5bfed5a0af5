/** Small shared vocabulary: the optional value used wherever the source uses `null`. */
module Common {
  datatype Option<+T> = None | Some(value: T)

  /** The finite-set fact behind every row count: moving one member in or out shifts the size by one. */
  lemma InsertGrowsByOne<T>(s: set<T>, s': set<T>, x: T)
    requires x !in s && s' == s + {x}
    ensures |s'| == |s| + 1
  {
  }

  lemma InsertIfNew<T>(s: set<T>, s': set<T>, x: T, added: bool)
    requires x !in s && s' == s + (if added then {x} else {})
    ensures |s'| == |s| + if added then 1 else 0
  {
    if added { InsertGrowsByOne(s, s', x); }
  }

  /** Taking a member out of one arrangement of a multiset matches taking it out of another. */
  lemma TakeOutOfBoth<T>(a: seq<T>, b: seq<T>) returns (front: seq<T>, back: seq<T>)
    requires a != [] && multiset(a) == multiset(b)
    ensures b == front + ([a[|a| - 1]] + back)
    ensures multiset(a[..|a| - 1]) == multiset(front + back)
  {
    var m, rest := a[|a| - 1], a[..|a| - 1];
    assert a == rest + [m];
    assert m in multiset(b);
    var i :| 0 <= i < |b| && b[i] == m;
    front, back := b[..i], b[i + 1..];
    assert b == front + ([m] + back);
    assert multiset(rest) == multiset(a) - multiset{m};
    assert multiset(front + back) == multiset(b) - multiset{m};
  }

  /** A set sorted into two disjoint halves has the size of the two together. */
  lemma DisjointSizes<T>(whole: set<T>, a: set<T>, b: set<T>)
    requires whole == a + b && a !! b
    ensures |whole| == |a| + |b|
  {
  }

  /** Pairing every member of a set with the same thing does not change how many there are. */
  lemma {:induction false} PairSizes<A, B>(pairs: set<(A, B)>, x: A, ys: set<B>)
    requires pairs == set y | y in ys :: (x, y)
    ensures |pairs| == |ys|
    decreases |ys|
  {
    if ys == {} {
      assert pairs == {};
    } else {
      var y :| y in ys;
      var rest := ys - {y};
      var fewer := set o | o in rest :: (x, o);
      assert pairs == fewer + {(x, y)};
      PairSizes(fewer, x, rest);
      InsertGrowsByOne(fewer, pairs, (x, y));
      InsertGrowsByOne(rest, ys, y);
    }
  }
}
