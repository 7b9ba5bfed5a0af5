/** The one ranking every list uses: tier, severity, likelihood and recency descending, then ties.

    `src/lib/analysis/priority-tier.ts`, and the orderings of `event-list-page-loader.ts` and
    `cross-customer-overview.ts`. */
module RankOrder {
  datatype Tier = CRITICAL | HIGH | MEDIUM | LOW

  function TierRank(t: Tier): int {
    match t case LOW => 0 case MEDIUM => 1 case HIGH => 2 case CRITICAL => 3
  }

  function PriorityRank(t: Tier): int {
    match t case CRITICAL => 4 case HIGH => 3 case MEDIUM => 2 case LOW => 1
  }

  /** Critical before high before medium before low. */
  predicate MoreUrgent(a: Tier, b: Tier) {
    || (a == CRITICAL && b != CRITICAL)
    || (a == HIGH && (b == MEDIUM || b == LOW))
    || (a == MEDIUM && b == LOW)
  }

  /** The app comparator and the SQL `CASE` rank the tiers alike, and neither conflates two tiers. */
  lemma RanksAgree(a: Tier, b: Tier)
    ensures TierRank(a) < TierRank(b) <==> PriorityRank(a) < PriorityRank(b)
    ensures a == b <==> TierRank(a) == TierRank(b)
    ensures TierRank(a) > TierRank(b) <==> MoreUrgent(a, b)
  {
  }

  /** Ties are ascending; text columns stand by their position in the collation that compares them. */
  datatype Key = Key(rank: int, severity: real, likelihood: real, time: int, tie1: int, tie2: int)

  /** The `ORDER BY` list. */
  predicate Before(a: Key, b: Key) {
    if a.rank != b.rank then a.rank > b.rank
    else if a.severity != b.severity then a.severity > b.severity
    else if a.likelihood != b.likelihood then a.likelihood > b.likelihood
    else if a.time != b.time then a.time > b.time
    else if a.tie1 != b.tie1 then a.tie1 < b.tie1
    else a.tie2 < b.tie2
  }

  lemma BeforeIsTotalOrder(a: Key, b: Key, c: Key)
    ensures !Before(a, a)
    ensures Before(a, b) && Before(b, c) ==> Before(a, c)
    ensures a == b || Before(a, b) || Before(b, a)
    ensures !(Before(a, b) && Before(b, a))
  {
  }

  function Keys<T>(rows: seq<T>, key: T -> Key): (keys: seq<Key>)
    ensures |keys| == |rows| && forall i :: 0 <= i < |rows| ==> keys[i] == key(rows[i])
  {
    seq(|rows|, i requires 0 <= i < |rows| => key(rows[i]))
  }

  ghost predicate Sorted(keys: seq<Key>) {
    forall i, j :: 0 <= i < j < |keys| ==> !Before(keys[j], keys[i])
  }

  ghost predicate StrictlySorted(keys: seq<Key>) {
    forall i, j :: 0 <= i < j < |keys| ==> Before(keys[i], keys[j])
  }

  /** Stable insertion: a row goes in front of the first row not before it. */
  function Insert<T>(row: T, rows: seq<T>, key: T -> Key): seq<T> {
    if rows == [] then [row]
    else if Before(key(rows[0]), key(row)) then [rows[0]] + Insert(row, rows[1..], key)
    else [row] + rows
  }

  function Sort<T>(rows: seq<T>, key: T -> Key): seq<T> {
    if rows == [] then [] else Insert(rows[0], Sort(rows[1..], key), key)
  }

  function Take<T>(s: seq<T>, n: nat): seq<T> {
    if n < |s| then s[..n] else s
  }

  lemma {:induction false} InsertPermutes<T>(row: T, rows: seq<T>, key: T -> Key)
    ensures multiset(Insert(row, rows, key)) == multiset(rows) + multiset{row}
  {
    if rows != [] {
      assert rows == [rows[0]] + rows[1..];
      InsertPermutes(row, rows[1..], key);
    }
  }

  /** `x` may stand in front of all of `rows`. */
  ghost predicate Leads<T>(x: Key, rows: seq<T>, key: T -> Key) {
    forall r :: r in rows ==> !Before(key(r), x)
  }

  lemma SortedByParts<T>(first: T, rest: seq<T>, key: T -> Key)
    ensures Sorted(Keys([first] + rest, key)) <==> Leads(key(first), rest, key) && Sorted(Keys(rest, key))
  {
    hide Before;
    var all, tail := Keys([first] + rest, key), Keys(rest, key);
    if Sorted(all) {
      forall r | r in rest
        ensures !Before(key(r), key(first))
      {
        var i :| 0 <= i < |rest| && rest[i] == r;
        assert !Before(all[i + 1], all[0]);
      }
      forall i, j | 0 <= i < j < |rest|
        ensures !Before(tail[j], tail[i])
      {
        assert !Before(all[j + 1], all[i + 1]);
      }
    }
    if Leads(key(first), rest, key) && Sorted(tail) {
      forall i, j | 0 <= i < j < |all|
        ensures !Before(all[j], all[i])
      {
        assert all[j] == key(rest[j - 1]) && rest[j - 1] in rest;
        assert i > 0 ==> !Before(tail[j - 1], tail[i - 1]);
      }
    }
  }

  lemma NotBeforeTransitive(a: Key, b: Key, c: Key)
    requires !Before(b, a) && !Before(c, b)
    ensures !Before(c, a)
  {
  }

  lemma EmptySorted(keys: seq<Key>)
    requires keys == []
    ensures Sorted(keys)
  {
  }

  lemma {:induction false} InsertSorts<T>(row: T, rows: seq<T>, key: T -> Key)
    requires Sorted(Keys(rows, key))
    ensures Sorted(Keys(Insert(row, rows, key), key))
  {
    hide Before, Sorted;
    if rows == [] {
      SortedByParts(row, [], key);
      assert [row] + [] == [row];
      EmptySorted(Keys<T>([], key));
    } else {
      var first, rest := rows[0], rows[1..];
      assert rows == [first] + rest;
      SortedByParts(first, rest, key);
      if Before(key(first), key(row)) {
        InsertSorts(row, rest, key);
        InsertPermutes(row, rest, key);
        BeforeIsTotalOrder(key(first), key(row), key(first));
        forall r | r in Insert(row, rest, key)
          ensures !Before(key(r), key(first))
        {
          assert r in multiset(Insert(row, rest, key));
          assert r == row || r in rest;
        }
        SortedByParts(first, Insert(row, rest, key), key);
      } else {
        forall r | r in rows
          ensures !Before(key(r), key(row))
        {
          if r in rest { NotBeforeTransitive(key(row), key(first), key(r)); }
        }
        SortedByParts(row, rows, key);
      }
    }
  }

  /** Sorting orders and permutes. */
  lemma {:induction false} SortSorts<T>(rows: seq<T>, key: T -> Key)
    ensures Sorted(Keys(Sort(rows, key), key))
    ensures multiset(Sort(rows, key)) == multiset(rows)
  {
    hide Before;
    if rows != [] {
      SortSorts(rows[1..], key);
      InsertSorts(rows[0], Sort(rows[1..], key), key);
      InsertPermutes(rows[0], Sort(rows[1..], key), key);
      assert rows == [rows[0]] + rows[1..];
    }
  }

  lemma HeadIsLeast(keys: seq<Key>, k: Key)
    requires Sorted(keys) && k in multiset(keys)
    ensures k == keys[0] || Before(keys[0], k)
  {
    var i :| 0 <= i < |keys| && keys[i] == k;
    BeforeIsTotalOrder(keys[0], k, k);
  }

  lemma SameHead(a: seq<Key>, b: seq<Key>)
    requires Sorted(a) && Sorted(b) && multiset(a) == multiset(b) && a != [] && b != []
    ensures a[0] == b[0]
  {
    hide Before, Sorted;
    assert a[0] in multiset(a) && b[0] in multiset(b);
    HeadIsLeast(a, b[0]);
    HeadIsLeast(b, a[0]);
    BeforeIsTotalOrder(a[0], b[0], b[0]);
  }

  lemma SortedTail(a: seq<Key>)
    requires Sorted(a) && a != []
    ensures Sorted(a[1..])
  {
    hide Before;
  }

  /** A sorted arrangement is unique: whatever sorted it, equal multisets give equal sequences. */
  lemma {:induction false} SortedIsUnique(a: seq<Key>, b: seq<Key>)
    requires Sorted(a) && Sorted(b) && multiset(a) == multiset(b)
    ensures a == b
  {
    hide Before, Sorted;
    assert |multiset(a)| == |a| && |multiset(b)| == |b|;
    if a != [] {
      SameHead(a, b);
      SortedTail(a);
      SortedTail(b);
      assert a == [a[0]] + a[1..] && b == [b[0]] + b[1..];
      assert multiset(a[1..]) == multiset(a) - multiset{a[0]};
      assert multiset(b[1..]) == multiset(b) - multiset{b[0]};
      SortedIsUnique(a[1..], b[1..]);
    }
  }
}
