/** The cross-customer overview: per-customer slices, capped, merged and capped again.

    `src/lib/analysis/cross-customer-overview.ts`. */
module Overview {
  import opened Common
  import opened RankOrder

  /** `id` is the position of the row's `customer|...` id string among all such strings. */
  datatype RiskRow = RiskRow(tier: Tier, severity: real, likelihood: real, recency: int, id: int, caption: string)

  function RiskKey(r: RiskRow): Key {
    Key(TierRank(r.tier), r.severity, r.likelihood, r.recency, r.id, 0)
  }

  /** The part of the key both the SQL order and the app order agree on; only ties differ. */
  function Core(r: RiskRow): Key {
    RiskKey(r).(tie1 := 0)
  }

  /** `compareRisk`, the JavaScript comparator. */
  function CompareRisk(a: RiskRow, b: RiskRow): real {
    var tier := TierRank(b.tier) - TierRank(a.tier);
    if tier != 0 then tier as real
    else if a.severity != b.severity then b.severity - a.severity
    else if a.likelihood != b.likelihood then b.likelihood - a.likelihood
    else if a.recency != b.recency then (b.recency - a.recency) as real
    else if a.id < b.id then -1.0
    else if a.id > b.id then 1.0
    else 0.0
  }

  /** The comparator is consistent with the ranking and with itself, so a sort by it is well defined. */
  lemma CompareRiskRanks(a: RiskRow, b: RiskRow)
    ensures CompareRisk(a, b) < 0.0 <==> Before(RiskKey(a), RiskKey(b))
    ensures CompareRisk(a, b) == -CompareRisk(b, a)
    ensures CompareRisk(a, b) == 0.0 <==> RiskKey(a) == RiskKey(b)
  {
    RanksAgree(a.tier, b.tier);
  }

  function RankAndCap(rows: seq<RiskRow>, cap: nat): seq<RiskRow> {
    Take(Sort(rows, RiskKey), cap)
  }

  /** What the overview shows of two rows, the upper one first. */
  ghost predicate ShownAbove(a: RiskRow, b: RiskRow) {
    && !MoreUrgent(b.tier, a.tier)
    && (a.tier == b.tier ==> a.severity >= b.severity)
    && (a.tier == b.tier && a.severity == b.severity ==> a.likelihood >= b.likelihood)
    && (a.tier == b.tier && a.severity == b.severity && a.likelihood == b.likelihood ==> a.recency >= b.recency)
    && (a.tier == b.tier && a.severity == b.severity && a.likelihood == b.likelihood && a.recency == b.recency ==>
          a.id <= b.id)
  }

  lemma NotBeforeIsAbove(a: RiskRow, b: RiskRow)
    requires !Before(RiskKey(b), RiskKey(a))
    ensures ShownAbove(a, b)
  {
    RanksAgree(a.tier, b.tier);
    RanksAgree(b.tier, a.tier);
  }

  /** Ranking and capping keeps as many of the rows as the cap admits, in order, and no row it leaves out
      belongs above one it keeps. */
  lemma RankedAndCapped(rows: seq<RiskRow>, cap: nat) returns (rest: seq<RiskRow>)
    ensures var shown := RankAndCap(rows, cap);
            && multiset(rows) == multiset(shown) + multiset(rest)
            && |shown| == (if cap < |rows| then cap else |rows|)
            && (forall i, j :: 0 <= i < j < |shown| ==> ShownAbove(shown[i], shown[j]))
            && (forall i, j :: 0 <= i < |shown| && 0 <= j < |rest| ==> ShownAbove(shown[i], rest[j]))
  {
    hide Sort, Before;
    SortSorts(rows, RiskKey);
    var sorted := Sort(rows, RiskKey);
    assert |multiset(sorted)| == |sorted| && |multiset(rows)| == |rows|;
    forall i, j | 0 <= i < j < |sorted|
      ensures ShownAbove(sorted[i], sorted[j])
    {
      assert !Before(Keys(sorted, RiskKey)[j], Keys(sorted, RiskKey)[i]);
      NotBeforeIsAbove(sorted[i], sorted[j]);
    }
    hide ShownAbove;
    rest := if cap < |sorted| then sorted[cap..] else [];
    assert sorted == RankAndCap(rows, cap) + rest;
  }

  // ---------------------------------------------------------------------------
  // Top-K over key sequences
  // ---------------------------------------------------------------------------

  function Itself(k: Key): Key { k }

  function SortKeys(keys: seq<Key>): seq<Key> {
    Sort(keys, Itself)
  }

  function InsertAll(keys: seq<Key>, into: seq<Key>): seq<Key> {
    if keys == [] then into else Insert(keys[0], InsertAll(keys[1..], into), Itself)
  }

  lemma {:induction false} SortConcat(a: seq<Key>, b: seq<Key>)
    ensures SortKeys(a + b) == InsertAll(a, SortKeys(b))
  {
    if a == [] {
      assert a + b == b;
    } else {
      SortConcat(a[1..], b);
      assert (a + b)[1..] == a[1..] + b;
    }
  }

  /** Inserting into a truncated list agrees with inserting first, up to the truncation. */
  lemma {:induction false} InsertTake(k: Key, s: seq<Key>, n: nat)
    ensures Take(Insert(k, s, Itself), n) == Take(Insert(k, Take(s, n), Itself), n)
  {
    hide Before;
    if s != [] && n > 0 && Before(s[0], k) {
      InsertTake(k, s[1..], n - 1);
      assert Take(s, n)[1..] == Take(s[1..], n - 1);
      assert Take(Insert(k, s, Itself), n) == [s[0]] + Take(Insert(k, s[1..], Itself), n - 1);
      assert Take(Insert(k, Take(s, n), Itself), n) == [s[0]] + Take(Insert(k, Take(s[1..], n - 1), Itself), n - 1);
    } else if s != [] && n > 0 {
      assert Take([k] + s, n) == Take([k] + Take(s, n), n);
    }
  }

  lemma {:induction false} InsertAllTake(a: seq<Key>, s: seq<Key>, n: nat)
    ensures Take(InsertAll(a, s), n) == Take(InsertAll(a, Take(s, n)), n)
  {
    hide Before, Insert;
    if a != [] {
      InsertAllTake(a[1..], s, n);
      InsertTake(a[0], InsertAll(a[1..], s), n);
      InsertTake(a[0], InsertAll(a[1..], Take(s, n)), n);
    } else {
      assert Take(Take(s, n), n) == Take(s, n);
    }
  }

  lemma KeysItself(keys: seq<Key>)
    ensures Keys(keys, Itself) == keys
  {
  }

  /** Sorting depends only on what is sorted, not on its arrangement. */
  lemma SortCanonical(a: seq<Key>, b: seq<Key>)
    requires multiset(a) == multiset(b)
    ensures SortKeys(a) == SortKeys(b)
  {
    hide Sort, Before;
    SortSorts(a, Itself);
    SortSorts(b, Itself);
    KeysItself(SortKeys(a));
    KeysItself(SortKeys(b));
    SortedIsUnique(SortKeys(a), SortKeys(b));
  }

  lemma SortOfSorted(a: seq<Key>)
    requires Sorted(a)
    ensures SortKeys(a) == a
  {
    hide Sort, Before;
    SortSorts(a, Itself);
    KeysItself(SortKeys(a));
    SortedIsUnique(SortKeys(a), a);
  }

  lemma SortedPrefix(a: seq<Key>, n: nat)
    ensures Sorted(Take(SortKeys(a), n))
  {
    hide Sort, Before;
    SortSorts(a, Itself);
    KeysItself(SortKeys(a));
  }

  /** Either side of a merge may be cut to its own top `n` first. */
  lemma TopOfCutRight(a: seq<Key>, b: seq<Key>, n: nat)
    ensures Take(SortKeys(a + b), n) == Take(SortKeys(a + Take(SortKeys(b), n)), n)
  {
    hide Sort, Take, Before, Insert;
    SortConcat(a, b);
    InsertAllTake(a, SortKeys(b), n);
    SortedPrefix(b, n);
    SortOfSorted(Take(SortKeys(b), n));
    SortConcat(a, Take(SortKeys(b), n));
  }

  lemma SortSwap(a: seq<Key>, b: seq<Key>)
    ensures SortKeys(a + b) == SortKeys(b + a)
  {
    SortCanonical(a + b, b + a);
  }

  function Concat(parts: seq<seq<Key>>): seq<Key> {
    if parts == [] then [] else parts[0] + Concat(parts[1..])
  }

  /** Merging slices that are each a top `n`, then cutting to `n`, is the top `n` of everything. */
  lemma {:induction false} TopOfTops(all: seq<seq<Key>>, slices: seq<seq<Key>>, n: nat)
    requires |slices| == |all|
    requires forall i :: 0 <= i < |all| ==> slices[i] == Take(SortKeys(all[i]), n)
    ensures Take(SortKeys(Concat(slices)), n) == Take(SortKeys(Concat(all)), n)
  {
    hide Sort, Take, Before, SortKeys;
    if all != [] {
      var s, a := slices[0], all[0];
      var restS, restA := Concat(slices[1..]), Concat(all[1..]);
      TopOfTops(all[1..], slices[1..], n);
      TopOfCutRight(s, restS, n);
      TopOfCutRight(s, restA, n);
      SortSwap(s, restA);
      TopOfCutRight(restA, a, n);
      SortSwap(restA, a);
    }
  }

  // ---------------------------------------------------------------------------
  // The per-customer fetch and the aggregate
  // ---------------------------------------------------------------------------

  /** What `ORDER BY ... LIMIT limit` may return for a customer's eligible rows: its order on the core
      is fixed, its order among ties is the database's own. */
  ghost predicate IsSqlSlice(eligible: seq<RiskRow>, limit: nat, slice: seq<RiskRow>) {
    exists ordered ::
      && multiset(ordered) == multiset(eligible)
      && Sorted(Keys(ordered, Core))
      && slice == Take(ordered, limit)
  }

  lemma KeysConcat(a: seq<RiskRow>, b: seq<RiskRow>)
    ensures Keys(a + b, Core) == Keys(a, Core) + Keys(b, Core)
  {
  }

  lemma KeysOfOne(r: RiskRow)
    ensures Keys([r], Core) == [Core(r)]
  {
  }

  lemma KeysWithout(b: seq<RiskRow>, r: RiskRow) returns (rest: seq<RiskRow>)
    requires r in multiset(b)
    ensures multiset(Keys(b, Core)) == multiset(Keys(rest, Core)) + multiset{Core(r)}
    ensures multiset(b) == multiset(rest) + multiset{r}
  {
    hide Core, Keys;
    var i :| 0 <= i < |b| && b[i] == r;
    rest := b[..i] + b[i + 1..];
    assert b == b[..i] + ([b[i]] + b[i + 1..]);
    var front, back := b[..i], b[i + 1..];
    KeysConcat(front, [r] + back);
    KeysConcat([r], back);
    KeysConcat(front, back);
    KeysOfOne(r);
  }

  lemma KeysHead(a: seq<RiskRow>)
    requires a != []
    ensures multiset(Keys(a, Core)) == multiset(Keys(a[1..], Core)) + multiset{Core(a[0])}
  {
    assert a == [a[0]] + a[1..];
    KeysConcat([a[0]], a[1..]);
    KeysOfOne(a[0]);
  }

  lemma {:induction false} KeysMultiset(a: seq<RiskRow>, b: seq<RiskRow>)
    requires multiset(a) == multiset(b)
    ensures multiset(Keys(a, Core)) == multiset(Keys(b, Core))
  {
    hide Core, Keys;
    assert |multiset(a)| == |a| && |multiset(b)| == |b|;
    if a == [] {
      assert b == [];
    } else {
      var r := a[0];
      assert r in multiset(a);
      var restB := KeysWithout(b, r);
      KeysHead(a);
      assert multiset(a[1..]) == multiset(restB) by {
        assert a == [r] + a[1..];
        assert multiset(a) - multiset{r} == multiset(a[1..]);
        assert multiset(b) - multiset{r} == multiset(restB);
      }
      KeysMultiset(a[1..], restB);
    }
  }

  lemma SortedByCore(rows: seq<RiskRow>)
    requires Sorted(Keys(rows, RiskKey))
    ensures Sorted(Keys(rows, Core))
  {
    forall i, j | 0 <= i < j < |rows|
      ensures !Before(Core(rows[j]), Core(rows[i]))
    {
      assert !Before(Keys(rows, RiskKey)[j], Keys(rows, RiskKey)[i]);
    }
  }

  lemma CoresOfSorted(rows: seq<RiskRow>, ordered: seq<RiskRow>)
    requires multiset(ordered) == multiset(rows) && Sorted(Keys(ordered, Core))
    ensures Keys(ordered, Core) == SortKeys(Keys(rows, Core))
  {
    hide Before, Sort;
    KeysMultiset(ordered, rows);
    SortCanonical(Keys(ordered, Core), Keys(rows, Core));
    SortOfSorted(Keys(ordered, Core));
  }

  lemma CoresOfRanked(rows: seq<RiskRow>, cap: nat)
    ensures Keys(RankAndCap(rows, cap), Core) == Take(SortKeys(Keys(rows, Core)), cap)
  {
    hide Before, Sort;
    SortSorts(rows, RiskKey);
    SortedByCore(Sort(rows, RiskKey));
    CoresOfSorted(rows, Sort(rows, RiskKey));
  }

  lemma CoresOfSlice(eligible: seq<RiskRow>, limit: nat, slice: seq<RiskRow>)
    requires IsSqlSlice(eligible, limit, slice)
    ensures Keys(slice, Core) == Take(SortKeys(Keys(eligible, Core)), limit)
  {
    hide Before, Sort;
    var ordered :| multiset(ordered) == multiset(eligible) && Sorted(Keys(ordered, Core))
      && slice == Take(ordered, limit);
    CoresOfSorted(eligible, ordered);
  }

  /** One customer's contribution: at most `fetchCap` rows from the database, re-ranked and cut to `cap`,
      are its own top `cap`. */
  lemma SliceIsOwnTop(eligible: seq<RiskRow>, fetchCap: nat, fetched: seq<RiskRow>, cap: nat)
    requires cap <= fetchCap && IsSqlSlice(eligible, fetchCap, fetched)
    ensures Keys(RankAndCap(fetched, cap), Core) == Take(SortKeys(Keys(eligible, Core)), cap)
  {
    hide Before, Sort, SortKeys;
    CoresOfSlice(eligible, fetchCap, fetched);
    CoresOfRanked(fetched, cap);
    SortedPrefix(Keys(eligible, Core), fetchCap);
    SortOfSorted(Keys(fetched, Core));
  }

  datatype Outcome = Fulfilled(rows: seq<RiskRow>, total: nat) | Failed

  datatype Surface = Surface(items: seq<RiskRow>, totalCount: nat, failedCustomers: seq<string>)

  function MergedRows(settled: seq<Outcome>): seq<RiskRow> {
    if settled == [] then []
    else
      var before, last := MergedRows(settled[..|settled| - 1]), settled[|settled| - 1];
      if last.Fulfilled? then before + last.rows else before
  }

  function TotalOf(settled: seq<Outcome>): nat {
    if settled == [] then 0
    else
      var before, last := TotalOf(settled[..|settled| - 1]), settled[|settled| - 1];
      if last.Fulfilled? then before + last.total else before
  }

  function FailedOf(customers: seq<string>, settled: seq<Outcome>): seq<string>
    requires |customers| == |settled|
  {
    if settled == [] then []
    else
      var n := |settled| - 1;
      var before := FailedOf(customers[..n], settled[..n]);
      if settled[n].Failed? then before + [customers[n]] else before
  }

  /** `aggregateSurface`: a failed customer is reported, contributes nothing, and stops nothing. */
  method AggregateSurface(customers: seq<string>, settled: seq<Outcome>, cap: nat) returns (result: Surface)
    requires |customers| == |settled|
    ensures result == Surface(RankAndCap(MergedRows(settled), cap), TotalOf(settled), FailedOf(customers, settled))
  {
    var merged: seq<RiskRow>, failedCustomers: seq<string>, totalCount := [], [], 0;
    for i := 0 to |settled|
      invariant merged == MergedRows(settled[..i])
      invariant totalCount == TotalOf(settled[..i])
      invariant failedCustomers == FailedOf(customers[..i], settled[..i])
    {
      assert settled[..i + 1][..i] == settled[..i] && customers[..i + 1][..i] == customers[..i];
      match settled[i]
      case Fulfilled(rows, total) =>
        merged, totalCount := merged + rows, totalCount + total;
      case Failed =>
        failedCustomers := failedCustomers + [customers[i]];
    }
    assert settled[..|settled|] == settled && customers[..|settled|] == customers;
    result := Surface(RankAndCap(merged, cap), totalCount, failedCustomers);
  }

  /** The positions, among the first `n`, of the customers that failed. */
  function FailuresBefore(settled: seq<Outcome>, n: nat): set<int>
    requires n <= |settled|
  {
    set i | 0 <= i < n && settled[i].Failed?
  }

  lemma FailuresOneMore(settled: seq<Outcome>, n: nat)
    requires n < |settled|
    ensures |FailuresBefore(settled, n + 1)| == |FailuresBefore(settled, n)| + if settled[n].Failed? then 1 else 0
    ensures forall m: nat :: m <= n ==> FailuresBefore(settled[..n], m) == FailuresBefore(settled, m)
  {
    InsertIfNew(FailuresBefore(settled, n), FailuresBefore(settled, n + 1), n, settled[n].Failed?);
  }

  lemma NoFailures(settled: seq<Outcome>)
    ensures FailuresBefore(settled, 0) == {}
  {
  }

  /** Every failure is reported once, under its own customer, in the order the customers were asked. */
  lemma {:induction false} FailuresAreReported(customers: seq<string>, settled: seq<Outcome>)
    requires |customers| == |settled|
    ensures |FailedOf(customers, settled)| == |FailuresBefore(settled, |settled|)|
    ensures forall i: nat :: i < |settled| && settled[i].Failed? ==>
        && |FailuresBefore(settled, i)| < |FailedOf(customers, settled)|
        && FailedOf(customers, settled)[|FailuresBefore(settled, i)|] == customers[i]
  {
    hide FailuresBefore;
    if settled == [] {
      assert FailuresBefore(settled, 0) == {} by { NoFailures(settled); }
    } else {
      var n := |settled| - 1;
      FailuresAreReported(customers[..n], settled[..n]);
      FailuresOneMore(settled, n);
    }
  }

  /** Everything eligible at the customers that answered. */
  function Reachable(eligible: seq<seq<RiskRow>>, settled: seq<Outcome>): seq<RiskRow>
    requires |eligible| == |settled|
  {
    if settled == [] then []
    else
      var n := |settled| - 1;
      var before := Reachable(eligible[..n], settled[..n]);
      if settled[n].Fulfilled? then before + eligible[n] else before
  }

  /** What one fetcher returns: the event fetcher its query's own top `cap`, the other two the top
      `fetchCap` of theirs, ranked again and cut to `cap`. */
  ghost predicate IsFetched(eligible: seq<RiskRow>, fetchCap: nat, cap: nat, rows: seq<RiskRow>) {
    || IsSqlSlice(eligible, cap, rows)
    || exists fetched :: IsSqlSlice(eligible, fetchCap, fetched) && rows == RankAndCap(fetched, cap)
  }

  lemma FetchedIsOwnTop(eligible: seq<RiskRow>, fetchCap: nat, cap: nat, rows: seq<RiskRow>)
    requires cap <= fetchCap && IsFetched(eligible, fetchCap, cap, rows)
    ensures Keys(rows, Core) == Take(SortKeys(Keys(eligible, Core)), cap)
  {
    hide Before, Sort, SortKeys, IsSqlSlice, Take, Keys;
    if IsSqlSlice(eligible, cap, rows) {
      CoresOfSlice(eligible, cap, rows);
    } else {
      var fetched :| IsSqlSlice(eligible, fetchCap, fetched) && rows == RankAndCap(fetched, cap);
      SliceIsOwnTop(eligible, fetchCap, fetched, cap);
    }
  }

  /** Every customer that answered answered with what its fetcher returns. */
  ghost predicate Fetched(eligible: seq<seq<RiskRow>>, settled: seq<Outcome>, fetchCap: nat, cap: nat)
    requires |eligible| == |settled|
  {
    forall i :: 0 <= i < |settled| && settled[i].Fulfilled? ==> IsFetched(eligible[i], fetchCap, cap, settled[i].rows)
  }

  /** The key sequences of the customers that answered, end to end. */
  function Answering(parts: seq<seq<Key>>, settled: seq<Outcome>): seq<Key>
    requires |parts| == |settled|
  {
    if settled == [] then []
    else
      var n := |settled| - 1;
      var before := Answering(parts[..n], settled[..n]);
      if settled[n].Fulfilled? then before + parts[n] else before
  }

  /** Where each answer is the top `cap` of its part, the merged top is the top of all the parts. */
  lemma {:induction false} MergedTopOf(parts: seq<seq<Key>>, settled: seq<Outcome>, cap: nat)
    requires |parts| == |settled|
    requires forall i :: 0 <= i < |settled| && settled[i].Fulfilled? ==>
               Keys(settled[i].rows, Core) == Take(SortKeys(parts[i]), cap)
    ensures Take(SortKeys(Keys(MergedRows(settled), Core)), cap) == Take(SortKeys(Answering(parts, settled)), cap)
    decreases |settled|
  {
    hide Before, Sort, SortKeys, Take;
    if settled != [] {
      var n := |settled| - 1;
      MergedTopOf(parts[..n], settled[..n], cap);
      if settled[n].Fulfilled? {
        var m, r := Keys(MergedRows(settled[..n]), Core), Answering(parts[..n], settled[..n]);
        var s, a := Keys(settled[n].rows, Core), parts[n];
        KeysConcat(MergedRows(settled[..n]), settled[n].rows);
        SortSwap(m, s);
        TopOfCutRight(s, m, cap);
        TopOfCutRight(s, r, cap);
        SortSwap(s, r);
        TopOfCutRight(r, a, cap);
      }
    }
  }

  function KeyParts(eligible: seq<seq<RiskRow>>): (parts: seq<seq<Key>>)
    ensures |parts| == |eligible|
  {
    seq(|eligible|, i requires 0 <= i < |eligible| => Keys(eligible[i], Core))
  }

  lemma {:induction false} KeysOfReachable(eligible: seq<seq<RiskRow>>, settled: seq<Outcome>)
    requires |eligible| == |settled|
    ensures Keys(Reachable(eligible, settled), Core) == Answering(KeyParts(eligible), settled)
    decreases |settled|
  {
    hide Core, Keys;
    if settled == [] {
      assert Keys<RiskRow>([], Core) == [];
    } else {
      var n := |settled| - 1;
      KeysOfReachable(eligible[..n], settled[..n]);
      assert KeyParts(eligible)[..n] == KeyParts(eligible[..n]);
      KeysConcat(Reachable(eligible[..n], settled[..n]), eligible[n]);
    }
  }

  /** The bounded fan-out shows the global top: for `cap <= fetchCap`, the overview's ranking values are
      exactly those of sorting and capping everything eligible at the customers that did not fail. */
  lemma OverviewIsGlobalTop(customers: seq<string>, eligible: seq<seq<RiskRow>>, settled: seq<Outcome>,
                            fetchCap: nat, cap: nat)
    requires |customers| == |eligible| == |settled| && cap <= fetchCap && Fetched(eligible, settled, fetchCap, cap)
    ensures Keys(RankAndCap(MergedRows(settled), cap), Core) ==
        Keys(RankAndCap(Reachable(eligible, settled), cap), Core)
  {
    hide Before, Sort, SortKeys, Take, IsFetched, Keys;
    forall i | 0 <= i < |settled| && settled[i].Fulfilled?
      ensures Keys(settled[i].rows, Core) == Take(SortKeys(KeyParts(eligible)[i]), cap)
    {
      FetchedIsOwnTop(eligible[i], fetchCap, cap, settled[i].rows);
    }
    MergedTopOf(KeyParts(eligible), settled, cap);
    KeysOfReachable(eligible, settled);
    CoresOfRanked(MergedRows(settled), cap);
    CoresOfRanked(Reachable(eligible, settled), cap);
  }

  // ---------------------------------------------------------------------------
  // Any two caps
  // ---------------------------------------------------------------------------

  function Drop<T>(s: seq<T>, n: nat): seq<T> {
    if n < |s| then s[n..] else []
  }

  /** Per customer, the ranking values its query lets through, and those it cuts off. */
  function FetchedParts(eligible: seq<seq<RiskRow>>, fetchCap: nat): (parts: seq<seq<Key>>)
    ensures |parts| == |eligible|
  {
    seq(|eligible|, i requires 0 <= i < |eligible| => Take(SortKeys(Keys(eligible[i], Core)), fetchCap))
  }

  function CutParts(eligible: seq<seq<RiskRow>>, fetchCap: nat): (parts: seq<seq<Key>>)
    ensures |parts| == |eligible|
  {
    seq(|eligible|, i requires 0 <= i < |eligible| => Drop(SortKeys(Keys(eligible[i], Core)), fetchCap))
  }

  lemma KeysSortPermutes(keys: seq<Key>)
    ensures Sorted(SortKeys(keys)) && multiset(SortKeys(keys)) == multiset(keys) && |SortKeys(keys)| == |keys|
  {
    hide Sort, Before, Sorted;
    SortSorts(keys, Itself);
    KeysItself(SortKeys(keys));
    assert |multiset(SortKeys(keys))| == |SortKeys(keys)| && |multiset(keys)| == |keys|;
  }

  lemma OwnFetchedAndCut(keys: seq<Key>, n: nat)
    ensures multiset(keys) == multiset(Take(SortKeys(keys), n)) + multiset(Drop(SortKeys(keys), n))
  {
    hide SortKeys;
    KeysSortPermutes(keys);
    assert SortKeys(keys) == Take(SortKeys(keys), n) + Drop(SortKeys(keys), n);
  }

  lemma {:induction false} FetchedAndCut(eligible: seq<seq<RiskRow>>, settled: seq<Outcome>, fetchCap: nat)
    requires |eligible| == |settled|
    ensures multiset(Answering(KeyParts(eligible), settled))
         == multiset(Answering(FetchedParts(eligible, fetchCap), settled))
            + multiset(Answering(CutParts(eligible, fetchCap), settled))
    decreases |settled|
  {
    hide SortKeys, Keys, Take, Drop;
    if settled != [] {
      var n := |settled| - 1;
      FetchedAndCut(eligible[..n], settled[..n], fetchCap);
      assert KeyParts(eligible)[..n] == KeyParts(eligible[..n]);
      assert FetchedParts(eligible, fetchCap)[..n] == FetchedParts(eligible[..n], fetchCap);
      assert CutParts(eligible, fetchCap)[..n] == CutParts(eligible[..n], fetchCap);
      OwnFetchedAndCut(Keys(eligible[n], Core), fetchCap);
    }
  }

  /** A sequence of what is left of a multiset after taking a part out. */
  lemma {:induction false} Without(all: seq<Key>, part: seq<Key>) returns (rest: seq<Key>)
    requires multiset(part) <= multiset(all)
    ensures multiset(all) == multiset(part) + multiset(rest)
  {
    if part == [] {
      rest := all;
    } else {
      var k := part[0];
      assert part == [k] + part[1..];
      assert k in multiset(all);
      var i :| 0 <= i < |all| && all[i] == k;
      var fewer := all[..i] + all[i + 1..];
      assert all == all[..i] + [k] + all[i + 1..];
      assert multiset(fewer) == multiset(all) - multiset{k};
      rest := Without(fewer, part[1..]);
    }
  }

  lemma CancelPart(part: multiset<Key>, a: multiset<Key>, b: multiset<Key>)
    requires part + a <= part + b
    ensures a <= b
  {
    assert forall k :: (part + a)[k] == part[k] + a[k] && (part + b)[k] == part[k] + b[k];
  }

  lemma TopIsAll(all: seq<Key>, some: seq<Key>, n: nat, rest: seq<Key>)
    requires multiset(some) <= multiset(all) && |Take(SortKeys(all), n)| < n
    requires multiset(some) == multiset(Take(SortKeys(all), n)) + multiset(rest)
    ensures rest == []
  {
    hide SortKeys;
    KeysSortPermutes(all);
    assert Take(SortKeys(all), n) == SortKeys(all);
    CancelPart(multiset(SortKeys(all)), multiset(rest), multiset{});
    assert |multiset(rest)| == |rest|;
  }

  lemma TopLeads(all: seq<Key>, some: seq<Key>, n: nat, rest: seq<Key>)
    requires multiset(some) <= multiset(all)
    requires multiset(some) == multiset(Take(SortKeys(all), n)) + multiset(rest)
    ensures Take(SortKeys(some), n) == Take(SortKeys(all), n)
  {
    hide SortKeys, Before;
    KeysSortPermutes(all);
    KeysSortPermutes(some);
    KeysSortPermutes(rest);
    var top, below := Take(SortKeys(all), n), Drop(SortKeys(all), n);
    assert SortKeys(all) == top + below;
    CancelPart(multiset(top), multiset(rest), multiset(below));
    var joined := top + SortKeys(rest);
    forall i, j | 0 <= i < j < |joined|
      ensures !Before(joined[j], joined[i])
    {
      if i < |top| <= j {
        assert joined[j] in multiset(SortKeys(rest)) && joined[j] in multiset(below);
        var k :| 0 <= k < |below| && below[k] == joined[j];
        assert SortKeys(all)[|top| + k] == joined[j] && SortKeys(all)[i] == joined[i];
      } else if j < |top| {
        assert SortKeys(all)[i] == joined[i] && SortKeys(all)[j] == joined[j];
      }
    }
    SortedIsUnique(SortKeys(some), joined);
    if n > |top| { TopIsAll(all, some, n, rest); }
  }

  /** Of two collections, one within the other, the tops are the same exactly when the smaller one holds
      the larger one's top. */
  lemma SameTopIff(all: seq<Key>, some: seq<Key>, n: nat)
    requires multiset(some) <= multiset(all)
    ensures Take(SortKeys(some), n) == Take(SortKeys(all), n) <==> multiset(Take(SortKeys(all), n)) <= multiset(some)
  {
    hide SortKeys;
    KeysSortPermutes(all);
    KeysSortPermutes(some);
    var top := Take(SortKeys(all), n);
    assert SortKeys(some) == Take(SortKeys(some), n) + Drop(SortKeys(some), n);
    if multiset(top) <= multiset(some) {
      var rest := Without(some, top);
      TopLeads(all, some, n, rest);
    }
  }

  /** Each answering customer ran its bounded query, ranked the rows again and cut them to `cap`. */
  ghost predicate JoinedFetched(eligible: seq<seq<RiskRow>>, settled: seq<Outcome>, fetchCap: nat, cap: nat)
    requires |eligible| == |settled|
  {
    forall i :: 0 <= i < |settled| && settled[i].Fulfilled? ==>
      exists fetched :: IsSqlSlice(eligible[i], fetchCap, fetched) && settled[i].rows == RankAndCap(fetched, cap)
  }

  lemma AnswerIsTopOfFetched(eligible: seq<RiskRow>, fetchCap: nat, cap: nat, fetched: seq<RiskRow>)
    requires IsSqlSlice(eligible, fetchCap, fetched)
    ensures Keys(RankAndCap(fetched, cap), Core) == Take(SortKeys(Take(SortKeys(Keys(eligible, Core)), fetchCap)), cap)
  {
    hide Before, Sort, SortKeys, Take, Keys, IsSqlSlice;
    CoresOfSlice(eligible, fetchCap, fetched);
    CoresOfRanked(fetched, cap);
  }

  /** For any two caps, the overview of reports or stories shows the global top exactly when every ranking
      value of that top got through its customer's query as often as the top holds it. */
  lemma OverviewIsGlobalTopIff(eligible: seq<seq<RiskRow>>, settled: seq<Outcome>, fetchCap: nat, cap: nat)
    requires |eligible| == |settled| && JoinedFetched(eligible, settled, fetchCap, cap)
    ensures var top := Keys(RankAndCap(Reachable(eligible, settled), cap), Core);
            Keys(RankAndCap(MergedRows(settled), cap), Core) == top
            <==> multiset(top) <= multiset(Answering(FetchedParts(eligible, fetchCap), settled))
  {
    hide Before, Sort, SortKeys, Take, Keys, IsSqlSlice, RankAndCap;
    var parts := FetchedParts(eligible, fetchCap);
    forall i | 0 <= i < |settled| && settled[i].Fulfilled?
      ensures Keys(settled[i].rows, Core) == Take(SortKeys(parts[i]), cap)
    {
      var fetched :| IsSqlSlice(eligible[i], fetchCap, fetched) && settled[i].rows == RankAndCap(fetched, cap);
      AnswerIsTopOfFetched(eligible[i], fetchCap, cap, fetched);
    }
    MergedTopOf(parts, settled, cap);
    KeysOfReachable(eligible, settled);
    FetchedAndCut(eligible, settled, fetchCap);
    SameTopIff(Answering(KeyParts(eligible), settled), Answering(parts, settled), cap);
    CoresOfRanked(MergedRows(settled), cap);
    CoresOfRanked(Reachable(eligible, settled), cap);
  }

  lemma HeldUnlessCut(all: seq<Key>, got: seq<Key>, cut: seq<Key>, top: seq<Key>)
    requires multiset(all) == multiset(got) + multiset(cut) && multiset(top) <= multiset(all)
    requires forall k :: multiset(all)[k] <= 1
    ensures multiset(top) <= multiset(got) <==> forall k :: k in cut ==> k !in top
  {
    assert forall k :: multiset(all)[k] == multiset(got)[k] + multiset(cut)[k];
    assert forall k :: k in cut <==> multiset(cut)[k] > 0;
    assert forall k :: k in top <==> multiset(top)[k] > 0;
  }

  /** Where no two eligible rows rank alike: exactly when no row a customer's query cut off belongs to the
      global top. */
  lemma OverviewIsGlobalTopUnlessCut(eligible: seq<seq<RiskRow>>, settled: seq<Outcome>, fetchCap: nat, cap: nat)
    requires |eligible| == |settled| && JoinedFetched(eligible, settled, fetchCap, cap)
    requires forall k :: multiset(Keys(Reachable(eligible, settled), Core))[k] <= 1
    ensures var top := Keys(RankAndCap(Reachable(eligible, settled), cap), Core);
            Keys(RankAndCap(MergedRows(settled), cap), Core) == top
            <==> forall k :: k in Answering(CutParts(eligible, fetchCap), settled) ==> k !in top
  {
    hide Before, Sort, SortKeys, Keys, JoinedFetched, RankAndCap;
    OverviewIsGlobalTopIff(eligible, settled, fetchCap, cap);
    var all := Keys(Reachable(eligible, settled), Core);
    var got, cut :=
      Answering(FetchedParts(eligible, fetchCap), settled), Answering(CutParts(eligible, fetchCap), settled);
    KeysOfReachable(eligible, settled);
    FetchedAndCut(eligible, settled, fetchCap);
    CoresOfRanked(Reachable(eligible, settled), cap);
    OwnFetchedAndCut(all, cap);
    HeldUnlessCut(all, got, cut, Keys(RankAndCap(Reachable(eligible, settled), cap), Core));
  }

  lemma RankedSize(rows: seq<RiskRow>, cap: nat)
    ensures |RankAndCap(rows, cap)| == if cap < |rows| then cap else |rows|
  {
    hide Before, Sort;
    SortSorts(rows, RiskKey);
    assert |multiset(Sort(rows, RiskKey))| == |Sort(rows, RiskKey)| && |multiset(rows)| == |rows|;
  }

  /** A case: a fetch cap of one row loses the second of two, although two would be shown. */
  lemma TightFetchLosesARow(a: RiskRow, b: RiskRow, fetched: seq<RiskRow>)
    requires IsSqlSlice([a, b], 1, fetched)
    ensures var settled := [Fulfilled(RankAndCap(fetched, 2), 2)];
            && JoinedFetched([[a, b]], settled, 1, 2)
            && |RankAndCap(MergedRows(settled), 2)| == 1
            && |RankAndCap(Reachable([[a, b]], settled), 2)| == 2
  {
    hide Before, Sort;
    var settled := [Fulfilled(RankAndCap(fetched, 2), 2)];
    var ordered :| multiset(ordered) == multiset([a, b]) && Sorted(Keys(ordered, Core)) && fetched == Take(ordered, 1);
    assert |multiset(ordered)| == |ordered| && |multiset([a, b])| == 2;
    assert settled[..0] == [] && [[a, b]][..0] == [];
    assert MergedRows(settled) == RankAndCap(fetched, 2) && Reachable([[a, b]], settled) == [a, b];
    RankedSize(fetched, 2);
    RankedSize(RankAndCap(fetched, 2), 2);
    RankedSize([a, b], 2);
  }

  // ---------------------------------------------------------------------------
  // The totals
  // ---------------------------------------------------------------------------

  /** The event fetcher reads its total off the first returned row (`COUNT(*) OVER ()`). */
  function EventTotal(eligible: seq<RiskRow>, fetched: seq<RiskRow>): nat {
    if |fetched| > 0 then |eligible| else 0
  }

  /** That total is the true count except when a zero cap hides every row. */
  lemma EventTotalIsExactUnlessCapIsZero(eligible: seq<RiskRow>, cap: nat, fetched: seq<RiskRow>)
    requires IsSqlSlice(eligible, cap, fetched)
    ensures EventTotal(eligible, fetched) == |eligible| <==> cap > 0 || eligible == []
  {
    hide Before;
    var ordered :| multiset(ordered) == multiset(eligible) && Sorted(Keys(ordered, Core))
      && fetched == Take(ordered, cap);
    assert |multiset(ordered)| == |ordered| && |multiset(eligible)| == |eligible|;
  }

  /** A report bucket's or story's row in the auth database; `live` is a `ready` or `dirty` status. The key
      is the position of its id, and the recency is the one the story fetcher ranks by. */
  datatype SubjectState = SubjectState(key: int, live: bool, recency: int)

  /** A result in the customer database; `wanted` is the default variant, not superseded. */
  datatype SubjectResult = SubjectResult(key: int, wanted: bool, generation: int, tier: Tier, severity: real,
          likelihood: real, requestedAt: int)

  /** What one customer's report or story fetcher joins: stories rank by the state's recency, reports by the
      result's request time. */
  datatype Subject = Subject(states: seq<SubjectState>, results: seq<SubjectResult>, stories: bool)

  predicate Answers(r: SubjectResult, key: int) {
    r.key == key && r.wanted
  }

  predicate HasResult(results: seq<SubjectResult>, key: int) {
    exists i :: 0 <= i < |results| && Answers(results[i], key)
  }

  /** `DISTINCT ON (...) ... ORDER BY ..., generation DESC`: the newest generation that answers the key. */
  function Newest(results: seq<SubjectResult>, key: int): (best: SubjectResult)
    requires HasResult(results, key)
    ensures best in results && Answers(best, key)
    ensures forall r :: r in results && Answers(r, key) ==> r.generation <= best.generation
  {
    var rest, last := results[..|results| - 1], results[|results| - 1];
    assert results == rest + [last];
    if !HasResult(rest, key) then last
    else
      var best := Newest(rest, key);
      if Answers(last, key) && last.generation > best.generation then last else best
  }

  /** One more state, with its newest result when it is live and has one. */
  function WithState(s: Subject, before: seq<RiskRow>, last: SubjectState): seq<RiskRow> {
    if last.live && HasResult(s.results, last.key) then
      var r := Newest(s.results, last.key);
      before + [RiskRow(r.tier, r.severity, r.likelihood, if s.stories then last.recency else r.requestedAt,
        last.key, "")]
    else before
  }

  function JoinedFrom(s: Subject, states: seq<SubjectState>): seq<RiskRow> {
    if states == [] then []
    else WithState(s, JoinedFrom(s, states[..|states| - 1]), states[|states| - 1])
  }

  /** The ranked rows: the live states that have a result, each with its newest. */
  function Joined(s: Subject): seq<RiskRow> {
    JoinedFrom(s, s.states)
  }

  /** The disclosure count: every live state. */
  function LiveCount(states: seq<SubjectState>): nat {
    if states == [] then 0 else LiveCount(states[..|states| - 1]) + if states[|states| - 1].live then 1 else 0
  }

  /** State `i` is live and result `j` is the newest wanted one of its key. */
  ghost predicate Pairs(s: Subject, n: nat, i: int, j: int)
    requires n <= |s.states|
  {
    && 0 <= i < n && s.states[i].live && 0 <= j < |s.results|
    && s.results[j].key == s.states[i].key && s.results[j].wanted
    && forall o :: 0 <= o < |s.results| && s.results[o].key == s.states[i].key && s.results[o].wanted ==>
         s.results[o].generation <= s.results[j].generation
  }

  ghost predicate RowOfPair(s: Subject, row: RiskRow, i: int, j: int) {
    && 0 <= i < |s.states| && 0 <= j < |s.results|
    && var state, r := s.states[i], s.results[j];
       row == RiskRow(r.tier, r.severity, r.likelihood, if s.stories then state.recency else r.requestedAt, state.key,
                      "")
  }

  lemma NewestPairs(s: Subject, n: nat, i: int) returns (j: int)
    requires n <= |s.states| && 0 <= i < n && s.states[i].live && HasResult(s.results, s.states[i].key)
    ensures Pairs(s, n, i, j) && s.results[j] == Newest(s.results, s.states[i].key)
  {
    var best := Newest(s.results, s.states[i].key);
    j :| 0 <= j < |s.results| && s.results[j] == best;
    forall o | 0 <= o < |s.results| && s.results[o].key == s.states[i].key && s.results[o].wanted
      ensures s.results[o].generation <= best.generation
    {
      assert s.results[o] in s.results && Answers(s.results[o], s.states[i].key);
    }
  }

  lemma NoPairs(s: Subject, i: int, j: int)
    ensures !Pairs(s, 0, i, j)
  {
  }

  lemma PairsWiden(s: Subject, n: nat, i: int, j: int)
    requires n < |s.states|
    ensures Pairs(s, n + 1, i, j) <==> Pairs(s, n, i, j) || (i == n && Pairs(s, n + 1, i, j))
    ensures Pairs(s, n + 1, i, j) ==> 0 <= i <= n && s.states[i].live && HasResult(s.results, s.states[i].key)
  {
    if Pairs(s, n + 1, i, j) { assert Answers(s.results[j], s.states[i].key); }
  }

  /** The rows joined from the first `n` states are those of their pairs. */
  ghost predicate JoinedIs(s: Subject, n: nat, rows: seq<RiskRow>)
    requires n <= |s.states|
  {
    && (forall row :: row in rows ==> exists i, j :: Pairs(s, n, i, j) && RowOfPair(s, row, i, j))
    && (forall i, j :: Pairs(s, n, i, j) ==>
          exists row, o :: row in rows && Pairs(s, n, i, o) && RowOfPair(s, row, i, o))
  }

  lemma JoinedExtends(s: Subject, n: nat, m: nat, rows: seq<RiskRow>, more: seq<RiskRow>)
    requires n <= m <= |s.states| && JoinedIs(s, n, rows)
    requires forall i, j :: Pairs(s, n, i, j) ==> Pairs(s, m, i, j)
    requires forall x :: x in rows ==> x in more
    requires forall x :: x in more && x !in rows ==> exists i, j :: Pairs(s, m, i, j) && RowOfPair(s, x, i, j)
    requires forall i, k :: Pairs(s, m, i, k) && !Pairs(s, n, i, k) ==>
               exists x, o :: x in more && Pairs(s, m, i, o) && RowOfPair(s, x, i, o)
    ensures JoinedIs(s, m, more)
  {
    hide RowOfPair, Pairs;
    forall i, k | Pairs(s, m, i, k)
      ensures exists x, o :: x in more && Pairs(s, m, i, o) && RowOfPair(s, x, i, o)
    {
      if Pairs(s, n, i, k) {
        var x, o :| x in rows && Pairs(s, n, i, o) && RowOfPair(s, x, i, o);
        assert x in more && Pairs(s, m, i, o);
      }
    }
  }

  lemma JoinedOneMore(s: Subject, n: nat, m: nat, rows: seq<RiskRow>)
    requires n < m == n + 1 <= |s.states| && JoinedIs(s, n, rows)
    ensures JoinedIs(s, m, WithState(s, rows, s.states[n]))
  {
    hide Newest, HasResult, Pairs, Answers, JoinedIs;
    var last, more := s.states[n], WithState(s, rows, s.states[n]);
    forall i, j | Pairs(s, m, i, j)
      ensures 0 <= i <= n && s.states[i].live && HasResult(s.results, s.states[i].key)
      ensures Pairs(s, n, i, j) || i == n
    {
      PairsWiden(s, n, i, j);
    }
    forall i, j | Pairs(s, n, i, j)
      ensures Pairs(s, m, i, j)
    {
      PairsWiden(s, n, i, j);
    }
    if last.live && HasResult(s.results, last.key) {
      var j := NewestPairs(s, m, n);
      assert more == rows + [more[|rows|]] && more[|rows|] in more && RowOfPair(s, more[|rows|], n, j);
    }
    hide WithState, RowOfPair;
    JoinedExtends(s, n, m, rows, more);
  }

  lemma {:induction false} JoinedOfFirst(s: Subject, n: nat)
    requires n <= |s.states|
    ensures JoinedIs(s, n, JoinedFrom(s, s.states[..n]))
  {
    hide WithState, Pairs, RowOfPair;
    if n > 0 {
      hide JoinedIs;
      JoinedOfFirst(s, n - 1);
      assert s.states[..n][..n - 1] == s.states[..n - 1];
      JoinedOneMore(s, n - 1, n, JoinedFrom(s, s.states[..n - 1]));
    } else {
      forall i, j ensures !Pairs(s, 0, i, j) { NoPairs(s, i, j); }
    }
  }

  /** What is ranked: each live report bucket or story that has a wanted result, with the newest of them; a
      story by its own recency, a report by when its result was requested. */
  lemma JoinedRowsAre(s: Subject)
    ensures forall row :: row in Joined(s) ==> exists i, j :: Pairs(s, |s.states|, i, j) && RowOfPair(s, row, i, j)
    ensures forall i, j :: Pairs(s, |s.states|, i, j) ==>
              exists row, o :: row in Joined(s) && Pairs(s, |s.states|, i, o) && RowOfPair(s, row, i, o)
  {
    JoinedOfFirst(s, |s.states|);
    assert s.states[..|s.states|] == s.states;
  }

  ghost predicate EveryLiveStateHasAResult(s: Subject) {
    forall i :: 0 <= i < |s.states| && s.states[i].live ==> HasResult(s.results, s.states[i].key)
  }

  lemma EmptySlice(cap: nat)
    ensures IsSqlSlice([], cap, [])
  {
    var none: seq<RiskRow> := [];
    assert Sorted(Keys(none, Core)) && Take(none, cap) == none;
  }

  lemma {:induction false} JoinedIsAtMostLive(s: Subject, states: seq<SubjectState>)
    ensures |JoinedFrom(s, states)| <= LiveCount(states)
    ensures |JoinedFrom(s, states)| == LiveCount(states) <==>
              forall i :: 0 <= i < |states| && states[i].live ==> HasResult(s.results, states[i].key)
  {
    hide HasResult;
    if states != [] {
      var rest := states[..|states| - 1];
      JoinedIsAtMostLive(s, rest);
      assert forall i :: 0 <= i < |rest| ==> rest[i] == states[i];
    }
  }

  /** `fetchCustomerReports` and `fetchCustomerStories`. */
  method FetchJoined(s: Subject, fetched: seq<RiskRow>, fetchCap: nat, cap: nat) returns (slice: Outcome)
    requires IsSqlSlice(Joined(s), fetchCap, fetched)
    ensures slice.Fulfilled? && slice.total == LiveCount(s.states)
    ensures IsFetched(Joined(s), fetchCap, cap, slice.rows)
  {
    hide RankAndCap, Keys;
    var total := LiveCount(s.states);
    if total == 0 {
      JoinedIsAtMostLive(s, s.states);
      assert IsSqlSlice([], cap, []) by { EmptySlice(cap); }
      return Fulfilled([], 0);
    }
    slice := Fulfilled(RankAndCap(fetched, cap), total);
  }

  /** `fetchCustomerEvents`. */
  method FetchEvents(eligible: seq<RiskRow>, fetched: seq<RiskRow>, fetchCap: nat, cap: nat) returns (slice: Outcome)
    requires IsSqlSlice(eligible, cap, fetched)
    ensures slice.Fulfilled? && slice.total == EventTotal(eligible, fetched)
    ensures IsFetched(eligible, fetchCap, cap, slice.rows)
  {
    slice := Fulfilled(fetched, EventTotal(eligible, fetched));
  }

  function Joineds(subjects: seq<Subject>): (rows: seq<seq<RiskRow>>)
    ensures |rows| == |subjects|
  {
    seq(|subjects|, i requires 0 <= i < |subjects| => Joined(subjects[i]))
  }

  lemma OwnTotalIsExactIff(s: Subject)
    ensures |Joined(s)| <= LiveCount(s.states)
    ensures |Joined(s)| == LiveCount(s.states) <==> EveryLiveStateHasAResult(s)
  {
    JoinedIsAtMostLive(s, s.states);
  }

  /** For reports and stories the total never understates the ranked rows of the customers that answered,
      and equals their number exactly when each of their ready or dirty states has a result under the
      default variant. */
  lemma {:induction false} JoinedTotalIsExactIff(subjects: seq<Subject>, settled: seq<Outcome>)
    requires |subjects| == |settled|
    requires forall i :: 0 <= i < |settled| && settled[i].Fulfilled? ==>
        settled[i].total == LiveCount(subjects[i].states)
    ensures |Reachable(Joineds(subjects), settled)| <= TotalOf(settled)
    ensures TotalOf(settled) == |Reachable(Joineds(subjects), settled)| <==>
              forall i :: 0 <= i < |settled| && settled[i].Fulfilled? ==> EveryLiveStateHasAResult(subjects[i])
    decreases |settled|
  {
    if settled != [] {
      var n := |settled| - 1;
      hide LiveCount, EveryLiveStateHasAResult, JoinedFrom, Joined;
      JoinedTotalIsExactIff(subjects[..n], settled[..n]);
      assert Joineds(subjects)[..n] == Joineds(subjects[..n]);
      OwnTotalIsExactIff(subjects[n]);
      assert forall i :: 0 <= i < n ==> settled[..n][i] == settled[i] && subjects[..n][i] == subjects[i];
    }
  }

  /** A case: one ready story with no result under the default model is counted, and never ranked. */
  lemma ReadyWithoutResultIsCounted(results: seq<SubjectResult>)
    requires forall r :: r in results ==> !r.wanted
    ensures var s := Subject([SubjectState(1, true, 0)], results, true);
            LiveCount(s.states) == 1 && Joined(s) == []
  {
    var s := Subject([SubjectState(1, true, 0)], results, true);
    assert forall i :: 0 <= i < |results| ==> results[i] in results;
    assert !HasResult(s.results, 1);
    assert JoinedFrom(s, s.states[..0]) == [] && LiveCount(s.states[..0]) == 0;
    assert s.states[|s.states| - 1] == SubjectState(1, true, 0);
  }

  /** For events the total never overstates them, and equals their number exactly when the cap lets a row
      through or no answering customer has any. */
  lemma {:induction false} EventTotalsAreExactIff(eligible: seq<seq<RiskRow>>, settled: seq<Outcome>, cap: nat)
    requires |eligible| == |settled|
    requires forall i :: 0 <= i < |settled| && settled[i].Fulfilled? ==>
               IsSqlSlice(eligible[i], cap, settled[i].rows)
                 && settled[i].total == EventTotal(eligible[i], settled[i].rows)
    ensures TotalOf(settled) <= |Reachable(eligible, settled)|
    ensures TotalOf(settled) == |Reachable(eligible, settled)| <==> cap > 0 || Reachable(eligible, settled) == []
    decreases |settled|
  {
    hide IsSqlSlice;
    if settled != [] {
      var n := |settled| - 1;
      EventTotalsAreExactIff(eligible[..n], settled[..n], cap);
      if settled[n].Fulfilled? { EventTotalIsExactUnlessCapIsZero(eligible[n], cap, settled[n].rows); }
    }
  }
}
