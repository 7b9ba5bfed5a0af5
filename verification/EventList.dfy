/** The suspicious-events list: canonical selection, keyset seek, page cut and the frozen window.

    `src/lib/analysis/event-list-page-loader.ts` and `src/lib/analysis/keyset-cursor.ts`. */
module EventList {
  import opened Common
  import opened RankOrder

  datatype Variant = Variant(lang: string, modelName: string, model: string)

  /** A row of `event_analysis_result`; `aice` is the id's position in the column's collation. */
  datatype ResultRow = ResultRow(
    aice: int, eventKey: int, variant: Variant, generation: int, superseded: bool,
    tier: Tier, severity: real, likelihood: real, requestedAt: int, eventTime: int, kind: Option<string>)

  function KeyOf(r: ResultRow): Key {
    Key(PriorityRank(r.tier), r.severity, r.likelihood, r.requestedAt, r.aice, r.eventKey)
  }

  predicate SameEvent(a: ResultRow, b: ResultRow) {
    a.aice == b.aice && a.eventKey == b.eventKey
  }

  /** The table's primary key. */
  ghost predicate PrimaryKey(table: seq<ResultRow>) {
    forall i, j :: 0 <= i < j < |table| ==>
      !(SameEvent(table[i], table[j]) && table[i].variant == table[j].variant
        && table[i].generation == table[j].generation)
  }

  predicate Candidate(v: Variant, r: ResultRow) {
    r.variant == v && !r.superseded
  }

  /** `DISTINCT ON (aice_id, event_key) ... ORDER BY generation DESC` over the live rows of a variant. */
  predicate Canonical(table: seq<ResultRow>, v: Variant, r: ResultRow) {
    Candidate(v, r) && forall o :: o in table && Candidate(v, o) && SameEvent(o, r) ==> o.generation <= r.generation
  }

  predicate PassesFilters(r: ResultRow, tier: Option<Tier>, since: Option<int>) {
    (tier.Some? ==> r.tier == tier.value) && (since.Some? ==> r.requestedAt >= since.value)
  }

  /** `lb` of a cursor: minted before the field existed, an unbounded window, or a lower bound. */
  datatype LowerBound = Absent | AllTime | From(at: int)

  datatype Cursor = Cursor(pr: int, ss: real, ls: real, rt: int, aid: int, ek: int, lb: LowerBound)

  /** An opaque token: what `encodeCursor` produced, or any other string. */
  datatype Token = Encoded(cursor: Cursor) | Malformed

  function Decode(token: Option<Token>): Option<Cursor> {
    if token.Some? && token.value.Encoded? then Some(token.value.cursor) else None
  }

  datatype Request = Request(variant: Variant, tier: Option<Tier>, since: Option<int>, pageSize: int)

  const DEFAULT_PAGE_SIZE := 25

  function PageSize(q: Request): (n: nat)
    ensures n > 0
  {
    if q.pageSize > 0 then q.pageSize else DEFAULT_PAGE_SIZE
  }

  /** The window's lower bound: pinned by the cursor once there is one that carries it. */
  function Since(q: Request, cursor: Option<Cursor>): Option<int> {
    if cursor.Some? && !cursor.value.lb.Absent? then
      (match cursor.value.lb case AllTime => None case From(at) => Some(at) case Absent => None)
    else q.since
  }

  /** The `WHERE` of the seek, as the query spells it. */
  predicate Seek(r: ResultRow, c: Cursor) {
    || PriorityRank(r.tier) < c.pr
    || (PriorityRank(r.tier) == c.pr && r.severity < c.ss)
    || (PriorityRank(r.tier) == c.pr && r.severity == c.ss && r.likelihood < c.ls)
    || (PriorityRank(r.tier) == c.pr && r.severity == c.ss && r.likelihood == c.ls && r.requestedAt < c.rt)
    || (PriorityRank(r.tier) == c.pr && r.severity == c.ss && r.likelihood == c.ls && r.requestedAt == c.rt
         && r.aice > c.aid)
    || (PriorityRank(r.tier) == c.pr && r.severity == c.ss && r.likelihood == c.ls && r.requestedAt == c.rt
         && r.aice == c.aid && r.eventKey > c.ek)
  }

  function Position(c: Cursor): Key {
    Key(c.pr, c.ss, c.ls, c.rt, c.aid, c.ek)
  }

  /** The expanded predicate selects exactly the rows the `ORDER BY` puts after the cursor's row. */
  lemma SeekIsStrictlyAfter(r: ResultRow, c: Cursor)
    ensures Seek(r, c) <==> Before(Position(c), KeyOf(r))
  {
  }

  function Filter<T(!new)>(s: seq<T>, p: T -> bool): (kept: seq<T>)
    ensures forall x :: x in kept <==> x in s && p(x)
  {
    if s == [] then [] else (if p(s[0]) then [s[0]] else []) + Filter(s[1..], p)
  }

  /** The `ranked` CTE: canonical rows that pass the filters. */
  function Ranked(table: seq<ResultRow>, q: Request, since: Option<int>): seq<ResultRow> {
    Filter(table, r => Canonical(table, q.variant, r) && PassesFilters(r, q.tier, since))
  }

  function Ordered(table: seq<ResultRow>, q: Request, since: Option<int>): seq<ResultRow> {
    Sort(Ranked(table, q, since), KeyOf)
  }

  /** The rows the statement returns before `LIMIT`. */
  function Sought(table: seq<ResultRow>, q: Request, cursor: Option<Cursor>): seq<ResultRow> {
    Sort(Filter(Ranked(table, q, Since(q, cursor)), r => cursor.Some? ==> Seek(r, cursor.value)), KeyOf)
  }

  datatype Page = Page(items: seq<ResultRow>, next: Option<Token>)

  function CursorAt(r: ResultRow, since: Option<int>): Cursor {
    Cursor(PriorityRank(r.tier), r.severity, r.likelihood, r.requestedAt, r.aice, r.eventKey,
           if since.Some? then From(since.value) else AllTime)
  }

  /** `queryEventListPage`: one row more than the page is fetched to learn whether another page exists. */
  function QueryPage(table: seq<ResultRow>, q: Request, token: Option<Token>): Page {
    var cursor := Decode(token);
    var rows := Take(Sought(table, q, cursor), PageSize(q) + 1);
    if |rows| > PageSize(q) then
      var pageRows := rows[..PageSize(q)];
      Page(pageRows, Some(Encoded(CursorAt(pageRows[|pageRows| - 1], Since(q, cursor)))))
    else
      Page(rows, None)
  }

  // ---------------------------------------------------------------------------
  // What a page shows
  // ---------------------------------------------------------------------------

  lemma {:induction false} FilterKeepsPrimaryKey(s: seq<ResultRow>, p: ResultRow -> bool)
    requires PrimaryKey(s)
    ensures PrimaryKey(Filter(s, p))
  {
    if s != [] {
      assert PrimaryKey(s[1..]);
      FilterKeepsPrimaryKey(s[1..], p);
      var rest := Filter(s[1..], p);
      forall r | r in rest
        ensures !(SameEvent(s[0], r) && s[0].variant == r.variant && s[0].generation == r.generation)
      {
        var i :| 0 <= i < |s[1..]| && s[1..][i] == r;
        assert s[i + 1] == r;
      }
    }
  }

  /** One row per event, so no two keys are equal. */
  ghost predicate OnePerEvent(rows: seq<ResultRow>) {
    forall i, j :: 0 <= i < j < |rows| ==> !SameEvent(rows[i], rows[j])
  }

  lemma RankedIsOnePerEvent(table: seq<ResultRow>, q: Request, since: Option<int>)
    requires PrimaryKey(table)
    ensures OnePerEvent(Ranked(table, q, since))
  {
    var rows := Ranked(table, q, since);
    FilterKeepsPrimaryKey(table, r => Canonical(table, q.variant, r) && PassesFilters(r, q.tier, since));
    forall i, j | 0 <= i < j < |rows|
      ensures !SameEvent(rows[i], rows[j])
    {
      assert rows[i] in rows && rows[j] in rows;
      assert Canonical(table, q.variant, rows[i]) && Canonical(table, q.variant, rows[j]);
    }
  }

  lemma {:induction false} FilterOnePerEvent(s: seq<ResultRow>, p: ResultRow -> bool)
    requires OnePerEvent(s)
    ensures OnePerEvent(Filter(s, p))
  {
    if s != [] {
      assert OnePerEvent(s[1..]);
      FilterOnePerEvent(s[1..], p);
      forall r | r in Filter(s[1..], p)
        ensures !SameEvent(s[0], r)
      {
        var i :| 0 <= i < |s[1..]| && s[1..][i] == r;
        assert s[i + 1] == r;
      }
    }
  }

  lemma {:induction false} InsertApart(row: ResultRow, rows: seq<ResultRow>)
    requires OnePerEvent(rows) && forall r :: r in rows ==> !SameEvent(row, r)
    ensures OnePerEvent(Insert(row, rows, KeyOf))
  {
    hide KeyOf, Before;
    if rows != [] && Before(KeyOf(rows[0]), KeyOf(row)) {
      assert OnePerEvent(rows[1..]);
      InsertApart(row, rows[1..]);
      InsertPermutes(row, rows[1..], KeyOf);
      forall r | r in Insert(row, rows[1..], KeyOf)
        ensures !SameEvent(rows[0], r)
      {
        assert rows[0] in rows;
        assert r in multiset(Insert(row, rows[1..], KeyOf));
        if r != row {
          var k :| 0 <= k < |rows[1..]| && rows[1..][k] == r;
          assert r == rows[k + 1];
        }
      }
    }
  }

  lemma {:induction false} SortKeepsOnePerEvent(rows: seq<ResultRow>)
    requires OnePerEvent(rows)
    ensures OnePerEvent(Sort(rows, KeyOf))
  {
    hide KeyOf, Before;
    if rows != [] {
      assert OnePerEvent(rows[1..]);
      SortKeepsOnePerEvent(rows[1..]);
      SortSorts(rows[1..], KeyOf);
      forall r | r in Sort(rows[1..], KeyOf)
        ensures !SameEvent(rows[0], r)
      {
        assert r in multiset(rows[1..]);
        var k :| 0 <= k < |rows[1..]| && rows[1..][k] == r;
        assert r == rows[k + 1];
      }
      InsertApart(rows[0], Sort(rows[1..], KeyOf));
    }
  }

  predicate Due(r: ResultRow, cursor: Option<Cursor>) {
    cursor.Some? ==> Before(Position(cursor.value), KeyOf(r))
  }

  lemma StrictBecauseApart(rows: seq<ResultRow>)
    requires Sorted(Keys(rows, KeyOf)) && OnePerEvent(rows)
    ensures StrictlySorted(Keys(rows, KeyOf))
  {
    forall i, j | 0 <= i < j < |rows|
      ensures Before(KeyOf(rows[i]), KeyOf(rows[j]))
    {
      assert !Before(Keys(rows, KeyOf)[j], Keys(rows, KeyOf)[i]);
      BeforeIsTotalOrder(KeyOf(rows[i]), KeyOf(rows[j]), KeyOf(rows[j]));
      assert !SameEvent(rows[i], rows[j]);
    }
  }

  /** What the statement returns: the ranked rows after the cursor, once each, strictly in order. */
  lemma SoughtFacts(table: seq<ResultRow>, q: Request, cursor: Option<Cursor>)
    requires PrimaryKey(table)
    ensures StrictlySorted(Keys(Sought(table, q, cursor), KeyOf)) && OnePerEvent(Sought(table, q, cursor))
    ensures forall r :: r in Sought(table, q, cursor) <==> r in Ranked(table, q, Since(q, cursor)) && Due(r, cursor)
  {
    hide Seek, Before, Position, Ranked, Sort, Since, OnePerEvent, Sorted, StrictlySorted;
    var ranked := Ranked(table, q, Since(q, cursor));
    var kept := Filter(ranked, r => cursor.Some? ==> Seek(r, cursor.value));
    var rows := Sort(kept, KeyOf);
    RankedIsOnePerEvent(table, q, Since(q, cursor));
    FilterOnePerEvent(ranked, r => cursor.Some? ==> Seek(r, cursor.value));
    SortKeepsOnePerEvent(kept);
    SortSorts(kept, KeyOf);
    StrictBecauseApart(rows);
    forall r
      ensures r in rows <==> r in ranked && Due(r, cursor)
    {
      assert r in rows <==> r in multiset(rows);
      assert r in kept <==> r in multiset(kept);
      assert r in kept <==> r in ranked && (cursor.Some? ==> Seek(r, cursor.value));
      if cursor.Some? { SeekIsStrictlyAfter(r, cursor.value); }
    }
  }

  /** A page is the head of what was sought, and its cursor, if any, sits on its last row and carries
      the window on whatever a later request asks for. */
  lemma PageFacts(table: seq<ResultRow>, q: Request, token: Option<Token>, later: Request)
    ensures
      var rows, n, page := Sought(table, q, Decode(token)), PageSize(q), QueryPage(table, q, token);
      && page.items == Take(rows, n)
      && (page.next.None? <==> |rows| <= n)
      && (page.next.Some? ==>
            && Decode(page.next).Some? && Position(Decode(page.next).value) == KeyOf(rows[n - 1])
            && Since(later, Decode(page.next)) == Since(q, Decode(token)))
  {
    hide Sought;
    var rows := Sought(table, q, Decode(token));
    if |rows| > PageSize(q) {
      assert rows[..PageSize(q) + 1][..PageSize(q)] == rows[..PageSize(q)];
    }
  }

  /** A page is as full as it can be: the size asked for, or 25, unless fewer rows are left. */
  lemma PageIsFull(table: seq<ResultRow>, q: Request, token: Option<Token>)
    ensures var left, asked := |Sought(table, q, Decode(token))|, if q.pageSize > 0 then q.pageSize else 25;
            && |QueryPage(table, q, token).items| == (if left < asked then left else asked)
            && (QueryPage(table, q, token).next.Some? <==> left > asked)
  {
    hide Sought;
    PageFacts(table, q, token, q);
  }

  // ---------------------------------------------------------------------------
  // Paging a fixed table
  // ---------------------------------------------------------------------------

  lemma StrictHead(a: seq<ResultRow>)
    requires StrictlySorted(Keys(a, KeyOf)) && a != []
    ensures forall r :: r in a[1..] ==> Before(KeyOf(a[0]), KeyOf(r)) && r != a[0]
    ensures StrictlySorted(Keys(a[1..], KeyOf))
  {
    hide KeyOf, Before;
    forall r | r in a[1..]
      ensures Before(KeyOf(a[0]), KeyOf(r)) && r != a[0]
    {
      var i :| 0 <= i < |a[1..]| && a[1..][i] == r;
      assert Before(Keys(a, KeyOf)[0], Keys(a, KeyOf)[i + 1]);
      BeforeIsTotalOrder(KeyOf(a[0]), KeyOf(a[0]), KeyOf(a[0]));
    }
    forall i, j | 0 <= i < j < |a[1..]|
      ensures Before(Keys(a[1..], KeyOf)[i], Keys(a[1..], KeyOf)[j])
    {
      assert Before(Keys(a, KeyOf)[i + 1], Keys(a, KeyOf)[j + 1]);
    }
  }

  lemma {:induction false} StrictSameMembers(a: seq<ResultRow>, b: seq<ResultRow>)
    requires StrictlySorted(Keys(a, KeyOf)) && StrictlySorted(Keys(b, KeyOf))
    requires forall r :: r in a <==> r in b
    ensures a == b
  {
    hide KeyOf, Before;
    if a == [] {
      assert forall i :: 0 <= i < |b| ==> b[i] in a;
    } else {
      assert a[0] in a;
      StrictHead(a);
      StrictHead(b);
      BeforeIsTotalOrder(KeyOf(a[0]), KeyOf(b[0]), KeyOf(a[0]));
      assert b[0] in b;
      assert a == [a[0]] + a[1..] && b == [b[0]] + b[1..];
      assert a[0] == b[0];
      forall r
        ensures r in a[1..] <==> r in b[1..]
      {
        assert r in a[1..] <==> r in a && r != a[0];
        assert r in b[1..] <==> r in b && r != b[0];
      }
      StrictSameMembers(a[1..], b[1..]);
    }
  }

  /** The rows after the row at `n - 1` are those from `n` on. */
  lemma StrictCut(rows: seq<ResultRow>, n: nat, r: ResultRow)
    requires StrictlySorted(Keys(rows, KeyOf)) && 0 < n <= |rows| && r in rows
    ensures r in rows[n..] <==> Before(KeyOf(rows[n - 1]), KeyOf(r))
  {
    hide KeyOf, Before;
    var i :| 0 <= i < |rows| && rows[i] == r;
    var keys := Keys(rows, KeyOf);
    BeforeIsTotalOrder(keys[n - 1], keys[i], keys[n - 1]);
    if i >= n { assert Before(keys[n - 1], keys[i]); assert rows[n..][i - n] == r; }
    if i < n - 1 { assert Before(keys[i], keys[n - 1]); }
    if r in rows[n..] {
      var j :| 0 <= j < |rows[n..]| && rows[n..][j] == r;
      assert Before(keys[n - 1], keys[n + j]);
    }
  }

  lemma StrictDrop(rows: seq<ResultRow>, n: nat)
    requires StrictlySorted(Keys(rows, KeyOf)) && n <= |rows|
    ensures StrictlySorted(Keys(rows[n..], KeyOf))
  {
    hide KeyOf, Before;
    forall i, j | 0 <= i < j < |rows[n..]|
      ensures Before(Keys(rows[n..], KeyOf)[i], Keys(rows[n..], KeyOf)[j])
    {
      assert Before(Keys(rows, KeyOf)[n + i], Keys(rows, KeyOf)[n + j]);
    }
  }

  /** On an unchanged table the next request seeks exactly the rows this page left over. */
  lemma NextSeeksTheRest(table: seq<ResultRow>, q: Request, token: Option<Token>)
    requires PrimaryKey(table) && QueryPage(table, q, token).next.Some?
    ensures PageSize(q) < |Sought(table, q, Decode(token))|
    ensures Sought(table, q, Decode(QueryPage(table, q, token).next)) == Sought(table, q, Decode(token))[PageSize(q)..]
  {
    hide Sought, Ranked, KeyOf, Before, QueryPage;
    var cursor, next := Decode(token), Decode(QueryPage(table, q, token).next);
    var rows, after, n := Sought(table, q, cursor), Sought(table, q, next), PageSize(q);
    PageFacts(table, q, token, q);
    SoughtFacts(table, q, cursor);
    SoughtFacts(table, q, next);
    StrictDrop(rows, n);
    forall r
      ensures r in after <==> r in rows[n..]
    {
      if r in rows {
        StrictCut(rows, n, r);
      } else if r in after {
        if cursor.Some? {
          assert rows[n - 1] in rows;
          BeforeIsTotalOrder(Position(cursor.value), KeyOf(rows[n - 1]), KeyOf(r));
        }
      }
    }
    StrictSameMembers(after, rows[n..]);
  }

  /** Following `nextCursor` until it is null, over one table. It always ends. */
  function Walk(table: seq<ResultRow>, q: Request, token: Option<Token>): seq<Page>
    requires PrimaryKey(table)
    decreases |Sought(table, q, Decode(token))|
  {
    var page := QueryPage(table, q, token);
    if page.next.None? then [page]
    else
      NextSeeksTheRest(table, q, token);
      [page] + Walk(table, q, page.next)
  }

  function Items(pages: seq<Page>): seq<ResultRow> {
    if pages == [] then [] else pages[0].items + Items(pages[1..])
  }

  lemma {:induction false} WalkShowsTheRest(table: seq<ResultRow>, q: Request, token: Option<Token>)
    requires PrimaryKey(table)
    ensures Items(Walk(table, q, token)) == Sought(table, q, Decode(token))
    decreases |Sought(table, q, Decode(token))|
  {
    hide Sought, QueryPage, Decode;
    var page, rows, n := QueryPage(table, q, token), Sought(table, q, Decode(token)), PageSize(q);
    PageFacts(table, q, token, q);
    if page.next.None? {
      assert Items([page]) == page.items + Items([]);
    } else {
      NextSeeksTheRest(table, q, token);
      WalkShowsTheRest(table, q, page.next);
      assert ([page] + Walk(table, q, page.next))[1..] == Walk(table, q, page.next);
      assert rows == rows[..n] + rows[n..];
    }
  }

  lemma {:induction false} FilterAll(s: seq<ResultRow>, p: ResultRow -> bool)
    requires forall r :: r in s ==> p(r)
    ensures Filter(s, p) == s
  {
    if s != [] {
      assert s[0] in s;
      FilterAll(s[1..], p);
    }
  }

  /** What a reader of the list sees of two rows, the upper one first. */
  ghost predicate ListedAbove(a: ResultRow, b: ResultRow) {
    && !MoreUrgent(b.tier, a.tier)
    && (a.tier == b.tier ==> a.severity >= b.severity)
    && (a.tier == b.tier && a.severity == b.severity ==> a.likelihood >= b.likelihood)
    && (a.tier == b.tier && a.severity == b.severity && a.likelihood == b.likelihood ==>
          a.requestedAt >= b.requestedAt)
    && (a.tier == b.tier && a.severity == b.severity && a.likelihood == b.likelihood
        && a.requestedAt == b.requestedAt ==>
          a.aice < b.aice || (a.aice == b.aice && a.eventKey < b.eventKey))
  }

  lemma BeforeIsAbove(a: ResultRow, b: ResultRow)
    requires Before(KeyOf(a), KeyOf(b))
    ensures ListedAbove(a, b)
  {
    RanksAgree(a.tier, b.tier);
    RanksAgree(b.tier, a.tier);
  }

  lemma SoughtIsOrdered(table: seq<ResultRow>, q: Request, token: Option<Token>)
    requires token == None || token == Some(Malformed)
    ensures Sought(table, q, Decode(token)) == Ordered(table, q, q.since) == Sought(table, q, None)
    ensures Since(q, None) == q.since
  {
    FilterAll(Ranked(table, q, q.since), r => Decode(token).Some? ==> Seek(r, Decode(token).value));
  }

  /** From no cursor, or a malformed one, the walk over a fixed table shows exactly the rows that are live,
      of the variant asked for, the newest of their event and within the filters, each event once, the more
      urgent tier above the less, then by severity, likelihood and recency, and by id at last. */
  lemma WalkShowsTheRankedList(table: seq<ResultRow>, q: Request, token: Option<Token>)
    requires PrimaryKey(table) && (token == None || token == Some(Malformed))
    ensures Items(Walk(table, q, token)) == Ordered(table, q, q.since)
    ensures forall r :: r in Items(Walk(table, q, token)) <==>
        && r in table && r.variant == q.variant && !r.superseded
        && (forall o ::
              o in table && o.variant == q.variant && !o.superseded && o.aice == r.aice && o.eventKey == r.eventKey ==>
                o.generation <= r.generation)
        && (q.tier.Some? ==> r.tier == q.tier.value)
        && (q.since.Some? ==> r.requestedAt >= q.since.value)
    ensures var shown := Items(Walk(table, q, token));
            forall i, j :: 0 <= i < j < |shown| ==>
              && (shown[i].aice != shown[j].aice || shown[i].eventKey != shown[j].eventKey)
              && ListedAbove(shown[i], shown[j])
  {
    hide Walk, Sought, Before, KeyOf, ListedAbove;
    WalkShowsTheRest(table, q, token);
    SoughtIsOrdered(table, q, token);
    SoughtFacts(table, q, None);
    var shown := Items(Walk(table, q, token));
    forall i, j | 0 <= i < j < |shown|
      ensures ListedAbove(shown[i], shown[j])
    {
      assert Before(Keys(shown, KeyOf)[i], Keys(shown, KeyOf)[j]);
      BeforeIsAbove(shown[i], shown[j]);
    }
    hide Items;
    assert forall r :: Due(r, None);
  }

  // ---------------------------------------------------------------------------
  // Paging while the table changes
  // ---------------------------------------------------------------------------

  /** One request: the table as it stands then, and what is asked. */
  datatype Visit = Visit(table: seq<ResultRow>, request: Request)

  /** A finished paging session: each request carries the previous answer's cursor, the last has none. */
  ghost predicate Session(visits: seq<Visit>, token: Option<Token>, pages: seq<Page>) {
    && |visits| == |pages| > 0
    && pages[0] == QueryPage(visits[0].table, visits[0].request, token)
    && (pages[0].next.None? <==> |pages| == 1)
    && (pages[0].next.Some? ==> Session(visits[1..], pages[0].next, pages[1..]))
  }

  function Showings(rows: seq<ResultRow>, r: ResultRow): nat {
    if rows == [] then 0 else (if SameEvent(rows[0], r) then 1 else 0) + Showings(rows[1..], r)
  }

  lemma {:induction false} ShowingsConcat(a: seq<ResultRow>, b: seq<ResultRow>, r: ResultRow)
    ensures Showings(a + b, r) == Showings(a, r) + Showings(b, r)
  {
    if a == [] {
      assert a + b == b;
    } else {
      ShowingsConcat(a[1..], b, r);
      assert (a + b)[1..] == a[1..] + b;
    }
  }

  lemma {:induction false} ShowingsOnce(rows: seq<ResultRow>, r: ResultRow)
    requires OnePerEvent(rows) && forall x :: x in rows && SameEvent(x, r) ==> x == r
    ensures Showings(rows, r) == if r in rows then 1 else 0
  {
    if rows != [] {
      assert rows[0] in rows;
      assert OnePerEvent(rows[1..]);
      ShowingsOnce(rows[1..], r);
      forall k | 0 <= k < |rows[1..]|
        ensures !SameEvent(rows[0], rows[1..][k])
      {
        assert rows[1..][k] == rows[k + 1];
      }
    }
  }

  /** The row is canonical with these values, and passes the filters, in every table the session saw. */
  ghost predicate Stable(r: ResultRow, visits: seq<Visit>, since: Option<int>) {
    forall i :: 0 <= i < |visits| ==>
      PrimaryKey(visits[i].table) && r in Ranked(visits[i].table, visits[i].request, since)
  }

  lemma SameEventInRanked(rows: seq<ResultRow>, x: ResultRow, r: ResultRow)
    requires OnePerEvent(rows) && x in rows && r in rows && SameEvent(x, r)
    ensures x == r
  {
    var i :| 0 <= i < |rows| && rows[i] == x;
    var j :| 0 <= j < |rows| && rows[j] == r;
    assert SameEvent(rows[i], rows[j]) && SameEvent(rows[j], rows[i]);
  }

  lemma InOneHalf(rows: seq<ResultRow>, n: nat, r: ResultRow)
    requires OnePerEvent(rows) && n <= |rows| && r in rows
    ensures r in rows[..n] <==> r !in rows[n..]
  {
    assert rows == rows[..n] + rows[n..];
    forall i, j | 0 <= i < |rows[..n]| && 0 <= j < |rows[n..]|
      ensures rows[..n][i] != rows[n..][j]
    {
      assert !SameEvent(rows[i], rows[n + j]);
    }
  }

  /** One page shows a due row unless it leaves it due for the next, and never shows one that is not. */
  lemma PageShowsOrDefers(visit: Visit, token: Option<Token>, r: ResultRow)
    requires PrimaryKey(visit.table)
    requires r in Ranked(visit.table, visit.request, Since(visit.request, Decode(token)))
    ensures
      var page := QueryPage(visit.table, visit.request, token);
      var due := Due(r, Decode(token));
      && (page.next.None? ==> Showings(page.items, r) == if due then 1 else 0)
      && (page.next.Some? ==>
            && (Due(r, Decode(page.next)) ==> due)
            && Showings(page.items, r) == if due && !Due(r, Decode(page.next)) then 1 else 0)
  {
    hide Sought, Ranked, KeyOf, Before, QueryPage;
    var q, cursor := visit.request, Decode(token);
    var rows, n, page := Sought(visit.table, q, cursor), PageSize(q), QueryPage(visit.table, q, token);
    PageFacts(visit.table, q, token, q);
    SoughtFacts(visit.table, q, cursor);
    RankedIsOnePerEvent(visit.table, q, Since(q, cursor));
    forall x | x in rows && SameEvent(x, r)
      ensures x == r
    {
      SameEventInRanked(Ranked(visit.table, q, Since(q, cursor)), x, r);
    }
    assert OnePerEvent(page.items);
    ShowingsOnce(page.items, r);
    if page.next.Some? {
      assert rows == rows[..n] + rows[n..];
      if r in rows {
        StrictCut(rows, n, r);
        InOneHalf(rows, n, r);
      } else {
        assert rows[n - 1] in rows;
        BeforeIsTotalOrder(Position(cursor.value), KeyOf(rows[n - 1]), KeyOf(r));
      }
    }
  }

  /** Whatever else is inserted, re-scored or superseded between the pages, and however late the later
      requests are made, an event whose canonical row stays put is shown exactly once by the time paging
      ends. A session resumed from a cursor shows it once exactly when it lies past that cursor. */
  lemma {:induction false} StableRowIsShownOnce(visits: seq<Visit>, token: Option<Token>, pages: seq<Page>,
          r: ResultRow)
    requires Session(visits, token, pages)
    requires Stable(r, visits, Since(visits[0].request, Decode(token)))
    ensures Showings(Items(pages), r) == if Due(r, Decode(token)) then 1 else 0
    decreases |pages|
  {
    hide Ranked, QueryPage, KeyOf, Before, Decode, Since;
    PageShowsOrDefers(visits[0], token, r);
    ShowingsConcat(pages[0].items, Items(pages[1..]), r);
    if |pages| > 1 {
      PageFacts(visits[0].table, visits[0].request, token, visits[1].request);
      StableRowIsShownOnce(visits[1..], pages[0].next, pages[1..], r);
    }
  }
}
