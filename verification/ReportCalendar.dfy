/** The report calendar and the previous/next steps, which must agree on what is navigable.

    `src/lib/analysis/report-calendar-loader.ts`. The database's `DATE` columns are day numbers; whatever
    the code compares or looks up as a string is a string here, formatted as the code or the database
    formats it. */
module ReportCalendar {
  import opened Common
  import opened Decimals
  import opened CivilDates
  import opened BucketDates
  import opened DateTexts

  datatype Status = PENDING | READY | DIRTY | ARCHIVED

  /** `periodic_report_state` of one subject and period (auth database). */
  datatype StateRow = StateRow(date: int, tz: string, status: Status)

  /** `periodic_report_result` of one subject and period (customer database). */
  datatype ResultRow = ResultRow(date: int, tz: string, generation: int, variant: string, superseded: bool)

  datatype Tables = Tables(states: seq<StateRow>, results: seq<ResultRow>, variant: string)

  predicate Eligible(t: Tables, date: int, tz: string) {
    exists i :: 0 <= i < |t.states| && t.states[i].date == date && t.states[i].tz == tz
      && (t.states[i].status.READY? || t.states[i].status.DIRTY?)
  }

  predicate Live(t: Tables, r: ResultRow) {
    r.variant == t.variant && !r.superseded
  }

  /** A report row that opens: a live result with an eligible state at the same date and timezone. */
  predicate Opens(t: Tables, r: ResultRow) {
    r in t.results && Live(t, r) && Eligible(t, r.date, r.tz)
  }

  ghost predicate Navigable(t: Tables, date: int) {
    exists r :: r in t.results && r.date == date && Opens(t, r)
  }

  /** `tz` belongs to an opening row of the highest generation any opening row of that date has. */
  ghost predicate BestTz(t: Tables, date: int, tz: string) {
    exists r :: r in t.results && r.date == date && r.tz == tz && Opens(t, r)
      && forall o :: o in t.results && o.date == date && Opens(t, o) ==> o.generation <= r.generation
  }

  /** Result `i` and state row `j` make `date` navigable. */
  predicate OpenPair(t: Tables, date: int, i: int, j: int) {
    && 0 <= i < |t.results| && 0 <= j < |t.states|
    && t.results[i].date == t.states[j].date == date && t.results[i].tz == t.states[j].tz
    && t.results[i].variant == t.variant && !t.results[i].superseded
    && (t.states[j].status == READY || t.states[j].status == DIRTY)
  }

  /** What makes a date navigable: a result of the variant that nothing superseded, with a state row of its
      date and timezone that is ready or due for another generation. Its best timezone is that of such a
      result of the highest generation. */
  lemma NavigableMeans(t: Tables, date: int)
    ensures Navigable(t, date) <==>
        exists i, j :: OpenPair(t, date, i, j)
    ensures forall tz :: BestTz(t, date, tz) <==>
        exists i, j :: OpenPair(t, date, i, j) && t.results[i].tz == tz
          && forall o, p :: OpenPair(t, date, o, p) ==> t.results[o].generation <= t.results[i].generation
  {
    forall i, j | OpenPair(t, date, i, j)
      ensures Opens(t, t.results[i])
    {
    }
    forall r | r in t.results && r.date == date && Opens(t, r)
      ensures exists i, j :: OpenPair(t, date, i, j) && t.results[i] == r
    {
      var i :| 0 <= i < |t.results| && t.results[i] == r;
      var j :| 0 <= j < |t.states| && t.states[j].date == r.date && t.states[j].tz == r.tz
        && (t.states[j].status.READY? || t.states[j].status.DIRTY?);
      assert OpenPair(t, date, i, j);
    }
    hide Opens, OpenPair;
    forall tz
      ensures BestTz(t, date, tz) <==>
        exists i, j :: OpenPair(t, date, i, j) && t.results[i].tz == tz
          && forall o, p :: OpenPair(t, date, o, p) ==> t.results[o].generation <= t.results[i].generation
    {
    }
  }

  predicate Within(date: int, lower: Option<int>, upper: Option<int>) {
    (lower.Some? ==> lower.value <= date) && (upper.Some? ==> date <= upper.value)
  }

  // ---------------------------------------------------------------------------
  // The calendar
  // ---------------------------------------------------------------------------

  datatype CellState = HAS_REPORT | NONE | OUT_OF_RETENTION | FUTURE

  datatype Cell = Cell(bucketDate: string, state: CellState, tz: Option<string>)

  /** What the calendar ought to say of a date, whatever viewport shows it. */
  ghost function CellStateOf(t: Tables, oldest: Option<int>, today: int, date: int): CellState {
    if date > today then FUTURE
    else if oldest.Some? && date < oldest.value then OUT_OF_RETENTION
    else if Navigable(t, date) then HAS_REPORT
    else NONE
  }

  ghost predicate NamesReport(t: Tables, bucket: string) {
    exists date :: Navigable(t, date) && DateText(date) == bucket
  }

  /** What it does say of a listed bucket: strings compared as strings. */
  ghost function TextState(t: Tables, oldest: Option<int>, today: int, bucket: string): CellState {
    if Less(FmtDay(today), bucket) then FUTURE
    else if oldest.Some? && Less(bucket, FmtDay(oldest.value)) then OUT_OF_RETENTION
    else if NamesReport(t, bucket) then HAS_REPORT
    else NONE
  }

  /** Both reads over the dates of a span: the `ready`/`dirty` state keys, and the live results. */
  ghost predicate ReadsSpan(t: Tables, lower: int, upper: int, keys: set<(string, string)>, rows: seq<ResultRow>) {
    && (forall date, tz :: (DateText(date), tz) in keys <==> lower <= date <= upper && Eligible(t, date, tz))
    && (forall r :: r in rows <==> r in t.results && Live(t, r) && lower <= r.date <= upper)
  }

  /** `ORDER BY bucket_date, generation DESC`. */
  ghost predicate NewestFirst(rows: seq<ResultRow>) {
    forall i, j :: 0 <= i < j < |rows| && rows[i].date == rows[j].date ==> rows[i].generation >= rows[j].generation
  }

  /** The two queries of a discovery, or the failure of either. */
  datatype Reads = Reads(keys: set<(string, string)>, rows: seq<ResultRow>) | Unreadable

  /** The clamp of the queries to the retention floor, on strings. */
  function QueryStart(buckets: seq<string>, oldest: Option<int>): string
    requires buckets != []
  {
    if oldest.Some? && Less(buckets[0], FmtDay(oldest.value)) then FmtDay(oldest.value) else buckets[0]
  }

  /** Bounds that are bucket dates span the dates between them; what the database makes of any other text,
      cast to a date, is left open. */
  ghost predicate AnswersQuery(t: Tables, buckets: seq<string>, oldest: Option<int>, answer: Reads) {
    buckets != [] && answer.Reads? ==>
      var start, end := QueryStart(buckets, oldest), buckets[|buckets| - 1];
      && NewestFirst(answer.rows)
      && (IsValidBucketDate(start) && IsValidBucketDate(end) ==>
           ReadsSpan(t, DayOf(start), DayOf(end), answer.keys, answer.rows))
  }

  /** The map names rows that were read; over a span it names exactly the navigable dates, each with its
      best timezone. */
  ghost predicate Collected(t: Tables, span: Option<(int, int)>, rows: seq<ResultRow>, resultTz: map<string, string>) {
    && (forall x :: x in resultTz ==> exists r :: r in rows && DateText(r.date) == x)
    && (span.Some? ==> forall date :: span.value.0 <= date <= span.value.1 ==>
         (DateText(date) in resultTz <==> Navigable(t, date)))
    && (span.Some? ==> forall date :: DateText(date) in resultTz ==> BestTz(t, date, resultTz[DateText(date)]))
  }

  /** A row that opens, with no opening row of its date before it, is the best of its date. */
  lemma FirstIsBest(t: Tables, lower: int, upper: int, keys: set<(string, string)>, rows: seq<ResultRow>, w: nat)
    requires ReadsSpan(t, lower, upper, keys, rows) && NewestFirst(rows)
    requires w < |rows| && (DateText(rows[w].date), rows[w].tz) in keys
    requires forall k :: 0 <= k < w && rows[k].date == rows[w].date ==> (DateText(rows[k].date), rows[k].tz) !in keys
    ensures BestTz(t, rows[w].date, rows[w].tz) && Navigable(t, rows[w].date)
  {
    hide DateText;
    var best := rows[w];
    assert best in rows && Opens(t, best);
    forall o | o in t.results && o.date == best.date && Opens(t, o)
      ensures o.generation <= best.generation
    {
      assert o in rows;
      var k :| 0 <= k < |rows| && rows[k] == o;
      assert (DateText(rows[k].date), rows[k].tz) in keys;
    }
  }

  lemma NavigableIsRead(t: Tables, lower: int, upper: int, keys: set<(string, string)>, rows: seq<ResultRow>,
          date: int) returns (k: nat)
    requires ReadsSpan(t, lower, upper, keys, rows) && lower <= date <= upper && Navigable(t, date)
    ensures k < |rows| && rows[k].date == date && (DateText(rows[k].date), rows[k].tz) in keys
  {
    hide DateText;
    var r :| r in t.results && r.date == date && Opens(t, r);
    assert r in rows;
    k :| 0 <= k < |rows| && rows[k] == r;
  }

  /** Filling `resultTz`: rows arrive newest generation first, so the first opening row of a date wins. */
  method CollectTimezones(t: Tables, ghost span: Option<(int, int)>, keys: set<(string, string)>, rows: seq<ResultRow>)
    returns (resultTz: map<string, string>)
    requires NewestFirst(rows)
    requires span.Some? ==> ReadsSpan(t, span.value.0, span.value.1, keys, rows)
    ensures Collected(t, span, rows, resultTz)
  {
    hide ReadsSpan, NewestFirst, Navigable, BestTz, DateText;
    resultTz := map[];
    ghost var winner: map<string, int> := map[];
    for i := 0 to |rows|
      invariant winner.Keys == resultTz.Keys
      invariant forall x :: x in winner ==> 0 <= winner[x] < i && DateText(rows[winner[x]].date) == x
      invariant forall x :: x in winner ==> rows[winner[x]].tz == resultTz[x] && (x, resultTz[x]) in keys
      invariant forall k :: 0 <= k < i && (DateText(rows[k].date), rows[k].tz) in keys ==>
        DateText(rows[k].date) in winner && winner[DateText(rows[k].date)] <= k
    {
      var row := rows[i];
      var x := DateText(row.date);
      if x !in resultTz && (x, row.tz) in keys {
        resultTz := resultTz[x := row.tz];
        winner := winner[x := i];
      }
    }
    if span.Some? {
      forall date | DateText(date) in resultTz
        ensures BestTz(t, date, resultTz[DateText(date)]) && Navigable(t, date)
      {
        var w := winner[DateText(date)];
        DateTextIsInjective(rows[w].date, date);
        FirstIsBest(t, span.value.0, span.value.1, keys, rows, w);
      }
      forall date | span.value.0 <= date <= span.value.1 && Navigable(t, date)
        ensures DateText(date) in resultTz
      {
        var k := NavigableIsRead(t, span.value.0, span.value.1, keys, rows, date);
      }
    }
  }

  /** A cell of a discovery that could read both tables. */
  ghost predicate ShowsBucket(t: Tables, oldest: Option<int>, today: int, day: int, cell: Cell) {
    && cell.bucketDate == FmtDay(day)
    && cell.state == TextState(t, oldest, today, cell.bucketDate)
    && (cell.tz.Some? <==> cell.state.HAS_REPORT?)
    && (cell.tz.Some? ==> BestTz(t, day, cell.tz.value))
  }

  /** A cell of one that could not: the same without its report. */
  ghost predicate ShowsNoReport(t: Tables, oldest: Option<int>, today: int, day: int, cell: Cell) {
    && cell.bucketDate == FmtDay(day) && cell.tz.None?
    && cell.state == var s := TextState(t, oldest, today, cell.bucketDate); if s.HAS_REPORT? then NONE else s
  }

  ghost predicate Discovered(t: Tables, period: PeriodKind, v: Viewport, oldest: Option<int>, today: int,
          cells: seq<Cell>)
  {
    && |cells| == |ListedDays(period, v)|
    && forall i :: 0 <= i < |cells| ==> ShowsBucket(t, oldest, today, ListedDays(period, v)[i], cells[i])
  }

  ghost predicate Degraded(t: Tables, period: PeriodKind, v: Viewport, oldest: Option<int>, today: int,
          cells: seq<Cell>)
  {
    && |cells| == |ListedDays(period, v)|
    && forall i :: 0 <= i < |cells| ==> ShowsNoReport(t, oldest, today, ListedDays(period, v)[i], cells[i])
  }

  lemma ListedAreShown(period: PeriodKind, v: Viewport, i: int)
    requires !period.LIVE? && 0 <= i < |ListedDays(period, v)|
    ensures i < |ViewDays(period, v)| && ListedDays(period, v)[i] == ViewDays(period, v)[i]
    ensures YearOf(ListedDays(period, v)[i]) == v.year && IsStart(period, ListedDays(period, v)[i])
    ensures ListedDays(period, v)[0] <= ListedDays(period, v)[i] <= ListedDays(period, v)[|ListedDays(period, v)| - 1]
  {
    hide ViewDays, YearOf, IsStart;
    var days, listed := ViewDays(period, v), ListedDays(period, v);
    assert listed[i] == days[i] && listed[0] == days[0] && listed[|listed| - 1] == days[|listed| - 1];
    ViewShowsItsStarts(period, v, days[i]);
    if 0 < i { ViewAscends(period, v, 0, i); }
    if i < |listed| - 1 { ViewAscends(period, v, i, |listed| - 1); }
  }

  /** Only a listed bucket of a four-digit year can name a report, and then only its own day's. */
  lemma NamesItsOwnReport(t: Tables, day: int)
    requires 0 <= YearOf(day) <= 9999
    ensures NamesReport(t, FmtDay(day)) <==> 1000 <= YearOf(day) && Navigable(t, day)
  {
    hide YearOf, FmtDay, DateText, Navigable;
    forall date
      ensures DateText(date) == FmtDay(day) <==> 1000 <= YearOf(day) && date == day
    {
      if 1000 <= YearOf(day) { TextNamesItsDay(date, day); } else { UnpaddedNamesNoDay(date, day); }
    }
  }

  /** The dates the two queries are bounded to, when both bounds are bucket dates. */
  ghost function SpanOf(buckets: seq<string>, oldest: Option<int>): Option<(int, int)>
    requires buckets != []
  {
    var start, end := QueryStart(buckets, oldest), buckets[|buckets| - 1];
    if IsValidBucketDate(start) && IsValidBucketDate(end) then Some((DayOf(start), DayOf(end))) else None
  }

  lemma TextIsValid(day: int)
    requires 1000 <= YearOf(day) <= 9999
    ensures IsValidBucketDate(FmtDay(day)) && DayOf(FmtDay(day)) == day
  {
    hide YearOf, FmtDay, Iso, IsValidBucketDate, DayOf;
    FmtDayIsIso(day);
    IsoIsValid(day);
  }

  /** Where the floor takes the clamp over and does not already put the bucket before it, it is a bucket
      date on or before the bucket: a floor whose year has fewer digits puts the whole year before it. */
  lemma ClampIsBelow(first: int, day: int, oldest: int)
    requires 1000 <= YearOf(first) == YearOf(day) <= 9999 && first <= day && YearOf(oldest) <= 9999
    requires Less(FmtDay(first), FmtDay(oldest)) && !Less(FmtDay(day), FmtDay(oldest))
    ensures IsValidBucketDate(FmtDay(oldest)) && DayOf(FmtDay(oldest)) == oldest && oldest <= day
  {
    hide YearOf, FmtDay, IsValidBucketDate, DayOf, Less;
    TextOrder(first, oldest);
    TextOrder(day, oldest);
    if YearOf(oldest) < 1000 {
      if first < oldest { YearsAreMonotone(first, oldest); }
    } else {
      TextIsValid(oldest);
    }
  }

  lemma SpanIsClamped(days: seq<int>, oldest: Option<int>)
    requires days != []
    requires var first, last := FmtDay(days[0]), FmtDay(days[|days| - 1]);
      IsValidBucketDate(first) && DayOf(first) == days[0] && IsValidBucketDate(last) && DayOf(last) == days[|days| - 1]
    ensures var span, clamped :=
        SpanOf(Formatted(days), oldest), oldest.Some? && Less(FmtDay(days[0]), FmtDay(oldest.value));
      && (!clamped ==> span == Some((days[0], days[|days| - 1])))
      && (clamped && IsValidBucketDate(FmtDay(oldest.value)) ==>
           span == Some((DayOf(FmtDay(oldest.value)), days[|days| - 1])))
  {
    hide FmtDay, IsValidBucketDate, DayOf, Less;
    assert Formatted(days)[0] == FmtDay(days[0]) && Formatted(days)[|days| - 1] == FmtDay(days[|days| - 1]);
  }

  lemma ListedEnds(period: PeriodKind, v: Viewport, i: int)
    requires !period.LIVE? && 0 <= i < |ListedDays(period, v)|
    ensures var days := ListedDays(period, v);
      && YearOf(days[0]) == YearOf(days[i]) == YearOf(days[|days| - 1]) == v.year
      && days[0] <= days[i] <= days[|days| - 1]
  {
    hide *;
    ListedAreShown(period, v, 0);
    ListedAreShown(period, v, i);
    ListedAreShown(period, v, |ListedDays(period, v)| - 1);
  }

  /** The queries reach every bucket of a four-digit year that the string comparison does not already put
      before the floor. */
  lemma QueriesReachTheBucket(period: PeriodKind, v: Viewport, oldest: Option<int>, i: int)
    requires !period.LIVE? && 1000 <= v.year <= 9999 && (oldest.Some? ==> YearOf(oldest.value) <= 9999)
    requires 0 <= i < |ListedDays(period, v)|
    requires oldest.Some? ==> !Less(FmtDay(ListedDays(period, v)[i]), FmtDay(oldest.value))
    ensures var span := SpanOf(Formatted(ListedDays(period, v)), oldest);
            span.Some? && span.value.0 <= ListedDays(period, v)[i] <= span.value.1
  {
    hide *;
    var days := ListedDays(period, v);
    ListedEnds(period, v, i);
    TextIsValid(days[0]);
    TextIsValid(days[|days| - 1]);
    SpanIsClamped(days, oldest);
    if oldest.Some? && Less(FmtDay(days[0]), FmtDay(oldest.value)) {
      ClampIsBelow(days[0], days[i], oldest.value);
    }
  }

  /** The cell of one bucket. */
  function CellFor(resultTz: map<string, string>, oldest: Option<int>, today: int, bucketDate: string): Cell {
    if Less(FmtDay(today), bucketDate) then Cell(bucketDate, FUTURE, None)
    else if oldest.Some? && Less(bucketDate, FmtDay(oldest.value)) then Cell(bucketDate, OUT_OF_RETENTION, None)
    else if bucketDate in resultTz then Cell(bucketDate, HAS_REPORT, Some(resultTz[bucketDate]))
    else Cell(bucketDate, NONE, None)
  }

  lemma CellShowsNoReport(t: Tables, oldest: Option<int>, today: int, day: int)
    ensures ShowsNoReport(t, oldest, today, day, CellFor(map[], oldest, today, FmtDay(day)))
  {
    hide Less, FmtDay, NamesReport;
  }

  /** Looking a bucket up in the collected map finds exactly a report the bucket names. */
  lemma LookupIsRight(t: Tables, period: PeriodKind, v: Viewport, oldest: Option<int>, answer: Reads,
          resultTz: map<string, string>, i: int)
    requires !period.LIVE? && 0 <= v.year <= 9999 && (oldest.Some? ==> YearOf(oldest.value) <= 9999)
    requires answer.Reads? && 0 <= i < |ListedDays(period, v)|
    requires oldest.Some? ==> !Less(FmtDay(ListedDays(period, v)[i]), FmtDay(oldest.value))
    requires Collected(t, SpanOf(Formatted(ListedDays(period, v)), oldest), answer.rows, resultTz)
    ensures var day := ListedDays(period, v)[i];
      && (FmtDay(day) in resultTz <==> NamesReport(t, FmtDay(day)))
      && (FmtDay(day) in resultTz ==> BestTz(t, day, resultTz[FmtDay(day)]))
  {
    hide ListedDays, BestTz, Navigable, Less, FmtDay, YearOf, SpanOf, NamesReport, DateText, IsStart;
    var day := ListedDays(period, v)[i];
    ListedAreShown(period, v, i);
    NamesItsOwnReport(t, day);
    if 1000 <= v.year {
      QueriesReachTheBucket(period, v, oldest, i);
      TextNamesItsDay(day, day);
    } else if FmtDay(day) in resultTz {
      var r :| r in answer.rows && DateText(r.date) == FmtDay(day);
      UnpaddedNamesNoDay(r.date, day);
    }
  }

  lemma CellShowsBucket(t: Tables, period: PeriodKind, v: Viewport, oldest: Option<int>, today: int, answer: Reads,
          resultTz: map<string, string>, i: int)
    requires !period.LIVE? && 0 <= v.year <= 9999 && (oldest.Some? ==> YearOf(oldest.value) <= 9999)
    requires answer.Reads? && 0 <= i < |ListedDays(period, v)|
    requires Collected(t, SpanOf(Formatted(ListedDays(period, v)), oldest), answer.rows, resultTz)
    ensures var day := ListedDays(period, v)[i];
            ShowsBucket(t, oldest, today, day, CellFor(resultTz, oldest, today, FmtDay(day)))
  {
    hide ListedDays, BestTz, Less, FmtDay, YearOf, SpanOf, NamesReport, Collected;
    var day := ListedDays(period, v)[i];
    if !(oldest.Some? && Less(FmtDay(day), FmtDay(oldest.value))) {
      LookupIsRight(t, period, v, oldest, answer, resultTz, i);
    }
  }

  lemma SpanIsRead(t: Tables, buckets: seq<string>, oldest: Option<int>, answer: Reads)
    requires buckets != [] && answer.Reads? && AnswersQuery(t, buckets, oldest, answer)
    ensures NewestFirst(answer.rows)
    ensures var span := SpanOf(buckets, oldest);
            span.Some? ==> ReadsSpan(t, span.value.0, span.value.1, answer.keys, answer.rows)
  {
    hide ReadsSpan, NewestFirst, IsValidBucketDate, DayOf, FmtDay, Less;
  }

  /** `discoverCalendarBuckets`: every cell of every viewport gets the one classification although the
      queries skip everything before the retention floor; a failed read only loses reports. */
  method DiscoverCalendarBuckets(t: Tables, period: PeriodKind, v: Viewport, oldest: Option<int>, today: int,
          answer: Reads)
    returns (cells: seq<Cell>)
    requires !period.LIVE? && 0 <= v.year <= 9999 && (v.MonthView? ==> 1 <= v.month <= 12)
    requires oldest.Some? ==> YearOf(oldest.value) <= 9999
    requires AnswersQuery(t, Formatted(ListedDays(period, v)), oldest, answer)
    ensures answer.Reads? ==> Discovered(t, period, v, oldest, today, cells)
    ensures answer.Unreadable? ==> Degraded(t, period, v, oldest, today, cells)
  {
    hide ListedDays, BestTz, Navigable, ReadsSpan, NewestFirst, Less, FmtDay, YearOf, SpanOf, NamesReport, DateText,
      CellFor;
    hide ShowsBucket, ShowsNoReport, AnswersQuery, ViewDays, Collected;
    var buckets := EnumerateViewport(period, v);
    ghost var days := ListedDays(period, v);
    var resultTz: map<string, string> := map[];
    if buckets != [] && answer.Reads? {
      SpanIsRead(t, buckets, oldest, answer);
      resultTz := CollectTimezones(t, SpanOf(buckets, oldest), answer.keys, answer.rows);
    }
    cells := [];
    for i := 0 to |buckets|
      invariant |cells| == i
      invariant answer.Reads? ==> forall k :: 0 <= k < i ==> ShowsBucket(t, oldest, today, days[k], cells[k])
      invariant answer.Unreadable? ==> forall k :: 0 <= k < i ==> ShowsNoReport(t, oldest, today, days[k], cells[k])
    {
      var cell := CellFor(resultTz, oldest, today, buckets[i]);
      if answer.Reads? {
        CellShowsBucket(t, period, v, oldest, today, answer, resultTz, i);
      } else {
        CellShowsNoReport(t, oldest, today, days[i]);
      }
      cells := cells + [cell];
    }
  }

  lemma TextAgainst(a: int, b: int)
    requires YearOf(a) <= 9999 && YearOf(b) <= 9999 && (0 <= YearOf(a) || 0 <= YearOf(b))
    ensures Scrambled(YearOf(a), YearOf(b)) <==> Scrambled(YearOf(b), YearOf(a))
    ensures Less(FmtDay(a), FmtDay(b)) <==> if Scrambled(YearOf(a), YearOf(b)) then !(a < b) else a < b
  {
    hide YearOf, FmtDay, Less;
    TextOrder(a, b);
    if a < b { YearsAreMonotone(a, b); } else { YearsAreMonotone(b, a); }
  }

  /** Exactly when a cell says of its day what it ought to: the string comparisons must not put its year
      and today's, or (up to today) its year and the floor's, the wrong way round, and a navigable day
      within the floor needs a four-digit year to be found. */
  lemma CellIsRightIff(t: Tables, oldest: Option<int>, today: int, day: int)
    requires 0 <= YearOf(day) <= 9999 && YearOf(today) <= 9999 && (oldest.Some? ==> YearOf(oldest.value) <= 9999)
    ensures TextState(t, oldest, today, FmtDay(day)) == CellStateOf(t, oldest, today, day) <==>
              && !Scrambled(YearOf(day), YearOf(today))
              && (day <= today ==>
                    && (oldest.Some? ==> !Scrambled(YearOf(day), YearOf(oldest.value)))
                    && (Within(day, oldest, None) && Navigable(t, day) ==> 1000 <= YearOf(day)))
  {
    hide YearOf, FmtDay, Less, NamesReport, Navigable, Aligned;
    NamesItsOwnReport(t, day);
    TextAgainst(today, day);
    TextAgainst(day, today);
    if oldest.Some? { TextAgainst(day, oldest.value); }
  }

  lemma AllListed(period: PeriodKind, v: Viewport)
    requires v.year >= 100
    ensures ListedDays(period, v) == ViewDays(period, v)
  {
    hide ViewDays;
  }

  lemma DiscoveredCells(t: Tables, period: PeriodKind, v: Viewport, oldest: Option<int>, today: int, cells: seq<Cell>)
    requires Discovered(t, period, v, oldest, today, cells)
    ensures |cells| == |ListedDays(period, v)|
    ensures forall i :: 0 <= i < |cells| ==> ShowsBucket(t, oldest, today, ListedDays(period, v)[i], cells[i])
  {
    hide ShowsBucket, ListedDays;
  }

  lemma ShownCellIsRight(t: Tables, oldest: Option<int>, today: int, day: int, cell: Cell)
    requires 1000 <= YearOf(day) <= 9999 && 1000 <= YearOf(today) <= 9999
    requires oldest.Some? ==> 1000 <= YearOf(oldest.value) <= 9999
    requires ShowsBucket(t, oldest, today, day, cell)
    ensures cell.bucketDate == DateText(day) && cell.state == CellStateOf(t, oldest, today, day)
  {
    hide YearOf, FmtDay, DateText, TextState, CellStateOf, Navigable, BestTz;
    TextNamesItsDay(day, day);
    CellIsRightIff(t, oldest, today, day);
  }

  /** From the year 1000 on, with a floor that is not before it, the calendar shows every bucket start of the
      viewport, and of each what it ought to. */
  lemma CalendarIsRight(t: Tables, period: PeriodKind, v: Viewport, oldest: Option<int>, today: int, cells: seq<Cell>)
    requires !period.LIVE? && 1000 <= v.year <= 9999 && 1000 <= YearOf(today) <= 9999
    requires oldest.Some? ==> 1000 <= YearOf(oldest.value) <= 9999
    requires Discovered(t, period, v, oldest, today, cells)
    ensures |cells| == |ViewDays(period, v)|
    ensures forall i :: 0 <= i < |cells| ==>
              && cells[i].bucketDate == DateText(ViewDays(period, v)[i])
              && cells[i].state == CellStateOf(t, oldest, today, ViewDays(period, v)[i])
  {
    hide *;
    AllListed(period, v);
    DiscoveredCells(t, period, v, oldest, today, cells);
    forall i | 0 <= i < |cells|
      ensures cells[i].bucketDate == DateText(ViewDays(period, v)[i])
      ensures cells[i].state == CellStateOf(t, oldest, today, ViewDays(period, v)[i])
    {
      ListedAreShown(period, v, i);
      ShownCellIsRight(t, oldest, today, ViewDays(period, v)[i], cells[i]);
    }
  }

  lemma FiveHundredIsALink(period: PeriodKind, now: int)
    requires period.WEEKLY? || period.MONTHLY?
    ensures ResolveViewport(period, Some("0500"), now) == Some(YearView(500))
  {
    var s := "0500";
    assert s[..3] == "050" && s[..3][..2] == "05" && s[..3][..2][..1] == "0" && s[..3][..2][..1][..0] == "";
    assert Number("") == 0;
    assert Number("0") == 0;
    assert Number("05") == 5;
    assert Number("050") == 50;
    assert Number("0500") == 500;
  }

  /** The year 500, which a `?year=0500` link opens, is shown as the future while today's year is anything
      from 1000 to 4999: "500-..." is after "2026-..." as a string. */
  lemma YearFiveHundredIsFuture(t: Tables, oldest: Option<int>, today: int, day: int)
    requires YearOf(day) == 500 && 1000 <= YearOf(today) <= 4999
    ensures forall period: PeriodKind :: period.WEEKLY? || period.MONTHLY? ==>
              ResolveViewport(period, Some("0500"), today) == Some(ViewOf(period, day))
    ensures TextState(t, oldest, today, FmtDay(day)) == FUTURE
    ensures CellStateOf(t, oldest, today, day) != FUTURE
  {
    hide YearOf, FmtDay, Less, NamesReport, Navigable, Number, ResolveViewport;
    forall period: PeriodKind | period.WEEKLY? || period.MONTHLY?
      ensures ResolveViewport(period, Some("0500"), today) == Some(ViewOf(period, day))
    {
      FiveHundredIsALink(period, today);
    }
    TextAgainst(today, day);
    if today <= day { YearsAreMonotone(today, day); }
  }

  // ---------------------------------------------------------------------------
  // Previous and next
  // ---------------------------------------------------------------------------

  datatype Neighbor = Neighbor(date: int, tz: string)

  predicate Nearer(older: bool, a: int, b: int) {
    if older then a > b else a < b
  }

  /** A navigable date strictly to one side of `from`, within the bounds. */
  ghost predicate Candidate(t: Tables, older: bool, from: int, lower: Option<int>, upper: Option<int>, date: int) {
    Nearer(older, from, date) && Within(date, lower, upper) && Navigable(t, date)
  }

  /** The nearest candidate with its best timezone, or nothing when there is no candidate at all. */
  ghost predicate IsNeighbor(t: Tables, older: bool, from: int, lower: Option<int>, upper: Option<int>,
          n: Option<Neighbor>)
  {
    match n
    case None => forall date :: !Candidate(t, older, from, lower, upper, date)
    case Some(b) =>
      && Candidate(t, older, from, lower, upper, b.date) && BestTz(t, b.date, b.tz)
      && forall date :: Candidate(t, older, from, lower, upper, date) ==> !Nearer(older, date, b.date)
  }

  ghost predicate IsDirectedRead(t: Tables, older: bool, from: int, lower: Option<int>, upper: Option<int>,
                                 keys: set<(string, string)>, rows: seq<ResultRow>) {
    && (forall date, tz :: (DateText(date), tz) in keys <==>
         Nearer(older, from, date) && Within(date, lower, upper) && Eligible(t, date, tz))
    && (forall r :: r in rows <==>
         r in t.results && Live(t, r) && Nearer(older, from, r.date) && Within(r.date, lower, upper))
  }

  /** Dates the database writes with a four-digit year. */
  ghost predicate FourDigitYears(t: Tables) {
    forall r :: r in t.results ==> 0 <= YearOf(r.date) <= 9999
  }

  /** `row` is not nearer than `best`, nor a newer generation of its date. */
  predicate NotBetter(older: bool, row: ResultRow, best: ResultRow) {
    !Nearer(older, row.date, best.date) && (row.date == best.date ==> row.generation <= best.generation)
  }

  lemma TextsCompare(t: Tables, a: ResultRow, b: ResultRow)
    requires FourDigitYears(t) && a in t.results && b in t.results
    ensures Less(DateText(a.date), DateText(b.date)) <==> a.date < b.date
    ensures Less(DateText(b.date), DateText(a.date)) <==> b.date < a.date
    ensures DateText(a.date) == DateText(b.date) <==> a.date == b.date
  {
    hide YearOf, Iso, Less;
    StringOrderIsDateOrder(a.date, b.date);
    StringOrderIsDateOrder(b.date, a.date);
  }

  /** A row no opening row beats is the neighbour; without opening rows there is none. */
  lemma BestIsNeighbor(t: Tables, older: bool, from: int, lower: Option<int>, upper: Option<int>,
                       keys: set<(string, string)>, rows: seq<ResultRow>, best: Option<ResultRow>)
    requires IsDirectedRead(t, older, from, lower, upper, keys, rows)
    requires best.None? ==> forall k :: 0 <= k < |rows| ==> (DateText(rows[k].date), rows[k].tz) !in keys
    requires best.Some? ==> best.value in rows && (DateText(best.value.date), best.value.tz) in keys
    requires best.Some? ==> forall k :: 0 <= k < |rows| && (DateText(rows[k].date), rows[k].tz) in keys ==>
        NotBetter(older, rows[k], best.value)
    ensures IsNeighbor(t, older, from, lower, upper,
        if best.None? then None else Some(Neighbor(best.value.date, best.value.tz)))
  {
    hide DateText;
    forall r | r in t.results && Opens(t, r) && Nearer(older, from, r.date) && Within(r.date, lower, upper)
      ensures best.Some? && NotBetter(older, r, best.value)
    {
      assert r in rows;
      var k :| 0 <= k < |rows| && rows[k] == r;
      assert (DateText(rows[k].date), rows[k].tz) in keys;
    }
    forall date | Candidate(t, older, from, lower, upper, date)
      ensures best.Some? && !Nearer(older, date, best.value.date)
    {
      var r :| r in t.results && r.date == date && Opens(t, r);
    }
    if best.Some? {
      assert Opens(t, best.value);
    }
  }

  /** `findNeighbor`: one pass keeps the nearest opening row, and within a date the highest generation. */
  method FindNeighbor(t: Tables, older: bool, from: int, lower: Option<int>, upper: Option<int>,
                      keys: set<(string, string)>, rows: seq<ResultRow>)
    returns (n: Option<Neighbor>)
    requires FourDigitYears(t) && IsDirectedRead(t, older, from, lower, upper, keys, rows)
    ensures IsNeighbor(t, older, from, lower, upper, n)
  {
    hide YearOf, Iso, Less, DateText, IsNeighbor;
    var best: Option<ResultRow> := None;
    for i := 0 to |rows|
      invariant best.None? ==> forall k :: 0 <= k < i ==> (DateText(rows[k].date), rows[k].tz) !in keys
      invariant best.Some? ==> best.value in rows && (DateText(best.value.date), best.value.tz) in keys
      invariant best.Some? ==> forall k :: 0 <= k < i && (DateText(rows[k].date), rows[k].tz) in keys ==>
        NotBetter(older, rows[k], best.value)
    {
      var row := rows[i];
      var bucketDate := DateText(row.date);
      if (bucketDate, row.tz) in keys {
        if best.None? {
          best := Some(row);
        } else {
          var bestDate := DateText(best.value.date);
          TextsCompare(t, row, best.value);
          var nearer := if older then Less(bestDate, bucketDate) else Less(bucketDate, bestDate);
          var sameDateNewerGen := bucketDate == bestDate && row.generation > best.value.generation;
          if nearer || sameDateNewerGen {
            best := Some(row);
          }
        }
      }
    }
    n := if best.None? then None else Some(Neighbor(best.value.date, best.value.tz));
    BestIsNeighbor(t, older, from, lower, upper, keys, rows, best);
  }

  datatype Neighbors = Neighbors(prev: Option<Neighbor>, next: Option<Neighbor>, olderStop: bool)

  const NO_NEIGHBORS := Neighbors(None, None, false)

  /** The rows one of the three lookups reads. */
  datatype Lookup = Lookup(keys: set<(string, string)>, rows: seq<ResultRow>)

  /** `loadReportNeighbors`; `failed` stands for any of its reads throwing. */
  method LoadReportNeighbors(t: Tables, period: PeriodKind, date: int, oldest: Option<int>, today: int,
                             failed: bool, below: Lookup, above: Lookup, beyond: Lookup)
    returns (result: Neighbors)
    requires FourDigitYears(t)
    requires !failed ==> IsDirectedRead(t, true, date, oldest, None, below.keys, below.rows)
    requires !failed ==> IsDirectedRead(t, false, date, None, Some(today), above.keys, above.rows)
    requires !failed && oldest.Some? ==> IsDirectedRead(t, true, oldest.value, None, None, beyond.keys, beyond.rows)
    ensures period.LIVE? || failed ==> result == NO_NEIGHBORS
    ensures !period.LIVE? && !failed ==>
              && IsNeighbor(t, true, date, oldest, None, result.prev)
              && IsNeighbor(t, false, date, None, Some(today), result.next)
              && (result.olderStop <==>
                   result.prev == None && oldest.Some? && exists d :: d < oldest.value && Navigable(t, d))
  {
    hide IsDirectedRead, BestTz, Navigable, FourDigitYears;
    if period.LIVE? || failed { return NO_NEIGHBORS; }
    var prev := FindNeighbor(t, true, date, oldest, None, below.keys, below.rows);
    var next := FindNeighbor(t, false, date, None, Some(today), above.keys, above.rows);
    var olderStop := false;
    if prev == None && oldest.Some? {
      var olderNavigable := FindNeighbor(t, true, oldest.value, None, None, beyond.keys, beyond.rows);
      olderStop := olderNavigable != None;
      if olderStop {
        assert Candidate(t, true, oldest.value, None, None, olderNavigable.value.date);
      } else {
        forall d | d < oldest.value
          ensures !Navigable(t, d)
        {
          assert !Candidate(t, true, oldest.value, None, None, d);
        }
      }
    }
    result := Neighbors(prev, next, olderStop);
  }

  // ---------------------------------------------------------------------------
  // The calendar and the steps agree
  // ---------------------------------------------------------------------------

  /** Report rows are dated by the first day of a bucket of the period, in years of four digits. */
  ghost predicate DatedByBuckets(t: Tables, period: PeriodKind) {
    forall r :: r in t.results ==> IsStart(period, r.date) && 1000 <= YearOf(r.date) <= 9999
  }

  /** Today and the floor lie in years of four digits. */
  predicate Present(oldest: Option<int>, today: int) {
    1000 <= YearOf(today) <= 9999 && (oldest.Some? ==> 1000 <= YearOf(oldest.value) <= 9999)
  }

  /** Some viewport a link can open lists, at `i`, a cell that is a report. */
  ghost predicate ListsReport(t: Tables, period: PeriodKind, v: Viewport, oldest: Option<int>, today: int,
          cells: seq<Cell>, i: int)
  {
    && 0 <= v.year <= 9999 && Discovered(t, period, v, oldest, today, cells)
    && 0 <= i < |cells| && cells[i].state.HAS_REPORT?
  }

  /** The one cell of that text, and a report whose link carries a best timezone. */
  ghost predicate IsTheCell(t: Tables, date: int, cells: seq<Cell>, i: int) {
    && 0 <= i < |cells| && cells[i].bucketDate == DateText(date)
    && cells[i].state.HAS_REPORT? && cells[i].tz.Some? && BestTz(t, date, cells[i].tz.value)
    && forall j :: 0 <= j < |cells| && j != i ==> cells[j].bucketDate != DateText(date)
  }

  /** The viewport opened from the step's own date lists exactly one cell for it, and it is a report. */
  ghost predicate LandsOnReport(t: Tables, period: PeriodKind, oldest: Option<int>, today: int, n: Neighbor) {
    && Shape(DateText(n.date))
    && forall cells :: Discovered(t, period, ViewportFromBucketDate(period, DateText(n.date)), oldest, today, cells) ==>
         exists i :: IsTheCell(t, n.date, cells, i)
  }

  /** The step lands on a report cell of its own viewport, and no viewport shows a nearer one; without a
      step no viewport shows one on that side at all. */
  ghost predicate NearestCell(t: Tables, period: PeriodKind, oldest: Option<int>, today: int, older: bool, from: int,
          n: Option<Neighbor>)
  {
    && (n.Some? ==> Nearer(older, from, n.value.date) && LandsOnReport(t, period, oldest, today, n.value))
    && forall v, cells, i ::
         ListsReport(t, period, v, oldest, today, cells, i) && Nearer(older, from, ListedDays(period, v)[i]) ==>
         n.Some? && !Nearer(older, ListedDays(period, v)[i], n.value.date)
  }

  lemma ReportCellIsNavigable(t: Tables, period: PeriodKind, v: Viewport, oldest: Option<int>, today: int,
          cells: seq<Cell>, i: int)
    requires !period.LIVE? && Present(oldest, today) && ListsReport(t, period, v, oldest, today, cells, i)
    ensures i < |ListedDays(period, v)|
    ensures Navigable(t, ListedDays(period, v)[i]) && Within(ListedDays(period, v)[i], oldest, Some(today))
  {
    hide YearOf, FmtDay, ListedDays, Navigable, BestTz, NamesReport, Less, IsStart;
    DiscoveredCells(t, period, v, oldest, today, cells);
    ListedAreShown(period, v, i);
    var day := ListedDays(period, v)[i];
    NamesItsOwnReport(t, day);
    CellIsRightIff(t, oldest, today, day);
  }

  lemma ViewYear(period: PeriodKind, day: int)
    ensures ViewOf(period, day).year == YearOf(day)
  {
  }

  lemma CellTz(t: Tables, oldest: Option<int>, today: int, day: int, cell: Cell)
    requires ShowsBucket(t, oldest, today, day, cell) && cell.state.HAS_REPORT?
    ensures cell.tz.Some? && BestTz(t, day, cell.tz.value)
  {
    hide BestTz, TextState, FmtDay;
  }

  lemma NavigableDayHasItsCell(t: Tables, period: PeriodKind, oldest: Option<int>, today: int, day: int, v: Viewport,
          cells: seq<Cell>)
    requires !period.LIVE? && Present(oldest, today) && Navigable(t, day) && Within(day, oldest, Some(today))
    requires IsStart(period, day) && 1000 <= YearOf(day) <= 9999 && v == ViewOf(period, day)
    requires Discovered(t, period, v, oldest, today, cells)
    ensures exists i :: IsTheCell(t, day, cells, i)
  {
    hide YearOf, DateText, Navigable, BestTz, IsStart, ViewDays, ShowsBucket, ListedDays, Discovered, TextState;
    ViewShowsItsStarts(period, v, day);
    ViewYear(period, day);
    AllListed(period, v);
    DiscoveredCells(t, period, v, oldest, today, cells);
    CalendarIsRight(t, period, v, oldest, today, cells);
    var days := ViewDays(period, v);
    var i :| 0 <= i < |days| && days[i] == day;
    assert ShowsBucket(t, oldest, today, days[i], cells[i]);
    forall j | 0 <= j < |cells| && j != i
      ensures cells[j].bucketDate != DateText(day)
    {
      if j < i { ViewAscends(period, v, j, i); } else { ViewAscends(period, v, i, j); }
      if DateText(days[j]) == DateText(day) { DateTextIsInjective(days[j], day); }
    }
    CellTz(t, oldest, today, day, cells[i]);
    assert IsTheCell(t, day, cells, i);
  }

  lemma NavigableIsDated(t: Tables, period: PeriodKind, date: int)
    requires DatedByBuckets(t, period) && Navigable(t, date)
    ensures IsStart(period, date) && 1000 <= YearOf(date) <= 9999
  {
    hide YearOf, IsStart;
  }

  lemma StepLands(t: Tables, period: PeriodKind, oldest: Option<int>, today: int, n: Neighbor)
    requires !period.LIVE? && Present(oldest, today) && DatedByBuckets(t, period)
    requires Navigable(t, n.date) && Within(n.date, oldest, Some(today))
    ensures LandsOnReport(t, period, oldest, today, n)
  {
    hide YearOf, Iso, BestTz, IsStart, Discovered, IsTheCell, Present, ViewOf, ViewportFromBucketDate, Shape;
    NavigableIsDated(t, period, n.date);
    IsoViewport(period, n.date);
    var v := ViewOf(period, n.date);
    hide Navigable;
    forall cells | Discovered(t, period, v, oldest, today, cells)
      ensures exists i :: IsTheCell(t, n.date, cells, i)
    {
      NavigableDayHasItsCell(t, period, oldest, today, n.date, v, cells);
    }
  }

  /** One direction: what the lookup finds is the nearest report cell on that side. */
  lemma StepIsNearestCell(t: Tables, period: PeriodKind, oldest: Option<int>, today: int, older: bool, from: int,
                          lower: Option<int>, upper: Option<int>, n: Option<Neighbor>)
    requires !period.LIVE? && Present(oldest, today) && DatedByBuckets(t, period)
    requires IsNeighbor(t, older, from, lower, upper, n)
    requires forall d :: Nearer(older, from, d) ==> (Within(d, lower, upper) <==> Within(d, oldest, Some(today)))
    ensures NearestCell(t, period, oldest, today, older, from, n)
  {
    hide Navigable, BestTz, Present, DatedByBuckets, LandsOnReport, ListedDays, ShowsBucket;
    if n.Some? { StepLands(t, period, oldest, today, n.value); }
    forall v, cells, i | ListsReport(t, period, v, oldest, today, cells, i)
      && Nearer(older, from, ListedDays(period, v)[i])
      ensures n.Some? && !Nearer(older, ListedDays(period, v)[i], n.value.date)
    {
      ReportCellIsNavigable(t, period, v, oldest, today, cells, i);
      assert Candidate(t, older, from, lower, upper, ListedDays(period, v)[i]);
    }
  }

  /** From an open bucket within the floor and today, previous and next are the nearest report cells, in
      whichever viewports show them. */
  lemma StepsFollowTheCalendar(t: Tables, period: PeriodKind, oldest: Option<int>, today: int, date: int,
                               prev: Option<Neighbor>, next: Option<Neighbor>)
    requires !period.LIVE? && Present(oldest, today) && DatedByBuckets(t, period)
    requires Within(date, oldest, Some(today))
    requires IsNeighbor(t, true, date, oldest, None, prev) && IsNeighbor(t, false, date, None, Some(today), next)
    ensures NearestCell(t, period, oldest, today, true, date, prev)
    ensures NearestCell(t, period, oldest, today, false, date, next)
  {
    hide Present, DatedByBuckets, IsNeighbor, NearestCell;
    StepIsNearestCell(t, period, oldest, today, true, date, oldest, None, prev);
    StepIsNearestCell(t, period, oldest, today, false, date, None, Some(today), next);
  }

  /** The older lookup has no ceiling, so a bucket opened from past today may step back onto a cell the
      calendar greys out as the future: exactly when a navigable bucket lies strictly between today and the
      open one, within the floor. Opening nothing later than tomorrow's bucket is always safe. */
  lemma PrevIsFutureIff(t: Tables, oldest: Option<int>, today: int, date: int, prev: Option<Neighbor>)
    requires IsNeighbor(t, true, date, oldest, None, prev)
    ensures (prev.Some? && !CellStateOf(t, oldest, today, prev.value.date).HAS_REPORT?)
            <==> exists d :: today < d < date && Within(d, oldest, None) && Navigable(t, d)
    ensures prev.Some? && !CellStateOf(t, oldest, today, prev.value.date).HAS_REPORT? ==>
              CellStateOf(t, oldest, today, prev.value.date).FUTURE?
    ensures date <= today + 1 && prev.Some? ==> CellStateOf(t, oldest, today, prev.value.date).HAS_REPORT?
  {
    hide Navigable, BestTz;
    forall d | today < d < date && Within(d, oldest, None) && Navigable(t, d)
      ensures prev.Some? && today < prev.value.date
    {
      assert Candidate(t, true, date, oldest, None, d);
    }
  }

  /** The detail page renders a bucket only when it finds a state row for it that is not archived. */
  predicate OpensAtItsAddress(t: Tables, date: int, tz: string) {
    exists i :: 0 <= i < |t.states| && t.states[i].date == date && t.states[i].tz == tz && !t.states[i].status.ARCHIVED?
  }

  const DRIFTED := Tables(
    [StateRow(20100, "UTC", READY), StateRow(20200, "UTC", PENDING)],
    [ResultRow(20100, "UTC", 1, "default", false)],
    "default")

  lemma DriftedReport()
    ensures BestTz(DRIFTED, 20100, "UTC")
    ensures forall date :: Navigable(DRIFTED, date) <==> date == 20100
  {
    var r := DRIFTED.results[0];
    assert r in DRIFTED.results && DRIFTED.states[0].date == 20100;
    assert Eligible(DRIFTED, 20100, "UTC");
    assert Opens(DRIFTED, r);
  }

  lemma DriftedYears()
    ensures YearOf(20000) == 2024 && YearOf(20100) == 2025
  {
    assert DayFromYear(2024) == 19723 && DayFromYear(2025) == 20089 && DayFromYear(2026) == 20454;
    YearIsUnique(20100, 2025);
    YearIsUnique(20000, 2024);
  }

  /** A case: on day 20000 a report dated day 20100 exists, and the pending bucket of day 20200 is opened by
      its address. The previous step is day 20100, which the calendar shows as the future. */
  lemma PrevCanBeFuture()
    ensures OpensAtItsAddress(DRIFTED, 20200, "UTC")
    ensures IsNeighbor(DRIFTED, true, 20200, None, None, Some(Neighbor(20100, "UTC")))
    ensures CellStateOf(DRIFTED, None, 20000, 20100) == FUTURE
    ensures TextState(DRIFTED, None, 20000, FmtDay(20100)) == FUTURE
  {
    assert DRIFTED.states[1] == StateRow(20200, "UTC", PENDING);
    DriftedReport();
    DriftedYears();
    hide YearOf, FmtDay, NamesReport, Navigable, BestTz, Eligible, Opens;
    CellIsRightIff(DRIFTED, None, 20000, 20100);
  }

  /** Stepping back and then forward returns to the report one started from, and the other way round. */
  lemma StepsUndoEachOther(t: Tables, oldest: Option<int>, today: int, date: int, prev: Neighbor, next: Neighbor,
                           back: Option<Neighbor>, forth: Option<Neighbor>)
    requires CellStateOf(t, oldest, today, date).HAS_REPORT?
    requires IsNeighbor(t, true, date, oldest, None, Some(prev))
        && IsNeighbor(t, false, prev.date, None, Some(today), forth)
    requires IsNeighbor(t, false, date, None, Some(today), Some(next))
        && IsNeighbor(t, true, next.date, oldest, None, back)
    ensures forth.Some? && forth.value.date == date
    ensures back.Some? && back.value.date == date
  {
    hide Navigable, BestTz;
    assert Candidate(t, false, prev.date, None, Some(today), date);
    assert Candidate(t, true, next.date, oldest, None, date);
    forall d | prev.date < d < date
      ensures !Candidate(t, false, prev.date, None, Some(today), d)
    {
      assert !Candidate(t, true, date, oldest, None, d);
    }
    forall d | date < d < next.date
      ensures !Candidate(t, true, next.date, oldest, None, d)
    {
      assert !Candidate(t, false, date, None, Some(today), d);
    }
  }

  /** The link of a step and the link of the cell name the same timezone when no two timezones of a date
      share a generation. */
  lemma TimezonesAgree(t: Tables, date: int, a: string, b: string)
    requires BestTz(t, date, a) && BestTz(t, date, b)
    requires forall r, o ::
      r in t.results && o in t.results && r.date == o.date == date && r.generation == o.generation && Opens(t, r)
        && Opens(t, o)
      ==> r.tz == o.tz
    ensures a == b
  {
  }
}
