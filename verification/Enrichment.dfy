/** Indicator enrichment: the fold over dispatched indicators and the class-partitioned evidence store.

    `src/lib/analysis/event-enrichment-worker.ts` and `src/lib/analysis/enrichment-worker.ts`. The
    dispatcher and the negative layer are inputs: an indicator arrives with the matches, facts and
    coverage left after suppression. */
module Enrichment {
  import opened Common

  datatype Coverage = Complete | Partial | Stale | Unknown

  datatype HitType = DeterministicIoc | SoftReputation

  datatype Match = Match(source: string, hit: HitType, floorEligible: bool, confidence: Option<real>)

  datatype Indicator = Indicator(token: string, matches: seq<Match>, facts: seq<string>, coverage: Coverage)

  datatype Evidence = Evidence(token: string, source: string, hit: HitType, floorEligible: bool, coverage: Coverage,
          checkedAt: int)

  datatype Verdict = Verdict(knownIocHit: bool, coverage: Coverage, evidence: seq<Evidence>, facts: seq<string>)

  // ---------------------------------------------------------------------------
  // Coverage
  // ---------------------------------------------------------------------------

  function CoverageRank(c: Coverage): nat {
    match c case Complete => 0 case Partial => 1 case Stale => 2 case Unknown => 3
  }

  function WorseCoverage(a: Coverage, b: Coverage): Coverage {
    if CoverageRank(a) >= CoverageRank(b) then a else b
  }

  function WorstCoverage(indicators: seq<Indicator>): Coverage {
    if indicators == [] then Complete
    else WorseCoverage(WorstCoverage(indicators[..|indicators| - 1]), indicators[|indicators| - 1].coverage)
  }

  /** The aggregate is the most severe status present, so it is `complete` exactly when nothing was
      missed, and no order of members or indicators changes it. */
  lemma {:induction false} WorstCoverageIsMaximum(indicators: seq<Indicator>)
    ensures forall i :: 0 <= i < |indicators| ==>
        CoverageRank(indicators[i].coverage) <= CoverageRank(WorstCoverage(indicators))
    ensures WorstCoverage(indicators) == Complete
        || exists i :: 0 <= i < |indicators| && indicators[i].coverage == WorstCoverage(indicators)
    ensures WorstCoverage(indicators) == Complete <==>
        forall i :: 0 <= i < |indicators| ==> indicators[i].coverage == Complete
  {
    if indicators != [] {
      var front, last := indicators[..|indicators| - 1], indicators[|indicators| - 1];
      WorstCoverageIsMaximum(front);
      if WorstCoverage(indicators) == last.coverage {
        assert indicators[|indicators| - 1].coverage == WorstCoverage(indicators);
      } else if WorstCoverage(front) != Complete {
        var i :| 0 <= i < |front| && front[i].coverage == WorstCoverage(front);
        assert indicators[i].coverage == WorstCoverage(indicators);
      }
      assert forall i :: 0 <= i < |front| ==> front[i] == indicators[i];
    }
  }

  ghost predicate SomeHas(indicators: seq<Indicator>, c: Coverage) {
    exists i :: 0 <= i < |indicators| && indicators[i].coverage == c
  }

  /** Unknown outweighs stale, stale outweighs partial, and partial outweighs complete. */
  lemma WorstCoverageBySeverity(indicators: seq<Indicator>)
    ensures WorstCoverage(indicators) ==
        if SomeHas(indicators, Unknown) then Unknown
        else if SomeHas(indicators, Stale) then Stale
        else if SomeHas(indicators, Partial) then Partial
        else Complete
  {
    WorstCoverageIsMaximum(indicators);
    hide WorstCoverage;
  }

  // ---------------------------------------------------------------------------
  // Evidence promotion
  // ---------------------------------------------------------------------------

  predicate SatisfiesFloor(m: Match) {
    m.hit == DeterministicIoc && m.floorEligible
  }

  predicate FloorSupporting(e: Evidence) {
    e.hit == DeterministicIoc && e.floorEligible
  }

  const SOFT_CONFIDENCE_THRESHOLD := 0.7
  const SOFT_MIN_SOURCES := 2

  predicate SurfacesSoft(m: Match, siblings: seq<Match>) {
    || (m.confidence.Some? && m.confidence.value >= SOFT_CONFIDENCE_THRESHOLD)
    || |set s | s in siblings :: s.source| >= SOFT_MIN_SOURCES
  }

  /** Deterministic matches always become evidence, soft ones only above the meaningfulness gate. */
  predicate Promoted(m: Match, siblings: seq<Match>) {
    SatisfiesFloor(m) || m.hit == DeterministicIoc || SurfacesSoft(m, siblings)
  }

  function EvidenceOf(i: Indicator, m: Match, checkedAt: int): Evidence {
    Evidence(i.token, m.source, m.hit, m.floorEligible, i.coverage, checkedAt)
  }

  /** The evidence of the first `n` matches of an indicator, in match order. */
  function IndicatorRows(i: Indicator, n: nat, checkedAt: int): seq<Evidence>
    requires n <= |i.matches|
  {
    if n == 0 then []
    else
      var before := IndicatorRows(i, n - 1, checkedAt);
      if Promoted(i.matches[n - 1], i.matches) then before + [EvidenceOf(i, i.matches[n - 1], checkedAt)] else before
  }

  function Rows(indicators: seq<Indicator>, checkedAt: int): seq<Evidence> {
    if indicators == [] then []
    else
      var last := indicators[|indicators| - 1];
      Rows(indicators[..|indicators| - 1], checkedAt) + IndicatorRows(last, |last.matches|, checkedAt)
  }

  /** The rule the evidence follows, in the matches' own terms: a deterministic match always surfaces, a soft
      one when its confidence is at least 0.7 or two different sources matched the indicator. */
  ghost predicate Surfaces(i: Indicator, j: int) {
    && 0 <= j < |i.matches|
    && (|| i.matches[j].hit == DeterministicIoc
        || (i.matches[j].confidence.Some? && i.matches[j].confidence.value >= 0.7)
        || exists a, b :: 0 <= a < |i.matches| && 0 <= b < |i.matches| && i.matches[a].source != i.matches[b].source)
  }

  lemma AtLeastTwo<T>(s: set<T>, x: T, y: T)
    requires x in s && y in s && x != y
    ensures |s| >= 2
  {
    assert s == {x} + (s - {x}) && y in s - {x};
    assert |s| == 1 + |s - {x}|;
  }

  lemma TwoSources(matches: seq<Match>)
    ensures |set m | m in matches :: m.source| >= 2 <==>
      exists a, b :: 0 <= a < |matches| && 0 <= b < |matches| && matches[a].source != matches[b].source
  {
    var sources := set m | m in matches :: m.source;
    if a, b :| 0 <= a < |matches| && 0 <= b < |matches| && matches[a].source != matches[b].source {
      assert matches[a] in matches && matches[b] in matches;
      AtLeastTwo(sources, matches[a].source, matches[b].source);
    } else if sources != {} {
      var x :| x in sources;
      var m :| m in matches && m.source == x;
      var i :| 0 <= i < |matches| && matches[i] == m;
      forall y | y in sources
        ensures y == x
      {
        var o :| o in matches && o.source == y;
        var j :| 0 <= j < |matches| && matches[j] == o;
      }
      assert sources == {x};
    }
  }

  lemma PromotedIffSurfaces(i: Indicator, j: nat)
    requires j < |i.matches|
    ensures Promoted(i.matches[j], i.matches) <==> Surfaces(i, j)
  {
    TwoSources(i.matches);
  }

  predicate IsRowOf(e: Evidence, i: Indicator, j: int, checkedAt: int)
    requires 0 <= j < |i.matches|
  {
    var m := i.matches[j];
    e == Evidence(i.token, m.source, m.hit, m.floorEligible, i.coverage, checkedAt)
  }

  /** The matches of one indicator, among the first `n`, whose evidence `e` is. */
  ghost function RowMatches(i: Indicator, n: nat, e: Evidence, checkedAt: int): set<int>
    requires n <= |i.matches|
  {
    set j | 0 <= j < n && Surfaces(i, j) && IsRowOf(e, i, j, checkedAt)
  }

  lemma RowMatchesOneMore(i: Indicator, n: nat, e: Evidence, checkedAt: int)
    requires n < |i.matches|
    ensures |RowMatches(i, n + 1, e, checkedAt)|
         == |RowMatches(i, n, e, checkedAt)| + if Surfaces(i, n) && IsRowOf(e, i, n, checkedAt) then 1 else 0
  {
    hide Surfaces, IsRowOf;
    var before, after := RowMatches(i, n, e, checkedAt), RowMatches(i, n + 1, e, checkedAt);
    if Surfaces(i, n) && IsRowOf(e, i, n, checkedAt) {
      assert after == before + {n};
    } else {
      assert after == before;
    }
  }

  lemma {:induction false} IndicatorRowCount(i: Indicator, n: nat, e: Evidence, checkedAt: int)
    requires n <= |i.matches|
    ensures multiset(IndicatorRows(i, n, checkedAt))[e] == |RowMatches(i, n, e, checkedAt)|
  {
    hide Surfaces, Promoted;
    if n > 0 {
      IndicatorRowCount(i, n - 1, e, checkedAt);
      PromotedIffSurfaces(i, n - 1);
      RowMatchesOneMore(i, n - 1, e, checkedAt);
      hide RowMatches;
    } else {
      assert RowMatches(i, 0, e, checkedAt) == {};
    }
  }

  /** Where `e` comes from: an indicator and a match of it. */
  ghost function RowOrigins(indicators: seq<Indicator>, e: Evidence, checkedAt: int): set<(int, int)> {
    set i, j | 0 <= i < |indicators| && 0 <= j < |indicators[i].matches| && Surfaces(indicators[i], j)
                 && IsRowOf(e, indicators[i], j, checkedAt) :: (i, j)
  }

  lemma OriginsOneMore(indicators: seq<Indicator>, e: Evidence, checkedAt: int)
    requires indicators != []
    ensures var n := |indicators| - 1;
            |RowOrigins(indicators, e, checkedAt)|
            == |RowOrigins(indicators[..n], e, checkedAt)|
               + |RowMatches(indicators[n], |indicators[n].matches|, e, checkedAt)|
  {
    hide Surfaces, IsRowOf;
    var n := |indicators| - 1;
    var before, js := RowOrigins(indicators[..n], e, checkedAt),
      RowMatches(indicators[n], |indicators[n].matches|, e, checkedAt);
    var pairs := set j | j in js :: (n, j);
    PairSizes(pairs, n, js);
    DisjointSizes(RowOrigins(indicators, e, checkedAt), before, pairs);
  }

  lemma CountIsMembership(indicators: seq<Indicator>, checkedAt: int, e: Evidence)
    requires multiset(Rows(indicators, checkedAt))[e] == |RowOrigins(indicators, e, checkedAt)|
    ensures e in Rows(indicators, checkedAt) <==>
      exists i, j :: 0 <= i < |indicators| && Surfaces(indicators[i], j) && IsRowOf(e, indicators[i], j, checkedAt)
  {
    hide IsRowOf, Rows;
    var origins := RowOrigins(indicators, e, checkedAt);
    assert e in Rows(indicators, checkedAt) <==> e in multiset(Rows(indicators, checkedAt));
    if i, j :| 0 <= i < |indicators| && Surfaces(indicators[i], j) && IsRowOf(e, indicators[i], j, checkedAt) {
      assert (i, j) in origins;
    } else {
      assert origins == {};
    }
  }

  /** What becomes evidence, and how often: a row is stored once for each match it describes that surfaces,
      and for nothing else. */
  lemma {:induction false} EvidenceIsWhatSurfaces(indicators: seq<Indicator>, checkedAt: int, e: Evidence)
    ensures multiset(Rows(indicators, checkedAt))[e] == |RowOrigins(indicators, e, checkedAt)|
    ensures e in Rows(indicators, checkedAt) <==>
      exists i, j :: 0 <= i < |indicators| && Surfaces(indicators[i], j) && IsRowOf(e, indicators[i], j, checkedAt)
  {
    hide Surfaces, IsRowOf, IndicatorRows;
    if indicators == [] {
      assert RowOrigins(indicators, e, checkedAt) == {};
    } else {
      var n := |indicators| - 1;
      EvidenceIsWhatSurfaces(indicators[..n], checkedAt, e);
      IndicatorRowCount(indicators[n], |indicators[n].matches|, e, checkedAt);
      OriginsOneMore(indicators, e, checkedAt);
    }
    CountIsMembership(indicators, checkedAt, e);
  }

  ghost predicate HasFloorMatch(indicators: seq<Indicator>) {
    exists i, j :: 0 <= i < |indicators| && 0 <= j < |indicators[i].matches| && SatisfiesFloor(indicators[i].matches[j])
  }

  predicate HasFloorRow(rows: seq<Evidence>) {
    exists e :: e in rows && FloorSupporting(e)
  }

  lemma {:induction false} IndicatorFloorRows(i: Indicator, n: nat, checkedAt: int)
    requires n <= |i.matches|
    ensures HasFloorRow(IndicatorRows(i, n, checkedAt)) <==> exists j :: 0 <= j < n && SatisfiesFloor(i.matches[j])
  {
    if n > 0 {
      IndicatorFloorRows(i, n - 1, checkedAt);
      var m, before := i.matches[n - 1], IndicatorRows(i, n - 1, checkedAt);
      if SatisfiesFloor(m) {
        assert EvidenceOf(i, m, checkedAt) in IndicatorRows(i, n, checkedAt);
      }
      assert forall e :: e in before ==> e in IndicatorRows(i, n, checkedAt);
    }
  }

  lemma FloorMatchIs(indicators: seq<Indicator>)
    ensures HasFloorMatch(indicators) <==>
        exists i, j :: 0 <= i < |indicators| && 0 <= j < |indicators[i].matches|
          && indicators[i].matches[j].hit == DeterministicIoc && indicators[i].matches[j].floorEligible
  {
    if i, j :|
      0 <= i < |indicators| && 0 <= j < |indicators[i].matches|
      && indicators[i].matches[j].hit == DeterministicIoc && indicators[i].matches[j].floorEligible {
      assert SatisfiesFloor(indicators[i].matches[j]);
    }
  }

  /** The verdict and the evidence cannot disagree: a floor row is produced exactly when some match
      satisfies the floor, whatever the soft gate decides. */
  lemma {:induction false} FloorRowIffFloorMatch(indicators: seq<Indicator>, checkedAt: int)
    ensures HasFloorRow(Rows(indicators, checkedAt)) <==> HasFloorMatch(indicators)
    ensures HasFloorMatch(indicators) <==>
        exists i, j :: 0 <= i < |indicators| && 0 <= j < |indicators[i].matches|
          && indicators[i].matches[j].hit == DeterministicIoc && indicators[i].matches[j].floorEligible
  {
    FloorMatchIs(indicators);
    if indicators != [] {
      var front, last := indicators[..|indicators| - 1], indicators[|indicators| - 1];
      FloorRowIffFloorMatch(front, checkedAt);
      IndicatorFloorRows(last, |last.matches|, checkedAt);
      var rows := Rows(indicators, checkedAt);
      assert rows == Rows(front, checkedAt) + IndicatorRows(last, |last.matches|, checkedAt);
      assert HasFloorRow(rows) <==>
        HasFloorRow(Rows(front, checkedAt)) || HasFloorRow(IndicatorRows(last, |last.matches|, checkedAt));
      if HasFloorMatch(front) {
        var i, j :| 0 <= i < |front| && 0 <= j < |front[i].matches| && SatisfiesFloor(front[i].matches[j]);
        assert SatisfiesFloor(indicators[i].matches[j]);
      }
      if HasFloorMatch(indicators) && !HasFloorMatch(front) {
        var i, j :| 0 <= i < |indicators| && 0 <= j < |indicators[i].matches|
          && SatisfiesFloor(indicators[i].matches[j]);
        assert i == |indicators| - 1 || front[i] == indicators[i];
      }
    }
  }

  /** Facts are kept once per text, in order of first appearance. */
  function AddFacts(kept: seq<string>, more: seq<string>): seq<string> {
    if more == [] then kept
    else
      var before := AddFacts(kept, more[..|more| - 1]);
      var last := more[|more| - 1];
      if last in before then before else before + [last]
  }

  function Facts(indicators: seq<Indicator>): seq<string> {
    if indicators == [] then []
    else AddFacts(Facts(indicators[..|indicators| - 1]), indicators[|indicators| - 1].facts)
  }

  ghost predicate NoDuplicates(s: seq<string>) {
    forall i, j :: 0 <= i < j < |s| ==> s[i] != s[j]
  }

  lemma {:induction false} AddFactsIsUnion(kept: seq<string>, more: seq<string>)
    requires NoDuplicates(kept)
    ensures NoDuplicates(AddFacts(kept, more))
    ensures forall f :: f in AddFacts(kept, more) <==> f in kept || f in more
  {
    if more != [] {
      AddFactsIsUnion(kept, more[..|more| - 1]);
      assert more == more[..|more| - 1] + [more[|more| - 1]];
    }
  }

  lemma {:induction false} FactsOnceEach(indicators: seq<Indicator>)
    ensures NoDuplicates(Facts(indicators))
    ensures forall f :: f in Facts(indicators) <==> exists i :: 0 <= i < |indicators| && f in indicators[i].facts
  {
    if indicators != [] {
      var front, last := indicators[..|indicators| - 1], indicators[|indicators| - 1];
      FactsOnceEach(front);
      AddFactsIsUnion(Facts(front), last.facts);
      forall f | f in Facts(indicators)
        ensures exists i :: 0 <= i < |indicators| && f in indicators[i].facts
      {
        if f in Facts(front) {
          var i :| 0 <= i < |front| && f in front[i].facts;
          assert f in indicators[i].facts;
        } else {
          assert f in indicators[|indicators| - 1].facts;
        }
      }
      forall f, i | 0 <= i < |indicators| && f in indicators[i].facts
        ensures f in Facts(indicators)
      {
        assert i < |front| ==> front[i] == indicators[i];
      }
    }
  }

  /** All fact texts in the order they are met, repeats included. */
  function AllFacts(indicators: seq<Indicator>): seq<string> {
    if indicators == [] then []
    else AllFacts(indicators[..|indicators| - 1]) + indicators[|indicators| - 1].facts
  }

  ghost predicate FirstAt(all: seq<string>, i: int, f: string) {
    0 <= i < |all| && all[i] == f && forall j :: 0 <= j < i ==> all[j] != f
  }

  /** `kept` has the texts of `all`, each where it is first met. */
  ghost predicate InFirstOrder(kept: seq<string>, all: seq<string>) {
    && (forall i :: 0 <= i < |all| ==> all[i] in kept)
    && (forall a :: 0 <= a < |kept| ==> kept[a] in all)
    && (forall a, b, i, j :: 0 <= a < b < |kept| && FirstAt(all, i, kept[a]) && FirstAt(all, j, kept[b]) ==> i < j)
  }

  lemma FirstOrderOneMore(kept: seq<string>, all: seq<string>, f: string)
    requires InFirstOrder(kept, all)
    ensures InFirstOrder(if f in kept then kept else kept + [f], all + [f])
  {
    var more, longer := if f in kept then kept else kept + [f], all + [f];
    forall i, x
      ensures FirstAt(longer, i, x) <==> FirstAt(all, i, x) || (i == |all| && x == f && f !in all)
    {
      assert forall j :: 0 <= j < |all| ==> longer[j] == all[j];
      if FirstAt(longer, i, x) && i == |all| {
        assert forall j :: 0 <= j < |all| ==> all[j] != f;
      }
    }
  }

  lemma {:induction false} AddFactsKeepsOrder(kept: seq<string>, all: seq<string>, more: seq<string>)
    requires InFirstOrder(kept, all)
    ensures InFirstOrder(AddFacts(kept, more), all + more)
  {
    hide InFirstOrder;
    if more == [] {
      assert all + more == all;
    } else {
      var front := more[..|more| - 1];
      AddFactsKeepsOrder(kept, all, front);
      FirstOrderOneMore(AddFacts(kept, front), all + front, more[|more| - 1]);
      assert all + more == (all + front) + [more[|more| - 1]];
    }
  }

  lemma NothingInOrder()
    ensures InFirstOrder([], [])
  {
  }

  /** The facts stand in the order they are first met. */
  lemma {:induction false} FactsKeepTheirOrder(indicators: seq<Indicator>)
    ensures InFirstOrder(Facts(indicators), AllFacts(indicators))
  {
    hide InFirstOrder;
    if indicators == [] {
      NothingInOrder();
    } else {
      var front := indicators[..|indicators| - 1];
      FactsKeepTheirOrder(front);
      AddFactsKeepsOrder(Facts(front), AllFacts(front), indicators[|indicators| - 1].facts);
    }
  }

  ghost function VerdictOf(indicators: seq<Indicator>, checkedAt: int): Verdict {
    Verdict(HasFloorMatch(indicators), WorstCoverage(indicators), Rows(indicators, checkedAt), Facts(indicators))
  }

  lemma EvidenceOfVerdict(indicators: seq<Indicator>, checkedAt: int, e: Evidence)
    ensures e in VerdictOf(indicators, checkedAt).evidence <==>
        exists i, j :: 0 <= i < |indicators| && Surfaces(indicators[i], j) && IsRowOf(e, indicators[i], j, checkedAt)
  {
    EvidenceIsWhatSurfaces(indicators, checkedAt, e);
  }

  lemma FloorOneMore(indicators: seq<Indicator>, k: nat)
    requires k < |indicators|
    ensures HasFloorMatch(indicators[..k + 1]) <==>
        || HasFloorMatch(indicators[..k])
        || exists j :: 0 <= j < |indicators[k].matches| && SatisfiesFloor(indicators[k].matches[j])
  {
    var a, b := indicators[..k], indicators[..k + 1];
    if HasFloorMatch(a) {
      var i, j :| 0 <= i < |a| && 0 <= j < |a[i].matches| && SatisfiesFloor(a[i].matches[j]);
      assert SatisfiesFloor(b[i].matches[j]);
    }
    if j :| 0 <= j < |indicators[k].matches| && SatisfiesFloor(indicators[k].matches[j]) {
      assert SatisfiesFloor(b[k].matches[j]);
    }
    if HasFloorMatch(b) {
      var i, j :| 0 <= i < |b| && 0 <= j < |b[i].matches| && SatisfiesFloor(b[i].matches[j]);
      assert i < k ==> SatisfiesFloor(a[i].matches[j]);
    }
  }

  method CollectEvidence(indicator: Indicator, checkedAt: int) returns (hit: bool, rows: seq<Evidence>)
    ensures hit <==> exists j :: 0 <= j < |indicator.matches| && SatisfiesFloor(indicator.matches[j])
    ensures rows == IndicatorRows(indicator, |indicator.matches|, checkedAt)
  {
    hit, rows := false, [];
    for n := 0 to |indicator.matches|
      invariant rows == IndicatorRows(indicator, n, checkedAt)
      invariant hit <==> exists j :: 0 <= j < n && SatisfiesFloor(indicator.matches[j])
    {
      var m := indicator.matches[n];
      if SatisfiesFloor(m) {
        hit := true;
      } else if m.hit == SoftReputation {
        if !SurfacesSoft(m, indicator.matches) { continue; }
      }
      rows := rows + [EvidenceOf(indicator, m, checkedAt)];
    }
  }

  /** `enrichLooseEvent`: the event path has no fact channel, so its verdict carries no facts. */
  method EnrichLooseEvent(indicators: seq<Indicator>, checkedAt: int) returns (v: Verdict)
    ensures v == VerdictOf(indicators, checkedAt).(facts := [])
    ensures forall e :: e in v.evidence <==>
        exists i, j :: 0 <= i < |indicators| && Surfaces(indicators[i], j) && IsRowOf(e, indicators[i], j, checkedAt)
  {
    var knownIocHit, coverage, evidence := false, Complete, [];
    for k := 0 to |indicators|
      invariant knownIocHit == HasFloorMatch(indicators[..k])
      invariant coverage == WorstCoverage(indicators[..k])
      invariant evidence == Rows(indicators[..k], checkedAt)
    {
      var indicator := indicators[k];
      var before := indicators[..k + 1];
      assert before[..k] == indicators[..k] && before[k] == indicator;
      coverage := WorseCoverage(coverage, indicator.coverage);
      var hit, rows := CollectEvidence(indicator, checkedAt);
      knownIocHit, evidence := knownIocHit || hit, evidence + rows;
      FloorOneMore(indicators, k);
    }
    assert indicators[..|indicators|] == indicators;
    v := Verdict(knownIocHit, coverage, evidence, []);
    forall e { EvidenceOfVerdict(indicators, checkedAt, e); }
  }

  lemma VerdictOneMore(done: seq<Indicator>, indicator: Indicator, hit: bool, checkedAt: int)
    requires hit <==> exists j :: 0 <= j < |indicator.matches| && SatisfiesFloor(indicator.matches[j])
    ensures var v := VerdictOf(done, checkedAt);
            VerdictOf(done + [indicator], checkedAt)
            == Verdict(v.knownIocHit || hit, WorseCoverage(v.coverage, indicator.coverage),
                       v.evidence + IndicatorRows(indicator, |indicator.matches|, checkedAt),
                       AddFacts(v.facts, indicator.facts))
  {
    hide WorseCoverage, IndicatorRows, AddFacts, HasFloorMatch;
    var more := done + [indicator];
    assert more[..|done|] == done && more[..|done| + 1] == more;
    FloorOneMore(more, |done|);
  }

  function Flatten(members: seq<seq<Indicator>>): seq<Indicator> {
    if members == [] then [] else Flatten(members[..|members| - 1]) + members[|members| - 1]
  }

  method CollectFacts(kept: seq<string>, more: seq<string>) returns (facts: seq<string>)
    ensures facts == AddFacts(kept, more)
  {
    facts := kept;
    for i := 0 to |more|
      invariant facts == AddFacts(kept, more[..i])
    {
      assert more[..i + 1][..i] == more[..i];
      if more[i] in facts { continue; }
      facts := facts + [more[i]];
    }
    assert more[..|more|] == more;
  }

  /** `enrichCanonicalVersion`: the same fold across the members of a story, with the fact channel. */
  method EnrichStory(members: seq<seq<Indicator>>, checkedAt: int) returns (v: Verdict)
    ensures v == VerdictOf(Flatten(members), checkedAt)
    ensures forall e :: e in v.evidence <==>
        exists i, j :: 0 <= i < |Flatten(members)| && Surfaces(Flatten(members)[i], j)
          && IsRowOf(e, Flatten(members)[i], j, checkedAt)
  {
    var knownIocHit, coverage, evidence, facts := false, Complete, [], [];
    ghost var done: seq<Indicator> := [];
    assert Verdict(knownIocHit, coverage, evidence, facts) == VerdictOf(done, checkedAt);
    hide VerdictOf, WorseCoverage, IndicatorRows, AddFacts;
    for a := 0 to |members|
      invariant done == Flatten(members[..a])
      invariant Verdict(knownIocHit, coverage, evidence, facts) == VerdictOf(done, checkedAt)
    {
      assert members[..a + 1][..a] == members[..a];
      ghost var start := done;
      for k := 0 to |members[a]|
        invariant done == start + members[a][..k]
        invariant Verdict(knownIocHit, coverage, evidence, facts) == VerdictOf(done, checkedAt)
      {
        var indicator := members[a][k];
        coverage := WorseCoverage(coverage, indicator.coverage);
        facts := CollectFacts(facts, indicator.facts);
        var hit, rows := CollectEvidence(indicator, checkedAt);
        knownIocHit, evidence := knownIocHit || hit, evidence + rows;
        VerdictOneMore(done, indicator, hit, checkedAt);
        done := done + [indicator];
        assert members[a][..k + 1] == members[a][..k] + [indicator];
      }
      assert members[a][..|members[a]|] == members[a];
    }
    assert members[..|members|] == members;
    v := Verdict(knownIocHit, coverage, evidence, facts);
    forall e { EvidenceOfVerdict(Flatten(members), checkedAt, e); }
  }

  // ---------------------------------------------------------------------------
  // What is stored per event, and per story version
  // ---------------------------------------------------------------------------

  datatype Status = StatusComplete | StatusFailed

  datatype StateRow = StateRow(status: Status, coverage: Coverage, knownIocHit: bool, completedAt: Option<int>,
          lastError: Option<string>)

  /** `storyHit` is `story.known_ioc_hit`; the event path has neither that column nor facts. */
  datatype Stored = Stored(evidence: seq<Evidence>, row: Option<StateRow>, storyHit: bool, facts: seq<string>)

  datatype Attempt = Succeeded(verdict: Verdict, at: int) | Broke(error: string)

  function FloorRows(rows: seq<Evidence>): seq<Evidence> {
    if rows == [] then []
    else
      var before, last := FloorRows(rows[..|rows| - 1]), rows[|rows| - 1];
      if FloorSupporting(last) then before + [last] else before
  }

  function OtherRows(rows: seq<Evidence>): seq<Evidence> {
    if rows == [] then []
    else
      var before, last := OtherRows(rows[..|rows| - 1]), rows[|rows| - 1];
      if FloorSupporting(last) then before else before + [last]
  }

  /** One committed persist: floor rows are replaced only by a run that produced some, other rows always. */
  function Persisted(s: Stored, v: Verdict, at: int): Stored {
    var kept := if HasFloorRow(v.evidence) then [] else FloorRows(s.evidence);
    var hit := v.knownIocHit || (s.row.Some? && s.row.value.knownIocHit);
    Stored(kept + v.evidence, Some(StateRow(StatusComplete, v.coverage, hit, Some(at), None)),
      s.storyHit || v.knownIocHit, v.facts)
  }

  /** One committed failure marker: a completed row keeps its status and coverage. */
  function Marked(s: Stored, error: string): Stored {
    s.(row := Some(
      if s.row.None? then StateRow(StatusFailed, Unknown, false, None, Some(error))
      else if s.row.value.status == StatusComplete then s.row.value.(lastError := Some(error))
      else s.row.value.(status := StatusFailed, coverage := Unknown, lastError := Some(error))))
  }

  function After(s: Stored, attempt: Attempt): Stored {
    match attempt
    case Succeeded(v, at) => Persisted(s, v, at)
    case Broke(error) => Marked(s, error)
  }

  function Replay(s: Stored, history: seq<Attempt>): Stored {
    if history == [] then s else After(Replay(s, history[..|history| - 1]), history[|history| - 1])
  }

  /** Verdicts come out of the fold, so their flag and their evidence agree. */
  ghost predicate FromFold(history: seq<Attempt>) {
    forall i :: 0 <= i < |history| && history[i].Succeeded? ==>
      (history[i].verdict.knownIocHit <==> HasFloorRow(history[i].verdict.evidence))
  }

  lemma FoldVerdictsAgree(indicators: seq<Indicator>, checkedAt: int)
    ensures var v := VerdictOf(indicators, checkedAt); v.knownIocHit <==> HasFloorRow(v.evidence)
  {
    FloorRowIffFloorMatch(indicators, checkedAt);
  }

  function LastSuccess(history: seq<Attempt>): Option<Verdict> {
    if history == [] then None
    else
      var last := history[|history| - 1];
      if last.Succeeded? then Some(last.verdict) else LastSuccess(history[..|history| - 1])
  }

  function LastSuccessAt(history: seq<Attempt>): Option<int> {
    if history == [] then None
    else
      var last := history[|history| - 1];
      if last.Succeeded? then Some(last.at) else LastSuccessAt(history[..|history| - 1])
  }

  /** A run that got through clears the error text; one that broke writes its own. */
  function LastErrorOf(history: seq<Attempt>): Option<string> {
    if history == [] || history[|history| - 1].Succeeded? then None else Some(history[|history| - 1].error)
  }

  /** The last run that produced floor evidence. */
  function LastFloorRun(history: seq<Attempt>): Option<Verdict> {
    if history == [] then None
    else
      var last := history[|history| - 1];
      if last.Succeeded? && HasFloorRow(last.verdict.evidence) then Some(last.verdict)
      else LastFloorRun(history[..|history| - 1])
  }

  function RowsOf(v: Option<Verdict>): seq<Evidence> {
    if v.None? then [] else v.value.evidence
  }

  lemma {:induction false} FilterSplit(rows: seq<Evidence>)
    ensures multiset(FloorRows(rows)) + multiset(OtherRows(rows)) == multiset(rows)
    ensures forall e :: e in FloorRows(rows) ==> e in rows && FloorSupporting(e)
    ensures HasFloorRow(rows) <==> FloorRows(rows) != []
  {
    hide FloorSupporting;
    if rows != [] {
      var front, last := rows[..|rows| - 1], rows[|rows| - 1];
      FilterSplit(front);
      assert rows == front + [last];
      if FloorSupporting(last) { assert last in rows; }
    }
  }

  lemma {:induction false} FloorRowsAre(rows: seq<Evidence>, e: Evidence)
    ensures e in FloorRows(rows) <==> e in rows && e.hit == DeterministicIoc && e.floorEligible
    ensures e in OtherRows(rows) <==> e in rows && !(e.hit == DeterministicIoc && e.floorEligible)
  {
    if rows != [] {
      var front, last := rows[..|rows| - 1], rows[|rows| - 1];
      FloorRowsAre(front, e);
      assert rows == front + [last];
    }
  }

  lemma {:induction false} FilterConcat(a: seq<Evidence>, b: seq<Evidence>)
    ensures FloorRows(a + b) == FloorRows(a) + FloorRows(b)
  {
    if b == [] {
      assert a + b == a;
    } else {
      assert (a + b)[..|a + b| - 1] == a + b[..|b| - 1];
      FilterConcat(a, b[..|b| - 1]);
    }
  }

  lemma {:induction false} FloorRowsIdempotent(rows: seq<Evidence>)
    ensures FloorRows(FloorRows(rows)) == FloorRows(rows)
  {
    if rows != [] {
      FloorRowsIdempotent(rows[..|rows| - 1]);
      var before, last := FloorRows(rows[..|rows| - 1]), rows[|rows| - 1];
      if FloorSupporting(last) {
        assert (before + [last])[..|before|] == before;
      }
    }
  }

  const NOTHING := Stored([], None, false, [])

  lemma NothingHasNoRows()
    ensures FloorRows([]) == [] && OtherRows([]) == []
    ensures multiset(NOTHING.evidence) == multiset{}
  {
  }

  /** What is kept beside a run's own rows, and what both classes then hold. */
  lemma KeptRows(rows: seq<Evidence>, added: seq<Evidence>)
    ensures var kept := if HasFloorRow(added) then [] else FloorRows(rows);
            && FloorRows(kept + added) == (if HasFloorRow(added) then FloorRows(added) else FloorRows(rows))
            && multiset(kept + added) == multiset(FloorRows(kept + added)) + multiset(OtherRows(added))
            && (FloorRows(kept + added) != [] <==> HasFloorRow(added) || FloorRows(rows) != [])
  {
    hide FloorSupporting, HasFloorRow, FloorRows, OtherRows;
    NothingHasNoRows();
    FilterSplit(added);
    if HasFloorRow(added) {
      assert [] + added == added;
    } else {
      var kept := FloorRows(rows);
      FilterConcat(kept, added);
      FloorRowsIdempotent(rows);
      assert kept + [] == kept;
      assert multiset(kept + added) == multiset(kept) + multiset(added);
    }
  }

  /** What one successful persist does to the rows of either class, and to the row beside them. */
  lemma PersistedRows(s: Stored, v: Verdict, at: int)
    requires s.row.Some? ==> (s.row.value.knownIocHit <==> FloorRows(s.evidence) != [])
    requires s.row.None? ==> FloorRows(s.evidence) == []
    requires s.storyHit <==> FloorRows(s.evidence) != []
    requires v.knownIocHit <==> HasFloorRow(v.evidence)
    ensures var s' := Persisted(s, v, at);
            && FloorRows(s'.evidence) ==
                 (if HasFloorRow(v.evidence) then FloorRows(v.evidence) else FloorRows(s.evidence))
            && multiset(s'.evidence) == multiset(FloorRows(s'.evidence)) + multiset(OtherRows(v.evidence))
            && s'.row.Some? && s'.row.value.status == StatusComplete && s'.row.value.coverage == v.coverage
            && (s'.row.value.knownIocHit <==> FloorRows(s'.evidence) != [])
            && (s'.storyHit <==> FloorRows(s'.evidence) != [])
            && s'.facts == v.facts
            && s'.row.value.completedAt == Some(at) && s'.row.value.lastError == None
  {
    hide FloorSupporting, HasFloorRow, FloorRows, OtherRows;
    KeptRows(s.evidence, v.evidence);
  }

  /** A failure marker moves status and coverage at most, and neither once a run has succeeded. */
  lemma MarkedRows(s: Stored, error: string)
    ensures var s' := Marked(s, error);
            && s'.evidence == s.evidence && s'.storyHit == s.storyHit && s'.facts == s.facts
            && s'.row.Some? && s'.row.value.lastError == Some(error)
            && s'.row.value.completedAt == (if s.row.Some? then s.row.value.completedAt else None)
            && (s.row.None? ==>
                 s'.row.value.status == StatusFailed && s'.row.value.coverage == Unknown && !s'.row.value.knownIocHit)
            && (s.row.Some? ==>
                 s'.row.value.knownIocHit == s.row.value.knownIocHit && s'.row.value.status == s.row.value.status)
            && (s.row.Some? && s.row.value.status == StatusComplete ==> s'.row.value.coverage == s.row.value.coverage)
            && (s.row.Some? && s.row.value.status != StatusComplete ==> s'.row.value.coverage == Unknown)
  {
  }

  /** The closed form of any history of successful and failed runs: the evidence is the last successful
      run's other rows plus the floor rows of the last run that produced any, the hit is true exactly
      when floor rows exist, and coverage and facts are the last successful run's. */
  lemma {:induction false} HistoryClosedForm(history: seq<Attempt>)
    requires FromFold(history)
    ensures var s := Replay(NOTHING, history);
            && FloorRows(s.evidence) == FloorRows(RowsOf(LastFloorRun(history)))
            && multiset(s.evidence)
               == multiset(FloorRows(RowsOf(LastFloorRun(history)))) + multiset(OtherRows(RowsOf(LastSuccess(history))))
            && (s.row.None? <==> history == [])
            && (s.row.Some? ==>
                  && (s.row.value.knownIocHit <==> FloorRows(s.evidence) != [])
                  && (s.row.value.status == StatusComplete <==> LastSuccess(history).Some?)
                  && s.row.value.coverage ==
                       (if LastSuccess(history).Some? then LastSuccess(history).value.coverage else Unknown))
            && (s.storyHit <==> FloorRows(s.evidence) != [])
            && s.facts == (if LastSuccess(history).Some? then LastSuccess(history).value.facts else [])
            && (s.row.Some? ==>
                  && s.row.value.completedAt == LastSuccessAt(history)
                  && s.row.value.lastError == LastErrorOf(history))
  {
    hide FloorSupporting, HasFloorRow, Persisted, Marked, FloorRows, OtherRows;
    if history == [] {
      NothingHasNoRows();
    } else {
      var front, last := history[..|history| - 1], history[|history| - 1];
      HistoryClosedForm(front);
      match last
      case Succeeded(v, at) =>
        PersistedRows(Replay(NOTHING, front), v, at);
      case Broke(error) =>
        MarkedRows(Replay(NOTHING, front), error);
    }
  }

  /** Row by row: deterministic, floor-eligible evidence is that of the last run that had any, all other
      evidence is the last successful run's. */
  lemma StoredEvidenceIs(history: seq<Attempt>, e: Evidence)
    requires FromFold(history)
    ensures e in Replay(NOTHING, history).evidence <==>
        if e.hit == DeterministicIoc && e.floorEligible then e in RowsOf(LastFloorRun(history))
        else e in RowsOf(LastSuccess(history))
  {
    hide Replay, LastFloorRun, LastSuccess, FloorRows, OtherRows;
    HistoryClosedForm(history);
    var rows, floor, other := Replay(NOTHING, history).evidence, RowsOf(LastFloorRun(history)),
      RowsOf(LastSuccess(history));
    FloorRowsAre(floor, e);
    FloorRowsAre(other, e);
    assert e in rows <==> e in multiset(rows);
    assert e in FloorRows(floor) <==> e in multiset(FloorRows(floor));
    assert e in OtherRows(other) <==> e in multiset(OtherRows(other));
  }

  /** `complete` and a known hit are never taken back by anything that happens later. */
  lemma {:induction false} NeverDowngraded(s: Stored, history: seq<Attempt>)
    requires s.row.Some?
    ensures var s' := Replay(s, history);
            && s'.row.Some?
            && (s.row.value.status == StatusComplete ==> s'.row.value.status == StatusComplete)
            && (s.row.value.knownIocHit ==> s'.row.value.knownIocHit)
            && (s.storyHit ==> s'.storyHit)
  {
    if history != [] {
      NeverDowngraded(s, history[..|history| - 1]);
    }
  }

  /** A failure after a good run leaves evidence, verdict and facts as that run left them. */
  lemma FailureTouchesOnlyTheError(s: Stored, error: string)
    requires s.row.Some? && s.row.value.status == StatusComplete
    ensures After(s, Broke(error)) == s.(row := Some(s.row.value.(lastError := Some(error))))
  {
  }

  /** The tables, keyed by event or by story version; each transaction touches one key. */
  class EvidenceStore<Key(==,!new)> {
    var evidence: map<Key, seq<Evidence>>
    var states: map<Key, StateRow>
    var storyHits: map<Key, bool>
    var facts: map<Key, seq<string>>

    constructor ()
      ensures forall k :: View(k) == NOTHING
    {
      evidence, states, storyHits, facts := map[], map[], map[], map[];
    }

    function View(k: Key): Stored
      reads this
    {
      Stored(
        if k in evidence then evidence[k] else [],
        if k in states then Some(states[k]) else None,
        k in storyHits && storyHits[k],
        if k in facts then facts[k] else [])
    }

    /** The transaction's writes take effect together, under one key. */
    method Commit(k: Key, rows: seq<Evidence>, row: StateRow, storyHit: bool, texts: seq<string>)
      modifies this
      ensures View(k) == Stored(rows, Some(row), storyHit, texts)
      ensures forall other :: other != k ==> View(other) == old(View(other))
    {
      storyHits := storyHits[k := storyHit];
      evidence := evidence[k := rows];
      facts := facts[k := texts];
      states := states[k := row];
    }

    method Persist(k: Key, v: Verdict, at: int)
      modifies this
      ensures View(k) == After(old(View(k)), Succeeded(v, at))
      ensures forall other :: other != k ==> View(other) == old(View(other))
    {
      hide FloorRows, FloorSupporting;
      var rows := if k in evidence then evidence[k] else [];
      var producedFloorEvidence := exists e :: e in v.evidence && FloorSupporting(e);
      var kept := if producedFloorEvidence then [] else FloorRows(rows);
      var storyHit := (k in storyHits && storyHits[k]) || v.knownIocHit;
      var hit := v.knownIocHit || (k in states && states[k].knownIocHit);
      var row := StateRow(StatusComplete, v.coverage, hit, Some(at), None);
      Commit(k, kept + v.evidence, row, storyHit, v.facts);
    }

    method PersistFailure(k: Key, error: string)
      modifies this
      ensures View(k) == After(old(View(k)), Broke(error))
      ensures forall other :: other != k ==> View(other) == old(View(other))
    {
      if k !in states {
        states := states[k := StateRow(StatusFailed, Unknown, false, None, Some(error))];
      } else if states[k].status == StatusComplete {
        states := states[k := states[k].(lastError := Some(error))];
      } else {
        states := states[k := states[k].(status := StatusFailed, coverage := Unknown, lastError := Some(error))];
      }
    }
  }
}
