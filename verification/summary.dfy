/**
 * `summarizeExerciseSessions` and `countConsecutive`: one exercise's history grouped
 * into calendar-day sessions, newest day first, and the length of a leading run of
 * sessions with some property.
 */
module Summary {
  import opened Seqs
  import opened StableSort
  import opened Types
  import opened Rounding

  /**
   * Sum of the weights of `s`. The `reduce` in `summarizeExerciseSessions` adds from
   * the left; exact reals make the order irrelevant, and the contract states the
   * left-to-right accumulation.
   */
  function SumWeights(s: seq<HistoryEntry>): (total: real)
    ensures s == [] ==> total == 0.0
    ensures s != [] ==> total == SumWeights(s[..|s| - 1]) + s[|s| - 1].weight
  {
    if s == [] then 0.0
    else
      assert s[1..] != [] ==> s[1..][..|s[1..]| - 1] == s[..|s| - 1][1..];
      s[0].weight + SumWeights(s[1..])
  }

  /**
   * The mean weight of the kept sets `s` as `summarizeExerciseSessions` computes it:
   * the total divided by the number of sets, or by 1 when there are none, so no sets
   * have mean 0. At most three sets are kept, so the divisor is 1, 2 or 3; it is
   * written out case by case to keep the arithmetic linear.
   */
  function MeanWeight(s: seq<HistoryEntry>): (mean: real)
    requires |s| <= SETS_PER_EXERCISE
    ensures s == [] ==> mean == 0.0
    ensures |s| == 1 ==> mean == SumWeights(s)
    ensures |s| == 2 ==> mean + mean == SumWeights(s)
    ensures |s| == 3 ==> mean + mean + mean == SumWeights(s)
  {
    if |s| <= 1 then SumWeights(s) / 1.0
    else if |s| == 2 then SumWeights(s) / 2.0
    else SumWeights(s) / 3.0
  }

  function Min(a: int, b: int): int {
    if a <= b then a else b
  }

  /** Every set of `s` has at least `floor` reps. */
  predicate AllAtLeast(s: seq<HistoryEntry>, floor: real) {
    forall k :: 0 <= k < |s| ==> s[k].reps >= floor
  }

  /** Every set of `s` has at most `ceiling` reps. */
  predicate AllAtMost(s: seq<HistoryEntry>, ceiling: real) {
    forall k :: 0 <= k < |s| ==> s[k].reps <= ceiling
  }

  /**
   * The sets a session keeps of a day's `entries`: the first three in set-number
   * order, where entries with equal set numbers keep their input order, so that of
   * each set number the earliest entries are the ones kept.
   */
  function KeptSets(entries: seq<HistoryEntry>): (kept: seq<HistoryEntry>)
    ensures |kept| == Min(|entries|, SETS_PER_EXERCISE)
    ensures SortedBy(kept, BySetNumber)
    ensures multiset(kept) <= multiset(entries)
    ensures forall x, k :: x in multiset(entries) - multiset(kept) && 0 <= k < |kept|
              ==> kept[k].setNumber <= x.setNumber
    ensures forall m :: Filter(kept, KeyIs(BySetNumber, m)) <= Filter(entries, KeyIs(BySetNumber, m))
  {
    var n := Min(|entries|, SETS_PER_EXERCISE);
    var sorted := SortBy(entries, BySetNumber);
    SortedPrefix(entries, BySetNumber, n);
    assert forall m :: Filter(sorted[..n], KeyIs(BySetNumber, m)) <= Filter(entries, KeyIs(BySetNumber, m)) by {
      forall m
        ensures Filter(sorted[..n], KeyIs(BySetNumber, m)) <= Filter(entries, KeyIs(BySetNumber, m))
      {
        FilterPrefix(sorted, n, KeyIs(BySetNumber, m));
        SortStable(entries, BySetNumber, m);
      }
    }
    sorted[..n]
  }

  /**
   * `toFixed(1)` of the mean kept weight, a whole number of tenths within half a tenth
   * of the mean, and 0 for no sets; `Number.isFinite` always holds of a real.
   */
  function AverageWeight(kept: seq<HistoryEntry>): (average: real)
    requires |kept| <= SETS_PER_EXERCISE
    ensures IsTenths(average)
    ensures MeanWeight(kept) - 0.05 <= average <= MeanWeight(kept) + 0.05
    ensures kept == [] ==> average == 0.0
  {
    if kept == [] then
      Round1OfTenths(0);
      Round1(MeanWeight(kept))
    else
      Round1(MeanWeight(kept))
  }

  /** Three assisted sets at -1.25 average to -1.3: the tie is rounded away from zero. */
  lemma NegativeTieAverage(a: HistoryEntry, b: HistoryEntry, c: HistoryEntry)
    requires a.weight == -1.25 && b.weight == -1.25 && c.weight == -1.25
    ensures AverageWeight([a, b, c]) == -1.3
  {
    assert [a, b, c][..2] == [a, b] && [a, b][..1] == [a] && [a][..0] == [];
    assert MeanWeight([a, b, c]) == -1.25;
    Round1NegativeTie();
  }

  /**
   * The session for calendar day `day` whose entries are `entries`: the kept sets,
   * the completeness and rep flags, and the average weight of the kept sets.
   */
  function MakeSession(day: int, entries: seq<HistoryEntry>): (r: ExerciseSession)
    ensures r.dateKey == day
    ensures r.sets == KeptSets(entries)
    ensures r.complete <==> |entries| >= SETS_PER_EXERCISE
    ensures r.allAtLeastTwelve <==> r.complete && AllAtLeast(r.sets, HIGH_REP_FLOOR)
    ensures r.allAtMostLow <==> r.complete && AllAtMost(r.sets, LOW_REP_CEILING)
    ensures !(r.allAtLeastTwelve && r.allAtMostLow)
    ensures r.averageWeight == AverageWeight(r.sets)
  {
    var trimmed := KeptSets(entries);
    var complete := |trimmed| >= SETS_PER_EXERCISE;
    var allAtLeastTwelve := complete && AllAtLeast(trimmed, HIGH_REP_FLOOR);
    var allAtMostLow := complete && AllAtMost(trimmed, LOW_REP_CEILING);
    ExerciseSession(day, trimmed, complete, allAtLeastTwelve, allAtMostLow, AverageWeight(trimmed))
  }

  /**
   * A set numbered above all others on a day that already has three sets changes
   * nothing about the session: neither the kept sets, nor the flags, nor the average.
   */
  lemma ExtraSetIgnored(day: int, a: seq<HistoryEntry>, e: HistoryEntry, b: seq<HistoryEntry>)
    requires |a + b| >= SETS_PER_EXERCISE
    requires forall i :: 0 <= i < |a| ==> a[i].setNumber < e.setNumber
    requires forall i :: 0 <= i < |b| ==> b[i].setNumber < e.setNumber
    ensures MakeSession(day, a + [e] + b) == MakeSession(day, a + b)
  {
    ExtraSetNotKept(a, e, b);
  }

  lemma ExtraSetNotKept(a: seq<HistoryEntry>, e: HistoryEntry, b: seq<HistoryEntry>)
    requires |a + b| >= SETS_PER_EXERCISE
    requires forall i :: 0 <= i < |a| ==> a[i].setNumber < e.setNumber
    requires forall i :: 0 <= i < |b| ==> b[i].setNumber < e.setNumber
    ensures KeptSets(a + [e] + b) == KeptSets(a + b)
  {
    SortWithLargest(a, e, b, BySetNumber);
    var sorted := SortBy(a + b, BySetNumber);
    assert (sorted + [e])[..SETS_PER_EXERCISE] == sorted[..SETS_PER_EXERCISE];
  }

  /**
   * The distinct calendar days of `h` in order of first appearance: the key order of
   * the `Map` that `summarizeExerciseSessions` builds.
   */
  function DistinctDays(h: seq<HistoryEntry>): (days: seq<int>)
    ensures forall i, j :: 0 <= i < j < |days| ==> days[i] != days[j]
    ensures forall d :: d in days <==> d in DaysOf(h)
  {
    if h == [] then []
    else
      var front := h[..|h| - 1];
      var days := DistinctDays(front);
      var d := h[|h| - 1].timestamp.day;
      assert DaysOf(h) == DaysOf(front) + {d} by {
        assert forall i :: 0 <= i < |front| ==> front[i] == h[i];
      }
      if d in days then days else days + [d]
  }

  /** Sort key putting the latest calendar day first. */
  function NewestDayFirst(s: ExerciseSession): real {
    -(s.dateKey as real)
  }

  /** The session of calendar day `day`, built from that day's entries of `history`. */
  function SessionOf(history: seq<HistoryEntry>, day: int): ExerciseSession {
    MakeSession(day, Filter(history, OnDay(day)))
  }

  /** Builds the session of a day of `history`: the callback of the `.map` in `summarizeExerciseSessions`. */
  function SessionBuilder(history: seq<HistoryEntry>): int -> ExerciseSession {
    (day: int) => SessionOf(history, day)
  }

  function Negate(d: int): real {
    -(d as real)
  }

  /** The calendar days `sessions` cover. */
  function SessionDays(sessions: seq<ExerciseSession>): set<int> {
    set k | 0 <= k < |sessions| :: sessions[k].dateKey
  }

  /** The distinct calendar days of `history`, latest first. */
  function NewestDays(history: seq<HistoryEntry>): (days: seq<int>)
    ensures forall i, j :: 0 <= i < j < |days| ==> days[i] > days[j]
    ensures forall d :: d in days <==> d in DaysOf(history)
  {
    var distinct := DistinctDays(history);
    SortDistinct(distinct, Negate);
    forall d
      ensures d in SortBy(distinct, Negate) <==> d in distinct
    {
      SortMembers(distinct, Negate, d);
    }
    SortBy(distinct, Negate)
  }

  /**
   * `summarizeExerciseSessions`: one session per distinct calendar day of `history`,
   * each built from that day's entries in input order, sorted newest day first. The
   * days are sorted before the sessions are built; `SummaryMatchesSource` shows this
   * equals building them in insertion order and then sorting, as `summarizeExerciseSessions` does.
   */
  function SummarizeExerciseSessions(history: seq<HistoryEntry>): (r: seq<ExerciseSession>)
    ensures forall i, j :: 0 <= i < j < |r| ==> r[i].dateKey > r[j].dateKey
    ensures SessionDays(r) == DaysOf(history)
    ensures forall k :: 0 <= k < |r| ==> r[k] == SessionOf(history, r[k].dateKey)
  {
    var days := NewestDays(history);
    var r := MapSeq(SessionBuilder(history), days);
    SessionsDated(history, days, r);
    SessionsOnDays(history, days, r);
    r
  }

  /** Sessions whose days are `days` are ordered as `days` are and cover the same days. */
  lemma SessionsOnDays(history: seq<HistoryEntry>, days: seq<int>, r: seq<ExerciseSession>)
    requires forall i, j :: 0 <= i < j < |days| ==> days[i] > days[j]
    requires forall d :: d in days <==> d in DaysOf(history)
    requires |r| == |days| && forall k :: 0 <= k < |r| ==> r[k].dateKey == days[k]
    ensures forall i, j :: 0 <= i < j < |r| ==> r[i].dateKey > r[j].dateKey
    ensures SessionDays(r) == DaysOf(history)
  {
    forall d | d in DaysOf(history)
      ensures d in SessionDays(r)
    {
      var k :| 0 <= k < |days| && days[k] == d;
      assert r[k].dateKey == d;
    }
  }

  /** The sessions built for `days` are dated `days` and are each their own day's session. */
  lemma SessionsDated(history: seq<HistoryEntry>, days: seq<int>, r: seq<ExerciseSession>)
    requires r == MapSeq(SessionBuilder(history), days)
    ensures |r| == |days|
    ensures forall k :: 0 <= k < |r| ==> r[k].dateKey == days[k] && r[k] == SessionOf(history, r[k].dateKey)
  {
    forall k | 0 <= k < |r|
      ensures r[k].dateKey == days[k] && r[k] == SessionOf(history, r[k].dateKey)
    {
      assert r[k] == SessionOf(history, days[k]);
    }
  }

  /** The first session of a summary is on the latest day of the history. */
  lemma SummaryHeadIsLatestDay(history: seq<HistoryEntry>)
    requires history != []
    ensures SummarizeExerciseSessions(history) != []
    ensures SummarizeExerciseSessions(history)[0].dateKey in DaysOf(history)
    ensures forall i :: 0 <= i < |history| ==>
              history[i].timestamp.day <= SummarizeExerciseSessions(history)[0].dateKey
  {
    var r := SummarizeExerciseSessions(history);
    assert history[0].timestamp.day in DaysOf(history);
    assert r != [];
    assert r[0].dateKey in SessionDays(r);
    forall i | 0 <= i < |history|
      ensures history[i].timestamp.day <= r[0].dateKey
    {
      assert history[i].timestamp.day in SessionDays(r);
      var k :| 0 <= k < |r| && r[k].dateKey == history[i].timestamp.day;
      if k != 0 {
        assert r[0].dateKey > r[k].dateKey;
      }
    }
  }

  /**
   * Under a coherent clock the newest entry of a history sorted newest first lies in
   * the first session of its summary.
   */
  lemma NewestEntryOnLatestDay(history: seq<HistoryEntry>)
    requires history != []
    requires SortedBy(history, NewestFirst)
    requires ClockCoherent(history)
    ensures SummarizeExerciseSessions(history) != []
    ensures SummarizeExerciseSessions(history)[0].dateKey == history[0].timestamp.day
  {
    SummaryHeadIsLatestDay(history);
    var latest := SummarizeExerciseSessions(history)[0].dateKey;
    var i :| 0 <= i < |history| && history[i].timestamp.day == latest;
    assert NewestFirst(history[0]) <= NewestFirst(history[i]);
    assert history[0] in history && history[i] in history;
  }

  /** No session of a summary is both all-high and all-low. */
  lemma SummaryFlagsExclusive(history: seq<HistoryEntry>)
    ensures forall k :: 0 <= k < |SummarizeExerciseSessions(history)| ==>
              !(SummarizeExerciseSessions(history)[k].allAtLeastTwelve
                && SummarizeExerciseSessions(history)[k].allAtMostLow)
  {
    var r := SummarizeExerciseSessions(history);
    forall k | 0 <= k < |r|
      ensures !(r[k].allAtLeastTwelve && r[k].allAtMostLow)
    {
      assert r[k] == SessionOf(history, r[k].dateKey);
    }
  }

  /**
   * `summarizeExerciseSessions` builds the sessions in the `Map`'s insertion order
   * and then sorts them by date key; that is the same sequence.
   */
  lemma SummaryMatchesSource(history: seq<HistoryEntry>)
    ensures SummarizeExerciseSessions(history)
         == SortBy(MapSeq(SessionBuilder(history), DistinctDays(history)), NewestDayFirst)
  {
    var distinct := DistinctDays(history);
    var days := SortBy(distinct, Negate);
    assert SummarizeExerciseSessions(history) == MapSeq(SessionBuilder(history), days);
    BuilderKeepsDays(history);
    SortMap(SessionBuilder(history), distinct, Negate, NewestDayFirst);
  }

  /** The session built for a day is dated that day. */
  lemma BuilderKeepsDays(history: seq<HistoryEntry>)
    ensures forall d :: NewestDayFirst(SessionBuilder(history)(d)) == Negate(d)
  {
  }

  /**
   * `countConsecutive`: the length of the leading run of `sessions` that satisfy
   * `holds`.
   */
  function CountConsecutive(sessions: seq<ExerciseSession>, holds: ExerciseSession -> bool): (n: nat)
    ensures n <= |sessions|
    ensures forall i :: 0 <= i < n ==> holds(sessions[i])
    ensures n < |sessions| ==> !holds(sessions[n])
  {
    if sessions == [] || !holds(sessions[0]) then 0
    else 1 + CountConsecutive(sessions[1..], holds)
  }
}
