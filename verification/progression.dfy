/**
 * `computeProgression` and `getNextSessionProgression`: the load and rep advice for one
 * exercise, derived from that exercise's logged history and the calendar day the plan
 * is for.
 */
module Progression {
  import opened Seqs
  import opened StableSort
  import opened Types
  import opened Rounding
  import opened Summary

  /** What `computeProgression` returns. */
  datatype Progression = Progression(baseWeight: real, defaultReps: real, advice: ProgressionAdvice)

  /** The entries of the exercise named `name`, in input order. */
  function NamedEntries(name: string, history: seq<HistoryEntry>): seq<HistoryEntry> {
    Filter(history, OfExercise(name))
  }

  /** The entries of the exercise named `name` on calendar day `day`, in input order. */
  function NamedEntriesOn(name: string, history: seq<HistoryEntry>, day: int): seq<HistoryEntry> {
    Filter(NamedEntries(name, history), OnDay(day))
  }

  /**
   * The newest of `entries`: the one with the latest instant, the earliest in input
   * order among equally late ones.
   */
  function Newest(entries: seq<HistoryEntry>): (e: HistoryEntry)
    requires entries != []
    ensures e in entries
    ensures forall i :: 0 <= i < |entries| ==> entries[i].timestamp.instant <= e.timestamp.instant
  {
    entries[FirstMinIndex(entries, NewestFirst)]
  }

  /** The exercise's entries sorted newest first, as `computeProgression` sorts them. */
  function ExerciseHistory(name: string, history: seq<HistoryEntry>): (r: seq<HistoryEntry>)
    ensures |r| == |NamedEntries(name, history)|
    ensures multiset(r) == multiset(NamedEntries(name, history))
    ensures SortedBy(r, NewestFirst)
    ensures r != [] ==> r[0] == Newest(NamedEntries(name, history))
  {
    var named := NamedEntries(name, history);
    if named == [] then []
    else
      SortHead(named, NewestFirst);
      SortBy(named, NewestFirst)
  }

  predicate IsComplete(s: ExerciseSession) {
    s.complete
  }

  predicate AllHigh(s: ExerciseSession) {
    s.allAtLeastTwelve
  }

  predicate AllLow(s: ExerciseSession) {
    s.allAtMostLow
  }

  /** The complete sessions of the exercise, newest day first. */
  function CompleteSessions(name: string, history: seq<HistoryEntry>): seq<ExerciseSession> {
    Filter(SummarizeExerciseSessions(ExerciseHistory(name, history)), IsComplete)
  }

  /**
   * The advice given a base weight and the complete sessions newest first, when
   * nothing has been logged on the reference day yet.
   */
  function Advise(baseWeight: real, complete: seq<ExerciseSession>): (a: ProgressionAdvice)
    ensures a.previousWeight == baseWeight
    ensures a.consecutiveHigh == Some(CountConsecutive(complete, AllHigh))
    ensures a.consecutiveLow == Some(CountConsecutive(complete, AllLow))
    ensures a.recentHigh.Some? && a.recentLow.Some?
    ensures a.consecutiveHigh.value <= |complete| && a.consecutiveLow.value <= |complete|
    ensures a.recentHigh.value <==> a.consecutiveHigh.value >= 1
    ensures a.recentLow.value <==> a.consecutiveLow.value >= 1
    ensures a.action == Increase <==> a.consecutiveHigh.value >= 2
    ensures a.action == Decrease <==> a.consecutiveHigh.value < 2 && a.consecutiveLow.value >= 2
    ensures a.action == Increase <==> a.message == NudgedUp
    ensures a.action == Decrease <==> a.message == ReducedForForm
    ensures a.message == RepeatBeforeAdding <==> a.consecutiveHigh.value == 1 && a.consecutiveLow.value < 2
    ensures a.message == StayAndFocus <==> a.consecutiveHigh.value == 0 && a.consecutiveLow.value == 1
    ensures a.message == KeepPushing <==>
              complete != [] && a.consecutiveHigh.value == 0 && a.consecutiveLow.value == 0
    ensures a.message == NoFullSessions <==> complete == []
    ensures a.message != ContinuingToday
    ensures a.action == Maintain ==> a.suggestedWeight == baseWeight
    ensures a.action == Increase ==> a.suggestedWeight == RoundDownToIncrement(baseWeight * 1.025)
    ensures a.action == Decrease ==> a.suggestedWeight == RoundDownToIncrement(baseWeight * 0.95)
  {
    var high := CountConsecutive(complete, AllHigh);
    var low := CountConsecutive(complete, AllLow);
    var recentHigh := complete != [] && complete[0].allAtLeastTwelve;
    var recentLow := complete != [] && complete[0].allAtMostLow;
    var latestTwo := |complete| >= 2;
    if latestTwo && complete[0].allAtLeastTwelve && complete[1].allAtLeastTwelve then
      ProgressionAdvice(Increase, NudgedUp, baseWeight, RoundDownToIncrement(baseWeight * 1.025),
                        Some(high), Some(low), Some(recentHigh), Some(recentLow))
    else if latestTwo && complete[0].allAtMostLow && complete[1].allAtMostLow then
      ProgressionAdvice(Decrease, ReducedForForm, baseWeight, RoundDownToIncrement(baseWeight * 0.95),
                        Some(high), Some(low), Some(recentHigh), Some(recentLow))
    else
      var message :=
        if recentHigh then RepeatBeforeAdding
        else if recentLow then StayAndFocus
        else if complete != [] then KeepPushing
        else NoFullSessions;
      ProgressionAdvice(Maintain, message, baseWeight, baseWeight,
                        Some(high), Some(low), Some(recentHigh), Some(recentLow))
  }

  /**
   * The weight the advice starts from: the average of the newest complete session,
   * else the newest entry's weight, else the template default.
   */
  function BaseWeight(template: SessionExercise, exerciseHistory: seq<HistoryEntry>,
                      sessions: seq<ExerciseSession>): (w: real)
    ensures Filter(sessions, IsComplete) != [] ==> w == Filter(sessions, IsComplete)[0].averageWeight
    ensures Filter(sessions, IsComplete) == [] && exerciseHistory != [] ==> w == exerciseHistory[0].weight
    ensures Filter(sessions, IsComplete) == [] && exerciseHistory == [] ==> w == template.defaultWeight
  {
    FindIsFilterHead(sessions, IsComplete);
    var lastComplete := Find(sessions, IsComplete);
    if lastComplete.Some? then lastComplete.value.averageWeight
    else if exerciseHistory != [] then exerciseHistory[0].weight
    else template.defaultWeight
  }

  /** The newest entry of the exercise on calendar day `today`, if any. */
  function TodaysEntry(name: string, history: seq<HistoryEntry>, today: int): (r: Option<HistoryEntry>)
    ensures r.None? <==> NamedEntriesOn(name, history, today) == []
    ensures r.Some? ==> r.value == Newest(NamedEntriesOn(name, history, today))
  {
    var named := NamedEntries(name, history);
    var onDay := NamedEntriesOn(name, history, today);
    FindIsFilterHead(SortBy(named, NewestFirst), OnDay(today));
    FilterSort(named, NewestFirst, OnDay(today));
    assert onDay != [] ==> SortBy(onDay, NewestFirst)[0] == Newest(onDay) by {
      if onDay != [] {
        SortHead(onDay, NewestFirst);
      }
    }
    Find(ExerciseHistory(name, history), OnDay(today))
  }

  /**
   * `computeProgression(template, workoutHistory, today)`: on a day that already has
   * an entry for the exercise, keep that entry's weight; otherwise advise from the
   * complete sessions. The returned base weight is always the suggested weight.
   */
  function ComputeProgression(template: SessionExercise, workoutHistory: seq<HistoryEntry>,
                              today: int): (p: Progression)
    ensures p.baseWeight == p.advice.suggestedWeight
    ensures p.advice.action == Maintain ==> p.advice.previousWeight == p.advice.suggestedWeight
    ensures p.advice.message == ContinuingToday <==> NamedEntriesOn(template.name, workoutHistory, today) != []
    ensures p.advice.message == ContinuingToday ==>
              p.advice.action == Maintain
              && p.advice.suggestedWeight == Newest(NamedEntriesOn(template.name, workoutHistory, today)).weight
              && p.advice.consecutiveHigh.None? && p.advice.consecutiveLow.None?
              && p.advice.recentHigh.None? && p.advice.recentLow.None?
    ensures p.advice.message != ContinuingToday ==>
              p.advice == Advise(p.advice.previousWeight, CompleteSessions(template.name, workoutHistory))
    ensures NamedEntries(template.name, workoutHistory) == [] ==> p.defaultReps == template.defaultReps
    ensures NamedEntries(template.name, workoutHistory) != [] ==>
              p.defaultReps == Newest(NamedEntries(template.name, workoutHistory)).reps
  {
    var exerciseHistory := ExerciseHistory(template.name, workoutHistory);
    var defaultReps := if exerciseHistory != [] then exerciseHistory[0].reps else template.defaultReps;
    var todays := TodaysEntry(template.name, workoutHistory, today);
    if todays.Some? then
      var weight := todays.value.weight;
      Progression(weight, defaultReps,
                  ProgressionAdvice(Maintain, ContinuingToday, weight, weight, None, None, None, None))
    else
      var sessions := SummarizeExerciseSessions(exerciseHistory);
      var baseWeight := BaseWeight(template, exerciseHistory, sessions);
      var advice := Advise(baseWeight, Filter(sessions, IsComplete));
      Progression(advice.suggestedWeight, defaultReps, advice)
  }

  /**
   * `getNextSessionProgression`: the advice for the calendar day after `today`, the
   * preview shown once today's workout is logged.
   */
  function GetNextSessionProgression(template: SessionExercise, workoutHistory: seq<HistoryEntry>,
                                     today: int): (a: ProgressionAdvice)
    ensures a.message == ContinuingToday <==> NamedEntriesOn(template.name, workoutHistory, today + 1) != []
    ensures a.message != ContinuingToday ==>
              a == Advise(a.previousWeight, CompleteSessions(template.name, workoutHistory))
  {
    ComputeProgression(template, workoutHistory, today + 1).advice
  }

  /** Membership in the entries of one exercise on one day. */
  lemma NamedEntriesOnMembers(name: string, history: seq<HistoryEntry>, day: int, e: HistoryEntry)
    ensures e in NamedEntriesOn(name, history, day) <==>
              e in history && e.exercise == name && e.timestamp.day == day
  {
    FilterMembers(history, OfExercise(name), e);
    FilterMembers(NamedEntries(name, history), OnDay(day), e);
  }

  /**
   * With no entry for the exercise, the advice is to maintain the template's default
   * weight and reps, with no full sessions behind it.
   */
  lemma NoHistory(template: SessionExercise, workoutHistory: seq<HistoryEntry>, today: int)
    requires forall i :: 0 <= i < |workoutHistory| ==> workoutHistory[i].exercise != template.name
    ensures ComputeProgression(template, workoutHistory, today)
         == Progression(template.defaultWeight, template.defaultReps,
                        ProgressionAdvice(Maintain, NoFullSessions, template.defaultWeight, template.defaultWeight,
                                          Some(0), Some(0), Some(false), Some(false)))
  {
    var named := NamedEntries(template.name, workoutHistory);
    if named != [] {
      FilterMembers(workoutHistory, OfExercise(template.name), named[0]);
      assert false;
    }
  }

  /** The result depends on the history only through the exercise's own entries. */
  lemma OnlyOwnEntriesMatter(template: SessionExercise, h1: seq<HistoryEntry>, h2: seq<HistoryEntry>, today: int)
    requires NamedEntries(template.name, h1) == NamedEntries(template.name, h2)
    ensures ComputeProgression(template, h1, today) == ComputeProgression(template, h2, today)
  {
    assert ExerciseHistory(template.name, h1) == ExerciseHistory(template.name, h2);
    assert NamedEntriesOn(template.name, h1, today) == NamedEntriesOn(template.name, h2, today);
  }

  /** Entries of other exercises, wherever they are logged, never change the result. */
  lemma OtherExercisesIgnored(template: SessionExercise, before: seq<HistoryEntry>, others: seq<HistoryEntry>,
                              after: seq<HistoryEntry>, today: int)
    requires forall i :: 0 <= i < |others| ==> others[i].exercise != template.name
    ensures ComputeProgression(template, before + others + after, today)
         == ComputeProgression(template, before + after, today)
  {
    OthersFiltered(template.name, before, others, after);
    OnlyOwnEntriesMatter(template, before + others + after, before + after, today);
  }

  lemma OthersFiltered(name: string, before: seq<HistoryEntry>, others: seq<HistoryEntry>, after: seq<HistoryEntry>)
    requires forall i :: 0 <= i < |others| ==> others[i].exercise != name
    ensures NamedEntries(name, before + others + after) == NamedEntries(name, before + after)
  {
    var p := OfExercise(name);
    FilterAppend(before + others, after, p);
    FilterAppend(before, others, p);
    FilterAppend(before, after, p);
    var o := Filter(others, p);
    if o != [] {
      FilterMembers(others, p, o[0]);
      assert false;
    }
    assert Filter(before, p) + o == Filter(before, p);
  }

  /**
   * Once the exercise has an entry on the reference day, the advice keeps the weight
   * of the latest such entry, whatever the older history says.
   */
  lemma SameDay(template: SessionExercise, workoutHistory: seq<HistoryEntry>, today: int, i: nat)
    requires i < |workoutHistory|
    requires workoutHistory[i].exercise == template.name && workoutHistory[i].timestamp.day == today
    ensures var p := ComputeProgression(template, workoutHistory, today);
            p.advice.action == Maintain && p.advice.message == ContinuingToday
            && p.baseWeight == p.advice.previousWeight == p.advice.suggestedWeight
            && exists j :: 0 <= j < |workoutHistory|
                 && workoutHistory[j].exercise == template.name && workoutHistory[j].timestamp.day == today
                 && workoutHistory[j].weight == p.baseWeight
                 && workoutHistory[i].timestamp.instant <= workoutHistory[j].timestamp.instant
  {
    var h := workoutHistory;
    var onDay := NamedEntriesOn(template.name, h, today);
    NamedEntriesOnMembers(template.name, h, today, h[i]);
    var newest := Newest(onDay);
    NamedEntriesOnMembers(template.name, h, today, newest);
    var j :| 0 <= j < |h| && h[j] == newest;
    var k :| 0 <= k < |onDay| && onDay[k] == h[i];
  }

  /** The complete sessions are complete and never both all-high and all-low. */
  lemma CompleteSessionsFacts(name: string, workoutHistory: seq<HistoryEntry>)
    ensures var cs := CompleteSessions(name, workoutHistory);
            forall k :: 0 <= k < |cs| ==> cs[k].complete && !(cs[k].allAtLeastTwelve && cs[k].allAtMostLow)
  {
    var sessions := SummarizeExerciseSessions(ExerciseHistory(name, workoutHistory));
    SummaryFlagsExclusive(ExerciseHistory(name, workoutHistory));
    FilterSatisfies(sessions, IsComplete);
    FilterBounded(sessions, IsComplete, (s: ExerciseSession) => !(s.allAtLeastTwelve && s.allAtMostLow));
  }

  /** The complete sessions are ordered strictly newest day first. */
  lemma CompleteSessionsNewestFirst(name: string, workoutHistory: seq<HistoryEntry>)
    ensures var cs := CompleteSessions(name, workoutHistory);
            forall i, j :: 0 <= i < j < |cs| ==> cs[i].dateKey > cs[j].dateKey
  {
    var sessions := SummarizeExerciseSessions(ExerciseHistory(name, workoutHistory));
    NewestDayFirstOrder(sessions);
    FilterSorted(sessions, NewestDayFirst, IsComplete);
    FilterDistinct(sessions, NewestDayFirst, IsComplete);
    NewestDayFirstOrderBack(Filter(sessions, IsComplete));
  }

  lemma NewestDayFirstOrder(s: seq<ExerciseSession>)
    requires forall i, j :: 0 <= i < j < |s| ==> s[i].dateKey > s[j].dateKey
    ensures SortedBy(s, NewestDayFirst) && DistinctKeys(s, NewestDayFirst)
  {
  }

  lemma NewestDayFirstOrderBack(s: seq<ExerciseSession>)
    requires SortedBy(s, NewestDayFirst) && DistinctKeys(s, NewestDayFirst)
    ensures forall i, j :: 0 <= i < j < |s| ==> s[i].dateKey > s[j].dateKey
  {
    forall i, j | 0 <= i < j < |s|
      ensures s[i].dateKey > s[j].dateKey
    {
      assert NewestDayFirst(s[i]) <= NewestDayFirst(s[j]);
      assert NewestDayFirst(s[i]) != NewestDayFirst(s[j]);
    }
  }

  /**
   * The advice is to increase exactly when the two newest complete sessions both have
   * every kept set at 12 reps or more; the suggestion is then the base weight plus
   * 2.5%, rounded down to the increment.
   */
  lemma AdviseIncrease(baseWeight: real, complete: seq<ExerciseSession>)
    ensures var a := Advise(baseWeight, complete);
            (a.action == Increase <==> (|complete| >= 2 && complete[0].allAtLeastTwelve && complete[1].allAtLeastTwelve))
            && (a.action == Increase ==>
                  a.suggestedWeight == RoundDownToIncrement(baseWeight * 1.025)
                  && a.consecutiveHigh.value >= 2)
  {
    LeadingPair(complete, AllHigh);
  }

  /**
   * When no complete session is both all-high and all-low, the advice is to decrease
   * exactly when the two newest complete sessions both have every kept set at 5 reps
   * or fewer; the suggestion is then the base weight less 5%, rounded down.
   */
  lemma AdviseDecrease(baseWeight: real, complete: seq<ExerciseSession>)
    requires forall k :: 0 <= k < |complete| ==> !(complete[k].allAtLeastTwelve && complete[k].allAtMostLow)
    ensures var a := Advise(baseWeight, complete);
            (a.action == Decrease <==> (|complete| >= 2 && complete[0].allAtMostLow && complete[1].allAtMostLow))
            && (a.action == Decrease ==>
                  a.suggestedWeight == RoundDownToIncrement(baseWeight * 0.95)
                  && a.consecutiveLow.value >= 2)
  {
    LeadingPair(complete, AllHigh);
    LeadingPair(complete, AllLow);
  }

  /** `AdviseIncrease` for the exercise's own complete sessions, away from a same-day entry. */
  lemma IncreaseRule(template: SessionExercise, workoutHistory: seq<HistoryEntry>, today: int)
    requires NamedEntriesOn(template.name, workoutHistory, today) == []
    ensures var a := ComputeProgression(template, workoutHistory, today).advice;
            var cs := CompleteSessions(template.name, workoutHistory);
            a.action == Increase <==> |cs| >= 2 && cs[0].allAtLeastTwelve && cs[1].allAtLeastTwelve
  {
    var a := ComputeProgression(template, workoutHistory, today).advice;
    AdviseIncrease(a.previousWeight, CompleteSessions(template.name, workoutHistory));
  }

  /** `AdviseDecrease` for the exercise's own complete sessions, away from a same-day entry. */
  lemma DecreaseRule(template: SessionExercise, workoutHistory: seq<HistoryEntry>, today: int)
    requires NamedEntriesOn(template.name, workoutHistory, today) == []
    ensures var a := ComputeProgression(template, workoutHistory, today).advice;
            var cs := CompleteSessions(template.name, workoutHistory);
            a.action == Decrease <==> |cs| >= 2 && cs[0].allAtMostLow && cs[1].allAtMostLow
  {
    var a := ComputeProgression(template, workoutHistory, today).advice;
    CompleteSessionsFacts(template.name, workoutHistory);
    AdviseDecrease(a.previousWeight, CompleteSessions(template.name, workoutHistory));
  }

  /** A leading run of at least two is the same as the first two sessions holding. */
  lemma LeadingPair(sessions: seq<ExerciseSession>, holds: ExerciseSession -> bool)
    ensures CountConsecutive(sessions, holds) >= 2 <==> |sessions| >= 2 && holds(sessions[0]) && holds(sessions[1])
  {
  }

  /**
   * Without an entry on the reference day, the advice starts from the average of the
   * newest complete session, else the newest entry's weight, else the template
   * default; any outcome other than increase or decrease suggests that weight again.
   */
  lemma BaseWeightFallback(template: SessionExercise, workoutHistory: seq<HistoryEntry>, today: int)
    requires NamedEntriesOn(template.name, workoutHistory, today) == []
    ensures var p := ComputeProgression(template, workoutHistory, today);
            var cs := CompleteSessions(template.name, workoutHistory);
            var named := NamedEntries(template.name, workoutHistory);
            p.advice.previousWeight
              == (if cs != [] then cs[0].averageWeight
                  else if named != [] then Newest(named).weight
                  else template.defaultWeight)
            && (p.advice.action == Maintain ==> p.baseWeight == p.advice.previousWeight)
  {
  }

  /**
   * The preview for the next day never continues a session, as long as nothing is
   * logged later than `today`; it advises from the same complete sessions.
   */
  lemma PreviewNeverSameDay(template: SessionExercise, workoutHistory: seq<HistoryEntry>, today: int)
    requires forall i :: 0 <= i < |workoutHistory| ==> workoutHistory[i].timestamp.day <= today
    ensures var a := GetNextSessionProgression(template, workoutHistory, today);
            a.message != ContinuingToday
            && a == Advise(a.previousWeight, CompleteSessions(template.name, workoutHistory))
  {
    var onDay := NamedEntriesOn(template.name, workoutHistory, today + 1);
    if onDay != [] {
      NamedEntriesOnMembers(template.name, workoutHistory, today + 1, onDay[0]);
      assert false;
    }
  }

  /**
   * A session of the exercise is complete exactly when at least three entries of the
   * exercise were logged on its day.
   */
  lemma CompleteIffThreeEntries(name: string, workoutHistory: seq<HistoryEntry>, k: nat)
    requires k < |SummarizeExerciseSessions(ExerciseHistory(name, workoutHistory))|
    ensures var s := SummarizeExerciseSessions(ExerciseHistory(name, workoutHistory))[k];
            s.complete <==> |NamedEntriesOn(name, workoutHistory, s.dateKey)| >= SETS_PER_EXERCISE
  {
    var eh := ExerciseHistory(name, workoutHistory);
    var s := SummarizeExerciseSessions(eh)[k];
    var named := NamedEntries(name, workoutHistory);
    assert eh == SortBy(named, NewestFirst);
    FilterSort(named, NewestFirst, OnDay(s.dateKey));
    assert s == SessionOf(eh, s.dateKey);
  }

  /**
   * Under a coherent clock the newest entry of the exercise lies in its newest
   * session, so that session is the one the default reps come from.
   */
  lemma NewestEntryInNewestSession(name: string, workoutHistory: seq<HistoryEntry>)
    requires ClockCoherent(workoutHistory)
    requires NamedEntries(name, workoutHistory) != []
    ensures var sessions := SummarizeExerciseSessions(ExerciseHistory(name, workoutHistory));
            sessions != [] && sessions[0].dateKey == Newest(NamedEntries(name, workoutHistory)).timestamp.day
  {
    var eh := ExerciseHistory(name, workoutHistory);
    forall i | 0 <= i < |eh|
      ensures eh[i] in workoutHistory
    {
      ExerciseHistoryMembers(name, workoutHistory, eh[i]);
    }
    CoherentSelection(workoutHistory, eh);
    NewestEntryOnLatestDay(eh);
  }

  /** The sorted history of an exercise holds exactly that exercise's entries. */
  lemma ExerciseHistoryMembers(name: string, workoutHistory: seq<HistoryEntry>, e: HistoryEntry)
    ensures e in ExerciseHistory(name, workoutHistory) <==> e in workoutHistory && e.exercise == name
  {
    var named := NamedEntries(name, workoutHistory);
    assert ExerciseHistory(name, workoutHistory) == SortBy(named, NewestFirst);
    SortMembers(named, NewestFirst, e);
    FilterMembers(workoutHistory, OfExercise(name), e);
  }

  /**
   * An increase from a whole number of increments never suggests less than the base
   * weight, and from 20 upwards it always adds at least one increment.
   */
  lemma IncreaseNeverLowers(base: real)
    requires base >= 0.0 && IsIncrementMultiple(base)
    ensures RoundDownToIncrement(base * 1.025) >= base
    ensures base >= 20.0 ==> RoundDownToIncrement(base * 1.025) >= base + 0.5
  {
    var raised := base * 1.025;
    assert raised == base + base * 0.025;
    assert base * 0.025 >= 0.0;
    RoundDownMonotone(base, raised);
    if base >= 20.0 {
      assert base * 0.025 >= 0.5;
      var next := base + 0.5;
      assert IsIncrementMultiple(next) by {
        var m := (base / 0.5).Floor;
        assert next / 0.5 == (m + 1) as real;
      }
      RoundDownMonotone(next, raised);
    }
  }

  /**
   * From a base weight that is not a whole number of increments, such as a rounded
   * session average, an increase can suggest less than the base weight.
   */
  lemma IncreaseCanLower()
    ensures RoundDownToIncrement(3.4 * 1.025) == 3.0 < 3.4
  {
    assert (3.4 * 1.025 / 0.5).Floor == 6;
    Round1OfTenths(30);
  }

  /** A decrease from a positive weight always suggests less, and never below zero. */
  lemma DecreaseLowers(base: real)
    requires base > 0.0
    ensures 0.0 <= RoundDownToIncrement(base * 0.95) < base
  {
    RoundDownMonotone(0.0, base * 0.95);
    assert IsIncrementMultiple(0.0);
  }
}
