/**
 * `createSession`: the day's plan, one entry per exercise of the workout template,
 * each with three set slots filled from the sets already logged on the reference day
 * or prefilled from the progression advice.
 */
module Plan {
  import opened Seqs
  import opened Types
  import opened Progression

  /** The six exercises of a session, in order, with their default weight and reps. */
  const WORKOUT_TEMPLATE: seq<SessionExercise> := [
    SessionExercise("Deadlifts", [], 90.0, 5.0, None),
    SessionExercise("Squats", [], 80.0, 5.0, None),
    SessionExercise("Shoulder Press", [], 50.0, 5.0, None),
    SessionExercise("Chin Up", [], 0.0, 5.0, None),
    SessionExercise("Bench Press", [], 63.0, 5.0, None),
    SessionExercise("Bent Over Rows", [], 64.0, 5.0, None)
  ]

  /** Entries that log set `setNumber` of exercise `name` on calendar day `day`. */
  function LogOf(name: string, setNumber: int, day: int): HistoryEntry -> bool {
    (e: HistoryEntry) => e.exercise == name && e.setNumber == setNumber as real && e.timestamp.day == day
  }

  /**
   * Set slot `setNumber`: a copy of the first entry in `workoutHistory` logging it on
   * `today`, or else a fresh slot at the suggested weight and the default reps.
   */
  function Slot(name: string, workoutHistory: seq<HistoryEntry>, today: int, setNumber: int,
                progression: Progression): (slot: SetEntry)
    ensures slot.setNumber == setNumber
    ensures slot.completed <==>
              exists j :: 0 <= j < |workoutHistory| && LogOf(name, setNumber, today)(workoutHistory[j])
    ensures slot.completed ==>
              exists j :: 0 <= j < |workoutHistory| && LogOf(name, setNumber, today)(workoutHistory[j])
                && (forall k :: 0 <= k < j ==> !LogOf(name, setNumber, today)(workoutHistory[k]))
                && slot.weight == workoutHistory[j].weight && slot.reps == workoutHistory[j].reps
                && slot.timestamp == Some(workoutHistory[j].timestamp)
    ensures !slot.completed ==>
              slot.weight == progression.baseWeight && slot.reps == progression.defaultReps
              && slot.timestamp.None?
  {
    var todaysLog := Find(workoutHistory, LogOf(name, setNumber, today));
    match todaysLog
    case Some(log) =>
      FindFirst(workoutHistory, LogOf(name, setNumber, today));
      SetEntry(setNumber, log.weight, log.reps, true, Some(log.timestamp))
    case None =>
      SetEntry(setNumber, progression.baseWeight, progression.defaultReps, false, None)
  }

  /** `f` of the numbers `from + 1` to `from + count`, in order. */
  function Numbered<T>(f: int -> T, from: nat, count: nat): (r: seq<T>)
    ensures |r| == count
    ensures forall i :: 0 <= i < count ==> r[i] == f(from + i + 1)
    decreases count
  {
    if count == 0 then [] else [f(from + 1)] + Numbered(f, from + 1, count - 1)
  }

  /**
   * The planned form of one template exercise: its own name and defaults, three slots
   * numbered 1 to 3, and the progression advice for the reference day.
   */
  function CloneSet(template: SessionExercise, workoutHistory: seq<HistoryEntry>, today: int)
    : (planned: SessionExercise)
    ensures planned.name == template.name
    ensures planned.defaultWeight == template.defaultWeight
    ensures planned.defaultReps == template.defaultReps
    ensures planned.progression == Some(ComputeProgression(template, workoutHistory, today).advice)
    ensures |planned.sets| == SETS_PER_EXERCISE
    ensures forall i :: 0 <= i < |planned.sets| ==>
              planned.sets[i] == Slot(template.name, workoutHistory, today, i + 1,
                                      ComputeProgression(template, workoutHistory, today))
  {
    var progression := ComputeProgression(template, workoutHistory, today);
    var sets := Numbered((n: int) => Slot(template.name, workoutHistory, today, n, progression),
                         0, SETS_PER_EXERCISE);
    template.(sets := sets, progression := Some(progression.advice))
  }

  /**
   * The workout entries of `history`, in their original order and with their
   * repetitions: exactly the entries with no type or the workout type, so sick-day
   * and vacation entries drop out.
   */
  function WorkoutHistory(history: seq<HistoryEntry>): (workouts: seq<HistoryEntry>)
    ensures forall e :: e in workouts <==> e in history && (e.kind.None? || e.kind == Some(Workout))
    ensures forall e :: multiset(workouts)[e] == if IsWorkout(e) then multiset(history)[e] else 0
  {
    var workouts := Filter(history, IsWorkout);
    assert forall e :: multiset(workouts)[e] == if IsWorkout(e) then multiset(history)[e] else 0 by {
      FilterCounts(history, IsWorkout);
    }
    assert forall e :: e in workouts <==> e in history && IsWorkout(e) by {
      forall e
        ensures e in workouts <==> e in history && IsWorkout(e)
      {
        FilterMembers(history, IsWorkout, e);
      }
    }
    workouts
  }

  /**
   * `createSession(history)` on calendar day `today`: every template exercise, in
   * template order, planned from the workout entries of `history` alone.
   */
  function CreateSession(history: seq<HistoryEntry>, today: int): (plan: seq<SessionExercise>)
    ensures |plan| == |WORKOUT_TEMPLATE|
    ensures Names(plan) == Names(WORKOUT_TEMPLATE)
    ensures forall i :: 0 <= i < |plan| ==>
              plan[i] == CloneSet(WORKOUT_TEMPLATE[i], WorkoutHistory(history), today)
  {
    var workoutHistory := WorkoutHistory(history);
    seq(|WORKOUT_TEMPLATE|, i requires 0 <= i < |WORKOUT_TEMPLATE| =>
          CloneSet(WORKOUT_TEMPLATE[i], workoutHistory, today))
  }

  /** The names of the planned exercises, in order. */
  function Names(plan: seq<SessionExercise>): seq<string> {
    seq(|plan|, i requires 0 <= i < |plan| => plan[i].name)
  }

  /** The template's exercises, in order. */
  lemma TemplateNames()
    ensures Names(WORKOUT_TEMPLATE)
         == ["Deadlifts", "Squats", "Shoulder Press", "Chin Up", "Bench Press", "Bent Over Rows"]
  {
    var names := Names(WORKOUT_TEMPLATE);
    assert names[0] == "Deadlifts" && names[1] == "Squats" && names[2] == "Shoulder Press";
    assert names[3] == "Chin Up" && names[4] == "Bench Press" && names[5] == "Bent Over Rows";
  }

  /**
   * Each planned exercise keeps its template defaults, carries advice, and has set
   * slots numbered exactly 1, 2 and 3.
   */
  lemma PlanShape(history: seq<HistoryEntry>, today: int, i: nat)
    requires i < |WORKOUT_TEMPLATE|
    ensures var planned := CreateSession(history, today)[i];
            planned.defaultWeight == WORKOUT_TEMPLATE[i].defaultWeight
            && planned.defaultReps == WORKOUT_TEMPLATE[i].defaultReps
            && planned.progression.Some?
            && |planned.sets| == 3
            && forall k :: 0 <= k < |planned.sets| ==> planned.sets[k].setNumber == k + 1
  {
  }

  /**
   * A slot is completed exactly when a workout entry logs that set of that exercise on
   * the reference day.
   */
  lemma SlotCompletedIff(history: seq<HistoryEntry>, today: int, i: nat, k: nat)
    requires i < |WORKOUT_TEMPLATE| && k < SETS_PER_EXERCISE
    ensures var planned := CreateSession(history, today)[i];
            planned.sets[k].completed <==>
              exists j :: 0 <= j < |history| && IsWorkout(history[j])
                && history[j].exercise == planned.name && history[j].setNumber == (k + 1) as real
                && history[j].timestamp.day == today
  {
    var workoutHistory := WorkoutHistory(history);
    var planned := CreateSession(history, today)[i];
    var log := LogOf(planned.name, k + 1, today);
    SlotLogged(history, log);
  }

  /**
   * The workout entries of a history logged in two parts are those of the first part
   * followed by those of the second; with `OneWorkout` this fixes their order.
   */
  lemma WorkoutHistoryAppend(earlier: seq<HistoryEntry>, later: seq<HistoryEntry>)
    ensures WorkoutHistory(earlier + later) == WorkoutHistory(earlier) + WorkoutHistory(later)
  {
    FilterAppend(earlier, later, IsWorkout);
  }

  /** A single entry is its own workout history when it is a workout, else it has none. */
  lemma OneWorkout(e: HistoryEntry)
    ensures WorkoutHistory([e]) == if IsWorkout(e) then [e] else []
  {
    assert [e][1..] == [];
  }

  /**
   * A completed slot copies the first workout entry of the whole history, in input
   * order, that logs that set of that exercise on the reference day.
   */
  lemma CompletedSlotCopiesFirstLog(history: seq<HistoryEntry>, today: int, i: nat, k: nat)
    requires i < |WORKOUT_TEMPLATE| && k < SETS_PER_EXERCISE
    requires CreateSession(history, today)[i].sets[k].completed
    ensures var slot := CreateSession(history, today)[i].sets[k];
            var log := LogOf(WORKOUT_TEMPLATE[i].name, k + 1, today);
            exists j :: 0 <= j < |history| && IsWorkout(history[j]) && log(history[j])
              && (forall m :: 0 <= m < j ==> !(IsWorkout(history[m]) && log(history[m])))
              && slot.weight == history[j].weight && slot.reps == history[j].reps
              && slot.timestamp == Some(history[j].timestamp)
  {
    var template := WORKOUT_TEMPLATE[i];
    var log := LogOf(template.name, k + 1, today);
    var workoutHistory := WorkoutHistory(history);
    var progression := ComputeProgression(template, workoutHistory, today);
    var slot := CreateSession(history, today)[i].sets[k];
    assert slot == Slot(template.name, workoutHistory, today, k + 1, progression);
    FindFilter(history, IsWorkout, log);
    var found := Find(workoutHistory, log);
    assert found.Some? && slot.weight == found.value.weight && slot.reps == found.value.reps
           && slot.timestamp == Some(found.value.timestamp);
    FindFirst(history, Both(IsWorkout, log));
  }

  /** An entry of `history` satisfying `log` is a workout one iff one is in its workout entries. */
  lemma SlotLogged(history: seq<HistoryEntry>, log: HistoryEntry -> bool)
    ensures (exists j :: 0 <= j < |WorkoutHistory(history)| && log(WorkoutHistory(history)[j]))
        <==> (exists j :: 0 <= j < |history| && IsWorkout(history[j]) && log(history[j]))
  {
    var workoutHistory := WorkoutHistory(history);
    if exists j :: 0 <= j < |workoutHistory| && log(workoutHistory[j]) {
      var j :| 0 <= j < |workoutHistory| && log(workoutHistory[j]);
      FilterMembers(history, IsWorkout, workoutHistory[j]);
    }
    if exists j :: 0 <= j < |history| && IsWorkout(history[j]) && log(history[j]) {
      var j :| 0 <= j < |history| && IsWorkout(history[j]) && log(history[j]);
      FilterMembers(history, IsWorkout, history[j]);
    }
  }

  /**
   * A slot with nothing logged carries the suggested weight and the default reps of
   * the exercise's advice, and no timestamp.
   */
  lemma UnloggedSlot(history: seq<HistoryEntry>, today: int, i: nat, k: nat)
    requires i < |WORKOUT_TEMPLATE| && k < SETS_PER_EXERCISE
    requires !CreateSession(history, today)[i].sets[k].completed
    ensures var planned := CreateSession(history, today)[i];
            var slot := planned.sets[k];
            slot.weight == planned.progression.value.suggestedWeight
            && slot.reps == ComputeProgression(WORKOUT_TEMPLATE[i], WorkoutHistory(history), today).defaultReps
            && slot.timestamp.None?
  {
  }

  /**
   * A completed slot means the exercise already has an entry on the reference day, so
   * its advice is to continue with the same load.
   */
  lemma CompletedSlotContinues(history: seq<HistoryEntry>, today: int, i: nat, k: nat)
    requires i < |WORKOUT_TEMPLATE| && k < SETS_PER_EXERCISE
    requires CreateSession(history, today)[i].sets[k].completed
    ensures CreateSession(history, today)[i].progression.value.message == ContinuingToday
  {
    var workoutHistory := WorkoutHistory(history);
    var template := WORKOUT_TEMPLATE[i];
    var j :| 0 <= j < |workoutHistory| && LogOf(template.name, k + 1, today)(workoutHistory[j]);
    NamedEntriesOnMembers(template.name, workoutHistory, today, workoutHistory[j]);
  }

  /** Sick-day and vacation entries, wherever they are logged, never change the plan. */
  lemma NonWorkoutIgnored(before: seq<HistoryEntry>, others: seq<HistoryEntry>, after: seq<HistoryEntry>,
                          today: int)
    requires forall i :: 0 <= i < |others| ==> !IsWorkout(others[i])
    ensures CreateSession(before + others + after, today) == CreateSession(before + after, today)
  {
    FilterAppend(before + others, after, IsWorkout);
    FilterAppend(before, others, IsWorkout);
    FilterAppend(before, after, IsWorkout);
    var o := Filter(others, IsWorkout);
    if o != [] {
      FilterMembers(others, IsWorkout, o[0]);
      assert false;
    }
    assert Filter(before, IsWorkout) + o == Filter(before, IsWorkout);
    assert WorkoutHistory(before + others + after) == WorkoutHistory(before + after);
  }
}
