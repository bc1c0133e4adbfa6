/**
 * The records of the tracker: logged history entries, the planned set slots and
 * exercises of a session, the progression advice, and the per-day summary of one
 * exercise's history.
 */
module Types {
  import opened Seqs

  /** What a history row records; a row with no type counts as a workout. */
  datatype EntryType = Workout | Sick | Vacation

  /**
   * A parsed ISO-8601 timestamp: its absolute instant (milliseconds since the epoch)
   * and the local calendar day it falls on. Every timestamp is assumed to parse.
   */
  datatype Timestamp = Timestamp(instant: int, day: int)

  /** One logged set. `kind` is the optional `type` field. */
  datatype HistoryEntry = HistoryEntry(
    kind: Option<EntryType>,
    exercise: string,
    setNumber: real,
    weight: real,
    reps: real,
    timestamp: Timestamp)

  /** One set slot of a planned exercise; `timestamp` is null for a slot not yet logged. */
  datatype SetEntry = SetEntry(
    setNumber: int,
    weight: real,
    reps: real,
    completed: bool,
    timestamp: Option<Timestamp>)

  datatype Action = Increase | Maintain | Decrease

  /** The seven fixed advice texts, one constructor per message the engine can emit. */
  datatype Message =
    | ContinuingToday     // "Continuing today's session with the same load."
    | NudgedUp            // "2 sessions with all sets at 12+ reps — nudged weight up by ~2.5%."
    | ReducedForForm      // "2 sessions stuck at 5 reps or fewer — reducing weight by ~5% ..."
    | RepeatBeforeAdding  // "Hit 12+ reps last session; repeat once more before adding weight."
    | StayAndFocus        // "Under 5 reps last time — stay at this load and focus on form ..."
    | KeepPushing         // "Keep pushing this load until you can hit 12 reps across all 3 sets twice."
    | NoFullSessions      // "No full sessions logged yet — start with the base weight."

  /** The advice for one exercise; the four trailing fields are absent on the same-day path. */
  datatype ProgressionAdvice = ProgressionAdvice(
    action: Action,
    message: Message,
    previousWeight: real,
    suggestedWeight: real,
    consecutiveHigh: Option<nat>,
    consecutiveLow: Option<nat>,
    recentHigh: Option<bool>,
    recentLow: Option<bool>)

  /** A template or planned exercise. */
  datatype SessionExercise = SessionExercise(
    name: string,
    sets: seq<SetEntry>,
    defaultWeight: real,
    defaultReps: real,
    progression: Option<ProgressionAdvice>)

  /** One calendar day of one exercise's history, as the progression rule sees it. */
  datatype ExerciseSession = ExerciseSession(
    dateKey: int,
    sets: seq<HistoryEntry>,
    complete: bool,
    allAtLeastTwelve: bool,
    allAtMostLow: bool,
    averageWeight: real)

  /** Sets per exercise, both in a plan and in a complete session. */
  const SETS_PER_EXERCISE: nat := 3

  /** Reps at or under which a set counts as low. */
  const LOW_REP_CEILING: real := 5.0

  /** Reps at or over which a set counts as high. */
  const HIGH_REP_FLOOR: real := 12.0

  /** A workout entry: one whose type is missing or is the workout type. */
  predicate IsWorkout(e: HistoryEntry) {
    e.kind.None? || e.kind.value == Workout
  }

  /** Entries logged under the exercise name `name`. */
  function OfExercise(name: string): HistoryEntry -> bool {
    (e: HistoryEntry) => e.exercise == name
  }

  /** Entries whose timestamp falls on calendar day `day`. */
  function OnDay(day: int): HistoryEntry -> bool {
    (e: HistoryEntry) => e.timestamp.day == day
  }

  /** The calendar days `h` has entries on. */
  function DaysOf(h: seq<HistoryEntry>): set<int> {
    set i | 0 <= i < |h| :: h[i].timestamp.day
  }

  /** Sort key putting the latest instant first: the comparator subtracts the first instant from the second. */
  function NewestFirst(e: HistoryEntry): real {
    -(e.timestamp.instant as real)
  }

  /** Sort key putting the lowest set number first: the comparator subtracts set numbers. */
  function BySetNumber(e: HistoryEntry): real {
    e.setNumber
  }

  /**
   * The day of a timestamp never runs ahead of its instant: a later instant is never
   * on an earlier day. Holds of every timestamp the wall clock produces.
   */
  ghost predicate ClockCoherent(h: seq<HistoryEntry>) {
    forall a, b :: a in h && b in h && a.timestamp.instant <= b.timestamp.instant
      ==> a.timestamp.day <= b.timestamp.day
  }

  /** A coherent clock stays coherent on any selection of the same entries. */
  lemma CoherentSelection(h: seq<HistoryEntry>, sub: seq<HistoryEntry>)
    requires ClockCoherent(h)
    requires forall i :: 0 <= i < |sub| ==> sub[i] in h
    ensures ClockCoherent(sub)
  {
  }
}
