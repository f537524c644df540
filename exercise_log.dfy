/** The shared record type of both sources (domain/model/ExerciseLog.kt). */
module Domain {
  import opened Results

  /** Where a record comes from: typed in by the user, or read from Health Connect. */
  datatype Source = Manual | HealthConnect

  /** One exercise session. `start` and `end` are epoch milliseconds; the
      engine only compares them, so Kotlin's `Long` is modelled by `int`.
      `conflicted` is a display flag that only the view model sets. */
  datatype ExerciseLog = ExerciseLog(
    id: string,
    exerciseType: string,
    start: int,
    end: int,
    calories: Option<int>,
    source: Source,
    conflicted: bool)

  /** The constructor call with `conflicted` left at its default, false. */
  function NewLog(id: string, exerciseType: string, start: int, end: int,
                  calories: Option<int>, source: Source): ExerciseLog
  {
    ExerciseLog(id, exerciseType, start, end, calories, source, false)
  }

  /** What the Health Connect reader builds from a session record: source
      HEALTH_CONNECT, no calories, not flagged. */
  type HealthConnectLog = l: ExerciseLog
    | l.source == HealthConnect && l.calories == None && !l.conflicted
    witness ExerciseLog("", "", 0, 0, None, HealthConnect, false)
}
