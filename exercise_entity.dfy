/** The stored row and its conversions (data/local/ExerciseEntity.kt). */
module Entity {
  import opened Results
  import opened Domain

  /** A row of the `exercises` table; the source is kept as the enum's name. */
  datatype ExerciseEntity = ExerciseEntity(
    id: string,
    exerciseType: string,
    start: int,
    end: int,
    calories: Option<int>,
    source: string)

  /** `Source.name`. */
  function SourceName(s: Source): string {
    match s
    case Manual => "MANUAL"
    case HealthConnect => "HEALTH_CONNECT"
  }

  /** The message of the IllegalArgumentException `Source.valueOf` throws. */
  function NoEnumConstant(name: string): string {
    "No enum constant com.example.healthconnectexercise.domain.model.Source." + name
  }

  /** `Source.valueOf(name)`: throws IllegalArgumentException, with the JVM's
      message, for a string that is not a constant's name. */
  function SourceValueOf(name: string): (r: Result<Source>)
    ensures r.Success? ==> SourceName(r.value) == name
    ensures r.Failure? <==> name != SourceName(Manual) && name != SourceName(HealthConnect)
  {
    if name == "MANUAL" then Success(Manual)
    else if name == "HEALTH_CONNECT" then Success(HealthConnect)
    else Failure(NoEnumConstant(name))
  }

  /** `toDomain()`: the row as a record with `conflicted` at its default. */
  function ToDomain(e: ExerciseEntity): (r: Result<ExerciseLog>)
    ensures r.Failure? <==> e.source != SourceName(Manual) && e.source != SourceName(HealthConnect)
  {
    var source :- SourceValueOf(e.source);
    Success(NewLog(e.id, e.exerciseType, e.start, e.end, e.calories, source))
  }

  /** `toEntity()`: every field but the display flag is stored. */
  function ToEntity(l: ExerciseLog): ExerciseEntity {
    ExerciseEntity(l.id, l.exerciseType, l.start, l.end, l.calories, SourceName(l.source))
  }

  /** Storing a record and reading it back gives the record, unflagged. */
  lemma LogRoundTrip(l: ExerciseLog)
    ensures ToDomain(ToEntity(l)) == Success(l.(conflicted := false))
  {
  }

  /** A row that reads back is exactly what storing its record writes. */
  lemma EntityRoundTrip(e: ExerciseEntity)
    requires ToDomain(e).Success?
    ensures ToEntity(ToDomain(e).value) == e
    ensures ToDomain(e).value.id == e.id && !ToDomain(e).value.conflicted
  {
  }
}
