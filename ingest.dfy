/**
 * The ingest endpoint of the recommendation service (`lesson_completed`,
 * `extract_event_data` and `parse_datetime` in reco/app/controllers/api/events_controller.rb):
 * it reads the relayed completion from the request, normalises its two timestamps and
 * writes one history row, or answers with an error and writes nothing.
 *
 * The clock and the date parser are parameters: `now` is the current time and
 * `parse` says what the time-zone parser makes of a string.
 */
module Ingest {
  import opened Wrappers
  import opened Events
  import opened LearnerHistory

  /** A timestamp parameter: missing or null, a string, or an already typed time. */
  datatype RawTime = Absent | Text(s: string) | Stamp(t: Time)

  /** What the parser makes of a string: a time, nothing it recognises (nil), or an
      error (an out-of-range date, say). */
  datatype ParseOutcome = Parsed(t: Time) | Unrecognised | Invalid

  /** The permitted attributes of the `event` object. */
  datatype EventParams = EventParams(userId: Option<string>, lessonId: Option<string>,
                                     courseId: Option<string>, completedAt: RawTime, createdAt: RawTime)

  /** The attributes handed to `create!`. */
  datatype EventData = EventData(userId: Option<string>, lessonId: Option<string>, courseId: Option<string>,
                                 completedAt: Option<Time>, createdAt: Option<Time>)

  /** The `event` parameter as `require(:event)` sees it. `Blank` is every value Rails
      calls blank, false excepted: no `event` at all, null, an empty object, an empty or
      white-space string, an empty list. `NotAnObject` is any other value that is not an
      object (false, which `require` passes on, a non-blank string, a number, a
      non-empty list), which has no `permit`.
      `Object` is a non-empty object, given by its permitted attributes: all of them are
      absent when it carries only keys outside the permitted list. */
  datatype EventParam = Blank | NotAnObject | Object(attributes: EventParams)

  /** `ParameterMissing` is raised by `require`, `NotPermittable` is the missing-method
      error of calling `permit` on a value that is not an object. */
  datatype IngestError = ParameterMissing | NotPermittable | UnparseableTime | NotNullViolation

  datatype Response =
    | Created(eventId: nat, userId: string, lessonId: string, courseId: string)
    | Unprocessable(error: IngestError)

  /** `parse_datetime`: strings go to the parser, anything else is kept, and a missing
      value becomes the current time. */
  function ParseDatetime(v: RawTime, now: Time, parse: string -> ParseOutcome): (r: Result<Option<Time>, IngestError>)
    ensures v.Absent? ==> r == Ok(Some(now))
    ensures v.Stamp? ==> r == Ok(Some(v.t))
    ensures v.Text? ==> (r.Err? <==> parse(v.s).Invalid?)
    ensures v.Text? && r.Ok? ==> (r.value.Some? <==> parse(v.s).Parsed?)
    ensures v.Text? && parse(v.s).Parsed? ==> r == Ok(Some(parse(v.s).t))
  {
    match v
    case Absent => Ok(Some(now))
    case Stamp(t) => Ok(Some(t))
    case Text(s) =>
      match parse(s)
      case Parsed(t) => Ok(Some(t))
      case Unrecognised => Ok(None)
      case Invalid => Err(UnparseableTime)
  }

  /** `extract_event_data`: a blank `event` is refused by `require`, a value that is not
      an object by `permit`; otherwise the ids are copied as they are and both times
      normalised. */
  function ExtractEventData(event: EventParam, now: Time, parse: string -> ParseOutcome): (r: Result<EventData, IngestError>)
    ensures event.Blank? ==> r == Err(ParameterMissing)
    ensures event.NotAnObject? ==> r == Err(NotPermittable)
    ensures event.Object? ==>
      (r.Ok? <==> ParseDatetime(event.attributes.completedAt, now, parse).Ok? && ParseDatetime(event.attributes.createdAt, now, parse).Ok?)
    ensures r.Ok? ==>
      && r.value.userId == event.attributes.userId
      && r.value.lessonId == event.attributes.lessonId
      && r.value.courseId == event.attributes.courseId
      && r.value.completedAt == ParseDatetime(event.attributes.completedAt, now, parse).value
      && r.value.createdAt == ParseDatetime(event.attributes.createdAt, now, parse).value
  {
    match event
    case Blank => Err(ParameterMissing)
    case NotAnObject => Err(NotPermittable)
    case Object(p) =>
      var completed := ParseDatetime(p.completedAt, now, parse);
      if completed.Err? then Err(completed.error)
      else
        var created := ParseDatetime(p.createdAt, now, parse);
        if created.Err? then Err(created.error)
        else Ok(EventData(p.userId, p.lessonId, p.courseId, completed.value, created.value))
  }

  /** The row a request produces, given the id the table would assign next. */
  function Ingested(id: nat, event: EventParam, now: Time, parse: string -> ParseOutcome): Result<HistoryRow, IngestError> {
    match ExtractEventData(event, now, parse)
    case Err(e) => Err(e)
    case Ok(d) =>
      match NewRow(id, d.userId, d.lessonId, d.courseId, d.completedAt, d.createdAt, now)
      case None => Err(NotNullViolation)
      case Some(row) => Ok(row)
  }

  /** `lesson_completed`: write the row and echo its id and ids, or answer with the error. */
  method LessonCompleted(table: HistoryTable, event: EventParam, now: Time, parse: string -> ParseOutcome)
    returns (resp: Response)
    requires table.Valid()
    modifies table
    ensures table.Valid()
    ensures var r := Ingested(old(table.nextId), event, now, parse);
      && (r.Ok? ==> table.rows == old(table.rows) + [r.value] && table.nextId == old(table.nextId) + 1
                    && resp == Created(r.value.id, r.value.userId, r.value.lessonId, r.value.courseId))
      && (r.Err? ==> table.rows == old(table.rows) && table.nextId == old(table.nextId) && resp == Unprocessable(r.error))
    ensures resp.Created? ==> forall k :: 0 <= k < |old(table.rows)| ==> old(table.rows)[k].id != resp.eventId
  {
    var data := ExtractEventData(event, now, parse);
    if data.Err? {
      return Unprocessable(data.error);
    }
    var d := data.value;
    var row := table.Create(d.userId, d.lessonId, d.courseId, d.completedAt, d.createdAt, now);
    if row.None? {
      return Unprocessable(NotNullViolation);
    }
    resp := Created(row.value.id, row.value.userId, row.value.lessonId, row.value.courseId);
  }

  // ----- Properties -----

  /** A request whose `event` is missing or blank is refused by `require`, and one whose
      `event` is not an object by `permit`. */
  lemma MissingEventIsRejected(id: nat, now: Time, parse: string -> ParseOutcome)
    ensures Ingested(id, Blank, now, parse) == Err(ParameterMissing)
    ensures Ingested(id, NotAnObject, now, parse) == Err(NotPermittable)
  {
  }

  /** An `event` object holding only unpermitted keys passes `require`; its attributes
      are all absent, and the row is refused by the NOT NULL columns instead. */
  lemma OnlyUnpermittedKeysIsRejected(id: nat, now: Time, parse: string -> ParseOutcome)
    ensures Ingested(id, Object(EventParams(None, None, None, Absent, Absent)), now, parse) == Err(NotNullViolation)
  {
  }

  /** A missing user, lesson or course id is refused: the columns are NOT NULL. */
  lemma MissingIdIsRejected(id: nat, p: EventParams, now: Time, parse: string -> ParseOutcome)
    requires p.userId.None? || p.lessonId.None? || p.courseId.None?
    ensures Ingested(id, Object(p), now, parse).Err?
  {
  }

  /** A string the parser does not recognise as completed_at leaves the column null,
      and the row is refused. */
  lemma UnrecognisedCompletionTimeIsRejected(id: nat, p: EventParams, now: Time, parse: string -> ParseOutcome)
    requires p.completedAt.Text? && parse(p.completedAt.s).Unrecognised?
    ensures Ingested(id, Object(p), now, parse).Err?
  {
  }

  /** A string the parser cannot handle at all fails the request, whichever timestamp it is. */
  lemma InvalidTimeIsRejected(id: nat, p: EventParams, now: Time, parse: string -> ParseOutcome)
    requires (p.completedAt.Text? && parse(p.completedAt.s).Invalid?) || (p.createdAt.Text? && parse(p.createdAt.s).Invalid?)
    ensures Ingested(id, Object(p), now, parse) == Err(UnparseableTime)
  {
  }

  /** The whole success condition: an event object, three ids, a usable completion time
      and a created_at the parser does not reject. The row then holds the request's
      ids, missing times are the current time, and an unrecognised created_at is
      filled with the current time too. */
  lemma AcceptedExactly(id: nat, p: EventParams, now: Time, parse: string -> ParseOutcome)
    ensures Ingested(id, Object(p), now, parse).Ok? <==>
      && p.userId.Some? && p.lessonId.Some? && p.courseId.Some?
      && (p.completedAt.Text? ==> parse(p.completedAt.s).Parsed?)
      && (p.createdAt.Text? ==> !parse(p.createdAt.s).Invalid?)
    ensures Ingested(id, Object(p), now, parse).Ok? ==>
      var row := Ingested(id, Object(p), now, parse).value;
      && row == HistoryRow(id, p.userId.value, p.lessonId.value, p.courseId.value, row.completedAt, row.createdAt)
      && (p.completedAt.Absent? ==> row.completedAt == now)
      && (p.completedAt.Stamp? ==> row.completedAt == p.completedAt.t)
      && (p.createdAt.Absent? ==> row.createdAt == now)
      && (p.createdAt.Text? && parse(p.createdAt.s).Unrecognised? ==> row.createdAt == now)
  {
  }

  /** An empty user id is a value, not a missing one: it is stored as such. */
  lemma EmptyUserIsAccepted(id: nat, now: Time, parse: string -> ParseOutcome)
    ensures Ingested(id, Object(EventParams(Some(""), Some("lesson-456"), Some("course-789"), Absent, Absent)), now, parse)
      == Ok(HistoryRow(id, "", "lesson-456", "course-789", now, now))
  {
  }
}
