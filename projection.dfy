/**
 * The LMS projector (lms/app/domain/projections/course_projection.rb): one write rule
 * per event over the three read-model tables `courses`, `lessons` and
 * `lesson_completions`. The columns the schema declares NOT NULL hold plain values;
 * a write that would put NULL there, or a second row under a primary key, is refused
 * by the database and modelled as `None`.
 *
 * The projector runs synchronously inside the transaction that commits the event. The
 * updates write the event's creation time into `updated_at` explicitly; on an insert
 * ActiveRecord stamps `updated_at` from its own clock, and the model stores the event's
 * creation time there as well.
 */
module Projections {
  import opened Wrappers
  import opened Events
  import opened Aggregates

  datatype CourseRow = CourseRow(title: string, description: Option<string>, instructorId: string,
                                 createdAt: Time, updatedAt: Option<Time>)

  datatype LessonRow = LessonRow(courseId: string, title: string, content: Option<string>, order: int,
                                 createdAt: Time, updatedAt: Option<Time>)

  datatype CompletionRow = CompletionRow(userId: string, lessonId: string, courseId: string,
                                         completedAt: Time, createdAt: Time)

  /** Courses and lessons are keyed by their aggregate id; completions have a serial key
      and are kept in insertion order. */
  datatype Tables = Tables(courses: map<Id, CourseRow>, lessons: map<Id, LessonRow>,
                           completions: seq<CompletionRow>)

  const EmptyTables := Tables(map[], map[], [])

  /** The LessonUpdated write: `updated_at` always, each other column only when the event
      carries a value for it. */
  function UpdatedLesson(row: LessonRow, t: Option<string>, c: Option<string>, o: Option<int>, at: Time): LessonRow {
    row.(title := if t.Some? then t.value else row.title,
         content := if c.Some? then c else row.content,
         order := if o.Some? then o.value else row.order,
         updatedAt := Some(at))
  }

  /** The write for one event, or None when the database refuses it. */
  function Project(t: Tables, e: Event): Option<Tables> {
    var id := e.aggregateId;
    match e.payload
    case CourseCreated(title, d, i) =>
      if title.None? || i.None? || id in t.courses then None
      else Some(t.(courses := t.courses[id := CourseRow(title.value, d, i.value, e.createdAt, Some(e.createdAt))]))
    case CourseUpdated(title, d) =>
      // update_all writes both columns verbatim, nil included, on every matching row.
      if id !in t.courses then Some(t)
      else if title.None? then None
      else Some(t.(courses := t.courses[id := t.courses[id].(title := title.value, description := d,
                                                             updatedAt := Some(e.createdAt))]))
    case CourseDeleted => Some(t.(courses := t.courses - {id}))
    case LessonCreated(cid, title, c, o) =>
      if cid.None? || title.None? || o.None? || id in t.lessons then None
      else Some(t.(lessons := t.lessons[id := LessonRow(cid.value, title.value, c, o.value, e.createdAt, Some(e.createdAt))]))
    case LessonUpdated(title, c, o) =>
      if id !in t.lessons then Some(t)
      else Some(t.(lessons := t.lessons[id := UpdatedLesson(t.lessons[id], title, c, o, e.createdAt)]))
    case LessonDeleted => Some(t.(lessons := t.lessons - {id}))
    case LessonCompleted(u, l, cid, at) =>
      if u.None? || l.None? || cid.None? then None
      else Some(t.(completions := t.completions + [CompletionRow(u.value, l.value, cid.value, at, e.createdAt)]))
  }

  /** Projecting a sequence of events in order; a refused write stops everything. */
  function ProjectAll(t: Tables, es: seq<Event>): Option<Tables> {
    if es == [] then Some(t)
    else match ProjectAll(t, es[..|es| - 1])
      case None => None
      case Some(t') => Project(t', es[|es| - 1])
  }

  lemma ProjectAllAppend(t: Tables, es: seq<Event>, e: Event)
    ensures ProjectAll(t, es + [e]) == if ProjectAll(t, es).None? then None else Project(ProjectAll(t, es).value, e)
  {
    assert (es + [e])[..|es|] == es;
  }

  function CountCompletions(es: seq<Event>): nat {
    if es == [] then 0
    else CountCompletions(es[..|es| - 1]) + (if es[|es| - 1].payload.LessonCompleted? then 1 else 0)
  }

  // ----- One event -----

  /** Deleting a course removes its row and nothing else: its lessons and every
      completion recorded against it stay. */
  lemma CourseDeletionDoesNotCascade(t: Tables, e: Event)
    requires e.payload.CourseDeleted?
    ensures Project(t, e) == Some(Tables(t.courses - {e.aggregateId}, t.lessons, t.completions))
  {
  }

  lemma LessonDeletionKeepsCompletions(t: Tables, e: Event)
    requires e.payload.LessonDeleted?
    ensures Project(t, e) == Some(Tables(t.courses, t.lessons - {e.aggregateId}, t.completions))
  {
  }

  /** A title-less CourseUpdated on an existing course writes NULL into the NOT NULL
      title column, which the database refuses. */
  lemma CourseUpdateWithoutTitleIsRefused(t: Tables, e: Event)
    requires e.payload.CourseUpdated? && e.payload.title.None? && e.aggregateId in t.courses
    ensures Project(t, e).None?
  {
  }

  /** A description-less CourseUpdated clears the stored description. */
  lemma CourseUpdateClearsDescription(t: Tables, e: Event)
    requires e.payload.CourseUpdated? && e.payload.title.Some? && e.payload.description.None?
    requires e.aggregateId in t.courses
    ensures Project(t, e).Some?
    ensures Project(t, e).value.courses[e.aggregateId].description.None?
  {
  }

  /** LessonUpdated on an existing lesson always stamps `updated_at`, writes each column
      the event carries and keeps the others; every other row of every table is unchanged. */
  lemma LessonUpdateFrame(t: Tables, e: Event)
    requires e.payload.LessonUpdated? && e.aggregateId in t.lessons
    ensures Project(t, e).Some?
    ensures var r := Project(t, e).value; var before := t.lessons[e.aggregateId];
      && r.courses == t.courses && r.completions == t.completions
      && r.lessons.Keys == t.lessons.Keys
      && (forall id :: id in t.lessons && id != e.aggregateId ==> r.lessons[id] == t.lessons[id])
      && r.lessons[e.aggregateId].updatedAt == Some(e.createdAt)
      && r.lessons[e.aggregateId].courseId == before.courseId
      && r.lessons[e.aggregateId].createdAt == before.createdAt
      && r.lessons[e.aggregateId].title == (if e.payload.title.Some? then e.payload.title.value else before.title)
      && r.lessons[e.aggregateId].content == (if e.payload.content.Some? then e.payload.content else before.content)
      && r.lessons[e.aggregateId].order == (if e.payload.order.Some? then e.payload.order.value else before.order)
  {
  }

  /** An update of a row that does not exist matches nothing and changes nothing. */
  lemma UpdateOfMissingRowIsNoOp(t: Tables, e: Event)
    requires (e.payload.LessonUpdated? && e.aggregateId !in t.lessons)
          || (e.payload.CourseUpdated? && e.aggregateId !in t.courses)
    ensures Project(t, e) == Some(t)
  {
  }

  /** CourseUpdated with a title on an existing course writes title and description
      verbatim and stamps `updated_at`; instructor, creation time and every other row of
      every table are unchanged. */
  lemma CourseUpdateFrame(t: Tables, e: Event)
    requires e.payload.CourseUpdated? && e.payload.title.Some? && e.aggregateId in t.courses
    ensures Project(t, e).Some?
    ensures var r := Project(t, e).value; var before := t.courses[e.aggregateId];
      && r.lessons == t.lessons && r.completions == t.completions
      && r.courses.Keys == t.courses.Keys
      && (forall id :: id in t.courses && id != e.aggregateId ==> r.courses[id] == t.courses[id])
      && r.courses[e.aggregateId] == CourseRow(e.payload.title.value, e.payload.description, before.instructorId,
                                               before.createdAt, Some(e.createdAt))
  {
  }

  /** Every event other than a completion leaves the completions table as it was; a
      completion adds exactly one row at the end. */
  lemma CompletionsOnlyGrow(t: Tables, e: Event)
    requires Project(t, e).Some?
    ensures var r := Project(t, e).value;
      && |r.completions| == |t.completions| + (if e.payload.LessonCompleted? then 1 else 0)
      && r.completions[..|t.completions|] == t.completions
  {
  }

  // ----- Many events -----

  /** n completion events produce n completion rows, appended after the existing ones:
      nothing is updated or deduplicated. */
  lemma {:induction false} CompletionRowsCountEvents(t: Tables, es: seq<Event>)
    requires ProjectAll(t, es).Some?
    ensures var r := ProjectAll(t, es).value;
      && |r.completions| == |t.completions| + CountCompletions(es)
      && r.completions[..|t.completions|] == t.completions
  {
    if es != [] {
      var init := es[..|es| - 1];
      CompletionRowsCountEvents(t, init);
      CompletionsOnlyGrow(ProjectAll(t, init).value, es[|es| - 1]);
    }
  }

  /** The lesson row agrees with the Lesson aggregate. */
  predicate LessonRowMatches(row: LessonRow, s: LessonState) {
    s.courseId == Some(row.courseId) && s.title == Some(row.title)
    && s.content == row.content && s.order == Some(row.order)
  }

  /** The course row agrees with the Course aggregate. */
  predicate CourseRowMatches(row: CourseRow, s: CourseState) {
    s.title == Some(row.title) && s.description == row.description && s.instructorId == Some(row.instructorId)
  }

  /** A lesson stream is its creation followed by updates and completions of that lesson. */
  predicate LiveLessonStream(id: Id, es: seq<Event>) {
    && |es| > 0 && es[0].payload.LessonCreated?
    && (forall k :: 0 <= k < |es| ==> es[k].aggregateId == id)
    && (forall k :: 1 <= k < |es| ==> es[k].payload.LessonUpdated? || es[k].payload.LessonCompleted?)
  }

  /** One event of a live lesson stream keeps the row and the aggregate in step. */
  lemma LessonRowStep(prev: Tables, id: Id, e: Event, s: LessonState)
    requires id in prev.lessons && LessonRowMatches(prev.lessons[id], s)
    requires e.aggregateId == id && (e.payload.LessonUpdated? || e.payload.LessonCompleted?)
    requires Project(prev, e).Some?
    ensures id in Project(prev, e).value.lessons
    ensures LessonRowMatches(Project(prev, e).value.lessons[id], OnLesson(s, e.payload))
  {
  }

  /** Projecting a live lesson's stream yields a row equal to the aggregate's own state:
      the guarded LessonUpdated write mirrors the guarded handler. */
  lemma {:induction false} LessonRowReflectsAggregate(t: Tables, id: Id, es: seq<Event>)
    requires LiveLessonStream(id, es) && id !in t.lessons
    requires ProjectAll(t, es).Some?
    ensures id in ProjectAll(t, es).value.lessons
    ensures LessonRowMatches(ProjectAll(t, es).value.lessons[id], ReplayLesson(Payloads(es)))
  {
    var n := |es|;
    var init, e := es[..n - 1], es[n - 1];
    assert es == init + [e];
    ProjectAllAppend(t, init, e);
    PayloadsAppend(init, e);
    ReplayLessonAppend(Payloads(init), e.payload);
    if n == 1 {
      assert init == [];
      assert Payloads(init) == [];
    } else {
      assert LiveLessonStream(id, init) by {
        assert init[0] == es[0];
        assert forall k :: 0 <= k < |init| ==> init[k] == es[k];
      }
      LessonRowReflectsAggregate(t, id, init);
      LessonRowStep(ProjectAll(t, init).value, id, e, ReplayLesson(Payloads(init)));
    }
  }

  /** A course stream is its creation followed by updates of that course. */
  predicate LiveCourseStream(id: Id, es: seq<Event>) {
    && |es| > 0 && es[0].payload.CourseCreated?
    && (forall k :: 0 <= k < |es| ==> es[k].aggregateId == id)
    && (forall k :: 1 <= k < |es| ==> es[k].payload.CourseUpdated?)
  }

  /** One update with a description keeps the course row and the aggregate in step. */
  lemma CourseRowStep(prev: Tables, id: Id, e: Event, s: CourseState)
    requires id in prev.courses && CourseRowMatches(prev.courses[id], s)
    requires e.aggregateId == id && e.payload.CourseUpdated? && e.payload.description.Some?
    requires Project(prev, e).Some?
    ensures id in Project(prev, e).value.courses
    ensures CourseRowMatches(Project(prev, e).value.courses[id], OnCourse(s, e.payload))
  {
  }

  /** The course row agrees with the aggregate as long as every update carries a
      description; a title-less update never reaches this point, because the database
      refuses it. */
  lemma {:induction false} CourseRowReflectsAggregate(t: Tables, id: Id, es: seq<Event>)
    requires LiveCourseStream(id, es) && id !in t.courses
    requires forall k :: 1 <= k < |es| ==> es[k].payload.description.Some?
    requires ProjectAll(t, es).Some?
    ensures id in ProjectAll(t, es).value.courses
    ensures CourseRowMatches(ProjectAll(t, es).value.courses[id], ReplayCourse(Payloads(es)))
  {
    var n := |es|;
    var init, e := es[..n - 1], es[n - 1];
    assert es == init + [e];
    ProjectAllAppend(t, init, e);
    PayloadsAppend(init, e);
    ReplayCourseAppend(Payloads(init), e.payload);
    if n == 1 {
      assert init == [];
      assert Payloads(init) == [];
    } else {
      assert forall k :: 0 <= k < |init| ==> init[k] == es[k];
      assert LiveCourseStream(id, init);
      CourseRowReflectsAggregate(t, id, init);
      CourseRowStep(ProjectAll(t, init).value, id, e, ReplayCourse(Payloads(init)));
    }
  }

  /** Without that proviso they part ways: after CourseCreated("A", "D", "I") and
      CourseUpdated("B", nil) the aggregate still has description "D" but the row has
      none. */
  lemma CourseRowDivergesOnMissingDescription()
    ensures var id := "c1";
      var es := [Event(id, 1, 10, CourseCreated(Some("A"), Some("D"), Some("I"))),
                 Event(id, 2, 20, CourseUpdated(Some("B"), None))];
      && ProjectAll(EmptyTables, es).Some?
      && ProjectAll(EmptyTables, es).value.courses[id].description == None
      && ReplayCourse(Payloads(es)).description == Some("D")
  {
    var id := "c1";
    var e1 := Event(id, 1, 10, CourseCreated(Some("A"), Some("D"), Some("I")));
    var e2 := Event(id, 2, 20, CourseUpdated(Some("B"), None));
    ProjectAllAppend(EmptyTables, [], e1);
    ProjectAllAppend(EmptyTables, [e1], e2);
    assert [e1, e2] == [e1] + [e2];
    PayloadsAppend([], e1);
    PayloadsAppend([e1], e2);
    ReplayCourseAppend([], e1.payload);
    ReplayCourseAppend([e1.payload], e2.payload);
  }

  // ----- Implementation: the projector updating its tables in place -----

  class CourseProjection {
    var courses: map<Id, CourseRow>
    var lessons: map<Id, LessonRow>
    var completions: seq<CompletionRow>

    function Snapshot(): Tables
      reads this
    {
      Tables(courses, lessons, completions)
    }

    constructor ()
      ensures Snapshot() == EmptyTables
    {
      courses, lessons, completions := map[], map[], [];
    }

    /** Applies the write rule of `e`; a write the database refuses changes nothing. */
    method Handle(e: Event) returns (ok: bool)
      modifies this
      ensures ok <==> Project(old(Snapshot()), e).Some?
      ensures Snapshot() == if ok then Project(old(Snapshot()), e).value else old(Snapshot())
    {
      var id := e.aggregateId;
      ok := true;
      match e.payload {
        case CourseCreated(title, d, i) =>
          if title.None? || i.None? || id in courses {
            ok := false;
          } else {
            courses := courses[id := CourseRow(title.value, d, i.value, e.createdAt, Some(e.createdAt))];
          }
        case CourseUpdated(title, d) =>
          if id in courses {
            if title.None? {
              ok := false;
            } else {
              courses := courses[id := courses[id].(title := title.value, description := d, updatedAt := Some(e.createdAt))];
            }
          }
        case CourseDeleted =>
          courses := courses - {id};
        case LessonCreated(cid, title, c, o) =>
          if cid.None? || title.None? || o.None? || id in lessons {
            ok := false;
          } else {
            lessons := lessons[id := LessonRow(cid.value, title.value, c, o.value, e.createdAt, Some(e.createdAt))];
          }
        case LessonUpdated(title, c, o) =>
          if id in lessons {
            var row := lessons[id].(updatedAt := Some(e.createdAt));
            if title.Some? { row := row.(title := title.value); }
            if c.Some? { row := row.(content := c); }
            if o.Some? { row := row.(order := o.value); }
            lessons := lessons[id := row];
          }
        case LessonDeleted =>
          lessons := lessons - {id};
        case LessonCompleted(u, l, cid, at) =>
          if u.None? || l.None? || cid.None? {
            ok := false;
          } else {
            completions := completions + [CompletionRow(u.value, l.value, cid.value, at, e.createdAt)];
          }
      }
    }
  }
}
