/**
 * The Course and Lesson aggregates (lms/app/domain/aggregates/course_aggregates.rb).
 * An aggregate's state is what its `on` handlers leave behind after every event of its
 * stream has been handled in order; a mutator builds exactly one new event, handles it
 * and keeps it as uncommitted for the command handler to store.
 *
 * `OnCourse`/`OnLesson` and `ReplayCourse`/`ReplayLesson` are the specification; the
 * classes are the step-by-step implementation and are proved against it.
 */
module Aggregates {
  import opened Wrappers
  import opened Events
  import opened Commands

  // ----- Specification: handlers and replay -----

  datatype CourseState = CourseState(title: Option<string>, description: Option<string>,
                                     instructorId: Option<string>, deleted: bool)

  const InitialCourse := CourseState(None, None, None, false)

  /** `@x = v if v`: only nil leaves the old value; "" and 0 still overwrite. */
  function Overwrite<T>(current: Option<T>, update: Option<T>): Option<T> {
    if update.Some? then update else current
  }

  function OnCourse(s: CourseState, p: Payload): CourseState {
    match p
    case CourseCreated(t, d, i) => s.(title := t, description := d, instructorId := i)
    case CourseUpdated(t, d) => s.(title := Overwrite(s.title, t), description := Overwrite(s.description, d))
    case CourseDeleted => s.(deleted := true)
    case _ => s
  }

  function ReplayCourse(ps: seq<Payload>): CourseState {
    if ps == [] then InitialCourse else OnCourse(ReplayCourse(ps[..|ps| - 1]), ps[|ps| - 1])
  }

  datatype LessonState = LessonState(courseId: Option<string>, title: Option<string>, content: Option<string>,
                                     order: Option<int>, deleted: bool, completed: bool)

  const InitialLesson := LessonState(None, None, None, None, false, false)

  function OnLesson(s: LessonState, p: Payload): LessonState {
    match p
    case LessonCreated(cid, t, c, o) => s.(courseId := cid, title := t, content := c, order := o)
    case LessonUpdated(t, c, o) =>
      s.(title := Overwrite(s.title, t), content := Overwrite(s.content, c), order := Overwrite(s.order, o))
    case LessonDeleted => s.(deleted := true)
    case LessonCompleted(_, _, _, _) => s.(completed := true)
    case _ => s
  }

  function ReplayLesson(ps: seq<Payload>): LessonState {
    if ps == [] then InitialLesson else OnLesson(ReplayLesson(ps[..|ps| - 1]), ps[|ps| - 1])
  }

  lemma ReplayCourseAppend(ps: seq<Payload>, p: Payload)
    ensures ReplayCourse(ps + [p]) == OnCourse(ReplayCourse(ps), p)
  {
    assert (ps + [p])[..|ps|] == ps;
  }

  lemma ReplayLessonAppend(ps: seq<Payload>, p: Payload)
    ensures ReplayLesson(ps + [p]) == OnLesson(ReplayLesson(ps), p)
  {
    assert (ps + [p])[..|ps|] == ps;
  }

  /** One more event of a stored stream, as the loading loops take it. */
  lemma HistoryStep(history: seq<Event>, i: nat)
    requires i < |history|
    ensures ReplayCourse(Payloads(history[..i + 1])) == OnCourse(ReplayCourse(Payloads(history[..i])), history[i].payload)
    ensures ReplayLesson(Payloads(history[..i + 1])) == OnLesson(ReplayLesson(Payloads(history[..i])), history[i].payload)
    ensures LastSequence(history[..i + 1]) == history[i].sequenceNumber
  {
    assert history[..i + 1] == history[..i] + [history[i]];
    PayloadsAppend(history[..i], history[i]);
    ReplayCourseAppend(Payloads(history[..i]), history[i].payload);
    ReplayLessonAppend(Payloads(history[..i]), history[i].payload);
  }

  // ----- Properties of the specification -----

  /** Create, then load: the replayed course holds exactly the fields of the creation event. */
  lemma CourseCreateRoundTrip(t: Option<string>, d: Option<string>, i: Option<string>)
    ensures ReplayCourse([CourseCreated(t, d, i)]) == CourseState(t, d, i, false)
  {
    assert [CourseCreated(t, d, i)][..0] == [];
  }

  lemma LessonCreateRoundTrip(cid: Option<string>, t: Option<string>, c: Option<string>, o: Option<int>)
    ensures ReplayLesson([LessonCreated(cid, t, c, o)]) == LessonState(cid, t, c, o, false, false)
  {
    assert [LessonCreated(cid, t, c, o)][..0] == [];
  }

  /** A partial update changes a field exactly when the update carries a value for it;
      a deleted course is updated like any other. */
  lemma CourseUpdateIsPartial(ps: seq<Payload>, t: Option<string>, d: Option<string>)
    ensures var before, after := ReplayCourse(ps), ReplayCourse(ps + [CourseUpdated(t, d)]);
      && (after.title == if t.Some? then t else before.title)
      && (after.description == if d.Some? then d else before.description)
      && after.instructorId == before.instructorId
      && after.deleted == before.deleted
  {
    ReplayCourseAppend(ps, CourseUpdated(t, d));
  }

  lemma LessonUpdateIsPartial(ps: seq<Payload>, t: Option<string>, c: Option<string>, o: Option<int>)
    ensures var before, after := ReplayLesson(ps), ReplayLesson(ps + [LessonUpdated(t, c, o)]);
      && (after.title == if t.Some? then t else before.title)
      && (after.content == if c.Some? then c else before.content)
      && (after.order == if o.Some? then o else before.order)
      && after.courseId == before.courseId
      && after.deleted == before.deleted && after.completed == before.completed
  {
    ReplayLessonAppend(ps, LessonUpdated(t, c, o));
  }

  /** Order 0 is a value, not an absence: it overwrites the previous order. */
  lemma LessonOrderZeroOverwrites(ps: seq<Payload>)
    ensures ReplayLesson(ps + [LessonUpdated(None, None, Some(0))]).order == Some(0)
  {
    ReplayLessonAppend(ps, LessonUpdated(None, None, Some(0)));
  }

  /** Once created, a course keeps its instructor: no later event other than a second
      creation can change it, and CourseUpdated carries no instructor at all. */
  lemma {:induction false} InstructorIsFixed(ps: seq<Payload>)
    requires |ps| > 0 && ps[0].CourseCreated?
    requires forall k :: 1 <= k < |ps| ==> !ps[k].CourseCreated?
    ensures ReplayCourse(ps).instructorId == ps[0].instructorId
  {
    if |ps| == 1 {
      assert ps[..0] == [];
    } else {
      InstructorIsFixed(ps[..|ps| - 1]);
    }
  }

  /** A lesson's course is the one named at creation: LessonUpdated carries no course id. */
  lemma {:induction false} LessonCourseIsFixed(ps: seq<Payload>)
    requires |ps| > 0 && ps[0].LessonCreated?
    requires forall k :: 1 <= k < |ps| ==> !ps[k].LessonCreated?
    ensures ReplayLesson(ps).courseId == ps[0].courseId
  {
    if |ps| == 1 {
      assert ps[..0] == [];
    } else {
      LessonCourseIsFixed(ps[..|ps| - 1]);
    }
  }

  /** Completions leave the lesson's content alone and only raise a flag: completing
      again is indistinguishable from completing once. */
  lemma {:induction false} CompletionsOnlyRaiseFlag(ps: seq<Payload>, cs: seq<Payload>)
    requires |cs| > 0 && forall k :: 0 <= k < |cs| ==> cs[k].LessonCompleted?
    ensures ReplayLesson(ps + cs) == ReplayLesson(ps).(completed := true)
  {
    var n := |cs|;
    assert (ps + cs)[..|ps + cs| - 1] == ps + cs[..n - 1];
    if n > 1 {
      CompletionsOnlyRaiseFlag(ps, cs[..n - 1]);
    } else {
      assert ps + cs[..n - 1] == ps;
    }
  }

  // ----- Implementation: the aggregate objects -----

  class Course {
    const id: Id
    var title: Option<string>
    var description: Option<string>
    var instructorId: Option<string>
    var deleted: bool
    /** Sequence number of the last event applied to this aggregate. */
    var sequenceNumber: nat
    var uncommittedEvents: seq<Event>

    function State(): CourseState
      reads this
    {
      CourseState(title, description, instructorId, deleted)
    }

    /** The `on` handlers: one branch per event class, assigning fields one by one. */
    method On(p: Payload)
      modifies this
      ensures State() == OnCourse(old(State()), p)
      ensures sequenceNumber == old(sequenceNumber) && uncommittedEvents == old(uncommittedEvents)
    {
      match p {
        case CourseCreated(t, d, i) =>
          title := t;
          description := d;
          instructorId := i;
        case CourseUpdated(t, d) =>
          if t.Some? { title := t; }
          if d.Some? { description := d; }
        case CourseDeleted =>
          deleted := true;
        case _ =>
      }
    }

    /** `apply`: the next event of this stream is built, handled and kept uncommitted. */
    method Apply(p: Payload, now: Time)
      modifies this
      ensures sequenceNumber == old(sequenceNumber) + 1
      ensures uncommittedEvents == old(uncommittedEvents) + [Event(id, sequenceNumber, now, p)]
      ensures State() == OnCourse(old(State()), p)
    {
      var e := Event(id, sequenceNumber + 1, now, p);
      On(p);
      sequenceNumber := sequenceNumber + 1;
      uncommittedEvents := uncommittedEvents + [e];
    }

    /** `Course.new(command)`: a fresh aggregate whose only event is CourseCreated. */
    constructor (cmd: Command, now: Time)
      requires cmd.CreateCourse?
      ensures id == cmd.aggregateId && sequenceNumber == 1
      ensures uncommittedEvents == [Event(id, 1, now, CourseCreated(cmd.title, cmd.description, cmd.instructorId))]
      ensures State() == ReplayCourse([CourseCreated(cmd.title, cmd.description, cmd.instructorId)])
    {
      id := cmd.aggregateId;
      title, description, instructorId, deleted := None, None, None, false;
      sequenceNumber, uncommittedEvents := 0, [];
      new;
      Apply(CourseCreated(cmd.title, cmd.description, cmd.instructorId), now);
      assert [CourseCreated(cmd.title, cmd.description, cmd.instructorId)][..0] == [];
    }

    /** Rebuild from the stored stream: every event goes through its handler in order,
        none becomes uncommitted, and the next event will follow the last one. */
    constructor Load(aggregateId: Id, history: seq<Event>)
      ensures id == aggregateId && uncommittedEvents == []
      ensures State() == ReplayCourse(Payloads(history))
      ensures sequenceNumber == LastSequence(history)
    {
      id := aggregateId;
      title, description, instructorId, deleted := None, None, None, false;
      sequenceNumber, uncommittedEvents := 0, [];
      new;
      var i := 0;
      while i < |history|
        invariant 0 <= i <= |history|
        invariant State() == ReplayCourse(Payloads(history[..i]))
        invariant sequenceNumber == LastSequence(history[..i])
        invariant uncommittedEvents == []
      {
        HistoryStep(history, i);
        On(history[i].payload);
        sequenceNumber := history[i].sequenceNumber;
        i := i + 1;
      }
      assert history[..i] == history;
    }

    method Update(cmd: Command, now: Time)
      requires cmd.UpdateCourse?
      modifies this
      ensures sequenceNumber == old(sequenceNumber) + 1
      ensures uncommittedEvents == old(uncommittedEvents) + [Event(id, sequenceNumber, now, CourseUpdated(cmd.title, cmd.description))]
      ensures State() == OnCourse(old(State()), CourseUpdated(cmd.title, cmd.description))
    {
      Apply(CourseUpdated(cmd.title, cmd.description), now);
    }

    /** Sets the deleted flag; nothing reads it, so later updates are still accepted. */
    method Delete(now: Time)
      modifies this
      ensures sequenceNumber == old(sequenceNumber) + 1
      ensures uncommittedEvents == old(uncommittedEvents) + [Event(id, sequenceNumber, now, CourseDeleted)]
      ensures State() == old(State()).(deleted := true)
    {
      Apply(CourseDeleted, now);
    }
  }

  class Lesson {
    const id: Id
    var courseId: Option<string>
    var title: Option<string>
    var content: Option<string>
    var order: Option<int>
    var deleted: bool
    var completed: bool
    var sequenceNumber: nat
    var uncommittedEvents: seq<Event>

    function State(): LessonState
      reads this
    {
      LessonState(courseId, title, content, order, deleted, completed)
    }

    method On(p: Payload)
      modifies this
      ensures State() == OnLesson(old(State()), p)
      ensures sequenceNumber == old(sequenceNumber) && uncommittedEvents == old(uncommittedEvents)
    {
      match p {
        case LessonCreated(cid, t, c, o) =>
          courseId := cid;
          title := t;
          content := c;
          order := o;
        case LessonUpdated(t, c, o) =>
          if t.Some? { title := t; }
          if c.Some? { content := c; }
          if o.Some? { order := o; }
        case LessonDeleted =>
          deleted := true;
        case LessonCompleted(_, _, _, _) =>
          completed := true;
        case _ =>
      }
    }

    method Apply(p: Payload, now: Time)
      modifies this
      ensures sequenceNumber == old(sequenceNumber) + 1
      ensures uncommittedEvents == old(uncommittedEvents) + [Event(id, sequenceNumber, now, p)]
      ensures State() == OnLesson(old(State()), p)
    {
      var e := Event(id, sequenceNumber + 1, now, p);
      On(p);
      sequenceNumber := sequenceNumber + 1;
      uncommittedEvents := uncommittedEvents + [e];
    }

    constructor (cmd: Command, now: Time)
      requires cmd.CreateLesson?
      ensures id == cmd.aggregateId && sequenceNumber == 1
      ensures uncommittedEvents == [Event(id, 1, now, LessonCreated(cmd.courseId, cmd.title, cmd.content, cmd.order))]
      ensures State() == ReplayLesson([LessonCreated(cmd.courseId, cmd.title, cmd.content, cmd.order)])
    {
      id := cmd.aggregateId;
      courseId, title, content, order, deleted, completed := None, None, None, None, false, false;
      sequenceNumber, uncommittedEvents := 0, [];
      new;
      Apply(LessonCreated(cmd.courseId, cmd.title, cmd.content, cmd.order), now);
      assert [LessonCreated(cmd.courseId, cmd.title, cmd.content, cmd.order)][..0] == [];
    }

    constructor Load(aggregateId: Id, history: seq<Event>)
      ensures id == aggregateId && uncommittedEvents == []
      ensures State() == ReplayLesson(Payloads(history))
      ensures sequenceNumber == LastSequence(history)
    {
      id := aggregateId;
      courseId, title, content, order, deleted, completed := None, None, None, None, false, false;
      sequenceNumber, uncommittedEvents := 0, [];
      new;
      var i := 0;
      while i < |history|
        invariant 0 <= i <= |history|
        invariant State() == ReplayLesson(Payloads(history[..i]))
        invariant sequenceNumber == LastSequence(history[..i])
        invariant uncommittedEvents == []
      {
        HistoryStep(history, i);
        On(history[i].payload);
        sequenceNumber := history[i].sequenceNumber;
        i := i + 1;
      }
      assert history[..i] == history;
    }

    method Update(cmd: Command, now: Time)
      requires cmd.UpdateLesson?
      modifies this
      ensures sequenceNumber == old(sequenceNumber) + 1
      ensures uncommittedEvents == old(uncommittedEvents) + [Event(id, sequenceNumber, now, LessonUpdated(cmd.title, cmd.content, cmd.order))]
      ensures State() == OnLesson(old(State()), LessonUpdated(cmd.title, cmd.content, cmd.order))
    {
      Apply(LessonUpdated(cmd.title, cmd.content, cmd.order), now);
    }

    method Delete(now: Time)
      modifies this
      ensures sequenceNumber == old(sequenceNumber) + 1
      ensures uncommittedEvents == old(uncommittedEvents) + [Event(id, sequenceNumber, now, LessonDeleted)]
      ensures State() == old(State()).(deleted := true)
    {
      Apply(LessonDeleted, now);
    }

    /** Emits one LessonCompleted per call, naming this lesson and the course it was
        created in, stamped with the current time; the aggregate keeps only a flag. */
    method Complete(userId: Option<string>, now: Time)
      modifies this
      ensures sequenceNumber == old(sequenceNumber) + 1
      ensures uncommittedEvents == old(uncommittedEvents)
                                   + [Event(id, sequenceNumber, now, LessonCompleted(userId, Some(id), old(courseId), now))]
      ensures State() == old(State()).(completed := true)
    {
      Apply(LessonCompleted(userId, Some(id), courseId, now), now);
    }
  }
}
