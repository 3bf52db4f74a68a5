/**
 * The command handler (lms/app/domain/command_handlers/course_command_handler.rb) and
 * the event store it writes. A creation command builds a new aggregate and opens its
 * stream (`add_aggregate`); every other command loads the aggregate its id names,
 * runs one operation on it and appends the result (`do_with_aggregate`). The event
 * store is one stream of events per aggregate id, numbered 1..n; the projector runs
 * in the same transaction, so a write it cannot make undoes the whole command.
 */
module CommandHandling {
  import opened Wrappers
  import opened Events
  import opened Commands
  import opened Aggregates
  import opened Projections

  datatype Error =
    | NotValid(attributes: set<Attribute>)   // the command fails a presence rule
    | AggregateNotFound                      // no stream under the command's id
    | WrongAggregateType                     // the stream belongs to the other aggregate class
    | DuplicateStream                        // a creation for an id that already has events
    | WriteRefused                           // the projector's write broke a table constraint

  type Store = map<Id, seq<Event>>

  function Stream(store: Store, id: Id): seq<Event> {
    if id in store then store[id] else []
  }

  function StreamKind(s: seq<Event>): Option<AggregateKind> {
    if s == [] then None else Some(KindOf(s[0].payload))
  }

  /** The aggregate class each command is dispatched to. */
  function TargetKind(cmd: Command): AggregateKind {
    match cmd
    case CreateCourse(_, _, _, _) => CourseKind
    case UpdateCourse(_, _, _) => CourseKind
    case DeleteCourse(_) => CourseKind
    case _ => LessonKind
  }

  /** `load_aggregate`: the stream must exist and belong to the expected class. */
  function Locate(store: Store, id: Id, kind: AggregateKind): Option<Error> {
    if Stream(store, id) == [] then Some(AggregateNotFound)
    else if StreamKind(store[id]) != Some(kind) then Some(WrongAggregateType)
    else None
  }

  /** The payload a mutation command's aggregate operation applies, given the stream it
      was loaded from. */
  function MutationPayload(s: seq<Event>, cmd: Command, now: Time): Payload
    requires !cmd.CreateCourse? && !cmd.CreateLesson?
  {
    match cmd
    case UpdateCourse(_, t, d) => CourseUpdated(t, d)
    case DeleteCourse(_) => CourseDeleted
    case UpdateLesson(_, t, c, o) => LessonUpdated(t, c, o)
    case DeleteLesson(_) => LessonDeleted
    case CompleteLesson(id, u) => LessonCompleted(u, Some(id), ReplayLesson(Payloads(s)).courseId, now)
  }

  /** The single event a command produces against the store, or why it produces none. */
  function Decide(store: Store, cmd: Command, now: Time): Result<Event, Error> {
    var id := cmd.aggregateId;
    if !Valid(cmd) then Err(NotValid(Errors(cmd)))
    else match cmd
      case CreateCourse(_, t, d, i) =>
        if id in store then Err(DuplicateStream) else Ok(Event(id, 1, now, CourseCreated(t, d, i)))
      case CreateLesson(_, cid, t, c, o) =>
        if id in store then Err(DuplicateStream) else Ok(Event(id, 1, now, LessonCreated(cid, t, c, o)))
      case _ =>
        match Locate(store, id, TargetKind(cmd))
        case Some(err) => Err(err)
        case None => Ok(Event(id, LastSequence(store[id]) + 1, now, MutationPayload(store[id], cmd, now)))
  }

  /** The result of the whole transaction: the committed event, or the error. */
  function Outcome(store: Store, tables: Tables, cmd: Command, now: Time): Result<Event, Error> {
    match Decide(store, cmd, now)
    case Err(err) => Err(err)
    case Ok(e) => if Project(tables, e).None? then Err(WriteRefused) else Ok(e)
  }

  function Commit(store: Store, e: Event): Store {
    store[e.aggregateId := Stream(store, e.aggregateId) + [e]]
  }

  /** A stream opens with its creation event, holds events of one aggregate class only,
      never a second creation, and numbers its events 1..n, so that (aggregate id,
      sequence number) is unique across the store. */
  predicate WellFormedStream(id: Id, s: seq<Event>) {
    && |s| > 0 && IsCreation(s[0].payload)
    && (forall k :: 0 <= k < |s| ==> s[k].aggregateId == id && s[k].sequenceNumber == k + 1)
    && (forall k :: 0 <= k < |s| ==> KindOf(s[k].payload) == KindOf(s[0].payload))
    && (forall k :: 1 <= k < |s| ==> !IsCreation(s[k].payload))
  }

  predicate WellFormedStore(store: Store) {
    forall id :: id in store ==> WellFormedStream(id, store[id])
  }

  // ----- Properties of the dispatch -----

  /** A valid creation for a fresh id opens a stream holding exactly its Created event,
      and replaying that stream gives back the command's fields. */
  lemma CreateCourseOpensStream(store: Store, cmd: Command, now: Time)
    requires cmd.CreateCourse? && Valid(cmd) && cmd.aggregateId !in store
    ensures Decide(store, cmd, now).Ok?
    ensures var e := Decide(store, cmd, now).value;
      && Commit(store, e)[cmd.aggregateId] == [e]
      && e.payload == CourseCreated(cmd.title, cmd.description, cmd.instructorId)
      && ReplayCourse(Payloads([e])) == CourseState(cmd.title, cmd.description, cmd.instructorId, false)
  {
    var e := Decide(store, cmd, now).value;
    PayloadsAppend([], e);
    CourseCreateRoundTrip(cmd.title, cmd.description, cmd.instructorId);
  }

  lemma CreateLessonOpensStream(store: Store, cmd: Command, now: Time)
    requires cmd.CreateLesson? && Valid(cmd) && cmd.aggregateId !in store
    ensures Decide(store, cmd, now).Ok?
    ensures var e := Decide(store, cmd, now).value;
      && Commit(store, e)[cmd.aggregateId] == [e]
      && e.payload == LessonCreated(cmd.courseId, cmd.title, cmd.content, cmd.order)
      && ReplayLesson(Payloads([e])) == LessonState(cmd.courseId, cmd.title, cmd.content, cmd.order, false, false)
  {
    var e := Decide(store, cmd, now).value;
    PayloadsAppend([], e);
    LessonCreateRoundTrip(cmd.courseId, cmd.title, cmd.content, cmd.order);
  }

  /** A mutation command adds exactly one event, numbered after the last, at the end of
      the stream it names; no other stream changes. */
  lemma MutationAppendsOneEvent(store: Store, cmd: Command, now: Time)
    requires WellFormedStore(store)
    requires !cmd.CreateCourse? && !cmd.CreateLesson?
    requires Decide(store, cmd, now).Ok?
    ensures var e, id := Decide(store, cmd, now).value, cmd.aggregateId;
      && id in store && e.aggregateId == id
      && Commit(store, e)[id] == store[id] + [e]
      && |Commit(store, e)[id]| == |store[id]| + 1
      && e.sequenceNumber == |store[id]| + 1
      && (forall other :: other in store && other != id ==> Commit(store, e)[other] == store[other])
  {
  }

  /** A command naming an id with no stream is refused and appends nothing. */
  lemma MissingAggregateIsRefused(store: Store, tables: Tables, cmd: Command, now: Time)
    requires Valid(cmd) && !cmd.CreateCourse? && !cmd.CreateLesson?
    requires cmd.aggregateId !in store
    ensures Outcome(store, tables, cmd, now) == Err(AggregateNotFound)
  {
  }

  /** Each command is answered by the operation of its own aggregate class. */
  predicate Answers(cmd: Command, p: Payload) {
    match cmd
    case CreateCourse(_, _, _, _) => p.CourseCreated?
    case UpdateCourse(_, _, _) => p.CourseUpdated?
    case DeleteCourse(_) => p.CourseDeleted?
    case CreateLesson(_, _, _, _, _) => p.LessonCreated?
    case UpdateLesson(_, _, _, _) => p.LessonUpdated?
    case DeleteLesson(_) => p.LessonDeleted?
    case CompleteLesson(_, _) => p.LessonCompleted?
  }

  lemma DispatchIsOneToOne(store: Store, cmd: Command, now: Time)
    requires WellFormedStore(store)
    requires Decide(store, cmd, now).Ok?
    ensures var e := Decide(store, cmd, now).value;
      && e.aggregateId == cmd.aggregateId
      && Answers(cmd, e.payload)
      && KindOf(e.payload) == TargetKind(cmd)
      && (!IsCreation(e.payload) ==> StreamKind(store[cmd.aggregateId]) == Some(TargetKind(cmd)))
  {
  }

  /** The completion event names the lesson itself and the course the lesson was
      created in, whatever updates came since. */
  lemma {:induction false} CompletionNamesCreationCourse(store: Store, id: Id, u: Option<string>, now: Time)
    requires WellFormedStore(store)
    requires Decide(store, CompleteLesson(id, u), now).Ok?
    ensures var s := store[id];
      Decide(store, CompleteLesson(id, u), now).value.payload
        == LessonCompleted(u, Some(id), s[0].payload.courseId, now)
  {
    var cmd := CompleteLesson(id, u);
    assert Valid(cmd) && Locate(store, id, LessonKind).None?;
    var s := store[id];
    assert WellFormedStream(id, s) && StreamKind(s) == Some(LessonKind);
    var ps := Payloads(s);
    assert ps[0].LessonCreated? by {
      assert ps[0] == s[0].payload && IsCreation(s[0].payload) && KindOf(s[0].payload) == LessonKind;
    }
    forall k | 1 <= k < |ps| ensures !ps[k].LessonCreated? {
      assert ps[k] == s[k].payload && !IsCreation(s[k].payload);
    }
    LessonCourseIsFixed(ps);
    assert Decide(store, cmd, now).value.payload == MutationPayload(s, cmd, now);
  }

  /** The deleted flag is never consulted: a deleted course still accepts updates. */
  lemma DeletedCourseStillUpdates(store: Store, id: Id, t: Option<string>, d: Option<string>, now: Time)
    requires WellFormedStore(store) && id in store && store[id][0].payload.CourseCreated?
    requires ReplayCourse(Payloads(store[id])).deleted
    ensures Decide(store, UpdateCourse(id, t, d), now).Ok?
  {
  }

  /** What `Decide` makes of a valid mutation whose aggregate was found: the event of
      the command's operation, numbered after the last one of the stream. */
  lemma DecideMutation(store: Store, cmd: Command, now: Time)
    requires !cmd.CreateCourse? && !cmd.CreateLesson? && Valid(cmd)
    requires Locate(store, cmd.aggregateId, TargetKind(cmd)).None?
    ensures cmd.aggregateId in store
    ensures Decide(store, cmd, now)
      == Ok(Event(cmd.aggregateId, LastSequence(store[cmd.aggregateId]) + 1, now,
                  MutationPayload(store[cmd.aggregateId], cmd, now)))
  {
  }

  /** Appending a non-creation event of the stream's own class, numbered after the
      last, keeps the stream well formed. */
  lemma AppendKeepsStreamWellFormed(id: Id, s: seq<Event>, e: Event)
    requires WellFormedStream(id, s)
    requires e.aggregateId == id && e.sequenceNumber == |s| + 1
    requires KindOf(e.payload) == KindOf(s[0].payload) && !IsCreation(e.payload)
    ensures WellFormedStream(id, s + [e])
  {
    var s' := s + [e];
    assert forall k :: 0 <= k < |s| ==> s'[k] == s[k];
    assert s'[|s|] == e;
  }

  /** Committing what `Decide` produced keeps every stream well formed. */
  lemma CommitKeepsStoreWellFormed(store: Store, cmd: Command, now: Time)
    requires WellFormedStore(store)
    requires Decide(store, cmd, now).Ok?
    ensures WellFormedStore(Commit(store, Decide(store, cmd, now).value))
  {
    var e := Decide(store, cmd, now).value;
    var id := cmd.aggregateId;
    var s' := Stream(store, id) + [e];
    if cmd.CreateCourse? || cmd.CreateLesson? {
      assert s' == [e];
      assert WellFormedStream(id, s');
    } else {
      DecideMutation(store, cmd, now);
      var s := store[id];
      assert WellFormedStream(id, s);
      assert LastSequence(s) == |s|;
      assert KindOf(e.payload) == KindOf(s[0].payload);
      AppendKeepsStreamWellFormed(id, s, e);
    }
    assert Commit(store, e) == store[id := s'];
  }

  // ----- Implementation -----

  class CommandHandler {
    var store: Store
    const projection: CourseProjection
    /** Every committed event, in commit order. */
    ghost var log: seq<Event>

    /** The store is well formed, and the read model is exactly what projecting the
        committed events in order produces. */
    ghost predicate Valid()
      reads this, projection
    {
      WellFormedStore(store) && ProjectAll(EmptyTables, log) == Some(projection.Snapshot())
    }

    constructor ()
      ensures Valid() && fresh(projection)
      ensures store == map[] && log == [] && projection.Snapshot() == EmptyTables
    {
      store := map[];
      projection := new CourseProjection();
      log := [];
    }

    /** `add_aggregate`: the new aggregate's uncommitted events. */
    method NewAggregate(cmd: Command, now: Time) returns (events: seq<Event>)
      requires (cmd.CreateCourse? || cmd.CreateLesson?) && Commands.Valid(cmd) && cmd.aggregateId !in store
      ensures events == [Decide(store, cmd, now).value]
    {
      if cmd.CreateCourse? {
        var course := new Course(cmd, now);
        events := course.uncommittedEvents;
      } else {
        var lesson := new Lesson(cmd, now);
        events := lesson.uncommittedEvents;
      }
    }

    /** `do_with_aggregate`: load the aggregate from its stream, run the command's
        operation on it and return what it applied. */
    method WithAggregate(cmd: Command, now: Time) returns (events: seq<Event>)
      requires !cmd.CreateCourse? && !cmd.CreateLesson? && Commands.Valid(cmd)
      requires Locate(store, cmd.aggregateId, TargetKind(cmd)).None?
      ensures events == [Decide(store, cmd, now).value]
    {
      var id := cmd.aggregateId;
      DecideMutation(store, cmd, now);
      if TargetKind(cmd) == CourseKind {
        var course := new Course.Load(id, store[id]);
        match cmd {
          case UpdateCourse(_, _, _) => course.Update(cmd, now);
          case DeleteCourse(_) => course.Delete(now);
        }
        events := course.uncommittedEvents;
      } else {
        var lesson := new Lesson.Load(id, store[id]);
        match cmd {
          case UpdateLesson(_, _, _, _) => lesson.Update(cmd, now);
          case DeleteLesson(_) => lesson.Delete(now);
          case CompleteLesson(_, u) => lesson.Complete(u, now);
        }
        events := lesson.uncommittedEvents;
      }
    }

    /** Runs one command end to end; on any error nothing is stored or projected. */
    method Execute(cmd: Command, now: Time) returns (r: Result<Event, Error>)
      requires Valid()
      modifies this, projection
      ensures Valid()
      ensures r == Outcome(old(store), old(projection.Snapshot()), cmd, now)
      ensures r.Ok? ==> && store == Commit(old(store), r.value)
                        && Some(projection.Snapshot()) == Project(old(projection.Snapshot()), r.value)
                        && log == old(log) + [r.value]
      ensures r.Err? ==> store == old(store) && projection.Snapshot() == old(projection.Snapshot()) && log == old(log)
    {
      if !Commands.Valid(cmd) {
        return Err(NotValid(Errors(cmd)));
      }
      var id := cmd.aggregateId;
      var events: seq<Event>;
      if cmd.CreateCourse? || cmd.CreateLesson? {
        if id in store {
          return Err(DuplicateStream);
        }
        events := NewAggregate(cmd, now);
      } else {
        var missing := Locate(store, id, TargetKind(cmd));
        if missing.Some? {
          return Err(missing.value);
        }
        events := WithAggregate(cmd, now);
      }
      var e := events[0];
      var ok := projection.Handle(e);
      if !ok {
        return Err(WriteRefused);
      }
      CommitKeepsStoreWellFormed(store, cmd, now);
      ProjectAllAppend(EmptyTables, log, e);
      store := store[id := Stream(store, id) + events];
      log := log + [e];
      r := Ok(e);
    }
  }
}
