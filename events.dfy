/**
 * The seven events of the LMS domain (lms/app/domain/events/course_events.rb).
 * Every Sequent event also carries the id of the aggregate whose stream it belongs to,
 * its sequence number in that stream and its creation time; the payload holds the
 * attributes declared with `attrs`. An attribute the source declares may be nil, so
 * each is an `Option`.
 */
module Events {
  import opened Wrappers

  /** Aggregate ids, user ids and course ids are strings (UUIDs in practice). */
  type Id = string

  /** Timestamps are opaque: only their order matters to the model. */
  type Time = nat

  datatype Payload =
    | CourseCreated(title: Option<string>, description: Option<string>, instructorId: Option<string>)
    | CourseUpdated(title: Option<string>, description: Option<string>)
    | CourseDeleted
    | LessonCreated(courseId: Option<string>, title: Option<string>, content: Option<string>, order: Option<int>)
    | LessonUpdated(title: Option<string>, content: Option<string>, order: Option<int>)
    | LessonDeleted
    | LessonCompleted(userId: Option<string>, lessonId: Option<string>, courseId: Option<string>, completedAt: Time)

  datatype Event = Event(aggregateId: Id, sequenceNumber: nat, createdAt: Time, payload: Payload)

  /** The two aggregate classes whose streams the event store holds. */
  datatype AggregateKind = CourseKind | LessonKind

  /** The aggregate class an event belongs to. */
  function KindOf(p: Payload): (k: AggregateKind)
    ensures k == CourseKind <==> (p.CourseCreated? || p.CourseUpdated? || p.CourseDeleted?)
  {
    match p
    case CourseCreated(_, _, _) => CourseKind
    case CourseUpdated(_, _) => CourseKind
    case CourseDeleted => CourseKind
    case _ => LessonKind
  }

  /** The events that open a stream. */
  predicate IsCreation(p: Payload) {
    p.CourseCreated? || p.LessonCreated?
  }

  /** The payloads of a stream, in stream order. */
  function Payloads(es: seq<Event>): (ps: seq<Payload>)
    ensures |ps| == |es|
    ensures forall i :: 0 <= i < |es| ==> ps[i] == es[i].payload
  {
    if es == [] then [] else Payloads(es[..|es| - 1]) + [es[|es| - 1].payload]
  }

  lemma PayloadsAppend(es: seq<Event>, e: Event)
    ensures Payloads(es + [e]) == Payloads(es) + [e.payload]
  {
    assert (es + [e])[..|es|] == es;
  }

  /** The sequence number of the last event of a stream, 0 for an empty stream. */
  function LastSequence(es: seq<Event>): nat {
    if es == [] then 0 else es[|es| - 1].sequenceNumber
  }
}
