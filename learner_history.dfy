/**
 * The learner history of the recommendation service: the table
 * view_schema.learner_histories, the projector that appends one row per relayed
 * LessonCompleted (reco/app/domain/projections/learner_projection.rb) and the two
 * query scopes `for_user` and `recent` (reco/app/domain/read_models/learner_read_models.rb).
 */
module LearnerHistory {
  import opened Wrappers
  import opened Events

  /** A row of the history table. Every column except the serial id is NOT NULL. */
  datatype HistoryRow = HistoryRow(id: nat, userId: string, lessonId: string, courseId: string,
                                   completedAt: Time, createdAt: Time)

  /** The recommendation service's copy of LessonCompleted: the same four attributes as
      the LMS event, each of which may be nil. */
  datatype LessonCompletedEvent = LessonCompletedEvent(
    aggregateId: Id, sequenceNumber: nat, createdAt: Time,
    userId: Option<string>, lessonId: Option<string>, courseId: Option<string>, completedAt: Option<Time>)

  /** The copy of an LMS LessonCompleted event. */
  function FromLms(e: Event): (r: Option<LessonCompletedEvent>)
    ensures r.Some? <==> e.payload.LessonCompleted?
  {
    match e.payload
    case LessonCompleted(u, l, c, at) =>
      Some(LessonCompletedEvent(e.aggregateId, e.sequenceNumber, e.createdAt, u, l, c, Some(at)))
    case _ => None
  }

  /** The LMS event a copy stands for; a copy without a completion time has none. */
  function ToLms(r: LessonCompletedEvent): (e: Option<Event>)
    ensures e.Some? <==> r.completedAt.Some?
  {
    match r.completedAt
    case None => None
    case Some(at) =>
      Some(Event(r.aggregateId, r.sequenceNumber, r.createdAt, LessonCompleted(r.userId, r.lessonId, r.courseId, at)))
  }

  /** Both services' LessonCompleted carry the same fields: copying loses nothing. */
  lemma CopyLosesNothing(e: Event)
    requires e.payload.LessonCompleted?
    ensures FromLms(e).Some? && ToLms(FromLms(e).value) == Some(e)
  {
  }

  lemma CopyIsFaithful(r: LessonCompletedEvent)
    requires r.completedAt.Some?
    ensures ToLms(r).Some? && FromLms(ToLms(r).value) == Some(r)
  {
  }

  /** The row `create!` writes: nil in a NOT NULL column is refused, and a nil
      created_at is filled with the current time, as ActiveRecord does for timestamps. */
  function NewRow(id: nat, userId: Option<string>, lessonId: Option<string>, courseId: Option<string>,
                  completedAt: Option<Time>, createdAt: Option<Time>, now: Time): (r: Option<HistoryRow>)
    ensures r.Some? <==> userId.Some? && lessonId.Some? && courseId.Some? && completedAt.Some?
    ensures r.Some? ==>
      && r.value.id == id
      && r.value.userId == userId.value && r.value.lessonId == lessonId.value
      && r.value.courseId == courseId.value && r.value.completedAt == completedAt.value
      && r.value.createdAt == (if createdAt.Some? then createdAt.value else now)
  {
    if userId.None? || lessonId.None? || courseId.None? || completedAt.None? then None
    else Some(HistoryRow(id, userId.value, lessonId.value, courseId.value, completedAt.value,
                         if createdAt.Some? then createdAt.value else now))
  }

  /** Row ids are assigned in increasing order, below the next id to hand out: every id
      is distinct, and the next one is fresh. */
  predicate IdsIncreasing(rows: seq<HistoryRow>, nextId: nat) {
    && (forall i, j :: 0 <= i < j < |rows| ==> rows[i].id < rows[j].id)
    && (forall i :: 0 <= i < |rows| ==> rows[i].id < nextId)
  }

  /** The history table, which only ever grows. */
  class HistoryTable {
    var rows: seq<HistoryRow>
    var nextId: nat

    /** The serial key invariant: it is what makes the id of a new row fresh. */
    ghost predicate Valid()
      reads this
    {
      IdsIncreasing(rows, nextId)
    }

    constructor ()
      ensures Valid() && rows == [] && nextId == 1
    {
      rows := [];
      nextId := 1;
    }

    /** `create!`: append the row, or refuse it and change nothing. */
    method Create(userId: Option<string>, lessonId: Option<string>, courseId: Option<string>,
                  completedAt: Option<Time>, createdAt: Option<Time>, now: Time) returns (r: Option<HistoryRow>)
      requires Valid()
      modifies this
      ensures Valid()
      ensures r == NewRow(old(nextId), userId, lessonId, courseId, completedAt, createdAt, now)
      ensures r.Some? ==> rows == old(rows) + [r.value] && nextId == old(nextId) + 1
      ensures r.Some? ==> forall k :: 0 <= k < |old(rows)| ==> old(rows)[k].id < r.value.id
      ensures r.None? ==> rows == old(rows) && nextId == old(nextId)
    {
      r := NewRow(nextId, userId, lessonId, courseId, completedAt, createdAt, now);
      if r.Some? {
        rows := rows + [r.value];
        nextId := nextId + 1;
      }
    }
  }

  /** The projector's LessonCompleted handler: one row with the event's attributes. */
  method OnLessonCompleted(table: HistoryTable, e: LessonCompletedEvent, now: Time) returns (r: Option<HistoryRow>)
    requires table.Valid()
    modifies table
    ensures table.Valid()
    ensures r == NewRow(old(table.nextId), e.userId, e.lessonId, e.courseId, e.completedAt, Some(e.createdAt), now)
    ensures r.Some? ==> table.rows == old(table.rows) + [r.value] && table.nextId == old(table.nextId) + 1
    ensures r.Some? ==> forall k :: 0 <= k < |old(table.rows)| ==> old(table.rows)[k].id < r.value.id
    ensures r.None? ==> table.rows == old(table.rows) && table.nextId == old(table.nextId)
  {
    r := table.Create(e.userId, e.lessonId, e.courseId, e.completedAt, Some(e.createdAt), now);
  }

  /** A relayed LMS completion always has a completion time, so it is stored whenever
      its three ids are present, with the event's own creation time. */
  lemma RelayedCompletionIsStored(id: nat, e: Event, now: Time)
    requires e.payload.LessonCompleted?
    requires e.payload.userId.Some? && e.payload.lessonId.Some? && e.payload.courseId.Some?
    ensures var c := FromLms(e).value;
      NewRow(id, c.userId, c.lessonId, c.courseId, c.completedAt, Some(c.createdAt), now)
        == Some(HistoryRow(id, e.payload.userId.value, e.payload.lessonId.value, e.payload.courseId.value,
                           e.payload.completedAt, e.createdAt))
  {
  }

  // ----- Scopes -----

  /** `for_user`: the user's rows, in table order. */
  function ForUser(rows: seq<HistoryRow>, user: string): (s: seq<HistoryRow>)
    ensures |s| <= |rows|
    ensures forall r :: r in s <==> r in rows && r.userId == user
  {
    if rows == [] then []
    else
      var init, last := ForUser(rows[..|rows| - 1], user), rows[|rows| - 1];
      assert rows == rows[..|rows| - 1] + [last];
      if last.userId == user then init + [last] else init
  }

  lemma ForUserAppend(rows: seq<HistoryRow>, r: HistoryRow, user: string)
    ensures ForUser(rows + [r], user) == ForUser(rows, user) + (if r.userId == user then [r] else [])
  {
    assert (rows + [r])[..|rows|] == rows;
  }

  /** Two completions of the same lesson by the same user are two rows of that user. */
  lemma RepeatedCompletionIsKept(rows: seq<HistoryRow>, a: HistoryRow, b: HistoryRow)
    requires a.userId == b.userId && a.lessonId == b.lessonId
    ensures |ForUser(rows + [a] + [b], a.userId)| == |ForUser(rows, a.userId)| + 2
  {
    ForUserAppend(rows, a, a.userId);
    ForUserAppend(rows + [a], b, a.userId);
  }

  /** A user with no rows, the empty user id included, gets nothing. */
  lemma ForUserWithoutRows(rows: seq<HistoryRow>, user: string)
    requires forall r :: r in rows ==> r.userId != user
    ensures ForUser(rows, user) == []
  {
    if ForUser(rows, user) != [] {
      assert ForUser(rows, user)[0] in ForUser(rows, user);
    }
  }

  /** Rows ordered newest completion first. */
  predicate NewestFirst(s: seq<HistoryRow>) {
    forall i, j :: 0 <= i < j < |s| ==> s[i].completedAt >= s[j].completedAt
  }

  /** Prepending a row no older than the head keeps a sequence newest first. */
  lemma PrependNewest(x: HistoryRow, rest: seq<HistoryRow>)
    requires NewestFirst(rest)
    requires rest != [] ==> x.completedAt >= rest[0].completedAt
    ensures NewestFirst([x] + rest)
  {
    var s := [x] + rest;
    forall i, j | 0 <= i < j < |s| ensures s[i].completedAt >= s[j].completedAt {
      if i > 0 {
        assert s[i] == rest[i - 1] && s[j] == rest[j - 1];
      } else {
        assert s[j] == rest[j - 1];
      }
    }
  }

  function InsertByTime(r: HistoryRow, sorted: seq<HistoryRow>): (s: seq<HistoryRow>)
    requires NewestFirst(sorted)
    ensures NewestFirst(s)
    ensures multiset(s) == multiset(sorted) + multiset{r}
    ensures |s| == |sorted| + 1
    ensures s != [] && (s[0] == r || (sorted != [] && s[0] == sorted[0]))
  {
    if sorted == [] || sorted[0].completedAt <= r.completedAt then
      PrependNewest(r, sorted);
      [r] + sorted
    else
      var rest := InsertByTime(r, sorted[1..]);
      assert sorted == [sorted[0]] + sorted[1..];
      PrependNewest(sorted[0], rest);
      [sorted[0]] + rest
  }

  /** `recent`: the rows ordered by completion time, newest first. Rows with the same
      completion time keep their table order. */
  function Recent(rows: seq<HistoryRow>): (s: seq<HistoryRow>)
    ensures NewestFirst(s)
    ensures multiset(s) == multiset(rows)
    ensures |s| == |rows|
  {
    if rows == [] then []
    else
      assert rows == [rows[0]] + rows[1..];
      InsertByTime(rows[0], Recent(rows[1..]))
  }

  /** The first row of `recent` is the latest completion. */
  lemma RecentStartsWithLatest(rows: seq<HistoryRow>)
    requires rows != []
    ensures Recent(rows)[0] in rows
    ensures forall r :: r in rows ==> Recent(rows)[0].completedAt >= r.completedAt
  {
    var s := Recent(rows);
    assert s[0] in multiset(rows);
    forall r | r in rows
      ensures s[0].completedAt >= r.completedAt
    {
      assert r in multiset(s);
      var j :| 0 <= j < |s| && s[j] == r;
    }
  }

  /** `for_user(u).recent` reorders the user's rows and drops or adds none. */
  lemma RecentForUserIsPermutation(rows: seq<HistoryRow>, user: string)
    ensures multiset(Recent(ForUser(rows, user))) == multiset(ForUser(rows, user))
    ensures |Recent(ForUser(rows, user))| == |ForUser(rows, user)|
    ensures forall r :: r in Recent(ForUser(rows, user)) <==> r in rows && r.userId == user
  {
    var f := ForUser(rows, user);
    forall r ensures r in Recent(f) <==> r in f {
      assert r in Recent(f) <==> r in multiset(Recent(f));
      assert r in f <==> r in multiset(f);
    }
  }
}
