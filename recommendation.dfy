/**
 * The recommendation engine of the recommendation service
 * (reco/app/services/recommendation_service.rb): a total, ordered chain of choices over
 * the user's learner history and two replies of the LMS, the course list and the
 * user's stats. The replies are inputs; a reply the client could not obtain is
 * `Failed`. A step that raises inside a `rescue` is modelled as the step yielding
 * nothing.
 */
module Recommendation {
  import opened Wrappers
  import opened Events
  import opened LearnerHistory

  /** What the LMS client hands back: a parsed JSON body, or a failure (the client's
      `[]` or `nil`). */
  datatype Reply<T> = Answered(body: T) | Failed

  /** A course object of the course list; its fields may be absent. */
  datatype CourseItem = CourseItem(id: Option<string>, title: Option<string>)

  /** The body of the course list: JSON null, an array (of objects or nulls), or
      anything else, such as an object. */
  datatype CoursesBody = NullBody | ListBody(items: seq<Option<CourseItem>>) | OtherBody

  /** A `completion_percentage` value: absent, null or false (falsy, so the entry is
      skipped), a number in hundredths, or a truthy value that cannot be compared with a
      number. */
  datatype Percent = NoPercent | Number(hundredths: int) | NonNumeric

  datatype StatEntry = StatEntry(courseId: Option<string>, title: Option<string>, percent: Percent)

  /** The `courses` member of the stats: missing or null, not an array, or an array. */
  datatype CoursesField = Missing | NotAList | Entries(items: seq<Option<StatEntry>>)

  datatype StatsBody = NullStats | StatsObject(courses: CoursesField) | OtherStats

  /** The reason of a recommendation: a fixed text, or the progress in hundredths of a
      percent of the course to continue. */
  datatype Reason = Fixed(text: string) | ContinueLearning(hundredths: int)

  datatype Rec = Rec(courseId: Option<string>, title: Option<string>, reason: Reason)

  // The configured fallbacks (reco/config/initializers/recommendations.rb, defaults).
  const NewLearnerFallback := Rec(Some("beginner-course-001"), Some("Introduction to Learning"),
                                  Fixed("Recommended for new learners (fallback)"))
  const PopularCourse := Rec(Some("popular-course-001"), Some("Popular Course"),
                             Fixed("Recommended based on popular courses"))
  const FirstCourseReason := "Recommended for new learners - first available course from LMS"

  /** `any?`: some element is not null. */
  predicate AnyPresent<T>(xs: seq<Option<T>>) {
    exists i :: 0 <= i < |xs| && xs[i].Some?
  }

  /** `recommend_for_new_learner`: the first course of a list with some course in it;
      a null first element raises and, like every other reply, ends in the fallback. */
  function ForNewLearner(courses: Reply<CoursesBody>): (r: Rec)
    ensures r.reason == Fixed(FirstCourseReason) || r == NewLearnerFallback
  {
    match courses
    case Answered(ListBody(items)) =>
      if AnyPresent(items) then
        match items[0]
        case Some(c) => Rec(c.id, c.title, Fixed(FirstCourseReason))
        case None => NewLearnerFallback
      else NewLearnerFallback
    case _ => NewLearnerFallback
  }

  /** A new learner is offered the first listed course exactly when the reply is a
      list whose first element is a course object. */
  lemma NewLearnerTakesFirstCourse(courses: Reply<CoursesBody>)
    ensures ForNewLearner(courses) != NewLearnerFallback <==>
      courses.Answered? && courses.body.ListBody? && |courses.body.items| > 0 && courses.body.items[0].Some?
    ensures ForNewLearner(courses) != NewLearnerFallback ==>
      var c := courses.body.items[0].value;
      ForNewLearner(courses) == Rec(c.id, c.title, Fixed(FirstCourseReason))
  {
    if courses.Answered? && courses.body.ListBody? && |courses.body.items| > 0 && courses.body.items[0].Some? {
      assert AnyPresent(courses.body.items) by {
        assert courses.body.items[0].Some?;
      }
      assert Fixed(FirstCourseReason) != NewLearnerFallback.reason;
    }
  }

  /** A reply that is not an array, the LMS listing's object among them, always ends in
      the fallback. */
  lemma NonListRepliesFallBack(courses: Reply<CoursesBody>)
    requires !(courses.Answered? && courses.body.ListBody?)
    ensures ForNewLearner(courses) == NewLearnerFallback
  {
  }

  predicate Incomplete(e: StatEntry) {
    e.percent.Number? && e.percent.hundredths < 10000
  }

  /** A stats element on which the `select` block raises: null, or a percentage that
      cannot be compared with 100. */
  predicate Raises(x: Option<StatEntry>) {
    x.None? || x.value.percent.NonNumeric?
  }

  /** The `select` of incomplete courses, in list order; None when the block raises on
      some element. */
  function SelectIncomplete(items: seq<Option<StatEntry>>): (r: Option<seq<StatEntry>>)
    ensures r.None? <==> exists i :: 0 <= i < |items| && Raises(items[i])
    ensures r.Some? ==> forall e :: e in r.value <==> Some(e) in items && Incomplete(e)
  {
    if items == [] then Some([])
    else
      var rest := SelectIncomplete(items[1..]);
      assert items == [items[0]] + items[1..];
      if Raises(items[0]) then None
      else if rest.None? then
        assert exists i :: 0 <= i < |items| && Raises(items[i]) by {
          var i :| 0 <= i < |items[1..]| && Raises(items[1..][i]);
          assert Raises(items[i + 1]);
        }
        None
      else
        var e := items[0].value;
        Some(if Incomplete(e) then [e] + rest.value else rest.value)
  }

  /** The first course `select` keeps is the first incomplete one of the list. */
  lemma {:induction false} FirstSelected(items: seq<Option<StatEntry>>)
    requires SelectIncomplete(items).Some? && SelectIncomplete(items).value != []
    ensures exists k :: (0 <= k < |items| && items[k] == Some(SelectIncomplete(items).value[0])
                         && forall j :: 0 <= j < k ==> !Incomplete(items[j].value))
  {
    var first := SelectIncomplete(items).value[0];
    assert items != [];
    if !Incomplete(items[0].value) {
      var tail := items[1..];
      assert SelectIncomplete(items).value == SelectIncomplete(tail).value;
      FirstSelected(tail);
      var k :| 0 <= k < |tail| && tail[k] == Some(first)
        && forall j :: 0 <= j < k ==> !Incomplete(tail[j].value);
      assert items[k + 1] == Some(first);
      forall j | 0 <= j < k + 1
        ensures !Incomplete(items[j].value)
      {
        if j > 0 {
          assert items[j] == tail[j - 1];
        }
      }
    } else {
      assert items[0] == Some(first);
    }
  }

  /** `fetch_incomplete_course_recommendation`: the first incomplete course of the
      stats, or nothing. */
  function FetchIncomplete(stats: Reply<StatsBody>): (r: Option<Rec>)
    ensures r.Some? ==> r.value.reason.ContinueLearning? && r.value.reason.hundredths < 10000
  {
    match stats
    case Answered(StatsObject(Entries(items))) =>
      if !AnyPresent(items) then None
      else
        var sel := SelectIncomplete(items);
        if sel.None? || sel.value == [] then None
        else
          var first := sel.value[0];
          assert Incomplete(first) by {
            assert first in sel.value;
          }
          Some(Rec(first.courseId, first.title, ContinueLearning(first.percent.hundredths)))
    case _ => None
  }

  /** The stats yield a course exactly when they hold an array on which the `select`
      does not raise and which has an incomplete course; it is the first such course. */
  lemma {:induction false} IncompleteCourseIsFirstIncomplete(stats: Reply<StatsBody>)
    ensures FetchIncomplete(stats).Some? <==>
      && stats.Answered? && stats.body.StatsObject? && stats.body.courses.Entries?
      && (forall i :: 0 <= i < |stats.body.courses.items| ==> !Raises(stats.body.courses.items[i]))
      && exists i :: 0 <= i < |stats.body.courses.items| && Incomplete(stats.body.courses.items[i].value)
    ensures FetchIncomplete(stats).Some? ==>
      var items := stats.body.courses.items;
      exists k :: 0 <= k < |items| && Incomplete(items[k].value)
        && (forall j :: 0 <= j < k ==> !Incomplete(items[j].value))
        && FetchIncomplete(stats).value
           == Rec(items[k].value.courseId, items[k].value.title, ContinueLearning(items[k].value.percent.hundredths))
  {
    if stats.Answered? && stats.body.StatsObject? && stats.body.courses.Entries? {
      var items := stats.body.courses.items;
      var sel := SelectIncomplete(items);
      if (forall i :: 0 <= i < |items| ==> !Raises(items[i])) && exists i :: 0 <= i < |items| && Incomplete(items[i].value) {
        var i :| 0 <= i < |items| && Incomplete(items[i].value);
        assert AnyPresent(items) by {
          assert items[i].Some?;
        }
        assert items[i].value in sel.value by {
          assert Some(items[i].value) in items;
        }
      }
      if sel.Some? && sel.value != [] {
        assert sel.value[0] in sel.value;
        FirstSelected(items);
      }
    }
  }

  /** A null element or a non-numeric percentage anywhere in the stats makes the whole
      step yield nothing, even after an incomplete course. */
  lemma OneBadEntrySpoilsStats(items: seq<Option<StatEntry>>, i: nat)
    requires i < |items| && Raises(items[i])
    ensures FetchIncomplete(Answered(StatsObject(Entries(items)))).None?
  {
  }

  /** `build_fallback_recommendation`. */
  function BuildFallback(recentCourse: Option<string>): (r: Rec)
    ensures recentCourse.None? <==> r == PopularCourse
  {
    match recentCourse
    case Some(c) => Rec(Some("related-to-" + c), Some("Advanced Course"), Fixed("Based on your completion of course " + c))
    case None => PopularCourse
  }

  /** `recommend_next_course` for the user, given the history table and the two replies. */
  function RecommendNextCourse(rows: seq<HistoryRow>, user: string,
                               courses: Reply<CoursesBody>, stats: Reply<StatsBody>): Rec
  {
    var history := ForUser(rows, user);
    if history == [] then ForNewLearner(courses)
    else
      var recentCourse := Some(Recent(history)[0].courseId);
      match FetchIncomplete(stats)
      case Some(r) => r
      case None => BuildFallback(recentCourse)
  }

  // ----- Properties of the chain -----

  /** A user without history gets the new-learner choice, whatever the stats say. */
  lemma NewLearnerIgnoresStats(rows: seq<HistoryRow>, user: string, courses: Reply<CoursesBody>, stats: Reply<StatsBody>)
    requires forall r :: r in rows ==> r.userId != user
    ensures RecommendNextCourse(rows, user, courses, stats) == ForNewLearner(courses)
  {
    ForUserWithoutRows(rows, user);
  }

  /** A user with history is never offered anything from the course list. */
  lemma ExistingLearnerIgnoresCourseList(rows: seq<HistoryRow>, user: string,
                                         courses: Reply<CoursesBody>, courses': Reply<CoursesBody>, stats: Reply<StatsBody>)
    requires exists r :: r in rows && r.userId == user
    ensures RecommendNextCourse(rows, user, courses, stats) == RecommendNextCourse(rows, user, courses', stats)
  {
    var r :| r in rows && r.userId == user;
    assert r in ForUser(rows, user);
  }

  /** With history and stats that yield nothing, the suggestion follows the course of
      the user's latest completion. */
  lemma FallbackFollowsLatestCompletion(rows: seq<HistoryRow>, user: string,
                                        courses: Reply<CoursesBody>, stats: Reply<StatsBody>)
    requires exists r :: r in rows && r.userId == user
    requires FetchIncomplete(stats).None?
    ensures exists latest :: (latest in rows && latest.userId == user
      && (forall r :: r in rows && r.userId == user ==> latest.completedAt >= r.completedAt)
      && RecommendNextCourse(rows, user, courses, stats)
         == Rec(Some("related-to-" + latest.courseId), Some("Advanced Course"),
                Fixed("Based on your completion of course " + latest.courseId)))
  {
    var r :| r in rows && r.userId == user;
    var history := ForUser(rows, user);
    assert r in history;
    RecentStartsWithLatest(history);
    var latest := Recent(history)[0];
    assert latest in rows && latest.userId == user;
  }

  /** With history, stats with an incomplete course win over the fallback. */
  lemma IncompleteCourseWins(rows: seq<HistoryRow>, user: string, courses: Reply<CoursesBody>, stats: Reply<StatsBody>)
    requires exists r :: r in rows && r.userId == user
    requires FetchIncomplete(stats).Some?
    ensures RecommendNextCourse(rows, user, courses, stats) == FetchIncomplete(stats).value
  {
    var r :| r in rows && r.userId == user;
    assert r in ForUser(rows, user);
  }

  /** The configured popular course is never the answer: a user with history always
      has a latest course to follow, and the other choices carry other reasons. */
  lemma PopularCourseIsNeverChosen(rows: seq<HistoryRow>, user: string, courses: Reply<CoursesBody>, stats: Reply<StatsBody>)
    ensures RecommendNextCourse(rows, user, courses, stats) != PopularCourse
  {
    assert FirstCourseReason != PopularCourse.reason.text;
  }

  /** The example of a learner half-way through a course. */
  lemma ContinueExample(rows: seq<HistoryRow>, user: string, courses: Reply<CoursesBody>)
    requires exists r :: r in rows && r.userId == user
    ensures RecommendNextCourse(rows, user, courses,
              Answered(StatsObject(Entries([Some(StatEntry(Some("c1"), Some("Done"), Number(10000))),
                                            Some(StatEntry(Some("c2"), Some("Half"), Number(5000)))]))))
            == Rec(Some("c2"), Some("Half"), ContinueLearning(5000))
  {
    var items := [Some(StatEntry(Some("c1"), Some("Done"), Number(10000))),
                  Some(StatEntry(Some("c2"), Some("Half"), Number(5000)))];
    IncompleteCourseIsFirstIncomplete(Answered(StatsObject(Entries(items))));
    assert Incomplete(items[1].value);
    IncompleteCourseWins(rows, user, courses, Answered(StatsObject(Entries(items))));
  }
}
