/**
 * Read-model queries of the LMS (lms/app/domain/read_models/course_read_models.rb):
 * a course's completion percentage for one user, and whether a user has completed a
 * lesson. Both read the tables the projector writes and change nothing.
 *
 * Percentages are integer hundredths: 3333 stands for 33.33. `Float#round(2)` rounds
 * halves away from zero, which for the non-negative ratios here is rounding half up.
 */
module ReadModels {
  import opened Wrappers
  import opened Events
  import opened Projections

  /** The surviving lesson rows of a course (`course.lessons`). */
  function CourseLessons(t: Tables, courseId: Id): set<Id> {
    set id | id in t.lessons && t.lessons[id].courseId == courseId
  }

  /** The distinct lessons of a course among one user's completion rows. The rows are not
      joined with the lessons table, so deleted lessons still count. */
  function CompletedLessons(rows: seq<CompletionRow>, courseId: Id, user: string): set<Id> {
    set r | r in rows && r.courseId == courseId && r.userId == user :: r.lessonId
  }

  /** k/n*100 rounded to two decimals, in hundredths: the integer nearest to 10000k/n,
      halves rounded up. */
  function RoundedPercent(k: nat, n: nat): (h: nat)
    requires n > 0
    ensures 2 * n * h <= 20000 * k + n < 2 * n * (h + 1)
  {
    var a, b := 20000 * k + n, 2 * n;
    var q := a / b;
    assert a == b * q + a % b && 0 <= a % b < b;
    q
  }

  /** `completion_percentage(user_id)`: 0 for a course without lessons, otherwise the
      distinct completed lessons over the lessons of the course, in hundredths. */
  function CompletionPercentage(t: Tables, courseId: Id, user: string): (h: nat)
    ensures CourseLessons(t, courseId) == {} ==> h == 0
  {
    var n := |CourseLessons(t, courseId)|;
    if n == 0 then 0 else RoundedPercent(|CompletedLessons(t.completions, courseId, user)|, n)
  }

  /** `completed_by?(user_id)`: some completion row of this lesson carries the user id.
      A nil user id matches no row, since the column is NOT NULL. */
  predicate CompletedBy(t: Tables, lessonId: Id, user: Option<string>) {
    user.Some? && exists r :: r in t.completions && r.lessonId == lessonId && r.userId == user.value
  }

  // ----- Rounding -----

  lemma MulLe(m: nat, a: int, b: int)
    requires a <= b
    ensures m * a <= m * b
  {
    assert m * b - m * a == m * (b - a);
  }

  lemma MulCancelLt(m: nat, a: int, b: int)
    requires m * a < m * b
    ensures a < b
  {
    if a >= b {
      MulLe(m, b, a);
    }
  }

  lemma SubsetCard<T>(a: set<T>, b: set<T>)
    requires a <= b
    ensures |a| <= |b|
  {
    assert b == a + (b - a);
    assert a * (b - a) == {};
  }

  lemma RoundedPercentBounds(k: nat, n: nat)
    requires 0 < n
    ensures k <= n ==> RoundedPercent(k, n) <= 10000
    ensures k == n ==> RoundedPercent(k, n) == 10000
    ensures k == 0 ==> RoundedPercent(k, n) == 0
  {
    var h, m := RoundedPercent(k, n), 2 * n;
    if k <= n {
      assert m * h <= 20000 * k + n <= 20001 * n < m * 10001;
      MulCancelLt(m, h, 10001);
    }
    if k == n {
      assert m * 9999 < 20000 * k + n - m <= m * (h + 1) - m == m * h;
      MulCancelLt(m, 9999, h);
    }
    if k == 0 {
      assert m * h <= n < m * 1;
      MulCancelLt(m, h, 1);
    }
  }

  /** The worked values: 1 of 2 is 50.0, 1 of 3 is 33.33, 2 of 3 is 66.67, 2 of 2 is 100.0. */
  lemma RoundedPercentExamples()
    ensures RoundedPercent(1, 2) == 5000
    ensures RoundedPercent(1, 3) == 3333
    ensures RoundedPercent(2, 3) == 6667
    ensures RoundedPercent(2, 2) == 10000
    ensures RoundedPercent(1, 32) == 313
  {
  }

  /** More distinct completed lessons never lower the percentage. */
  lemma RoundedPercentMonotone(k: nat, k': nat, n: nat)
    requires 0 < n && k <= k'
    ensures RoundedPercent(k, n) <= RoundedPercent(k', n)
  {
    var h, h', m := RoundedPercent(k, n), RoundedPercent(k', n), 2 * n;
    assert m * h <= 20000 * k + n <= 20000 * k' + n < m * (h' + 1);
    MulCancelLt(m, h, h' + 1);
  }

  // ----- Completion percentage -----

  /** When every lesson the user completed in the course still exists, the percentage is
      at most 100, and exactly 100 when every lesson of the course is completed. */
  lemma PercentageAtMostFull(t: Tables, courseId: Id, user: string)
    requires CompletedLessons(t.completions, courseId, user) <= CourseLessons(t, courseId)
    ensures CompletionPercentage(t, courseId, user) <= 10000
    ensures CourseLessons(t, courseId) != {} && CompletedLessons(t.completions, courseId, user) == CourseLessons(t, courseId)
            ==> CompletionPercentage(t, courseId, user) == 10000
  {
    var n := |CourseLessons(t, courseId)|;
    SubsetCard(CompletedLessons(t.completions, courseId, user), CourseLessons(t, courseId));
    if n > 0 {
      RoundedPercentBounds(|CompletedLessons(t.completions, courseId, user)|, n);
    }
  }

  /** A second completion of a lesson the user already completed changes nothing. */
  lemma DuplicateCompletionIsIgnored(t: Tables, courseId: Id, user: string, r: CompletionRow)
    requires r.courseId == courseId && r.userId == user
    requires r.lessonId in CompletedLessons(t.completions, courseId, user)
    ensures CompletionPercentage(t.(completions := t.completions + [r]), courseId, user)
            == CompletionPercentage(t, courseId, user)
  {
    assert CompletedLessons(t.completions + [r], courseId, user) == CompletedLessons(t.completions, courseId, user);
  }

  /** Other users' completions, and completions of other courses, do not move a user's
      percentage. */
  lemma OtherCompletionsAreIgnored(t: Tables, courseId: Id, user: string, r: CompletionRow)
    requires r.userId != user || r.courseId != courseId
    ensures CompletionPercentage(t.(completions := t.completions + [r]), courseId, user)
            == CompletionPercentage(t, courseId, user)
  {
    assert CompletedLessons(t.completions + [r], courseId, user) == CompletedLessons(t.completions, courseId, user);
  }

  /** Any event the projector accepts other than a lesson creation or deletion leaves the
      denominator alone and can only raise the numerator: percentages never go down
      while the course's lessons stay put. */
  lemma {:induction false} PercentageNeverDrops(t: Tables, e: Event, courseId: Id, user: string)
    requires Project(t, e).Some?
    requires !e.payload.LessonCreated? && !e.payload.LessonDeleted?
    ensures CompletionPercentage(t, courseId, user) <= CompletionPercentage(Project(t, e).value, courseId, user)
  {
    var r := Project(t, e).value;
    CompletionsOnlyGrow(t, e);
    assert r.lessons.Keys == t.lessons.Keys;
    assert forall id :: id in r.lessons ==> r.lessons[id].courseId == t.lessons[id].courseId;
    assert CourseLessons(r, courseId) == CourseLessons(t, courseId);
    assert CompletedLessons(t.completions, courseId, user) <= CompletedLessons(r.completions, courseId, user) by {
      forall x | x in CompletedLessons(t.completions, courseId, user)
        ensures x in CompletedLessons(r.completions, courseId, user)
      {
        var c :| c in t.completions && c.courseId == courseId && c.userId == user && c.lessonId == x;
        var i :| 0 <= i < |t.completions| && t.completions[i] == c;
        assert r.completions[i] == c;
      }
    }
    var n := |CourseLessons(t, courseId)|;
    SubsetCard(CompletedLessons(t.completions, courseId, user), CompletedLessons(r.completions, courseId, user));
    if n > 0 {
      RoundedPercentMonotone(|CompletedLessons(t.completions, courseId, user)|,
                             |CompletedLessons(r.completions, courseId, user)|, n);
    }
  }

  /** Two lessons, the first completed twice by user-1: 50.0 for user-1, 0 for user-2. */
  lemma HalfCompletedExample()
    ensures var t := Tables(map[], map["l1" := LessonRow("c", "L1", None, 1, 0, None),
                                        "l2" := LessonRow("c", "L2", None, 2, 0, None)],
                           [CompletionRow("user-1", "l1", "c", 5, 5), CompletionRow("user-1", "l1", "c", 6, 6)]);
      CompletionPercentage(t, "c", "user-1") == 5000 && CompletionPercentage(t, "c", "user-2") == 0
  {
    var t := Tables(map[], map["l1" := LessonRow("c", "L1", None, 1, 0, None),
                               "l2" := LessonRow("c", "L2", None, 2, 0, None)],
                    [CompletionRow("user-1", "l1", "c", 5, 5), CompletionRow("user-1", "l1", "c", 6, 6)]);
    assert CourseLessons(t, "c") == {"l1", "l2"};
    assert CompletedLessons(t.completions, "c", "user-1") == {"l1"};
    assert CompletedLessons(t.completions, "c", "user-2") == {};
  }

  /** The numerator is not joined to the surviving lessons: after lesson l2 is deleted,
      a user who completed both l1 and l2 stands at 200.0 in a one-lesson course. */
  lemma DeletedLessonCanExceedFull()
    ensures var t := Tables(map[], map["l1" := LessonRow("c", "L1", None, 1, 0, None)],
                           [CompletionRow("u", "l1", "c", 5, 5), CompletionRow("u", "l2", "c", 6, 6)]);
      CompletionPercentage(t, "c", "u") == 20000
  {
    var t := Tables(map[], map["l1" := LessonRow("c", "L1", None, 1, 0, None)],
                    [CompletionRow("u", "l1", "c", 5, 5), CompletionRow("u", "l2", "c", 6, 6)]);
    assert CourseLessons(t, "c") == {"l1"};
    assert CompletedLessons(t.completions, "c", "u") == {"l1", "l2"};
  }

  // ----- completed_by? -----

  /** Projecting a completion makes the lesson completed by that user, and no event ever
      takes that back, not even the lesson's deletion. */
  lemma CompletionIsRecorded(t: Tables, e: Event)
    requires e.payload.LessonCompleted? && Project(t, e).Some?
    ensures CompletedBy(Project(t, e).value, e.payload.lessonId.value, e.payload.userId)
  {
    var r := Project(t, e).value;
    assert r.completions[|r.completions| - 1] in r.completions;
  }

  lemma CompletedByIsStable(t: Tables, e: Event, lessonId: Id, user: Option<string>)
    requires Project(t, e).Some? && CompletedBy(t, lessonId, user)
    ensures CompletedBy(Project(t, e).value, lessonId, user)
  {
    var r := Project(t, e).value;
    CompletionsOnlyGrow(t, e);
    var c :| c in t.completions && c.lessonId == lessonId && c.userId == user.value;
    var i :| 0 <= i < |t.completions| && t.completions[i] == c;
    assert r.completions[i] == c;
  }

  /** A user without a row for the lesson, the empty user id included, has not completed it. */
  lemma NotCompletedWithoutRow(t: Tables, lessonId: Id, user: string)
    requires forall r :: r in t.completions && r.lessonId == lessonId ==> r.userId != user
    ensures !CompletedBy(t, lessonId, Some(user))
    ensures !CompletedBy(t, lessonId, None)
  {
  }
}
