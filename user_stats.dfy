/**
 * The per-user statistics of the LMS (`stats` in lms/app/controllers/api/users_controller.rb):
 * how many distinct lessons the user completed, in how many courses (the courses still
 * in the courses table, reached through an inner join on the completions), and one
 * entry per such course with its title and the user's completion percentage.
 *
 * The order of the course entries is not fixed by the query; the model lists each
 * course at the user's first completion in it.
 */
module UserStats {
  import opened Wrappers
  import opened Events
  import opened Projections
  import opened ReadModels

  datatype CourseStat = CourseStat(courseId: Id, title: string, completionPercentage: nat)

  datatype Stats = Stats(userId: string, totalLessonsCompleted: nat, totalCoursesEnrolled: nat,
                         courses: seq<CourseStat>)

  /** The distinct lessons among the user's completion rows, whatever their course. */
  function LessonsCompletedBy(rows: seq<CompletionRow>, user: string): set<Id> {
    set r | r in rows && r.userId == user :: r.lessonId
  }

  /** A course the user is enrolled in: it still has a row, and the user completed a
      lesson in it. */
  predicate Enrolled(t: Tables, user: string, c: Id) {
    c in t.courses && exists r :: r in t.completions && r.userId == user && r.courseId == c
  }

  /** The course ids of the user's completion rows that join a course row, in row order. */
  function JoinedCourseIds(courses: map<Id, CourseRow>, rows: seq<CompletionRow>, user: string): (ids: seq<Id>)
    ensures forall c :: c in ids <==> c in courses && exists r :: r in rows && r.userId == user && r.courseId == c
  {
    if rows == [] then []
    else
      var r, init := rows[|rows| - 1], JoinedCourseIds(courses, rows[..|rows| - 1], user);
      assert forall x :: x in rows <==> x in rows[..|rows| - 1] || x == r by {
        assert rows == rows[..|rows| - 1] + [r];
      }
      if r.userId == user && r.courseId in courses then init + [r.courseId] else init
  }

  /** `distinct`: each id once, at its first occurrence. */
  function Distinct(xs: seq<Id>): (d: seq<Id>)
    ensures forall x :: x in d <==> x in xs
    ensures forall i, j :: 0 <= i < j < |d| ==> d[i] != d[j]
  {
    if xs == [] then []
    else
      var d, x := Distinct(xs[..|xs| - 1]), xs[|xs| - 1];
      assert xs == xs[..|xs| - 1] + [x];
      if x in d then d else d + [x]
  }

  function EnrolledCourses(t: Tables, user: string): (ids: seq<Id>)
    ensures forall c :: c in ids <==> Enrolled(t, user, c)
    ensures forall i, j :: 0 <= i < j < |ids| ==> ids[i] != ids[j]
  {
    Distinct(JoinedCourseIds(t.courses, t.completions, user))
  }

  /** The `map` over the joined courses: id, title and the user's percentage. */
  function CourseStats(t: Tables, ids: seq<Id>, user: string): (s: seq<CourseStat>)
    requires forall c :: c in ids ==> c in t.courses
    ensures |s| == |ids|
    ensures forall i :: 0 <= i < |ids| ==>
      s[i] == CourseStat(ids[i], t.courses[ids[i]].title, CompletionPercentage(t, ids[i], user))
  {
    if ids == [] then []
    else [CourseStat(ids[0], t.courses[ids[0]].title, CompletionPercentage(t, ids[0], user))]
         + CourseStats(t, ids[1..], user)
  }

  function GetStats(t: Tables, user: string): (s: Stats)
    ensures s.userId == user
    ensures s.totalLessonsCompleted == |LessonsCompletedBy(t.completions, user)|
    ensures |s.courses| == s.totalCoursesEnrolled
    ensures forall c :: (exists i :: 0 <= i < |s.courses| && s.courses[i].courseId == c) <==> Enrolled(t, user, c)
    ensures forall i, j :: 0 <= i < j < |s.courses| ==> s.courses[i].courseId != s.courses[j].courseId
    ensures forall i :: 0 <= i < |s.courses| ==>
      && s.courses[i].courseId in t.courses
      && s.courses[i].title == t.courses[s.courses[i].courseId].title
      && s.courses[i].completionPercentage == CompletionPercentage(t, s.courses[i].courseId, user)
  {
    var ids := EnrolledCourses(t, user);
    var s := Stats(user, |LessonsCompletedBy(t.completions, user)|, |ids|, CourseStats(t, ids, user));
    EntriesCoverIds(s.courses, ids);
    s
  }

  /** Entries whose ids follow `ids` index by index name exactly the courses in `ids`. */
  lemma EntriesCoverIds(s: seq<CourseStat>, ids: seq<Id>)
    requires |s| == |ids|
    requires forall i :: 0 <= i < |s| ==> s[i].courseId == ids[i]
    ensures forall c :: (exists i :: 0 <= i < |s| && s[i].courseId == c) <==> c in ids
  {
    forall c ensures (exists i :: 0 <= i < |s| && s[i].courseId == c) <==> c in ids {
      if c in ids {
        var i :| 0 <= i < |ids| && ids[i] == c;
        assert s[i].courseId == c;
      }
      if exists i :: 0 <= i < |s| && s[i].courseId == c {
        var i :| 0 <= i < |s| && s[i].courseId == c;
        assert ids[i] in ids;
      }
    }
  }

  // ----- Properties -----

  /** A user without completions: nothing completed, no course, no entries. */
  lemma NoCompletionsNoStats(t: Tables, user: string)
    requires forall r :: r in t.completions ==> r.userId != user
    ensures GetStats(t, user) == Stats(user, 0, 0, [])
  {
    assert LessonsCompletedBy(t.completions, user) == {};
    NothingEnrolled(t, user);
  }

  /** No course row joins a completion of the user: the course list is empty. */
  lemma NothingEnrolled(t: Tables, user: string)
    requires forall c :: !Enrolled(t, user, c)
    ensures EnrolledCourses(t, user) == []
  {
    var ids := EnrolledCourses(t, user);
    assert (set x | x in ids) == {};
    DistinctCard(ids);
  }

  /** Deleting a course leaves the lesson total alone but drops the course from the
      enrolled ones, because the completions survive and the join no longer finds it. */
  lemma CourseDeletionKeepsLessonTotal(t: Tables, e: Event, user: string)
    requires e.payload.CourseDeleted?
    ensures Project(t, e).Some?
    ensures var r := Project(t, e).value;
      && GetStats(r, user).totalLessonsCompleted == GetStats(t, user).totalLessonsCompleted
      && GetStats(r, user).totalCoursesEnrolled <= GetStats(t, user).totalCoursesEnrolled
      && forall i :: 0 <= i < |GetStats(r, user).courses| ==> GetStats(r, user).courses[i].courseId != e.aggregateId
  {
    var r := Project(t, e).value;
    var before, after := EnrolledCourses(t, user), EnrolledCourses(r, user);
    assert forall c :: c in after ==> c in before;
    DistinctSubsetLength(after, before);
  }

  /** A duplicate-free sequence whose elements all occur in another duplicate-free
      sequence is no longer than it. */
  lemma {:induction false} DistinctSubsetLength(a: seq<Id>, b: seq<Id>)
    requires forall i, j :: 0 <= i < j < |a| ==> a[i] != a[j]
    requires forall i, j :: 0 <= i < j < |b| ==> b[i] != b[j]
    requires forall x :: x in a ==> x in b
    ensures |a| <= |b|
  {
    var sa, sb := set x | x in a, set x | x in b;
    DistinctCard(a);
    DistinctCard(b);
    SubsetCard(sa, sb);
  }

  lemma {:induction false} DistinctCard(a: seq<Id>)
    requires forall i, j :: 0 <= i < j < |a| ==> a[i] != a[j]
    ensures |set x | x in a| == |a|
  {
    if a != [] {
      var init := a[..|a| - 1];
      DistinctCard(init);
      assert (set x | x in a) == (set x | x in init) + {a[|a| - 1]} by {
        assert a == init + [a[|a| - 1]];
      }
      assert a[|a| - 1] !in init;
    }
  }

  /** A completion in a course that was deleted counts as a completed lesson but enrols
      the user in nothing. */
  lemma DeletedCourseExample()
    ensures !Enrolled(Tables(map[], map[], [CompletionRow("u", "l1", "gone", 5, 5)]), "u", "gone")
    ensures var t := Tables(map[], map[], [CompletionRow("u", "l1", "gone", 5, 5)]);
      GetStats(t, "u") == Stats("u", 1, 0, [])
  {
    var t := Tables(map[], map[], [CompletionRow("u", "l1", "gone", 5, 5)]);
    assert LessonsCompletedBy(t.completions, "u") == {"l1"};
    NothingEnrolled(t, "u");
  }
}
