/**
 * The seven commands of the LMS domain and their `validates_presence_of` rules
 * (lms/app/domain/commands/course_commands.rb). A command failing its rules is
 * rejected before any aggregate or stream is touched.
 */
module Commands {
  import opened Wrappers
  import opened Events

  datatype Command =
    | CreateCourse(aggregateId: Id, title: Option<string>, description: Option<string>, instructorId: Option<string>)
    | UpdateCourse(aggregateId: Id, title: Option<string>, description: Option<string>)
    | DeleteCourse(aggregateId: Id)
    | CreateLesson(aggregateId: Id, courseId: Option<string>, title: Option<string>, content: Option<string>, order: Option<int>)
    | UpdateLesson(aggregateId: Id, title: Option<string>, content: Option<string>, order: Option<int>)
    | DeleteLesson(aggregateId: Id)
    | CompleteLesson(aggregateId: Id, userId: Option<string>)

  /** The attributes a presence rule can name. */
  datatype Attribute = TitleAttr | InstructorIdAttr | CourseIdAttr | OrderAttr | UserIdAttr

  /** The characters of the POSIX class [[:space:]] on Unicode strings. */
  predicate IsSpace(c: char) {
    c == ' ' || c == '\t' || c == '\n' || c == '\U{000B}' || c == '\U{000C}' || c == '\r'
    || c == '\U{0085}' || c == '\U{00A0}' || c == '\U{1680}' || ('\U{2000}' <= c <= '\U{200A}')
    || c == '\U{2028}' || c == '\U{2029}' || c == '\U{202F}' || c == '\U{205F}' || c == '\U{3000}'
  }

  /** A string is blank when it is empty or made only of white space. */
  predicate IsBlank(s: string) {
    forall i :: 0 <= i < |s| ==> IsSpace(s[i])
  }

  /** Presence of a string attribute: not nil and not blank. */
  predicate Present(v: Option<string>) {
    v.Some? && !IsBlank(v.value)
  }

  /** The attributes whose presence rule the command fails. An Integer is never blank,
      so an order is present as soon as it is not nil, whatever its value. */
  function Errors(c: Command): (errs: set<Attribute>)
    ensures c.UpdateCourse? || c.DeleteCourse? || c.UpdateLesson? || c.DeleteLesson? ==> errs == {}
  {
    match c
    case CreateCourse(_, t, _, i) =>
      (if Present(t) then {} else {TitleAttr}) + (if Present(i) then {} else {InstructorIdAttr})
    case CreateLesson(_, cid, t, _, o) =>
      (if Present(cid) then {} else {CourseIdAttr}) + (if Present(t) then {} else {TitleAttr})
      + (if o.Some? then {} else {OrderAttr})
    case CompleteLesson(_, u) => if Present(u) then {} else {UserIdAttr}
    case _ => {}
  }

  predicate Valid(c: Command) {
    Errors(c) == {}
  }

  // ----- What the rules accept and reject -----

  lemma CreateCourseRule(id: Id, t: Option<string>, d: Option<string>, i: Option<string>)
    ensures Valid(CreateCourse(id, t, d, i)) <==> Present(t) && Present(i)
    ensures TitleAttr in Errors(CreateCourse(id, t, d, i)) <==> !Present(t)
    ensures InstructorIdAttr in Errors(CreateCourse(id, t, d, i)) <==> !Present(i)
  {
  }

  lemma CreateLessonRule(id: Id, cid: Option<string>, t: Option<string>, c: Option<string>, o: Option<int>)
    ensures Valid(CreateLesson(id, cid, t, c, o)) <==> Present(cid) && Present(t) && o.Some?
  {
  }

  /** Order is only checked for presence: zero and negative orders pass. */
  lemma CreateLessonAcceptsAnyOrder(id: Id, cid: string, t: string, o: int)
    requires !IsBlank(cid) && !IsBlank(t)
    ensures Valid(CreateLesson(id, Some(cid), Some(t), None, Some(o)))
  {
  }

  lemma CompleteLessonRule(id: Id, u: Option<string>)
    ensures Valid(CompleteLesson(id, u)) <==> Present(u)
  {
  }

  /** The empty string and white space alone are blank, so they are refused as a user id. */
  lemma CompleteLessonRejectsBlankUser(id: Id)
    ensures !Valid(CompleteLesson(id, Some("")))
    ensures !Valid(CompleteLesson(id, Some(" \t\n")))
    ensures !Valid(CompleteLesson(id, None))
    ensures Valid(CompleteLesson(id, Some("user-123")))
  {
    assert !IsSpace("user-123"[0]);
  }
}
