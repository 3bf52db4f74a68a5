/**
 * The course listing of the LMS API (`index` and its helpers in
 * lms/app/controllers/api/courses_controller.rb): the query-string filters, the
 * whitelist of sort columns and directions, the page arithmetic and the completion
 * percentage shown beside each course.
 *
 * The database's answer to the filtered, ordered query is an input of the model: a
 * sequence of ids that lists exactly the filtered courses, each once, in the requested
 * order. String columns compare under the database collation, a parameter, and rows
 * with equal keys may come in any order.
 */
module CourseListing {
  import opened Wrappers
  import opened Events
  import opened Commands
  import opened Projections
  import opened ReadModels
  import opened UserStats

  // ----- Filters -----

  /** The courses the query keeps: a present `title` must match (the ILIKE test is a
      parameter), a present `instructor_id` must be equal. */
  function Filtered(t: Tables, title: Option<string>, instructor: Option<string>,
                    ilike: (string, string) -> bool): (ids: set<Id>)
    ensures forall id :: id in ids <==>
      && id in t.courses
      && (Present(title) ==> ilike(t.courses[id].title, title.value))
      && (Present(instructor) ==> t.courses[id].instructorId == instructor.value)
  {
    set id | id in t.courses
      && (Present(title) ==> ilike(t.courses[id].title, title.value))
      && (Present(instructor) ==> t.courses[id].instructorId == instructor.value)
  }

  /** Blank filter parameters are ignored: every course is listed. */
  lemma BlankFiltersKeepAll(t: Tables, title: Option<string>, instructor: Option<string>,
                            ilike: (string, string) -> bool)
    requires title.None? || IsBlank(title.value)
    requires instructor.None? || IsBlank(instructor.value)
    ensures Filtered(t, title, instructor, ilike) == t.courses.Keys
  {
  }

  // ----- Sorting -----

  datatype SortField = Title | CreatedAt | InstructorId
  datatype Direction = Asc | Desc

  function SortFieldOf(sortBy: Option<string>): (f: SortField)
    ensures f == Title <==> sortBy == Some("title")
    ensures f == InstructorId <==> sortBy == Some("instructor_id")
  {
    match sortBy
    case Some("title") => Title
    case Some("instructor_id") => InstructorId
    case _ => CreatedAt
  }

  function LowerAscii(c: char): char {
    if 'A' <= c <= 'Z' then (c as int + 32) as char else c
  }

  function Downcase(s: string): (r: string)
    ensures |r| == |s|
    ensures forall i :: 0 <= i < |s| ==> r[i] == LowerAscii(s[i])
  {
    if s == [] then [] else [LowerAscii(s[0])] + Downcase(s[1..])
  }

  /** `sort_order`: a missing value, or one outside asc/desc whatever its case, sorts
      descending. */
  function DirectionOf(sortOrder: Option<string>): (d: Direction)
    ensures d == Asc <==> sortOrder.Some? && Downcase(sortOrder.value) == "asc"
  {
    if sortOrder.Some? && Downcase(sortOrder.value) == "asc" then Asc else Desc
  }

  /** The direction whitelist is case-insensitive: a parameter sorts ascending exactly
      when it spells asc in any mix of cases. */
  lemma {:induction false} AscInAnyCase(s: string)
    ensures DirectionOf(Some(s)) == Asc <==>
      && |s| == 3
      && (s[0] == 'a' || s[0] == 'A')
      && (s[1] == 's' || s[1] == 'S')
      && (s[2] == 'c' || s[2] == 'C')
  {
    var d := Downcase(s);
    if |s| == 3 && (s[0] == 'a' || s[0] == 'A') && (s[1] == 's' || s[1] == 'S') && (s[2] == 'c' || s[2] == 'C') {
      assert d[0] == 'a' && d[1] == 's' && d[2] == 'c';
      assert d == "asc";
    }
    if d == "asc" {
      assert LowerAscii(s[0]) == 'a' && LowerAscii(s[1]) == 's' && LowerAscii(s[2]) == 'c';
    }
  }

  /** The direction is case-insensitive, and anything else than asc/desc sorts descending. */
  lemma SortParameterExamples()
    ensures SortFieldOf(None) == CreatedAt
    ensures SortFieldOf(Some("price")) == CreatedAt
    ensures SortFieldOf(Some("Title")) == CreatedAt
    ensures DirectionOf(None) == Desc
    ensures DirectionOf(Some("ASC")) == Asc
    ensures DirectionOf(Some("Asc")) == Asc
    ensures DirectionOf(Some("up")) == Desc
  {
    assert Downcase("ASC") == "asc";
    assert Downcase("Asc") == "asc";
    assert Downcase("up") == "up";
  }

  // ----- Pages -----

  /** `page`: the parsed parameter when positive, else the first page. */
  function CurrentPage(raw: int): (p: nat)
    ensures p >= 1
    ensures raw > 0 ==> p == raw
    ensures raw <= 0 ==> p == 1
  {
    if raw > 0 then raw else 1
  }

  /** `per_page`: 20 when the parameter is missing or zero, capped at 100; a negative
      value is passed on. */
  function PerPage(raw: int): (n: int)
    ensures n != 0 && n <= 100
    ensures raw == 0 ==> n == 20
    ensures 0 < raw ==> n == if raw < 100 then raw else 100
    ensures raw < 0 ==> n == raw
  {
    if raw == 0 then 20 else if raw < 100 then raw else 100
  }

  function Offset(page: nat, perPage: nat): nat
    requires page >= 1
  {
    (page - 1) * perPage
  }

  /** `total_pages`: the ceiling of total / per_page. */
  function TotalPages(total: nat, perPage: nat): (tp: nat)
    requires perPage > 0
    ensures total <= tp * perPage
    ensures tp == 0 || (tp - 1) * perPage < total
  {
    var q := (total + perPage - 1) / perPage;
    assert q * perPage + (total + perPage - 1) % perPage == total + perPage - 1;
    q
  }

  function Min(a: int, b: int): int {
    if a <= b then a else b
  }

  /** The rows the LIMIT/OFFSET pair keeps from the ordered result. */
  function Page<T>(ordered: seq<T>, page: nat, perPage: nat): (s: seq<T>)
    requires page >= 1 && perPage > 0
    ensures |s| <= perPage
    ensures Offset(page, perPage) >= |ordered| ==> s == []
    ensures Offset(page, perPage) < |ordered| ==> |s| == Min(perPage, |ordered| - Offset(page, perPage))
    ensures forall i :: 0 <= i < |s| ==> Offset(page, perPage) + i < |ordered| && s[i] == ordered[Offset(page, perPage) + i]
  {
    var o := Offset(page, perPage);
    if o >= |ordered| then [] else ordered[o .. Min(o + perPage, |ordered|)]
  }

  /** Pages 1..k one after the other. */
  function FirstPages<T>(ordered: seq<T>, perPage: nat, k: nat): seq<T>
    requires perPage > 0
  {
    if k == 0 then [] else FirstPages(ordered, perPage, k - 1) + Page(ordered, k, perPage)
  }

  /** Page k is the slice between the first (k - 1) * per_page and k * per_page rows. */
  lemma PageIsSlice<T>(ordered: seq<T>, k: nat, perPage: nat)
    requires k >= 1 && perPage > 0
    ensures Min((k - 1) * perPage, |ordered|) <= Min(k * perPage, |ordered|)
    ensures Page(ordered, k, perPage) == ordered[Min((k - 1) * perPage, |ordered|) .. Min(k * perPage, |ordered|)]
  {
    assert (k - 1) * perPage + perPage == k * perPage;
  }

  /** The first k pages are the first k * per_page rows. */
  lemma {:induction false} FirstPagesArePrefix<T>(ordered: seq<T>, perPage: nat, k: nat)
    requires perPage > 0
    ensures FirstPages(ordered, perPage, k) == ordered[..Min(k * perPage, |ordered|)]
  {
    if k > 0 {
      FirstPagesArePrefix(ordered, perPage, k - 1);
      PageIsSlice(ordered, k, perPage);
      var a, b := Min((k - 1) * perPage, |ordered|), Min(k * perPage, |ordered|);
      assert ordered[..b] == ordered[..a] + ordered[a..b];
    }
  }

  /** Walking pages 1..total_pages returns every row exactly once, in order. */
  lemma PagesCoverListing<T>(ordered: seq<T>, perPage: nat)
    requires perPage > 0
    ensures FirstPages(ordered, perPage, TotalPages(|ordered|, perPage)) == ordered
  {
    FirstPagesArePrefix(ordered, perPage, TotalPages(|ordered|, perPage));
  }

  /** A page past the last one is empty. */
  lemma PageBeyondLastIsEmpty<T>(ordered: seq<T>, page: nat, perPage: nat)
    requires perPage > 0 && page > TotalPages(|ordered|, perPage)
    ensures Page(ordered, page, perPage) == []
  {
    var tp := TotalPages(|ordered|, perPage);
    assert page - 1 >= tp;
    MulMono(tp, page - 1, perPage);
  }

  lemma MulMono(a: nat, b: nat, c: nat)
    requires a <= b
    ensures a * c <= b * c
  {
  }

  // ----- The index response -----

  /** Row a comes no later than row b when sorting ascending on column f; strings compare
      under the collation `le`. */
  predicate NoLater(a: CourseRow, b: CourseRow, f: SortField, le: (string, string) -> bool) {
    match f
    case Title => le(a.title, b.title)
    case CreatedAt => a.createdAt <= b.createdAt
    case InstructorId => le(a.instructorId, b.instructorId)
  }

  /** `ordered` lists exactly the courses in `keep`, each once, sorted on f in direction d. */
  predicate ListsInOrder(t: Tables, ordered: seq<Id>, keep: set<Id>, f: SortField, d: Direction,
                         le: (string, string) -> bool)
  {
    && (forall i :: 0 <= i < |ordered| ==> ordered[i] in keep && ordered[i] in t.courses)
    && (forall id :: id in keep ==> id in ordered)
    && (forall i, j :: 0 <= i < j < |ordered| ==> ordered[i] != ordered[j])
    && (forall i, j :: 0 <= i < j < |ordered| && ordered[i] in t.courses && ordered[j] in t.courses ==>
          if d == Asc then NoLater(t.courses[ordered[i]], t.courses[ordered[j]], f, le)
          else NoLater(t.courses[ordered[j]], t.courses[ordered[i]], f, le))
  }

  datatype Listing = Listing(ids: seq<Id>, page: nat, perPage: nat, total: nat, totalPages: nat)

  /** `index`: filter, sort, count and page. `ordered` is the database's answer to the
      filtered and sorted query. A negative `per_page` reaches the database as a negative
      LIMIT, which it refuses. */
  function Index(t: Tables, title: Option<string>, instructor: Option<string>, ilike: (string, string) -> bool,
                 sortBy: Option<string>, sortOrder: Option<string>, le: (string, string) -> bool,
                 ordered: seq<Id>, pageParam: int, perPageParam: int): (r: Option<Listing>)
    requires ListsInOrder(t, ordered, Filtered(t, title, instructor, ilike), SortFieldOf(sortBy), DirectionOf(sortOrder), le)
    ensures r.None? <==> perPageParam < 0
    ensures r.Some? ==>
      && r.value.page == CurrentPage(pageParam)
      && 0 < r.value.perPage <= 100
      && r.value.total == |Filtered(t, title, instructor, ilike)|
      && r.value.ids == Page(ordered, r.value.page, r.value.perPage)
      && (forall id :: id in r.value.ids ==> id in Filtered(t, title, instructor, ilike))
      && r.value.totalPages == TotalPages(r.value.total, r.value.perPage)
  {
    FilteredCount(ordered, Filtered(t, title, instructor, ilike));
    var n := PerPage(perPageParam);
    if n < 0 then None
    else
      var p := CurrentPage(pageParam);
      Some(Listing(Page(ordered, p, n), p, n, |ordered|, TotalPages(|ordered|, n)))
  }

  /** A duplicate-free listing of a set is as long as the set is large: `count` before
      LIMIT is the number of filtered courses. */
  lemma FilteredCount(ordered: seq<Id>, keep: set<Id>)
    requires forall i :: 0 <= i < |ordered| ==> ordered[i] in keep
    requires forall id :: id in keep ==> id in ordered
    requires forall i, j :: 0 <= i < j < |ordered| ==> ordered[i] != ordered[j]
    ensures |ordered| == |keep|
  {
    DistinctCard(ordered);
    assert (set x | x in ordered) == keep;
  }

  /** Default page size: 45 listed courses make three pages of 20, 20 and 5. */
  lemma DefaultPagingExample(t: Tables, title: Option<string>, instructor: Option<string>, ilike: (string, string) -> bool,
                             sortBy: Option<string>, sortOrder: Option<string>, le: (string, string) -> bool,
                             ordered: seq<Id>)
    requires ListsInOrder(t, ordered, Filtered(t, title, instructor, ilike), SortFieldOf(sortBy), DirectionOf(sortOrder), le)
    requires |ordered| == 45
    ensures Index(t, title, instructor, ilike, sortBy, sortOrder, le, ordered, 0, 0).Some?
    ensures Index(t, title, instructor, ilike, sortBy, sortOrder, le, ordered, 0, 0).value.totalPages == 3
    ensures |Index(t, title, instructor, ilike, sortBy, sortOrder, le, ordered, 3, 0).value.ids| == 5
    ensures Index(t, title, instructor, ilike, sortBy, sortOrder, le, ordered, 4, 0).value.ids == []
  {
    FilteredCount(ordered, Filtered(t, title, instructor, ilike));
  }

  /** `completion_percentage` beside a course: present exactly when a user_id was
      given, an empty one included. */
  function PercentageShown(t: Tables, courseId: Id, user: Option<string>): (r: Option<nat>)
    ensures r.Some? <==> user.Some?
    ensures r.Some? ==> r.value == CompletionPercentage(t, courseId, user.value)
  {
    match user
    case None => None
    case Some(u) => Some(CompletionPercentage(t, courseId, u))
  }
}
