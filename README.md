# LMS and recommendation services: a Dafny model

This project models the logic of two cooperating Rails services.

**The LMS.** It keeps courses, lessons and lesson completions by event sourcing.
- Commands are validated and dispatched by a command handler to the `Course` and `Lesson` aggregates.
- Each aggregate operation emits exactly one event into the aggregate's stream.
- A projector turns every event into a write on three read tables: courses, lessons and lesson completions.
- Queries on those tables give:
  - a course's completion percentage for a user;
  - whether a user completed a lesson;
  - per-user statistics;
  - the paginated course listing.

**The recommendation service.** It receives relayed lesson completions, stores them in a learner-history table, and chooses the next course for a user. The choice follows a fixed fallback chain over the history and two replies of the LMS.

Modules, one per component:

| module | file | form |
|---|---|---|
| `Wrappers` | wrappers.dfy | `Option`, `Result` |
| `Events` | events.dfy | the seven events, as a datatype |
| `Commands` | commands.dfy | the seven commands and their presence rules |
| `Aggregates` | aggregates.dfy | the fold `ReplayCourse`/`ReplayLesson`, plus classes `Course` and `Lesson` whose `On` handlers assign fields and whose mutators append to `uncommittedEvents` |
| `Projections` | projection.dfy | the write rule `Project`, plus class `CourseProjection` updating its three tables in place |
| `CommandHandling` | command_handler.dfy | the decision `Decide`/`Outcome`, plus class `CommandHandler` over an event store `map<Id, seq<Event>>` and the projector, in one transaction |
| `ReadModels` | read_models.dfy | `completion_percentage`, `completed_by?` |
| `UserStats` | user_stats.dfy | the per-user statistics |
| `CourseListing` | course_listing.dfy | filters, sort whitelist, pagination |
| `LearnerHistory` | learner_history.dfy | the history table as a class, its projector, and the scopes `for_user` and `recent` |
| `Ingest` | ingest.dfy | the ingest endpoint |
| `Recommendation` | recommendation.dfy | the recommendation chain |

Modelling conventions:
- **Time.** Timestamps are naturals. The clock (`now`) is a parameter, and so is the date parser: a string parses to a time, to nothing (nil), or raises.
- **Percentages.** These are integer hundredths. `RoundedPercent(k, n)` is the integer nearest to 10000·k/n, with halves rounded up. That is what `(k.to_f / n * 100).round(2)` computes, apart from floating-point error.
- **Nil.** A Ruby value that may be nil is an `Option`. `""` and `0` are values, as in Ruby.
- **Blank.** Blank means nil, empty, or made only of Unicode white space.
- **Database constraints.** A write that breaks a NOT NULL or primary-key constraint is refused. It is modelled as `None`/`Err`.
- **Command transaction.** In the LMS the projector runs inside the command's transaction. A refused write therefore rolls back the whole command: nothing is stored and nothing is projected.
- **Upstream replies.** The replies of the LMS client are inputs. A reply the client could not obtain is `Failed`.

## Model

| member | source | states |
|---|---|---|
| Events.KindOf | lms/app/domain/events/course_events.rb:5-29 | the three Course* events belong to the Course aggregate, and the others to Lesson |
| Commands.Errors | lms/app/domain/commands/course_commands.rb:5-32 | UpdateCourse, UpdateLesson, DeleteCourse and DeleteLesson have no validations at all |
| Commands.CreateCourseRule | lms/app/domain/commands/course_commands.rb:5-8 | CreateCourse is valid iff title and instructor_id are present; each blank one is reported, and description may be absent |
| Commands.CreateLessonRule | lms/app/domain/commands/course_commands.rb:17-20 | CreateLesson is valid iff course_id and title are present and order is non-nil; content is optional |
| Commands.CreateLessonAcceptsAnyOrder | lms/app/domain/commands/course_commands.rb:18-19 | order is checked only for presence, so 0 and negative orders pass |
| Commands.CompleteLessonRule | lms/app/domain/commands/course_commands.rb:29-32 | CompleteLesson is valid iff user_id is present |
| Commands.CompleteLessonRejectsBlankUser | lms/app/domain/commands/course_commands.rb:31 | "", white space and nil are refused as a user id; a real id is accepted |
| Aggregates.OnCourse | lms/app/domain/aggregates/course_aggregates.rb:24-37 | the Course `on` handlers: creation sets title, description and instructor; an update overwrites title and description only where the event carries a value; deletion sets the flag; other events change nothing (stated by CourseCreateRoundTrip, CourseUpdateIsPartial and Course.On) |
| Aggregates.ReplayCourse | lms/app/domain/aggregates/course_aggregates.rb:24-37 | loading a Course runs its handlers over the history from the blank state (stated by ReplayCourseAppend, InstructorIsFixed and Course.Load) |
| Aggregates.OnLesson | lms/app/domain/aggregates/course_aggregates.rb:69-88 | the Lesson `on` handlers: creation sets its four fields; an update overwrites title, content and order only where the event carries a value; deletion and completion set their flags (stated by LessonCreateRoundTrip, LessonUpdateIsPartial, CompletionsOnlyRaiseFlag and Lesson.On) |
| Aggregates.ReplayLesson | lms/app/domain/aggregates/course_aggregates.rb:69-88 | loading a Lesson runs its handlers over the history from the blank state (stated by ReplayLessonAppend, LessonCourseIsFixed and Lesson.Load) |
| Aggregates.ReplayCourseAppend | lms/app/domain/aggregates/course_aggregates.rb:24-37 | replaying one more event applies its `on` handler to the replayed state |
| Aggregates.ReplayLessonAppend | lms/app/domain/aggregates/course_aggregates.rb:69-88 | the same fold law for lessons |
| Aggregates.CourseCreateRoundTrip | lms/app/domain/aggregates/course_aggregates.rb:24-28 | replaying CourseCreated gives exactly its title, description and instructor_id |
| Aggregates.LessonCreateRoundTrip | lms/app/domain/aggregates/course_aggregates.rb:69-74 | replaying LessonCreated gives exactly its course_id, title, content and order |
| Aggregates.CourseUpdateIsPartial | lms/app/domain/aggregates/course_aggregates.rb:30-33 | CourseUpdated changes title or description exactly when it carries a non-nil value for it; instructor_id and the deleted flag are untouched |
| Aggregates.LessonUpdateIsPartial | lms/app/domain/aggregates/course_aggregates.rb:76-80 | LessonUpdated changes title, content or order exactly when non-nil; the course, deleted and completed flags are untouched |
| Aggregates.LessonOrderZeroOverwrites | lms/app/domain/aggregates/course_aggregates.rb:79 | order 0 is a value and overwrites the previous order |
| Aggregates.InstructorIsFixed | lms/app/domain/aggregates/course_aggregates.rb:14-33 | after creation no event changes a course's instructor_id (proof by induction over the stream) |
| Aggregates.LessonCourseIsFixed | lms/app/domain/aggregates/course_aggregates.rb:69-80 | a lesson's course_id stays the one from LessonCreated |
| Aggregates.CompletionsOnlyRaiseFlag | lms/app/domain/aggregates/course_aggregates.rb:86-88 | any number of completions only set `completed`: completing again is indistinguishable from completing once |
| Aggregates.Course.On | lms/app/domain/aggregates/course_aggregates.rb:24-37 | the field-by-field handler leaves the object in the state `OnCourse` gives |
| Aggregates.Course.Apply | lms/app/domain/aggregates/course_aggregates.rb:6-22 | `apply` appends one event numbered after the last one and runs its handler |
| Aggregates.Course.constructor | lms/app/domain/aggregates/course_aggregates.rb:6-12 | a new course has exactly one uncommitted event, CourseCreated with the command's fields, numbered 1 |
| Aggregates.Course.Load | lms/app/domain/aggregates/course_aggregates.rb:24-37 | loading from history replays every event, with loop invariants, to the state of the fold |
| Aggregates.Course.Update | lms/app/domain/aggregates/course_aggregates.rb:14-18 | appends exactly one CourseUpdated with the command's title and description |
| Aggregates.Course.Delete | lms/app/domain/aggregates/course_aggregates.rb:20-22 | appends exactly one CourseDeleted and only sets `deleted` |
| Aggregates.Lesson.On | lms/app/domain/aggregates/course_aggregates.rb:69-88 | the field-by-field handler leaves the object in the state `OnLesson` gives |
| Aggregates.Lesson.Apply | lms/app/domain/aggregates/course_aggregates.rb:41-67 | appends one event numbered after the last and runs its handler |
| Aggregates.Lesson.constructor | lms/app/domain/aggregates/course_aggregates.rb:41-48 | a new lesson has exactly one uncommitted LessonCreated with the command's fields |
| Aggregates.Lesson.Load | lms/app/domain/aggregates/course_aggregates.rb:69-88 | loading replays the history to the fold's state |
| Aggregates.Lesson.Update | lms/app/domain/aggregates/course_aggregates.rb:50-55 | appends exactly one LessonUpdated with the command's fields |
| Aggregates.Lesson.Delete | lms/app/domain/aggregates/course_aggregates.rb:57-59 | appends exactly one LessonDeleted and only sets `deleted` |
| Aggregates.Lesson.Complete | lms/app/domain/aggregates/course_aggregates.rb:61-67 | appends one LessonCompleted for the given user, naming the lesson's own id and its course_id, at the current time; only `completed` changes |
| Projections.Project | lms/app/domain/projections/course_projection.rb:10-66 | one write rule per event over the three tables, None where the database refuses the write (stated by the frame, deletion, refusal and completion lemmas below and by CourseProjection.Handle) |
| Projections.ProjectAll | lms/app/domain/projections/course_projection.rb:10-66 | the events' writes in order, stopping at the first refusal (stated by ProjectAllAppend and CompletionRowsCountEvents) |
| Projections.ProjectAllAppend | lms/app/domain/projections/course_projection.rb:10-66 | projecting a stream with one more event applies one more write, and a refused write stops everything |
| Projections.CourseDeletionDoesNotCascade | lms/app/domain/projections/course_projection.rb:28-30 | CourseDeleted removes exactly that course row; lessons and completions stay |
| Projections.LessonDeletionKeepsCompletions | lms/app/domain/projections/course_projection.rb:54-56 | LessonDeleted removes exactly that lesson row; completions stay |
| Projections.CourseUpdateWithoutTitleIsRefused | lms/app/domain/projections/course_projection.rb:20-26 | the unguarded `update_all` writes a nil title into the NOT NULL column, so the write is refused |
| Projections.CourseUpdateClearsDescription | lms/app/domain/projections/course_projection.rb:20-26 | a nil description is written verbatim and clears the stored one |
| Projections.LessonUpdateFrame | lms/app/domain/projections/course_projection.rb:43-52 | LessonUpdated on an existing lesson stamps updated_at, writes exactly the columns the event carries, and leaves every other row of every table unchanged |
| Projections.CourseUpdateFrame | lms/app/domain/projections/course_projection.rb:20-26 | CourseUpdated with a title writes title and description verbatim and stamps updated_at; instructor, creation time and all other rows are unchanged |
| Projections.UpdateOfMissingRowIsNoOp | lms/app/domain/projections/course_projection.rb:20-52 | an update whose `where` matches no row changes nothing |
| Projections.CompletionsOnlyGrow | lms/app/domain/projections/course_projection.rb:58-66 | a completion appends exactly one row after the existing ones; every other event leaves the completions as they were |
| Projections.CompletionRowsCountEvents | lms/app/domain/projections/course_projection.rb:58-66 | n completion events produce n rows, appended, with no update and no dedup |
| Projections.LessonRowReflectsAggregate | lms/app/domain/projections/course_projection.rb:32-52 | the projected lesson row equals the Lesson aggregate's replayed state, because the guarded update mirrors the guarded handler |
| Projections.CourseRowReflectsAggregate | lms/app/domain/projections/course_projection.rb:10-26 | the course row equals the Course aggregate's state as long as every update carries a description |
| Projections.CourseRowDivergesOnMissingDescription | lms/app/domain/projections/course_projection.rb:20-26 | after an update without a description, the row has none while the aggregate keeps the old one |
| Projections.CourseProjection.Handle | lms/app/domain/projections/course_projection.rb:10-66 | the in-place write of each handler; the lesson update hash is built key by key; the tables end equal to `Project`'s result, or unchanged when the write is refused |
| CommandHandling.Decide | lms/app/domain/command_handlers/course_command_handler.rb:6-42 | the event a command produces: an invalid command is refused with its errors; a creation needs a fresh id; any other command needs an existing stream of the right class and gets the next number (stated by the lemmas below) |
| CommandHandling.Outcome | lms/app/domain/command_handlers/course_command_handler.rb:6-42 | a decided event whose projection the database refuses fails the whole command (stated by CommandHandler.Execute) |
| CommandHandling.Commit | lms/app/domain/command_handlers/course_command_handler.rb:6-42 | the event is appended to its aggregate's stream (stated by MutationAppendsOneEvent and CommitKeepsStoreWellFormed) |
| CommandHandling.CreateCourseOpensStream | lms/app/domain/command_handlers/course_command_handler.rb:6-10 | a valid CreateCourse for a new id opens a stream holding just its CourseCreated, which replays to the command's fields |
| CommandHandling.CreateLessonOpensStream | lms/app/domain/command_handlers/course_command_handler.rb:22-26 | the same for CreateLesson |
| CommandHandling.MutationAppendsOneEvent | lms/app/domain/command_handlers/course_command_handler.rb:12-42 | update, delete and complete add exactly one event, numbered after the last, to their own stream; no other stream changes |
| CommandHandling.MissingAggregateIsRefused | lms/app/domain/command_handlers/course_command_handler.rb:13-15 | a mutation on an id without a stream is refused and appends nothing |
| CommandHandling.DispatchIsOneToOne | lms/app/domain/command_handlers/course_command_handler.rb:6-42 | each command is answered by the event of its own operation, on an aggregate of the matching class |
| CommandHandling.CompletionNamesCreationCourse | lms/app/domain/command_handlers/course_command_handler.rb:38-42 | CompleteLesson emits LessonCompleted with the command's user, the lesson's id and the course named at LessonCreated |
| CommandHandling.DeletedCourseStillUpdates | lms/app/domain/aggregates/course_aggregates.rb:20-22 | the deleted flag is never consulted: a deleted course still accepts UpdateCourse |
| CommandHandling.CommitKeepsStoreWellFormed | lms/app/domain/command_handlers/course_command_handler.rb:6-42 | every stream opens with its creation, holds one aggregate class, and is numbered 1..n; committing a decision keeps this |
| CommandHandling.CommandHandler.NewAggregate | lms/app/domain/command_handlers/course_command_handler.rb:6-26 | `add_aggregate`: builds the new aggregate from the command and returns its single creation event, the one `Decide` gives |
| CommandHandling.CommandHandler.WithAggregate | lms/app/domain/command_handlers/course_command_handler.rb:12-42 | `do_with_aggregate`: loads the aggregate from its stream, runs the operation and returns the one new event, the one `Decide` gives |
| CommandHandling.CommandHandler.Execute | lms/app/domain/command_handlers/course_command_handler.rb:6-42 | runs a command end to end: the result is `Outcome`; on success the store gets the event and the projection its write; on any error neither changes |
| ReadModels.RoundedPercent | lms/app/domain/read_models/course_read_models.rb:14 | the result is the integer nearest to 10000·k/n, halves up, stated as a pair of inequalities |
| ReadModels.CompletionPercentage | lms/app/domain/read_models/course_read_models.rb:11 | a course without lessons has percentage 0 |
| ReadModels.RoundedPercentBounds | lms/app/domain/read_models/course_read_models.rb:13-14 | k ≤ n gives at most 100.00, all lessons give exactly 100.00, none gives 0 |
| ReadModels.RoundedPercentExamples | lms/app/domain/read_models/course_read_models.rb:14 | 1 of 2 is 50.0, 1 of 3 is 33.33, 2 of 3 is 66.67, 2 of 2 is 100.0 |
| ReadModels.RoundedPercentMonotone | lms/app/domain/read_models/course_read_models.rb:14 | more completed lessons never lower the rounded percentage |
| ReadModels.PercentageAtMostFull | lms/app/domain/read_models/course_read_models.rb:10-15 | when every completed lesson still exists the percentage is at most 100.00, and exactly 100.00 when all are completed |
| ReadModels.DuplicateCompletionIsIgnored | lms/app/domain/read_models/course_read_models.rb:13 | only distinct lessons count: completing a lesson again changes nothing |
| ReadModels.OtherCompletionsAreIgnored | lms/app/domain/read_models/course_read_models.rb:13 | other users' and other courses' completions never move a user's percentage |
| ReadModels.PercentageNeverDrops | lms/app/domain/read_models/course_read_models.rb:10-15 | an accepted event other than a lesson creation or deletion, lesson edits included, never lowers a percentage: the course's lessons stay put and completions only grow |
| ReadModels.HalfCompletedExample | lms/app/domain/read_models/course_read_models.rb:10-15 | two lessons, one completed twice by user-1: 50.0 for user-1, 0 for user-2 |
| ReadModels.DeletedLessonCanExceedFull | lms/app/domain/read_models/course_read_models.rb:13-14 | the numerator is not joined to the surviving lessons, so after a lesson deletion the value reaches 200.0 |
| ReadModels.CompletedBy | lms/app/domain/read_models/course_read_models.rb:25-27 | `completed_by?`: some completion row of the lesson carries the user id; nil matches nothing (stated by CompletionIsRecorded, CompletedByIsStable and NotCompletedWithoutRow) |
| ReadModels.CompletionIsRecorded | lms/app/domain/read_models/course_read_models.rb:25-27 | after its completion is projected, a lesson is completed by that user |
| ReadModels.CompletedByIsStable | lms/app/domain/read_models/course_read_models.rb:25-27 | no accepted event undoes `completed_by?` |
| ReadModels.NotCompletedWithoutRow | lms/app/domain/read_models/course_read_models.rb:25-27 | without a row for the user, "" included, and for nil, the lesson is not completed by them |
| UserStats.LessonsCompletedBy | lms/app/controllers/api/users_controller.rb:8-14 | the distinct lesson ids among the user's completion rows, deleted lessons included (stated by GetStats and CourseDeletionKeepsLessonTotal) |
| UserStats.Enrolled | lms/app/controllers/api/users_controller.rb:9-12 | a course the user is enrolled in still has its row and holds a completion by the user (stated by JoinedCourseIds, EnrolledCourses and GetStats) |
| UserStats.JoinedCourseIds | lms/app/controllers/api/users_controller.rb:9-12 | the joined course ids are exactly the existing courses with a completion by the user |
| UserStats.Distinct | lms/app/controllers/api/users_controller.rb:12 | `distinct` keeps exactly the same ids, each once |
| UserStats.EnrolledCourses | lms/app/controllers/api/users_controller.rb:9-12 | the enrolled courses are exactly the existing courses with a completion by the user, without repeats |
| UserStats.CourseStats | lms/app/controllers/api/users_controller.rb:17-23 | one entry per course: its id, title and the user's completion percentage |
| UserStats.GetStats | lms/app/controllers/api/users_controller.rb:5-30 | total_lessons_completed counts the user's distinct lessons; the entries number total_courses_enrolled and cover exactly the enrolled courses, each once, with title and percentage |
| UserStats.NoCompletionsNoStats | lms/app/controllers/api/users_controller.rb:8-23 | a user with no completions gets 0, 0 and an empty list |
| UserStats.NothingEnrolled | lms/app/controllers/api/users_controller.rb:9-12 | when no course joins the user's completions, the course list is empty |
| UserStats.CourseDeletionKeepsLessonTotal | lms/app/controllers/api/users_controller.rb:8-15 | deleting a course keeps the lesson total, and the course drops out of the enrolled ones |
| UserStats.DeletedCourseExample | lms/app/controllers/api/users_controller.rb:8-15 | a completion in a deleted course counts as a lesson but enrols in nothing |
| CourseListing.Filtered | lms/app/controllers/api/courses_controller.rb:76-80 | a course is listed iff it matches every present filter: title by the ILIKE test, instructor_id by equality; `Index` lists, counts and pages exactly these courses |
| CourseListing.BlankFiltersKeepAll | lms/app/controllers/api/courses_controller.rb:77-78 | blank filter parameters are ignored |
| CourseListing.SortFieldOf | lms/app/controllers/api/courses_controller.rb:83-87 | title and instructor_id are taken as asked; anything else, or nothing, sorts by created_at |
| CourseListing.Downcase | lms/app/controllers/api/courses_controller.rb:88 | lower-cases every ASCII letter and keeps the length |
| CourseListing.DirectionOf | lms/app/controllers/api/courses_controller.rb:84-90 | ascending iff the parameter downcases to "asc"; otherwise descending (without Downcase: AscInAnyCase) |
| CourseListing.AscInAnyCase | lms/app/controllers/api/courses_controller.rb:84-90 | a parameter sorts ascending exactly when it is three letters spelling asc in any mix of cases; everything else, desc included, sorts descending |
| CourseListing.SortParameterExamples | lms/app/controllers/api/courses_controller.rb:83-90 | "ASC" and "Asc" sort ascending; "up" and no parameter sort descending; "Title" is not whitelisted |
| CourseListing.CurrentPage | lms/app/controllers/api/courses_controller.rb:98-101 | the parsed page when positive, otherwise 1 |
| CourseListing.PerPage | lms/app/controllers/api/courses_controller.rb:103-108 | 20 for 0; min(limit, 100) otherwise; never 0, and a negative limit passes through |
| CourseListing.TotalPages | lms/app/controllers/api/courses_controller.rb:20 | the least number of pages that holds the total: the ceiling of total / per_page |
| CourseListing.Page | lms/app/controllers/api/courses_controller.rb:93-96 | LIMIT per_page OFFSET (page−1)·per_page: at most per_page rows, the ones starting at the offset, none past the end |
| CourseListing.FirstPagesArePrefix | lms/app/controllers/api/courses_controller.rb:93-96 | pages 1..k together are the first k·per_page rows |
| CourseListing.PagesCoverListing | lms/app/controllers/api/courses_controller.rb:20 | pages 1..total_pages return every row once, in order |
| CourseListing.PageBeyondLastIsEmpty | lms/app/controllers/api/courses_controller.rb:20 | a page past total_pages is empty |
| CourseListing.Index | lms/app/controllers/api/courses_controller.rb:7-23 | over the database's answer to the filtered query in the whitelisted order: a negative per_page is refused; otherwise the page of that answer, its size, the number of filtered courses as total, and total_pages |
| CourseListing.FilteredCount | lms/app/controllers/api/courses_controller.rb:11 | `count` of the filtered query is the number of courses the filters keep |
| CourseListing.DefaultPagingExample | lms/app/controllers/api/courses_controller.rb:7-23 | 45 courses at the default size make 3 pages; the third holds 5 and the fourth none |
| CourseListing.PercentageShown | lms/app/controllers/api/courses_controller.rb:117 | the percentage is given iff a user_id is supplied, "" included |
| LearnerHistory.FromLms | reco/app/domain/events/learner_events.rb:6-8 | only LMS LessonCompleted events have a copy in the recommendation service |
| LearnerHistory.ToLms | reco/app/domain/events/learner_events.rb:6-8 | a copy stands for an LMS event iff it has a completion time |
| LearnerHistory.CopyLosesNothing | lms/app/domain/events/course_events.rb:27-29 | both services' LessonCompleted carry the same fields: LMS event, then copy, then back is the identity |
| LearnerHistory.CopyIsFaithful | reco/app/domain/events/learner_events.rb:6-8 | the same round trip from the copy's side |
| LearnerHistory.NewRow | reco/db/migrate/20240101000002_create_view_schema.rb:5-11 | a row is written iff user_id, lesson_id, course_id and completed_at are non-nil; it holds them, and a nil created_at becomes the current time |
| LearnerHistory.HistoryTable.constructor | reco/db/migrate/20240101000002_create_view_schema.rb:5-11 | the table starts empty |
| LearnerHistory.HistoryTable.Create | reco/app/domain/projections/learner_projection.rb:9-15 | `create!` appends exactly the new row with the next id, which is above every existing id, and advances the id; on refusal it changes nothing; ids stay increasing |
| LearnerHistory.OnLessonCompleted | reco/app/domain/projections/learner_projection.rb:8-16 | each LessonCompleted appends one row carrying the event's ids, completion time and creation time under a fresh id and advances the id; on refusal rows and id are unchanged |
| LearnerHistory.RelayedCompletionIsStored | reco/app/domain/projections/learner_projection.rb:9-15 | a relayed LMS completion with its three ids is stored as exactly those values |
| LearnerHistory.ForUser | reco/app/domain/read_models/learner_read_models.rb:8 | `for_user(u)` keeps exactly the rows with user_id u |
| LearnerHistory.ForUserAppend | reco/app/domain/read_models/learner_read_models.rb:8 | a new row joins `for_user(u)` at the end iff it is u's |
| LearnerHistory.RepeatedCompletionIsKept | reco/app/domain/projections/learner_projection.rb:8-16 | completing the same lesson twice gives two rows of that user |
| LearnerHistory.ForUserWithoutRows | reco/app/domain/read_models/learner_read_models.rb:8 | a user without rows, the empty id included, gets nothing |
| LearnerHistory.InsertByTime | reco/app/domain/read_models/learner_read_models.rb:9 | inserting into a newest-first list keeps it newest first and adds exactly that row |
| LearnerHistory.Recent | reco/app/domain/read_models/learner_read_models.rb:9 | `recent` is newest first and a permutation of its input |
| LearnerHistory.RecentStartsWithLatest | reco/app/domain/read_models/learner_read_models.rb:9 | the first row of `recent` is a row with the latest completed_at |
| LearnerHistory.RecentForUserIsPermutation | reco/app/domain/read_models/learner_read_models.rb:8-9 | `for_user(u).recent` reorders the user's rows with the same count, and holds exactly u's rows |
| Ingest.ParseDatetime | reco/app/controllers/api/events_controller.rb:28-32 | a missing value becomes now and a typed one is kept; a string is parsed: a time, nil when unrecognised, an error when the parser raises |
| Ingest.ExtractEventData | reco/app/controllers/api/events_controller.rb:17-26 | a blank `event` (missing, null, empty) is refused as missing and a non-object one by `permit`; for an object the ids are copied and both times normalised, failing iff a parse raises |
| Ingest.LessonCompleted | reco/app/controllers/api/events_controller.rb:5-13 | on success exactly one row is appended, the id advances, and the response echoes the row's id, which no earlier row has, and its ids; on any failure the error is returned and the table is unchanged |
| Ingest.MissingEventIsRejected | reco/app/controllers/api/events_controller.rb:18 | a blank `event` is refused with ParameterMissing, a non-object one with the `permit` error |
| Ingest.OnlyUnpermittedKeysIsRejected | reco/app/controllers/api/events_controller.rb:18-25 | an `event` object with only unpermitted keys passes `require` and is refused by the NOT NULL columns |
| Ingest.MissingIdIsRejected | reco/db/migrate/20240101000002_create_view_schema.rb:6-8 | a missing user, lesson or course id is refused |
| Ingest.UnrecognisedCompletionTimeIsRejected | reco/app/controllers/api/events_controller.rb:23 | an unrecognised completed_at string leaves the NOT NULL column nil, so the request is refused |
| Ingest.InvalidTimeIsRejected | reco/app/controllers/api/events_controller.rb:29 | a string on which the parser raises fails the request |
| Ingest.AcceptedExactly | reco/app/controllers/api/events_controller.rb:5-32 | the exact success condition; the stored row holds the request's ids, and absent times, or an unrecognised created_at, are the current time |
| Ingest.EmptyUserIsAccepted | reco/app/controllers/api/events_controller.rb:20 | an empty user_id is stored as "" |
| Recommendation.RecommendNextCourse | reco/app/services/recommendation_service.rb:8-15 | a user without history gets the new-learner choice, one with history the existing-learner chain (stated by NewLearnerIgnoresStats, ExistingLearnerIgnoresCourseList, IncompleteCourseWins and FallbackFollowsLatestCompletion) |
| Recommendation.ForNewLearner | reco/app/services/recommendation_service.rb:19-45 | the answer is either the first-course choice or the configured new-learner fallback |
| Recommendation.NewLearnerTakesFirstCourse | reco/app/services/recommendation_service.rb:21-31 | the first listed course, with its id and title, is offered iff the reply is a list whose first element is a course; otherwise the fallback |
| Recommendation.NonListRepliesFallBack | reco/app/services/recommendation_service.rb:33-44 | a failed, null or non-list reply ends in beginner-course-001 |
| Recommendation.SelectIncomplete | reco/app/services/recommendation_service.rb:60-62 | `select` raises iff some element is null or has a non-numeric percentage; otherwise it keeps exactly the entries with a percentage below 100, in list order |
| Recommendation.FetchIncomplete | reco/app/services/recommendation_service.rb:56-79 | a stats answer is always a "continue" reason with a percentage below 100 |
| Recommendation.IncompleteCourseIsFirstIncomplete | reco/app/services/recommendation_service.rb:56-79 | stats yield a course iff they hold a list with no raising element and some incomplete course; it is the first incomplete one |
| Recommendation.OneBadEntrySpoilsStats | reco/app/services/recommendation_service.rb:60-62 | a null entry or non-numeric percentage anywhere makes the stats step yield nothing |
| Recommendation.BuildFallback | reco/app/services/recommendation_service.rb:81-98 | the popular-course config is chosen iff there is no recent course |
| Recommendation.NewLearnerIgnoresStats | reco/app/services/recommendation_service.rb:8-15 | without history the answer is the new-learner choice, whatever the stats |
| Recommendation.ExistingLearnerIgnoresCourseList | reco/app/services/recommendation_service.rb:8-15 | with history the course list never matters |
| Recommendation.FallbackFollowsLatestCompletion | reco/app/services/recommendation_service.rb:47-54 | with history and stats that yield nothing, the answer is related-to the course of the user's latest completion |
| Recommendation.IncompleteCourseWins | reco/app/services/recommendation_service.rb:50-51 | with history, an incomplete course from the stats is the answer |
| Recommendation.PopularCourseIsNeverChosen | reco/app/services/recommendation_service.rb:90-97 | the popular-course fallback is unreachable, because a user with history always has a latest course |
| Recommendation.ContinueExample | reco/app/services/recommendation_service.rb:56-75 | a course at 100 is skipped and the one at 50 is offered |

## Left out

- Sequent framework internals are not part of this model: the repository, snapshots, optimistic concurrency, aggregate-id format checks and the command records. The event store is a map from aggregate id to its stream.
- The relay from the LMS lessons controller to the recommendation service is not modelled, because it is an HTTP call.
- The HTTP, JSON and URI code of the LMS client is not modelled. Only its results are inputs.
- The shape of the LMS listing reply is not modelled. The listing answers with an object (`data` plus `pagination`), and the recommendation service reads such a reply as `OtherBody`, which `NonListRepliesFallBack` covers.
- The remaining controller actions, rendering and status codes are not modelled, nor is the recommendation service's users controller.
- Logging is not modelled.
- Environment overrides of the fallback configuration are not modelled. The defaults are constants.
- `Time.current` and `Time.zone.parse` are parameters. Time zones are not modelled.
- `String#to_i` on the page parameters is not modelled. The model takes the parsed integers.
- CourseListing.Filtered: the ILIKE pattern match is a parameter, so `%` and `_` wildcards and case folding are not modelled.
- CourseListing.Index: the database's answer to the query is an input, required to list exactly the filtered courses, each once, in the whitelisted order. String collation is a parameter, and the order of rows with equal keys is left open, as it is in SQL.
- CourseListing.Downcase: only ASCII letters are folded. No other character lower-cases to a letter of "asc" or "desc", so the outcome is the same.
- ReadModels.RoundedPercent: the result is exact round-half-up in hundredths. Floating-point error of `Float#round(2)` is not modelled.
- UserStats.GetStats: the order of the course entries is not fixed by the SQL query. The model lists each course at the user's first completion in it.
- LearnerHistory.Recent: rows with equal completed_at keep table order, where the database leaves their order open.
- LearnerHistory.HistoryTable.Create: a refused insert does not consume a serial id, whereas PostgreSQL may skip one.
- Recommendation.FetchIncomplete: the reason text renders the percentage (`33.33`, `50.0`). The model keeps the number in hundredths.
- Recommendation.FetchIncomplete: a stats reply that is not an object, or elements that are neither objects nor null, are folded into the `OtherStats` and null cases.
- Recommendation.ForNewLearner: course-list elements that are neither objects nor null are not represented. A string as first element makes `courses.first['id']` index into the string, and a number raises; the model has no such element.
- Projections.Project: on an insert (CourseCreated, LessonCreated) ActiveRecord stamps `updated_at` with its own clock reading at save time. The model stores the event's creation time there instead, so it does not capture that the two readings can differ.
