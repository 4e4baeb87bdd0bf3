/** The courses page: the course list with search and paging, the course editor dialog,
    row actions for the signed-in owner, and each course's status. */
module CoursesPage {
  import opened Common
  import opened Http
  import opened ListView
  import CourseService
  import InstructorService

  // ---------------------------------------------------------------------------
  // Course status

  datatype Status = Upcoming | Active | Completed

  /** Instants are milliseconds; a course date parses to the local midnight that starts its day. */
  const DayLength := 86_400_000

  function Midnight(day: int): int
  {
    day * DayLength
  }

  /** `dayjs(value)` as an instant, `None` standing for an invalid date: `undefined` is the
      current instant, `null` is invalid, a course date is the local midnight that starts its day,
      a number is milliseconds, and `true`/`false` are the instants 1 and 0. Free text is treated
      as invalid. */
  function Instant(v: Option<Value>, now: int): (t: Option<int>)
    ensures v.None? ==> t == Some(now)
    ensures v == Some(Null) ==> t.None?
    ensures v.Some? && (v.value.DateText? || v.value.Day?) ==> t == Some(Midnight(v.value.day))
  {
    match v
    case None => Some(now)
    case Some(Null) => None
    case Some(Bool(b)) => Some(if b then 1 else 0)
    case Some(Num(n)) => Some(n)
    case Some(Str(_)) => None
    case Some(DateText(d)) => Some(Midnight(d))
    case Some(Day(d)) => Some(Midnight(d))
  }

  /** `getCourseStatus`: upcoming before the start instant, completed after the end instant,
      active otherwise, with both instants included. An invalid instant compares false either
      way, so it never makes a course upcoming or completed. */
  function CourseStatus(now: int, start: Option<int>, end: Option<int>): (s: Status)
    ensures s == Upcoming <==> start.Some? && now < start.value
    ensures s == Completed <==> (start.None? || start.value <= now) && end.Some? && end.value < now
    ensures s == Active <==> (start.None? || start.value <= now) && (end.None? || now <= end.value)
  {
    if start.Some? && now < start.value then Upcoming
    else if end.Some? && now > end.value then Completed
    else Active
  }

  /** The status column of one row, from the row's `start_date` and `end_date`. */
  function RecordStatus(now: int, record: Record): Status
  {
    CourseStatus(now, Instant(Get(record, "start_date"), now), Instant(Get(record, "end_date"), now))
  }

  /** A row with both dates reads by them: upcoming until its start midnight, completed after its
      end midnight, active in between. */
  lemma DatedStatus(now: int, record: Record, startDay: int, endDay: int)
    requires Get(record, "start_date") == Some(DateText(startDay))
    requires Get(record, "end_date") == Some(DateText(endDay))
    ensures RecordStatus(now, record) == Upcoming <==> now < Midnight(startDay)
    ensures RecordStatus(now, record) == Active <==> Midnight(startDay) <= now <= Midnight(endDay)
    ensures RecordStatus(now, record) == Completed <==> Midnight(startDay) <= now && Midnight(endDay) < now
  {
  }

  /** A missing or `null` end date never completes a course, and a missing or `null` start date
      never makes it upcoming: a course with neither reads active at every instant. */
  lemma UndatedStatus(now: int, record: Record)
    ensures Get(record, "end_date") in {None, Some(Null)} ==> RecordStatus(now, record) != Completed
    ensures Get(record, "start_date") in {None, Some(Null)} ==> RecordStatus(now, record) != Upcoming
    ensures Get(record, "start_date") in {None, Some(Null)} && Get(record, "end_date") in {None, Some(Null)} ==>
      RecordStatus(now, record) == Active
  {
  }

  function Rank(s: Status): nat
  {
    match s
    case Upcoming => 0
    case Active => 1
    case Completed => 2
  }

  /** As time passes a course with fixed instants only moves forward: upcoming, then active,
      then completed. */
  lemma StatusMonotone(now1: int, now2: int, start: Option<int>, end: Option<int>)
    requires now1 <= now2
    ensures Rank(CourseStatus(now1, start, end)) <= Rank(CourseStatus(now2, start, end))
  {
  }

  /** Because the end date is read as its midnight, a course already reads "completed" for
      nearly all of its last day, and a one-day course is active for a single instant. */
  lemma CompletedDuringLastDay(now: int, record: Record, startDay: int, endDay: int)
    requires Get(record, "start_date") == Some(DateText(startDay))
    requires Get(record, "end_date") == Some(DateText(endDay))
    requires startDay <= endDay
    requires Midnight(endDay) < now < Midnight(endDay + 1)
    ensures RecordStatus(now, record) == Completed
    ensures RecordStatus(Midnight(endDay), record) == Active
  {
  }

  // ---------------------------------------------------------------------------
  // The page

  class Page {
    /** The browser storage the page reads the session from at every render. */
    const store: InstructorService.Storage
    var courses: seq<Record>
    var loading: bool
    var pagination: Pagination
    var searchText: string
    var modalVisible: bool
    var selected: Option<Record>
    var formLoading: bool
    /** Every notification shown, oldest first. */
    var notices: seq<Notice>
    /** Every request sent to the API server, oldest first. */
    var sent: seq<Request>

    /** The rows and pagination on screen. */
    function Shown(): Listing
      reads this
    {
      Listing(courses, pagination)
    }

    constructor (store: InstructorService.Storage)
      ensures this.store == store
      ensures courses == [] && !loading && pagination == InitialPagination && searchText == ""
      ensures !modalVisible && selected.None? && !formLoading && notices == [] && sent == []
    {
      this.store := store;
      courses := [];
      loading := false;
      pagination := InitialPagination;
      searchText := "";
      modalVisible := false;
      selected := None;
      formLoading := false;
      notices := [];
      sent := [];
    }

    /** `fetchCourses(page, limit, search)` with the reply it receives. */
    method Fetch(page: int, limit: int, search: string, reply: Reply<ListResponse>)
      modifies this
      ensures sent == old(sent) + [CourseService.GetAllCourses(Http.Given(page, limit, search))]
      ensures Shown() == AfterFetch(old(Shown()), reply, page, limit)
      ensures notices == old(notices) + FetchNotices(reply, "Failed to fetch courses")
      ensures !loading
      ensures searchText == old(searchText) && modalVisible == old(modalVisible)
      ensures selected == old(selected) && formLoading == old(formLoading)
    {
      loading := true;
      sent := sent + [CourseService.GetAllCourses(Http.Given(page, limit, search))];
      match reply {
        case Ok(r) =>
          courses := Rows(r);
          pagination := Reconcile(r, page, limit);
        case Thrown(_) =>
          notices := notices + [Failure("Failed to fetch courses")];
      }
      loading := false;
    }

    /** The mount effect: `fetchCourses()` with every default. */
    method Mount(reply: Reply<ListResponse>)
      modifies this
      ensures sent == old(sent) + [GetList("/courses", Query(1, 10, ""))]
      ensures Shown() == AfterFetch(old(Shown()), reply, 1, 10)
      ensures notices == old(notices) + FetchNotices(reply, "Failed to fetch courses")
      ensures !loading
      ensures searchText == old(searchText) && modalVisible == old(modalVisible)
      ensures selected == old(selected) && formLoading == old(formLoading)
    {
      Fetch(1, 10, "", reply);
    }

    /** `handleTableChange`: the requested page and size, with the stored search text. */
    method HandleTableChange(current: int, pageSize: int, reply: Reply<ListResponse>)
      modifies this
      ensures sent == old(sent) + [GetList("/courses", Query(current, pageSize, old(searchText)))]
      ensures Shown() == AfterFetch(old(Shown()), reply, current, pageSize)
      ensures notices == old(notices) + FetchNotices(reply, "Failed to fetch courses")
      ensures !loading
      ensures searchText == old(searchText) && modalVisible == old(modalVisible)
      ensures selected == old(selected) && formLoading == old(formLoading)
    {
      Fetch(current, pageSize, searchText, reply);
    }

    /** `handleSearch`: the text is kept, and page 1 is fetched with the current page size. */
    method HandleSearch(value: string, reply: Reply<ListResponse>)
      modifies this
      ensures searchText == value
      ensures sent == old(sent) + [GetList("/courses", Query(1, old(pagination.pageSize), value))]
      ensures Shown() == AfterFetch(old(Shown()), reply, 1, old(pagination.pageSize))
      ensures notices == old(notices) + FetchNotices(reply, "Failed to fetch courses")
      ensures !loading
      ensures modalVisible == old(modalVisible) && selected == old(selected) && formLoading == old(formLoading)
    {
      searchText := value;
      Fetch(1, pagination.pageSize, value, reply);
    }

    /** `handleSubmit` with the form's values: an update of the selected course, or a creation.
        On success the dialog closes, the selection clears and the current page is fetched
        again (with `refetch`); on failure the dialog stays open with the server's message. */
    method HandleSubmit(values: Record, reply: Reply<()>, refetch: Reply<ListResponse>)
      modifies this
      ensures var call := if old(selected).Some? then CourseService.UpdateCourse(Get(old(selected).value, "course_id"), values)
                          else CourseService.CreateCourse(values);
        reply.Ok? ==> sent == old(sent) + [call,
          GetList("/courses", Query(old(pagination.current), old(pagination.pageSize), old(searchText)))]
      ensures var call := if old(selected).Some? then CourseService.UpdateCourse(Get(old(selected).value, "course_id"), values)
                          else CourseService.CreateCourse(values);
        reply.Thrown? ==> sent == old(sent) + [call]
      ensures reply.Ok? ==>
        && !modalVisible && selected.None?
        && Shown() == AfterFetch(old(Shown()), refetch, old(pagination.current), old(pagination.pageSize))
        && notices == old(notices)
          + [Success(if old(selected).Some? then "Course updated successfully" else "Course created successfully")]
          + FetchNotices(refetch, "Failed to fetch courses")
      ensures reply.Thrown? ==>
        && modalVisible == old(modalVisible) && selected == old(selected) && Shown() == old(Shown())
        && notices == old(notices) + [Failure(ErrorText(reply.failure, "Operation failed"))]
      ensures !formLoading && searchText == old(searchText)
      ensures reply.Thrown? ==> loading == old(loading)
      ensures reply.Ok? ==> !loading
    {
      formLoading := true;
      var editing := selected.Some?;
      if editing {
        sent := sent + [CourseService.UpdateCourse(Get(selected.value, "course_id"), values)];
      } else {
        sent := sent + [CourseService.CreateCourse(values)];
      }
      if reply.Ok? {
        notices := notices + [Success(if editing then "Course updated successfully" else "Course created successfully")];
        modalVisible := false;
        selected := None;
        Fetch(pagination.current, pagination.pageSize, searchText, refetch);
      } else {
        notices := notices + [Failure(ErrorText(reply.failure, "Operation failed"))];
      }
      formLoading := false;
    }

    /** `handleDelete(courseId)`: on success the same page and search are fetched again; on
        failure nothing but a notification changes. */
    method HandleDelete(courseId: Option<Value>, reply: Reply<()>, refetch: Reply<ListResponse>)
      modifies this
      ensures reply.Ok? ==> sent == old(sent) + [CourseService.DeleteCourse(courseId),
        GetList("/courses", Query(old(pagination.current), old(pagination.pageSize), old(searchText)))]
      ensures reply.Ok? ==>
        && Shown() == AfterFetch(old(Shown()), refetch, old(pagination.current), old(pagination.pageSize))
        && notices == old(notices) + [Success("Course deleted successfully")] + FetchNotices(refetch, "Failed to fetch courses")
        && !loading
      ensures reply.Thrown? ==>
        && sent == old(sent) + [CourseService.DeleteCourse(courseId)]
        && Shown() == old(Shown()) && loading == old(loading)
        && notices == old(notices) + [Failure(ErrorText(reply.failure, "Failed to delete course"))]
      ensures searchText == old(searchText) && modalVisible == old(modalVisible)
      ensures selected == old(selected) && formLoading == old(formLoading)
    {
      sent := sent + [CourseService.DeleteCourse(courseId)];
      if reply.Ok? {
        notices := notices + [Success("Course deleted successfully")];
        Fetch(pagination.current, pagination.pageSize, searchText, refetch);
      } else {
        notices := notices + [Failure(ErrorText(reply.failure, "Failed to delete course"))];
      }
    }

    /** `handleEdit(course)`: the course is selected and the dialog opens. */
    method HandleEdit(course: Record)
      modifies this`selected, this`modalVisible
      ensures selected == Some(course) && modalVisible
    {
      selected := Some(course);
      modalVisible := true;
    }

    /** `handleAddNew`: signed out, only a warning; signed in, a cleared selection and an open dialog. */
    method HandleAddNew()
      modifies this`selected, this`modalVisible, this`notices
      ensures !InstructorService.IsAuthenticated(store) ==>
        && notices == old(notices) + [Warning("Please login as an instructor to create courses")]
        && selected == old(selected) && modalVisible == old(modalVisible)
      ensures InstructorService.IsAuthenticated(store) ==>
        selected.None? && modalVisible && notices == old(notices)
    {
      if !InstructorService.IsAuthenticated(store) {
        notices := notices + [Warning("Please login as an instructor to create courses")];
        return;
      }
      selected := None;
      modalVisible := true;
    }

    /** The dialog's `onCancel`: closed, and nothing selected. */
    method HandleCancel()
      modifies this`selected, this`modalVisible
      ensures selected.None? && !modalVisible
    {
      modalVisible := false;
      selected := None;
    }

    /** Whether a row shows its edit and delete actions, from the session read at render. */
    predicate OffersActions(record: Record)
      requires store.Parsable()
      reads this, store
      ensures OffersActions(record) <==>
        !ViewOnly(InstructorService.IsAuthenticated(store), InstructorService.GetCurrentInstructor(store), record)
      ensures OffersActions(record) ==> InstructorService.IsAuthenticated(store)
    {
      CanManage(InstructorService.IsAuthenticated(store), InstructorService.GetCurrentInstructor(store), record)
    }
  }
}
