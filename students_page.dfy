/** The students page: the student list with search and paging and the student editor dialog.
    Unlike the other two lists it trusts the server's reply without fallbacks, and it has no
    sign-in gate: every row offers edit and delete and anyone may add a student. */
module StudentsPage {
  import opened Common
  import opened Http
  import opened ListView

  /** A call to the student client (its transport is not part of this model). */
  datatype StudentCall =
    | ListStudents(params: ListParams)
    | CreateStudent(data: Record)
    | UpdateStudent(id: Option<Value>, data: Record)
    | DeleteStudent(id: Option<Value>)

  /** The page's `pagination` state: `current` and `total` are copied from the reply as they
      are, so they can be undefined (`None`). */
  datatype StudentPagination = StudentPagination(current: Option<int>, pageSize: int, total: Option<int>)

  /** The rows (undefined when the reply had no `data`) and the pagination on screen. */
  datatype StudentListing = StudentListing(rows: Option<seq<Record>>, pagination: StudentPagination)

  const FetchFailed := "Failed to fetch students"

  /** What a fetch with `limit` rows leaves on screen. The rows are replaced by `response.data`
      first; reading `response.pagination.currentPage` then throws when `pagination` is
      missing, so the pagination is only replaced when the reply carries one. */
  function AfterStudentFetch(before: StudentListing, reply: Reply<ListResponse>, limit: int): (after: StudentListing)
    ensures reply.Thrown? ==> after == before
    ensures reply.Ok? ==> after.rows == reply.body.data
    ensures reply.Ok? && reply.body.pagination.Some? ==>
      after.pagination.pageSize == limit
      && after.pagination.current == reply.body.pagination.value.currentPage
      && after.pagination.total == reply.body.pagination.value.total
    ensures reply.Ok? && reply.body.pagination.None? ==> after.pagination == before.pagination
  {
    match reply
    case Ok(r) =>
      if r.pagination.Some? then
        StudentListing(r.data, StudentPagination(r.pagination.value.currentPage, limit, r.pagination.value.total))
      else
        StudentListing(r.data, before.pagination)
    case Thrown(_) => before
  }

  /** A failure is shown when the call throws, and also when the reply has no `pagination`. */
  function StudentFetchNotices(reply: Reply<ListResponse>): (ns: seq<Notice>)
    ensures ns == [] <==> reply.Ok? && reply.body.pagination.Some?
    ensures ns != [] ==> ns == [Failure(FetchFailed)]
  {
    if reply.Ok? && reply.body.pagination.Some? then [] else [Failure(FetchFailed)]
  }

  /** The server's numbers are taken without fallback: a reply whose `pagination` lacks them
      leaves them undefined and a missing `data` leaves the rows undefined, where the courses
      and instructors pages would fall back to the requested page and the row count. A reply
      with no `pagination` at all replaces the rows, keeps the old pagination and reports a failure. */
  lemma NoFallbacks(before: StudentListing, r: ListResponse, page: int, limit: int)
    ensures r.pagination == Some(PageInfo(None, None)) ==>
      && AfterStudentFetch(before, Ok(r), limit).pagination == StudentPagination(None, limit, None)
      && Reconcile(r, page, limit) == Pagination(page, limit, |Rows(r)|)
    ensures r.data.None? ==> AfterStudentFetch(before, Ok(r), limit).rows.None? && Rows(r) == []
    ensures r.pagination.None? ==>
      && AfterStudentFetch(before, Ok(r), limit) == StudentListing(r.data, before.pagination)
      && StudentFetchNotices(Ok(r)) == [Failure(FetchFailed)]
  {
  }

  /** A page argument that is undefined takes the default parameter value 1. */
  function PageOrFirst(page: Option<int>): (p: int)
    ensures page.Some? ==> p == page.value
    ensures page.None? ==> p == 1
  {
    if page.Some? then page.value else 1
  }

  class Page {
    var students: Option<seq<Record>>
    var loading: bool
    var pagination: StudentPagination
    var searchText: string
    var modalVisible: bool
    var selected: Option<Record>
    var formLoading: bool
    /** Every notification shown, oldest first. */
    var notices: seq<Notice>
    /** Every call made to the student client, oldest first. */
    var calls: seq<StudentCall>

    /** The rows and pagination on screen. */
    function Shown(): StudentListing
      reads this
    {
      StudentListing(students, pagination)
    }

    constructor ()
      ensures students == Some([]) && !loading && pagination == StudentPagination(Some(1), 10, Some(0))
      ensures searchText == "" && !modalVisible && selected.None? && !formLoading
      ensures notices == [] && calls == []
    {
      students := Some([]);
      loading := false;
      pagination := StudentPagination(Some(1), 10, Some(0));
      searchText := "";
      modalVisible := false;
      selected := None;
      formLoading := false;
      notices := [];
      calls := [];
    }

    /** `fetchStudents(page, limit, search)` with the reply it receives. */
    method Fetch(page: int, limit: int, search: string, reply: Reply<ListResponse>)
      modifies this
      ensures calls == old(calls) + [ListStudents(Http.Given(page, limit, search))]
      ensures Shown() == AfterStudentFetch(old(Shown()), reply, limit)
      ensures notices == old(notices) + StudentFetchNotices(reply)
      ensures !loading
      ensures searchText == old(searchText) && modalVisible == old(modalVisible)
      ensures selected == old(selected) && formLoading == old(formLoading)
    {
      loading := true;
      calls := calls + [ListStudents(Http.Given(page, limit, search))];
      match reply {
        case Ok(r) =>
          students := r.data;
          if r.pagination.Some? {
            pagination := StudentPagination(r.pagination.value.currentPage, limit, r.pagination.value.total);
          } else {
            notices := notices + [Failure(FetchFailed)];
          }
        case Thrown(_) =>
          notices := notices + [Failure(FetchFailed)];
      }
      loading := false;
    }

    /** The mount effect: `fetchStudents()` with every default. */
    method Mount(reply: Reply<ListResponse>)
      modifies this
      ensures calls == old(calls) + [ListStudents(Http.Given(1, 10, ""))]
      ensures Shown() == AfterStudentFetch(old(Shown()), reply, 10)
      ensures notices == old(notices) + StudentFetchNotices(reply)
      ensures !loading
      ensures searchText == old(searchText) && modalVisible == old(modalVisible)
      ensures selected == old(selected) && formLoading == old(formLoading)
    {
      Fetch(1, 10, "", reply);
    }

    /** `handleTableChange`: the requested page and size, with the stored search text. */
    method HandleTableChange(current: int, pageSize: int, reply: Reply<ListResponse>)
      modifies this
      ensures calls == old(calls) + [ListStudents(Http.Given(current, pageSize, old(searchText)))]
      ensures Shown() == AfterStudentFetch(old(Shown()), reply, pageSize)
      ensures notices == old(notices) + StudentFetchNotices(reply)
      ensures !loading
      ensures searchText == old(searchText) && modalVisible == old(modalVisible)
      ensures selected == old(selected) && formLoading == old(formLoading)
    {
      Fetch(current, pageSize, searchText, reply);
    }

    /** `handleSearch`: the text is kept, and page 1 is fetched with the current page size. */
    method HandleSearch(value: string, reply: Reply<ListResponse>)
      modifies this
      ensures searchText == value
      ensures calls == old(calls) + [ListStudents(Http.Given(1, old(pagination.pageSize), value))]
      ensures Shown() == AfterStudentFetch(old(Shown()), reply, old(pagination.pageSize))
      ensures notices == old(notices) + StudentFetchNotices(reply)
      ensures !loading
      ensures modalVisible == old(modalVisible) && selected == old(selected) && formLoading == old(formLoading)
    {
      searchText := value;
      Fetch(1, pagination.pageSize, value, reply);
    }

    /** `handleSubmit(values)`: an update of the selected student by `student_id`, or a creation.
        On success the dialog closes, the selection clears and the current page is fetched again
        (page 1 when the stored page is undefined); on failure the dialog stays open. */
    method HandleSubmit(values: Record, reply: Reply<()>, refetch: Reply<ListResponse>)
      modifies this
      ensures var call := if old(selected).Some? then UpdateStudent(Get(old(selected).value, "student_id"), values)
                          else CreateStudent(values);
        && (reply.Ok? ==> calls == old(calls) + [call,
              ListStudents(Http.Given(PageOrFirst(old(pagination.current)), old(pagination.pageSize), old(searchText)))])
        && (reply.Thrown? ==> calls == old(calls) + [call])
      ensures reply.Ok? ==>
        && !modalVisible && selected.None?
        && Shown() == AfterStudentFetch(old(Shown()), refetch, old(pagination.pageSize))
        && notices == old(notices)
          + [Success(if old(selected).Some? then "Student updated successfully" else "Student created successfully")]
          + StudentFetchNotices(refetch)
      ensures reply.Thrown? ==>
        && modalVisible == old(modalVisible) && selected == old(selected) && Shown() == old(Shown())
        && notices == old(notices) + [Failure(ErrorText(reply.failure, "Operation failed"))]
      ensures !formLoading && searchText == old(searchText)
    {
      formLoading := true;
      var editing := selected.Some?;
      if editing {
        calls := calls + [UpdateStudent(Get(selected.value, "student_id"), values)];
      } else {
        calls := calls + [CreateStudent(values)];
      }
      if reply.Ok? {
        notices := notices + [Success(if editing then "Student updated successfully" else "Student created successfully")];
        modalVisible := false;
        selected := None;
        FetchPage(pagination.current, pagination.pageSize, searchText, refetch);
      } else {
        notices := notices + [Failure(ErrorText(reply.failure, "Operation failed"))];
      }
      formLoading := false;
    }

    /** `handleDelete(studentId)`: on success the same page and search are fetched again; on
        failure nothing but a notification changes. */
    method HandleDelete(studentId: Option<Value>, reply: Reply<()>, refetch: Reply<ListResponse>)
      modifies this
      ensures reply.Ok? ==>
        && calls == old(calls) + [DeleteStudent(studentId),
             ListStudents(Http.Given(PageOrFirst(old(pagination.current)), old(pagination.pageSize), old(searchText)))]
        && Shown() == AfterStudentFetch(old(Shown()), refetch, old(pagination.pageSize))
        && notices == old(notices) + [Success("Student deleted successfully")] + StudentFetchNotices(refetch)
      ensures reply.Thrown? ==>
        && calls == old(calls) + [DeleteStudent(studentId)]
        && Shown() == old(Shown()) && loading == old(loading)
        && notices == old(notices) + [Failure(ErrorText(reply.failure, "Failed to delete student"))]
      ensures searchText == old(searchText) && modalVisible == old(modalVisible)
      ensures selected == old(selected) && formLoading == old(formLoading)
    {
      calls := calls + [DeleteStudent(studentId)];
      if reply.Ok? {
        notices := notices + [Success("Student deleted successfully")];
        FetchPage(pagination.current, pagination.pageSize, searchText, refetch);
      } else {
        notices := notices + [Failure(ErrorText(reply.failure, "Failed to delete student"))];
      }
    }

    /** `fetchStudents(pagination.current, ...)`: when the stored page is undefined the
        function's own default, page 1, applies. */
    method FetchPage(page: Option<int>, limit: int, search: string, reply: Reply<ListResponse>)
      modifies this
      ensures calls == old(calls) + [ListStudents(Http.Given(PageOrFirst(page), limit, search))]
      ensures Shown() == AfterStudentFetch(old(Shown()), reply, limit)
      ensures notices == old(notices) + StudentFetchNotices(reply)
      ensures !loading
      ensures searchText == old(searchText) && modalVisible == old(modalVisible)
      ensures selected == old(selected) && formLoading == old(formLoading)
    {
      Fetch(PageOrFirst(page), limit, search, reply);
    }

    /** `handleEdit(student)`: the row is selected and the editor opens. */
    method HandleEdit(student: Record)
      modifies this`selected, this`modalVisible
      ensures selected == Some(student) && modalVisible
    {
      selected := Some(student);
      modalVisible := true;
    }

    /** `handleAddNew`: always a cleared selection and an open dialog. */
    method HandleAddNew()
      modifies this`selected, this`modalVisible
      ensures selected.None? && modalVisible
    {
      selected := None;
      modalVisible := true;
    }

    /** The dialog's `onCancel`: closed, and nothing selected. */
    method HandleCancel()
      modifies this`selected, this`modalVisible
      ensures selected.None? && !modalVisible
    {
      modalVisible := false;
      selected := None;
    }
  }
}
