/** The instructors page: the instructor list with search and paging, sign-in, registration
    and sign-out, the profile editor dialog, and row actions for the signed-in instructor's own row. */
module InstructorsPage {
  import opened Common
  import opened Http
  import opened ListView
  import opened InstructorService

  /** The error shown when sign-in fails: the response's `error` (or "Login failed") when the
      call returned, the server's message (or "Login failed") when it threw. */
  function LoginFailure(reply: Reply<AuthResponse>): string
  {
    match reply
    case Ok(r) => if NonEmpty(r.error) then r.error.value else "Login failed"
    case Thrown(e) => ErrorText(e, "Login failed")
  }

  class Page {
    /** The browser storage holding the session. */
    const store: Storage
    var instructors: seq<Record>
    var loading: bool
    var pagination: Pagination
    var searchText: string
    var modalVisible: bool
    var loginModalVisible: bool
    var selected: Option<Record>
    var formLoading: bool
    var authLoading: bool
    /** The page's own copy of the session, read from storage when the page is created. */
    var authenticated: bool
    var principal: Option<Record>
    /** Every notification shown, oldest first. */
    var notices: seq<Notice>
    /** Every request sent to the API server, oldest first. */
    var sent: seq<Request>

    /** The page reads the principal back from storage, so the stored entry must parse. */
    ghost predicate Valid()
      reads this, store
    {
      store.Parsable()
    }

    /** The rows and pagination on screen. */
    function Shown(): Listing
      reads this
    {
      Listing(instructors, pagination)
    }

    /** The initial state; the session flags are read from storage. */
    constructor (store: Storage)
      requires store.Parsable()
      ensures this.store == store && Valid()
      ensures authenticated == IsAuthenticated(store) && principal == GetCurrentInstructor(store)
      ensures instructors == [] && !loading && pagination == InitialPagination && searchText == ""
      ensures !modalVisible && !loginModalVisible && selected.None? && !formLoading && !authLoading
      ensures notices == [] && sent == []
    {
      this.store := store;
      instructors := [];
      loading := false;
      pagination := InitialPagination;
      searchText := "";
      modalVisible := false;
      loginModalVisible := false;
      selected := None;
      formLoading := false;
      authLoading := false;
      authenticated := IsAuthenticated(store);
      principal := GetCurrentInstructor(store);
      notices := [];
      sent := [];
    }

    /** `fetchInstructors(page, limit, search)` with the reply it receives. */
    method Fetch(page: int, limit: int, search: string, reply: Reply<ListResponse>)
      modifies this
      ensures sent == old(sent) + [GetAllInstructors(Http.Given(page, limit, search))]
      ensures Shown() == AfterFetch(old(Shown()), reply, page, limit)
      ensures notices == old(notices) + FetchNotices(reply, "Failed to fetch instructors")
      ensures !loading
      ensures searchText == old(searchText) && modalVisible == old(modalVisible)
      ensures loginModalVisible == old(loginModalVisible) && selected == old(selected)
      ensures formLoading == old(formLoading) && authLoading == old(authLoading)
      ensures authenticated == old(authenticated) && principal == old(principal)
    {
      loading := true;
      sent := sent + [GetAllInstructors(Http.Given(page, limit, search))];
      match reply {
        case Ok(r) =>
          instructors := Rows(r);
          pagination := Reconcile(r, page, limit);
        case Thrown(_) =>
          notices := notices + [Failure("Failed to fetch instructors")];
      }
      loading := false;
    }

    /** The mount effect: `fetchInstructors()` with every default. */
    method Mount(reply: Reply<ListResponse>)
      modifies this
      ensures sent == old(sent) + [GetList("/instructors", Query(1, 10, ""))]
      ensures Shown() == AfterFetch(old(Shown()), reply, 1, 10)
      ensures notices == old(notices) + FetchNotices(reply, "Failed to fetch instructors")
      ensures !loading
      ensures searchText == old(searchText) && modalVisible == old(modalVisible)
      ensures loginModalVisible == old(loginModalVisible) && selected == old(selected)
      ensures formLoading == old(formLoading) && authLoading == old(authLoading)
      ensures authenticated == old(authenticated) && principal == old(principal)
    {
      Fetch(1, 10, "", reply);
    }

    /** `handleTableChange`: the requested page and size, with the stored search text. */
    method HandleTableChange(current: int, pageSize: int, reply: Reply<ListResponse>)
      modifies this
      ensures sent == old(sent) + [GetList("/instructors", Query(current, pageSize, old(searchText)))]
      ensures Shown() == AfterFetch(old(Shown()), reply, current, pageSize)
      ensures notices == old(notices) + FetchNotices(reply, "Failed to fetch instructors")
      ensures !loading
      ensures searchText == old(searchText) && modalVisible == old(modalVisible)
      ensures loginModalVisible == old(loginModalVisible) && selected == old(selected)
      ensures formLoading == old(formLoading) && authLoading == old(authLoading)
      ensures authenticated == old(authenticated) && principal == old(principal)
    {
      Fetch(current, pageSize, searchText, reply);
    }

    /** `handleSearch`: the text is kept, and page 1 is fetched with the current page size. */
    method HandleSearch(value: string, reply: Reply<ListResponse>)
      modifies this
      ensures searchText == value
      ensures sent == old(sent) + [GetList("/instructors", Query(1, old(pagination.pageSize), value))]
      ensures Shown() == AfterFetch(old(Shown()), reply, 1, old(pagination.pageSize))
      ensures notices == old(notices) + FetchNotices(reply, "Failed to fetch instructors")
      ensures !loading
      ensures modalVisible == old(modalVisible)
      ensures loginModalVisible == old(loginModalVisible) && selected == old(selected)
      ensures formLoading == old(formLoading) && authLoading == old(authLoading)
      ensures authenticated == old(authenticated) && principal == old(principal)
    {
      searchText := value;
      Fetch(1, pagination.pageSize, value, reply);
    }

    /** `handleLogin(credentials)`: the login call stores the session when it carries a token;
        a response with `success` then marks the page signed in (even without a token), reloads
        the principal from storage, closes the dialog and fetches the first page with defaults.
        Any other outcome changes nothing but a notification. */
    method HandleLogin(credentials: Record, reply: Reply<AuthResponse>, refetch: Reply<ListResponse>)
      requires Valid()
      modifies this, store
      ensures Valid()
      ensures reply.Ok? && Stores(reply.body) ==>
        store.items == old(store.items)[TokenKey := Text(reply.body.token.value)][InstructorKey := Json(reply.body.data)]
      ensures !(reply.Ok? && Stores(reply.body)) ==> store.items == old(store.items)
      ensures reply.Ok? && Stores(reply.body) ==> principal == Some(reply.body.data)
      ensures reply.Ok? && reply.body.success ==>
        && authenticated && principal == GetCurrentInstructor(store) && !loginModalVisible
        && sent == old(sent) + [LoginRequest(credentials), GetList("/instructors", Query(1, 10, ""))]
        && Shown() == AfterFetch(old(Shown()), refetch, 1, 10)
        && notices == old(notices) + [Success("Login successful")] + FetchNotices(refetch, "Failed to fetch instructors")
      ensures !(reply.Ok? && reply.body.success) ==>
        && authenticated == old(authenticated) && principal == old(principal)
        && loginModalVisible == old(loginModalVisible) && Shown() == old(Shown())
        && sent == old(sent) + [LoginRequest(credentials)]
        && notices == old(notices) + [Failure(LoginFailure(reply))]
      ensures !authLoading && searchText == old(searchText) && modalVisible == old(modalVisible)
      ensures selected == old(selected) && formLoading == old(formLoading)
    {
      authLoading := true;
      sent := sent + [LoginRequest(credentials)];
      Login(store, reply);
      AfterLogin(reply, refetch);
      authLoading := false;
    }

    /** The page's reaction once the login call has settled and storage has been written. */
    method AfterLogin(reply: Reply<AuthResponse>, refetch: Reply<ListResponse>)
      requires Valid()
      modifies this
      ensures reply.Ok? && reply.body.success ==>
        && authenticated && principal == GetCurrentInstructor(store) && !loginModalVisible
        && sent == old(sent) + [GetList("/instructors", Query(1, 10, ""))]
        && Shown() == AfterFetch(old(Shown()), refetch, 1, 10)
        && notices == old(notices) + [Success("Login successful")] + FetchNotices(refetch, "Failed to fetch instructors")
      ensures !(reply.Ok? && reply.body.success) ==>
        && authenticated == old(authenticated) && principal == old(principal)
        && loginModalVisible == old(loginModalVisible) && Shown() == old(Shown())
        && sent == old(sent)
        && notices == old(notices) + [Failure(LoginFailure(reply))]
      ensures authLoading == old(authLoading) && searchText == old(searchText) && modalVisible == old(modalVisible)
      ensures selected == old(selected) && formLoading == old(formLoading)
    {
      if reply.Ok? && reply.body.success {
        notices := notices + [Success("Login successful")];
        authenticated := true;
        principal := GetCurrentInstructor(store);
        loginModalVisible := false;
        Fetch(1, 10, "", refetch);
      } else {
        notices := notices + [Failure(LoginFailure(reply))];
      }
    }

    /** `handleRegister(profile)`: storage is never touched and the page stays signed out or in
        as it was; a response with `success` closes the dialog and fetches the first page. */
    method HandleRegister(profile: Record, reply: Reply<AuthResponse>, refetch: Reply<ListResponse>)
      modifies this
      ensures authenticated == old(authenticated) && principal == old(principal)
      ensures reply.Ok? && reply.body.success ==>
        && !loginModalVisible
        && sent == old(sent) + [RegisterRequest(profile), GetList("/instructors", Query(1, 10, ""))]
        && Shown() == AfterFetch(old(Shown()), refetch, 1, 10)
        && notices == old(notices) + [Success("Registration successful! Please login.")]
          + FetchNotices(refetch, "Failed to fetch instructors")
      ensures !(reply.Ok? && reply.body.success) ==>
        && loginModalVisible == old(loginModalVisible) && Shown() == old(Shown())
        && sent == old(sent) + [RegisterRequest(profile)]
      ensures reply.Ok? && !reply.body.success ==>
        notices == old(notices) + [Failure(if NonEmpty(reply.body.error) then reply.body.error.value else "Registration failed")]
      ensures reply.Thrown? ==> notices == old(notices) + [Failure(ErrorText(reply.failure, "Registration failed"))]
      ensures !authLoading && searchText == old(searchText) && modalVisible == old(modalVisible)
      ensures selected == old(selected) && formLoading == old(formLoading)
    {
      authLoading := true;
      sent := sent + [RegisterRequest(profile)];
      if reply.Ok? && reply.body.success {
        notices := notices + [Success("Registration successful! Please login.")];
        loginModalVisible := false;
        Fetch(1, 10, "", refetch);
      } else if reply.Ok? {
        notices := notices + [Failure(if NonEmpty(reply.body.error) then reply.body.error.value else "Registration failed")];
      } else {
        notices := notices + [Failure(ErrorText(reply.failure, "Registration failed"))];
      }
      authLoading := false;
    }

    /** `handleLogout`: the session is removed from storage, the page is signed out, and the
        first page is fetched with defaults. */
    method HandleLogout(refetch: Reply<ListResponse>)
      modifies this, store
      ensures Valid()
      ensures store.items == old(store.items) - {TokenKey, InstructorKey}
      ensures !authenticated && principal.None?
      ensures !IsAuthenticated(store) && GetCurrentInstructor(store).None?
      ensures sent == old(sent) + [GetList("/instructors", Query(1, 10, ""))]
      ensures Shown() == AfterFetch(old(Shown()), refetch, 1, 10)
      ensures notices == old(notices) + [Success("Logged out successfully")] + FetchNotices(refetch, "Failed to fetch instructors")
      ensures searchText == old(searchText) && modalVisible == old(modalVisible)
      ensures loginModalVisible == old(loginModalVisible) && selected == old(selected)
      ensures formLoading == old(formLoading) && authLoading == old(authLoading)
    {
      Logout(store);
      authenticated := false;
      principal := None;
      notices := notices + [Success("Logged out successfully")];
      Fetch(1, 10, "", refetch);
    }

    /** `handleSubmit(values)`: with nothing selected, only an informational message (no request,
        the dialog stays open); otherwise an update by the selected row's `instructor_id`,
        followed on success by closing, clearing and fetching the current page again. */
    method HandleSubmit(values: Record, reply: Reply<()>, refetch: Reply<ListResponse>)
      modifies this
      ensures old(selected).None? ==>
        && sent == old(sent) && Shown() == old(Shown())
        && modalVisible == old(modalVisible) && selected == old(selected)
        && notices == old(notices) + [Info("Please use the Register option to create new instructors")]
      ensures old(selected).Some? && reply.Ok? ==>
        && sent == old(sent) + [UpdateInstructor(Get(old(selected).value, "instructor_id"), values),
             GetList("/instructors", Query(old(pagination.current), old(pagination.pageSize), old(searchText)))]
        && !modalVisible && selected.None?
        && Shown() == AfterFetch(old(Shown()), refetch, old(pagination.current), old(pagination.pageSize))
        && notices == old(notices) + [Success("Instructor updated successfully")]
          + FetchNotices(refetch, "Failed to fetch instructors")
      ensures old(selected).Some? && reply.Thrown? ==>
        && sent == old(sent) + [UpdateInstructor(Get(old(selected).value, "instructor_id"), values)]
        && modalVisible == old(modalVisible) && selected == old(selected) && Shown() == old(Shown())
        && notices == old(notices) + [Failure(ErrorText(reply.failure, "Operation failed"))]
      ensures !formLoading && searchText == old(searchText)
      ensures loginModalVisible == old(loginModalVisible) && authLoading == old(authLoading)
      ensures authenticated == old(authenticated) && principal == old(principal)
    {
      formLoading := true;
      if selected.None? {
        notices := notices + [Info("Please use the Register option to create new instructors")];
        formLoading := false;
        return;
      }
      UpdateSelected(values, reply, refetch);
      formLoading := false;
    }

    /** The update branch of `handleSubmit`, for a selected row. */
    method UpdateSelected(values: Record, reply: Reply<()>, refetch: Reply<ListResponse>)
      requires selected.Some?
      modifies this
      ensures reply.Ok? ==>
        && sent == old(sent) + [UpdateInstructor(Get(old(selected).value, "instructor_id"), values),
             GetList("/instructors", Query(old(pagination.current), old(pagination.pageSize), old(searchText)))]
        && !modalVisible && selected.None?
        && Shown() == AfterFetch(old(Shown()), refetch, old(pagination.current), old(pagination.pageSize))
        && notices == old(notices) + [Success("Instructor updated successfully")]
          + FetchNotices(refetch, "Failed to fetch instructors")
      ensures reply.Thrown? ==>
        && sent == old(sent) + [UpdateInstructor(Get(old(selected).value, "instructor_id"), values)]
        && modalVisible == old(modalVisible) && selected == old(selected) && Shown() == old(Shown())
        && notices == old(notices) + [Failure(ErrorText(reply.failure, "Operation failed"))]
      ensures searchText == old(searchText) && formLoading == old(formLoading)
      ensures loginModalVisible == old(loginModalVisible) && authLoading == old(authLoading)
      ensures authenticated == old(authenticated) && principal == old(principal)
    {
      sent := sent + [UpdateInstructor(Get(selected.value, "instructor_id"), values)];
      if reply.Ok? {
        notices := notices + [Success("Instructor updated successfully")];
        modalVisible := false;
        selected := None;
        Fetch(pagination.current, pagination.pageSize, searchText, refetch);
      } else {
        notices := notices + [Failure(ErrorText(reply.failure, "Operation failed"))];
      }
    }

    /** `handleDelete(instructorId)`: on success the same page and search are fetched again;
        on failure nothing but a notification changes. */
    method HandleDelete(instructorId: Option<Value>, reply: Reply<()>, refetch: Reply<ListResponse>)
      modifies this
      ensures reply.Ok? ==>
        && sent == old(sent) + [DeleteInstructor(instructorId),
             GetList("/instructors", Query(old(pagination.current), old(pagination.pageSize), old(searchText)))]
        && Shown() == AfterFetch(old(Shown()), refetch, old(pagination.current), old(pagination.pageSize))
        && notices == old(notices) + [Success("Instructor deleted successfully")]
          + FetchNotices(refetch, "Failed to fetch instructors")
      ensures reply.Thrown? ==>
        && sent == old(sent) + [DeleteInstructor(instructorId)]
        && Shown() == old(Shown()) && loading == old(loading)
        && notices == old(notices) + [Failure(ErrorText(reply.failure, "Failed to delete instructor"))]
      ensures searchText == old(searchText) && modalVisible == old(modalVisible)
      ensures loginModalVisible == old(loginModalVisible) && selected == old(selected)
      ensures formLoading == old(formLoading) && authLoading == old(authLoading)
      ensures authenticated == old(authenticated) && principal == old(principal)
    {
      sent := sent + [DeleteInstructor(instructorId)];
      if reply.Ok? {
        notices := notices + [Success("Instructor deleted successfully")];
        Fetch(pagination.current, pagination.pageSize, searchText, refetch);
      } else {
        notices := notices + [Failure(ErrorText(reply.failure, "Failed to delete instructor"))];
      }
    }

    /** `handleEdit(instructor)`: the row is selected and the editor opens. */
    method HandleEdit(instructor: Record)
      modifies this`selected, this`modalVisible
      ensures selected == Some(instructor) && modalVisible
    {
      selected := Some(instructor);
      modalVisible := true;
    }

    /** The "Edit Profile" menu entry: the page's principal is selected (possibly none) and the editor opens. */
    method HandleEditProfile()
      modifies this`selected, this`modalVisible
      ensures selected == principal && modalVisible
    {
      selected := principal;
      modalVisible := true;
    }

    /** The editor's `onCancel`: closed, and nothing selected. */
    method HandleCancel()
      modifies this`selected, this`modalVisible
      ensures selected.None? && !modalVisible
    {
      modalVisible := false;
      selected := None;
    }

    /** The "Login / Register" button, and the dialog's `onCancel`. */
    method SetLoginVisible(visible: bool)
      modifies this`loginModalVisible
      ensures loginModalVisible == visible
    {
      loginModalVisible := visible;
    }

    /** Whether a row shows its edit and delete actions, from the page's own session state. */
    predicate OffersActions(record: Record)
      reads this
      ensures OffersActions(record) <==> !ViewOnly(authenticated, principal, record)
      ensures OffersActions(record) ==> authenticated && principal.Some?
    {
      CanManage(authenticated, principal, record)
    }
  }

  /** The scenario of signing in on a fresh page with a response that has `success` but no
      token: the page shows itself signed in, yet storage holds no session, so not even the
      instructor's own row offers its actions, and a reload would show the page signed out again. */
  method SuccessWithoutToken(credentials: Record, refetch: Reply<ListResponse>)
    returns (pageSignedIn: bool, storeSignedIn: bool, ownRowManageable: bool)
    ensures pageSignedIn && !storeSignedIn && !ownRowManageable
  {
    var store := new Storage();
    var page := new Page(store);
    page.HandleLogin(credentials, Ok(AuthResponse(true, None, map["instructor_id" := Num(7)], None)), refetch);
    pageSignedIn := page.authenticated;
    storeSignedIn := IsAuthenticated(store);
    ownRowManageable := page.OffersActions(map["instructor_id" := Num(7)]);
  }
}
