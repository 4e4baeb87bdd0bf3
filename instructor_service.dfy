/** The instructor client and the session it keeps in the browser's local storage:
    two entries, `token` and `instructor` (the principal as JSON). */
module InstructorService {
  import opened Common
  import opened Http

  const TokenKey := "token"
  const InstructorKey := "instructor"

  /** A local-storage entry. `Json(r)` is the text `JSON.stringify(r)`; parsing it back
      gives `r` again, since principals are plain JSON data. */
  datatype Entry = Text(s: string) | Json(record: Record)

  /** `response.data` of the login and register endpoints. */
  datatype AuthResponse = AuthResponse(success: bool, token: Option<string>, data: Record, error: Option<string>)

  /** The browser's local storage, as far as the session uses it; other keys may be present. */
  class Storage {
    var items: map<string, Entry>

    /** The session shape kept by login and logout: the two entries are present together,
        the token as text and the principal as JSON. */
    ghost predicate Valid()
      reads this
    {
      && (TokenKey in items <==> InstructorKey in items)
      && (TokenKey in items ==> items[TokenKey].Text?)
      && Parsable()
    }

    /** What reading the principal back needs: a stored `instructor` entry is JSON text. */
    ghost predicate Parsable()
      reads this
    {
      InstructorKey in items ==> items[InstructorKey].Json?
    }

    constructor ()
      ensures items == map[] && Valid()
    {
      items := map[];
    }

    /** `localStorage.setItem(key, value)`. */
    method SetItem(key: string, e: Entry)
      modifies this
      ensures items == old(items)[key := e]
    {
      items := items[key := e];
    }

    /** `localStorage.removeItem(key)`. */
    method RemoveItem(key: string)
      modifies this
      ensures items == old(items) - {key}
    {
      items := items - {key};
    }
  }

  /** Whether a login response is stored: `response.data.success && response.data.token`. */
  predicate Stores(r: AuthResponse)
    ensures Stores(r) ==> r.success && r.token.Some? && |r.token.value| > 0
  {
    r.success && NonEmpty(r.token)
  }

  /** The request `login` sends. */
  function LoginRequest(credentials: Record): (r: Request)
    ensures r.Post? && r.path == "/instructors/login" && r.body == credentials
  {
    Post("/instructors/login", credentials)
  }

  /** The request `register` sends; registration involves no storage at all. */
  function RegisterRequest(profile: Record): (r: Request)
    ensures r.Post? && r.path == "/instructors/register" && r.body == profile
  {
    Post("/instructors/register", profile)
  }

  /** `login`: when the call returns a response with `success` and a token, both entries
      are written; otherwise (a failed response, a missing token, a thrown error) storage is left as it was. */
  method Login(storage: Storage, reply: Reply<AuthResponse>)
    modifies storage
    ensures old(storage.Valid()) ==> storage.Valid()
    ensures old(storage.Parsable()) ==> storage.Parsable()
    ensures reply.Ok? && Stores(reply.body) ==>
      storage.items == old(storage.items)[TokenKey := Text(reply.body.token.value)][InstructorKey := Json(reply.body.data)]
    ensures !(reply.Ok? && Stores(reply.body)) ==> storage.items == old(storage.items)
    ensures reply.Ok? && Stores(reply.body) ==>
      storage.Valid() && IsAuthenticated(storage) && GetCurrentInstructor(storage) == Some(reply.body.data)
  {
    if reply.Ok? && reply.body.success && NonEmpty(reply.body.token) {
      storage.SetItem(TokenKey, Text(reply.body.token.value));
      storage.SetItem(InstructorKey, Json(reply.body.data));
    }
  }

  /** `logout`: both entries are removed and every other key is kept. */
  method Logout(storage: Storage)
    modifies storage
    ensures storage.Valid()
    ensures storage.items == old(storage.items) - {TokenKey, InstructorKey}
    ensures !IsAuthenticated(storage) && GetCurrentInstructor(storage).None?
  {
    storage.RemoveItem(TokenKey);
    storage.RemoveItem(InstructorKey);
  }

  /** Logout is idempotent: from any storage, logging out twice leaves exactly what logging
      out once leaves. */
  method LogoutTwice(storage: Storage)
    modifies storage
    ensures storage.items == old(storage.items) - {TokenKey, InstructorKey}
    ensures !IsAuthenticated(storage) && GetCurrentInstructor(storage).None?
  {
    Logout(storage);
    ghost var once := storage.items;
    Logout(storage);
    assert storage.items == once;
  }

  /** `isAuthenticated`: `!!localStorage.getItem('token')`, so a stored empty string counts as logged out. */
  function IsAuthenticated(storage: Storage): (b: bool)
    reads storage
    ensures b <==> TokenKey in storage.items && storage.items[TokenKey] != Text("")
  {
    TokenKey in storage.items &&
      match storage.items[TokenKey]
      case Text(s) => s != ""
      case Json(_) => true
  }

  /** `getCurrentInstructor`: the parsed `instructor` entry, or none when it is absent. */
  function GetCurrentInstructor(storage: Storage): (p: Option<Record>)
    requires storage.Parsable()
    reads storage
    ensures p.None? <==> InstructorKey !in storage.items
    ensures p.Some? ==> storage.items[InstructorKey] == Json(p.value)
  {
    if InstructorKey in storage.items then Some(storage.items[InstructorKey].record) else None
  }

  /** The list request `getAllInstructors(params)` sends. */
  function GetAllInstructors(params: ListParams): (r: Request)
    ensures r.GetList? && r.path == "/instructors"
    ensures r.query == WithDefaults(params)
  {
    GetList("/instructors", WithDefaults(params))
  }

  /** The request `updateInstructor(id, data)` sends: the payload is not filtered. */
  function UpdateInstructor(id: Option<Value>, data: Record): (r: Request)
    ensures r.Put? && r.path == "/instructors" && r.id == id
    ensures r.body == data
  {
    Put("/instructors", id, data)
  }

  /** The request `deleteInstructor(id)` sends: a delete of the given instructor, with no payload. */
  function DeleteInstructor(id: Option<Value>): (r: Request)
    ensures r.Delete? && r.path == "/instructors" && r.id == id
  {
    Delete("/instructors", id)
  }

  /** In every session state login and logout leave, a stored token comes with a stored principal. */
  lemma AuthenticatedHasPrincipal(storage: Storage)
    requires storage.Valid() && IsAuthenticated(storage)
    ensures GetCurrentInstructor(storage).Some?
  {
  }

  /** The scenario of a successful login followed by two logouts: login with a response
      `{success: true, token: "t1", data: {instructor_id: 5}}` authenticates with principal 5,
      and after logging out (once or twice) the session is empty. */
  method LoginLogoutScenario()
    returns (authenticated: bool, principalId: Option<Value>, afterLogout: bool, principalAfterLogout: Option<Record>)
    ensures authenticated && principalId == Some(Num(5))
    ensures !afterLogout && principalAfterLogout.None?
  {
    var storage := new Storage();
    var response := AuthResponse(true, Some("t1"), map["instructor_id" := Num(5)], None);
    Login(storage, Ok(response));
    authenticated := IsAuthenticated(storage);
    var principal := GetCurrentInstructor(storage);
    principalId := Get(principal.value, "instructor_id");
    Logout(storage);
    Logout(storage);
    afterLogout := IsAuthenticated(storage);
    principalAfterLogout := GetCurrentInstructor(storage);
  }
}
