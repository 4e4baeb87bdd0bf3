/** The course client: the requests it sends for each call. */
module CourseService {
  import opened Common
  import opened Http

  const OwnerKey := "instructor_id"

  /** `const { instructor_id, ...rest } = courseData`: the payload without its owner.
      The owner is set by the server at creation and must never be changed from the client. */
  function WithoutOwner(data: Record): (rest: Record)
    ensures OwnerKey !in rest
    ensures rest.Keys == data.Keys - {OwnerKey}
    ensures forall k :: k in rest ==> rest[k] == data[k]
  {
    map k | k in data && k != OwnerKey :: data[k]
  }

  /** The list request `getAllCourses(params)` sends. */
  function GetAllCourses(params: ListParams): (r: Request)
    ensures r.GetList? && r.path == "/courses"
    ensures r.query == WithDefaults(params)
  {
    GetList("/courses", WithDefaults(params))
  }

  /** `createCourse(data)` posts the payload stripped of `instructor_id`. */
  function CreateCourse(data: Record): (r: Request)
    ensures r.Post? && r.path == "/courses"
    ensures OwnerKey !in r.body && r.body.Keys == data.Keys - {OwnerKey}
    ensures forall k :: k in data && k != OwnerKey ==> k in r.body && r.body[k] == data[k]
  {
    Post("/courses", WithoutOwner(data))
  }

  /** `updateCourse(id, data)` puts the stripped payload to the given course. */
  function UpdateCourse(id: Option<Value>, data: Record): (r: Request)
    ensures r.Put? && r.path == "/courses" && r.id == id
    ensures OwnerKey !in r.body && r.body.Keys == data.Keys - {OwnerKey}
    ensures forall k :: k in data && k != OwnerKey ==> k in r.body && r.body[k] == data[k]
  {
    Put("/courses", id, WithoutOwner(data))
  }

  /** `deleteCourse(id)`: a delete of the given course, with no payload. */
  function DeleteCourse(id: Option<Value>): (r: Request)
    ensures r.Delete? && r.path == "/courses" && r.id == id
  {
    Delete("/courses", id)
  }

  /** Stripping is idempotent, and a payload without an owner is sent unchanged. */
  lemma WithoutOwnerStable(data: Record)
    ensures WithoutOwner(WithoutOwner(data)) == WithoutOwner(data)
    ensures OwnerKey !in data ==> WithoutOwner(data) == data
  {
    var once := WithoutOwner(data);
    assert WithoutOwner(once).Keys == once.Keys;
    if OwnerKey !in data {
      assert once.Keys == data.Keys;
    }
  }
}
