# Student-enrollment console: a verified model of its core

The console is a React front end for an enrollment API. Visitors can list, search and page
through courses, instructors and students. Instructors can also sign in, register, edit their
own profile and manage their own courses. This project models the parts of it that hold
logic, in Dafny:

- **The session store** (`instructorService`). Login, logout, `isAuthenticated` and
  `getCurrentInstructor` work over the browser's local storage, modelled as the class
  `InstructorService.Storage`. The list calls default their parameters.
- **The course client** (`courseService`). It strips `instructor_id` from create and update
  payloads, and its list call defaults its parameters.
- **The four forms** (`CourseForm`, `InstructorForm`, `StudentForm`, `LoginModal`).
  - Their per-field rules are kept as data (`FormRules.Item`) and run by one interpreter that
    follows the form library's conventions.
  - Each form has a lemma saying what its rule table means field by field: length windows,
    the password, phone and course-code patterns, and "end strictly after start".
  - Also modelled: the date pickers' selectable windows, the defaults, pre-fill from a record
    (`FormStore`, a class holding the form's values), and the submit step. Submit validates,
    formats the dates, copies the other registered fields and only then calls back.
- **The three list pages** (`CoursesPage.Page`, `InstructorsPage.Page`, `StudentsPage.Page`).
  Each is a class whose fields are the page's state. Every handler is a method that receives
  the server's reply as a parameter. Each page keeps a log of what it sent (`sent`, or
  `calls` on the students page) and of its notifications (`notices`). The pages also model
  the row-ownership rule and the course status.

Values are JSON values (`Common.Value`), and a record is a map from field names to values; an
absent key is `undefined`. Calendar days are integers. `Day(d)` is the value a date picker
holds for day `d`, and `DateText(d)` is its `YYYY-MM-DD` text. "Today" and "now" are
parameters.

Where the code and its documentation disagree, the model follows the code:

- The register form requires `department`.
- A successful registration does not sign the instructor in.
- The students page has no fallback for missing pagination data.
- The sign-in handler trusts `success` even when no token came back (`InstructorsPage.SuccessWithoutToken`).

## Model

| member | source | states |
|---|---|---|
| Common.Get | src/pages/CoursesPage.jsx:251 | reading a property yields `undefined` exactly when the key is absent, and the stored value otherwise |
| Http.WithDefaults | src/services/courseService.js:6 | a missing `page`, `limit` or `search` becomes 1, 10 or `''`; a supplied value, even `0` or `''`, is kept |
| Http.ErrorText | src/pages/CoursesPage.jsx:110 | the server's non-empty `error` text is shown, otherwise the handler's fallback text |
| InstructorService.Storage.constructor | src/services/instructorService.js:20-35 | an empty storage is a valid session state |
| InstructorService.Storage.SetItem | src/services/instructorService.js:14-15 | `setItem` overwrites one key and keeps the others |
| InstructorService.Storage.RemoveItem | src/services/instructorService.js:21-22 | `removeItem` deletes one key and keeps the others |
| InstructorService.Stores | src/services/instructorService.js:13 | a login reply is stored only when it has `success` and a token that is present and not empty |
| InstructorService.LoginRequest | src/services/instructorService.js:10-11 | the login call posts the credentials unchanged to `/instructors/login` |
| InstructorService.RegisterRequest | src/services/instructorService.js:5-6 | the register call posts the profile unchanged to `/instructors/register` |
| InstructorService.Login | src/services/instructorService.js:10-18 | a response with `success` and a non-empty token writes both entries, after which the session has the paired shape, the user is authenticated and the principal is the response's `data`; any other reply leaves storage exactly as it was; a paired or parsable storage stays so |
| InstructorService.Logout | src/services/instructorService.js:20-23 | from any storage, both entries are removed and every other key kept, after which the session has the paired shape, nobody is authenticated and there is no principal |
| InstructorService.LogoutTwice | src/services/instructorService.js:20-23 | logout is idempotent: from any storage, logging out twice leaves exactly the storage minus the two session keys, as one logout does |
| InstructorService.IsAuthenticated | src/services/instructorService.js:26-29 | true exactly when a token is stored that is not the empty string |
| InstructorService.GetCurrentInstructor | src/services/instructorService.js:32-35 | on any storage whose `instructor` entry parses: none exactly when that entry is absent, otherwise the record that was stored |
| InstructorService.GetAllInstructors | src/services/instructorService.js:38-44 | the list request goes to `/instructors` with the defaulted query |
| InstructorService.UpdateInstructor | src/services/instructorService.js:78-81 | the put targets the given id and carries the payload unfiltered, `instructor_id` included |
| InstructorService.DeleteInstructor | src/services/instructorService.js:83-86 | a delete of the given instructor id |
| InstructorService.AuthenticatedHasPrincipal | src/services/instructorService.js:26-35 | in every state login and logout leave behind, an authenticated session has a principal |
| InstructorService.LoginLogoutScenario | src/services/instructorService.js:10-35 | signing in with principal 5 authenticates as 5; logging out once or twice leaves no session |
| CourseService.WithoutOwner | src/services/courseService.js:22 | the payload minus `instructor_id`, with every other key and value kept |
| CourseService.GetAllCourses | src/services/courseService.js:5-11 | the list request goes to `/courses` with the defaulted query |
| CourseService.CreateCourse | src/services/courseService.js:20-25 | the posted body has exactly the payload's keys minus `instructor_id`, each with its value |
| CourseService.UpdateCourse | src/services/courseService.js:28-33 | the put targets the given id, and its body has exactly the payload's keys minus `instructor_id`, each with its value |
| CourseService.DeleteCourse | src/services/courseService.js:36-39 | a delete of the given course id |
| CourseService.WithoutOwnerStable | src/services/courseService.js:20-33 | stripping is idempotent, and a payload without an owner is sent unchanged |
| Patterns.PhoneFromParts | src/components/InstructorForm.jsx:154 | an optional `+`, a digit 1-9 and up to 15 more digits is accepted |
| Patterns.PhoneParts | src/components/InstructorForm.jsx:154 | every accepted phone is built that way: one optional `+`, a non-zero lead digit, 1 to 16 digits in all |
| Patterns.PhonePattern | src/components/InstructorForm.jsx:154 | an accepted phone has 1 to 17 characters, does not start with `0` and ends in a digit |
| Patterns.DigitsOf | src/components/StudentForm.jsx:128 | the decimal digits of a natural number: non-empty, all digits, no leading zero |
| Patterns.DecimalText | src/components/StudentForm.jsx:128 | `String(n)` of an integer: its digits, after a `-` when negative |
| Patterns.DigitsLength | src/components/StudentForm.jsx:128 | a number has at most k+1 digits exactly when it is below 10 to the k+1 |
| Patterns.NumericPhone | src/components/StudentForm.jsx:128 | the phone pattern accepts the text of an integer exactly when it is between 1 and 10^16 - 1 |
| Patterns.PhoneDigitBound | src/components/InstructorForm.jsx:154 | 10 to the 16th, the bound set by a non-zero digit and at most 15 more |
| Patterns.FirstLine | src/components/InstructorForm.jsx:140 | the longest prefix without a line terminator, which is all that `.*` can scan |
| Patterns.FirstLineOfSingleLine | src/components/InstructorForm.jsx:140 | a string without line terminators is its own first line |
| Patterns.PasswordPatternSingleLine | src/components/InstructorForm.jsx:137-143 | on one line, the password pattern holds iff there is a lowercase letter, an uppercase letter and a digit |
| Patterns.PasswordPattern | src/components/InstructorForm.jsx:140 | the pattern looks only at the first line; whatever it accepts holds a lowercase letter, an uppercase letter and a digit |
| Patterns.PasswordPatternStopsAtLineBreak | src/components/LoginModal.jsx:149 | `"abcdef\nA1"` has all three classes and is still rejected |
| Patterns.UpperChar | src/components/CourseForm.jsx:102 | a lowercase ASCII letter becomes its uppercase letter; any other character is kept |
| Patterns.ToUpper | src/components/CourseForm.jsx:102 | same length, upper-cased character by character |
| Patterns.ToUpperProperties | src/components/CourseForm.jsx:92-104 | upper-casing is idempotent; it turns any non-empty ASCII letters-and-digits input into a valid course code; a valid course code is left unchanged |
| Patterns.CourseCodePattern | src/components/CourseForm.jsx:95 | an accepted code is one line with no lowercase letter |
| FormRules.Messages | src/components/CourseForm.jsx:92-96 | no message exactly when every rule of the field passes, and at most one message per rule |
| FormRules.IsEmptyValue | src/components/CourseForm.jsx:112 | `undefined`, `null` and `''` are empty and falsy; `0` and `false` are falsy yet not empty, so they reach the other rules |
| FormRules.Holds | src/components/InstructorForm.jsx:99-166 | an empty value passes every rule except `required`; a non-empty non-text value fails the length and email rules; a pattern rule tests the value's text |
| FormRules.MatchesValue | src/components/InstructorForm.jsx:154 | a pattern is tested on `String(value)`: a text as it is and a number as its decimal text |
| FormRules.NumericPhoneMeaning | src/components/StudentForm.jsx:128 | the phone rule accepts a numeric phone exactly when it is between 1 and 10^16 - 1 |
| FormRules.Errors | src/components/CourseForm.jsx:34 | validation fails with no error exactly when every item passes, and each error names a registered field |
| FormRules.RequiredLengthMeaning | src/components/InstructorForm.jsx:99-102 | `required` plus a `min`/`max` window accepts exactly a text whose length is in the window |
| FormRules.EmailMeaning | src/components/InstructorForm.jsx:121-127 | `required` plus `type: 'email'` accepts exactly a non-empty text the email check accepts |
| FormRules.PasswordMeaning | src/components/InstructorForm.jsx:136-143 | the three password rules accept exactly a text of at least 6 characters that matches the pattern |
| FormRules.SingleRuleMeanings | src/components/StudentForm.jsx:104-140 | a lone `required` means filled; a lone `max` means empty or a text short enough; a lone phone pattern means empty or a value whose text is a valid phone, so a number such as 5551234567 passes |
| FormRules.Names | src/components/StudentForm.jsx:26 | the names of the registered fields |
| FormRules.FormatDate | src/components/StudentForm.jsx:31 | a falsy value is sent as null and a picked day as its `YYYY-MM-DD` text; any other value cannot be formatted |
| FormRules.ToPicker | src/components/StudentForm.jsx:15 | a falsy value becomes null and a date text becomes that picker day |
| FormRules.Submit | src/components/StudentForm.jsx:24-38 | the callback gets a record exactly when validation passes and the dates can be formatted; the dates are formatted, the other registered fields are copied, and nothing else is sent |
| FormRules.Merge | src/components/CourseForm.jsx:20-24 | `setFieldsValue` sets the given fields, clears those set to `undefined`, and keeps every other field |
| FormRules.Spread | src/components/CourseForm.jsx:21 | spreading a record patches exactly its own fields with its own values |
| FormRules.Prefill | src/components/InstructorForm.jsx:17-23 | the pre-fill patch: the record's fields, the cleared fields as `undefined`, and the converted dates (a later property wins) |
| FormRules.PrefillEffect | src/components/InstructorForm.jsx:15-23 | after pre-fill the form holds the record's fields except the cleared ones, the converted dates, and its earlier values for fields the record lacks |
| FormRules.FormStore.constructor | src/components/CourseForm.jsx:73-76 | a new form holds its initial values |
| FormRules.FormStore.SetFieldsValue | src/components/CourseForm.jsx:20-24 | the values become the merge of the patch |
| FormRules.FormStore.SetFieldValue | src/components/CourseForm.jsx:103 | one field is replaced |
| FormRules.FormStore.ResetFields | src/components/CourseForm.jsx:27 | the values return to the initial values |
| CourseForm.CourseRulesMeaning | src/components/CourseForm.jsx:78-223 | the rules accept exactly these values: a name of 3-100 characters; a code of 3-20 characters of A-Z and 0-9; a description of at most 1000; credits, capacity and both dates filled; end after start |
| CourseForm.CourseItemsEach | src/components/CourseForm.jsx:78-223 | the form passes iff each of its seven items passes |
| CourseForm.CodeItemMeaning | src/components/CourseForm.jsx:92-96 | the code item accepts exactly a 3-20 character string of uppercase letters and digits |
| CourseForm.EndItemMeaning | src/components/CourseForm.jsx:195-209 | the end item accepts exactly a filled end date that the cross-field validator allows |
| CourseForm.EndDateValidator | src/components/CourseForm.jsx:197-207 | with two days picked, the validator passes iff the end is strictly later, so equal dates fail; with either date missing it passes |
| CourseForm.EndAfterStart | src/components/CourseForm.jsx:197-207 | a missing end or start passes; an end equal to the start fails |
| CourseForm.StartDisabled | src/components/CourseForm.jsx:185-188 | today itself can be picked as a start |
| CourseForm.EndDisabled | src/components/CourseForm.jsx:215-221 | with a start picked, that day itself is greyed out; without one, the end picker greys out what the start picker does |
| CourseForm.PickersAgreeWithValidator | src/components/CourseForm.jsx:197-221 | once a start is picked, the end picker offers exactly the days the end-date validator accepts |
| CourseForm.HandleSubmit | src/components/CourseForm.jsx:32-47 | `onSubmit` is reached only with values meeting the requirements; both dates are formatted and the other fields copied; valid values with two picked days always go through |
| CourseForm.PickedDatesFormat | src/components/CourseForm.jsx:37-41 | two picked days can be formatted, each as its own `YYYY-MM-DD` text |
| CourseForm.OnShow | src/components/CourseForm.jsx:16-30 | a hidden dialog changes nothing; a new course resets to credits 3 and capacity 30; an edit pre-fills from the course with both dates converted |
| CourseForm.OnCourseCodeChange | src/components/CourseForm.jsx:101-104 | the code field always holds the upper-cased input |
| InstructorForm.InstructorItems | src/components/InstructorForm.jsx:10-11 | the password field is rendered iff the mode is register or no instructor is being edited |
| InstructorForm.ShowsPassword | src/components/InstructorForm.jsx:132 | the password is hidden exactly when an instructor is edited outside registration |
| InstructorForm.ItemsWithPasswordEach | src/components/InstructorForm.jsx:82-201 | with the password shown, the form passes iff each item with rules passes |
| InstructorForm.ItemsWithoutPasswordEach | src/components/InstructorForm.jsx:82-201 | with the password hidden, the form passes iff each item with rules passes |
| InstructorForm.InstructorRulesMeaning | src/components/InstructorForm.jsx:96-187 | the rules accept exactly these values: names of 2-50 characters; a valid email; a strong password where shown; an optional valid phone; a department of 2-100 characters; a bio of at most 1000 |
| InstructorForm.HandleSubmit | src/components/InstructorForm.jsx:31-45 | `onSubmit` is reached only with valid values; `hire_date` is always sent formatted (or null); other registered fields are copied; no password is sent while the password field is hidden |
| InstructorForm.RequirementsIgnoreHireDate | src/components/InstructorForm.jsx:189-192 | the hire date has no rules, so setting or removing it leaves the verdict on the other fields unchanged |
| InstructorForm.PickedHireDate | src/components/InstructorForm.jsx:189-201 | with the other fields valid, the hire date does not decide: a picked day is sent as its text and a missing one as `null` |
| InstructorForm.HireDisabled | src/components/InstructorForm.jsx:196-199 | today can be picked as a hire date and tomorrow cannot |
| InstructorForm.OnShow | src/components/InstructorForm.jsx:13-29 | a new instructor resets to title `Mr.`; an edit pre-fills every field, clears the password and converts the hire date |
| StudentForm.StudentItemsEach | src/components/StudentForm.jsx:71-145 | the form passes iff each of its six items passes |
| StudentForm.StudentRulesMeaning | src/components/StudentForm.jsx:71-145 | the rules accept exactly these values: names of 2-50 characters; a valid email; a birth date filled; an optional valid phone; an address of at most 255 characters |
| StudentForm.DefaultsRejected | src/components/StudentForm.jsx:63-69 | the empty defaults cannot be submitted |
| StudentForm.HandleSubmit | src/components/StudentForm.jsx:24-38 | `onSubmit` is reached only with valid values; the birth date is formatted and the other registered fields copied |
| StudentForm.PickedBirthDate | src/components/StudentForm.jsx:104-120 | with the other five fields valid, the birth date decides: a picked day is sent as its text, and a form without one is not submitted |
| StudentForm.BirthDateDisabled | src/components/StudentForm.jsx:114-120 | a day the picker offers lies between today less 120 years and today less 16 years; an empty window offers nothing |
| StudentForm.OtherRequirementsIgnoreBirthDate | src/components/StudentForm.jsx:71-145 | the rules of the other five fields do not look at the birth date, set or removed |
| StudentForm.NumericPhoneSubmits | src/components/StudentForm.jsx:124-132 | a student record whose phone is the number 5551234567 can be submitted when the other fields are valid |
| StudentForm.OnShow | src/components/StudentForm.jsx:9-22 | a new student resets to the empty defaults; an edit pre-fills from the record with the birth date converted |
| LoginModal.LoginRulesMeaning | src/components/LoginModal.jsx:35-62 | the login rules accept exactly a valid email and any filled-in password |
| LoginModal.RegisterItemsEach | src/components/LoginModal.jsx:85-183 | the register form passes iff each item with rules passes |
| LoginModal.RegisterRulesMeaning | src/components/LoginModal.jsx:100-178 | the register rules accept exactly: names of 2-50 characters; a valid email; a strong password; a department of 2-100 characters; an optional valid phone |
| LoginModal.HandleLogin | src/components/LoginModal.jsx:11-18 | `onLogin` gets exactly the email and password, and only when both pass |
| LoginModal.HandleRegister | src/components/LoginModal.jsx:20-27 | `onRegister` gets exactly the registered fields as entered, and only when every rule passes |
| LoginModal.WeakPasswordOnlyAtLogin | src/components/LoginModal.jsx:50-153 | with an accepted email, any non-empty password logs in, while one shorter than six characters or rejected by the password pattern cannot register |
| ListView.ReconcileFallbacks | src/pages/CoursesPage.jsx:62-67 | without pagination data the requested page is shown and the rows are counted; reported non-zero numbers are taken as they are; a reported 0 counts as missing |
| ListView.Reconcile | src/pages/CoursesPage.jsx:63-67 | the page size is the requested limit; the page is the requested one or a non-zero reported one; the total is the row count or a non-zero reported one, so a total of 0 means no rows |
| ListView.AfterFetch | src/pages/CoursesPage.jsx:62-72 | a reply replaces the rows by its data (no rows when it has none) and sets the requested page size; a thrown error leaves rows and pagination as they were |
| ListView.FetchNotices | src/pages/CoursesPage.jsx:68-69 | a notification exactly when the fetch throws, and then the page's failure text |
| ListView.CanManage | src/pages/CoursesPage.jsx:251 | a row can be managed only by a signed-in viewer with a principal |
| ListView.ViewOnly | src/pages/CoursesPage.jsx:279 | a signed-out viewer or one without a principal sees "View Only" |
| ListView.ActionsOrViewOnly | src/pages/CoursesPage.jsx:251-283 | each row shows either its actions or "View Only", never both; a signed-out viewer manages nothing; a principal with an id manages exactly the rows carrying that id |
| CoursesPage.CourseStatus | src/pages/CoursesPage.jsx:148-160 | upcoming exactly when the start is valid and later than now; completed exactly when not upcoming and the end is valid and earlier than now; active otherwise, both instants included |
| CoursesPage.StatusMonotone | src/pages/CoursesPage.jsx:148-160 | for fixed instants, as time passes a course only moves forward through upcoming, active and completed |
| CoursesPage.Instant | src/pages/CoursesPage.jsx:149-151 | `dayjs(undefined)` is now, `dayjs(null)` is invalid, and a course date is the midnight that starts its day |
| CoursesPage.DatedStatus | src/pages/CoursesPage.jsx:148-160 | a row with both dates is upcoming before its start midnight, active up to its end midnight, completed after it |
| CoursesPage.UndatedStatus | src/pages/CoursesPage.jsx:148-160 | a missing or `null` end date never completes a course, a missing or `null` start date never makes it upcoming, and a course with neither is always active |
| CoursesPage.CompletedDuringLastDay | src/pages/CoursesPage.jsx:149-157 | since an end date is read as its midnight, a course is already completed during most of its last day |
| CoursesPage.Page.constructor | src/pages/CoursesPage.jsx:36-46 | no rows, page 1 of size 10 with total 0, no search, dialog closed, nothing selected |
| CoursesPage.Page.Fetch | src/pages/CoursesPage.jsx:53-74 | the request goes out with the given page, limit and search; a reply replaces rows and pagination with fallbacks; an error keeps both and shows "Failed to fetch courses"; loading ends cleared |
| CoursesPage.Page.Mount | src/pages/CoursesPage.jsx:77-79 | on mount, page 1 of 10 with no search is fetched |
| CoursesPage.Page.HandleTableChange | src/pages/CoursesPage.jsx:82-84 | the requested page and size are fetched with the stored search text, which is unchanged |
| CoursesPage.Page.HandleSearch | src/pages/CoursesPage.jsx:87-90 | the text is stored and page 1 is fetched with the current page size |
| CoursesPage.Page.HandleSubmit | src/pages/CoursesPage.jsx:93-116 | an update of the selected course's id or a create; success closes, clears and refetches the current page and search; failure keeps the dialog and shows the server's message or "Operation failed" |
| CoursesPage.Page.HandleDelete | src/pages/CoursesPage.jsx:119-129 | success refetches the same page and search; failure changes only the notifications |
| CoursesPage.Page.HandleEdit | src/pages/CoursesPage.jsx:132-135 | the course is selected and the dialog opens |
| CoursesPage.Page.HandleAddNew | src/pages/CoursesPage.jsx:138-145 | signed out, only a warning; signed in, nothing selected and the dialog open |
| CoursesPage.Page.HandleCancel | src/pages/CoursesPage.jsx:353-356 | the dialog closes and the selection clears |
| CoursesPage.Page.OffersActions | src/pages/CoursesPage.jsx:251-283 | a row offers its actions exactly when it does not show "View Only", judged from the session in storage, and never to a signed-out viewer |
| InstructorsPage.Page.constructor | src/pages/InstructorsPage.jsx:38-54 | the initial state, with the session flags read from storage |
| InstructorsPage.Page.Fetch | src/pages/InstructorsPage.jsx:57-78 | as for courses, against `/instructors`, with "Failed to fetch instructors" |
| InstructorsPage.Page.Mount | src/pages/InstructorsPage.jsx:81-83 | on mount, page 1 of 10 with no search is fetched |
| InstructorsPage.Page.HandleTableChange | src/pages/InstructorsPage.jsx:86-88 | the requested page and size are fetched with the stored search text |
| InstructorsPage.Page.HandleSearch | src/pages/InstructorsPage.jsx:91-94 | the text is stored and page 1 is fetched with the current page size |
| InstructorsPage.Page.HandleLogin | src/pages/InstructorsPage.jsx:97-116 | storage changes as the login call specifies; `success` signs the page in, reloads the principal (the response's data when a token came), closes the dialog and fetches page 1; otherwise only an error is shown |
| InstructorsPage.Page.AfterLogin | src/pages/InstructorsPage.jsx:101-112 | the page's reaction to the settled login reply |
| InstructorsPage.Page.HandleRegister | src/pages/InstructorsPage.jsx:119-137 | storage and the session flags are untouched; `success` closes the dialog and fetches page 1; otherwise only an error is shown |
| InstructorsPage.Page.HandleLogout | src/pages/InstructorsPage.jsx:140-146 | the session leaves storage, the page is signed out with no principal, and page 1 is fetched |
| InstructorsPage.Page.HandleSubmit | src/pages/InstructorsPage.jsx:149-172 | with nothing selected, only an informational message and no request; otherwise an update by `instructor_id`, then close, clear and refetch the current page on success |
| InstructorsPage.Page.UpdateSelected | src/pages/InstructorsPage.jsx:152-164 | the update by the selected row's `instructor_id`; success closes, clears and refetches the current page and search; failure keeps the dialog and shows the server's message or "Operation failed" |
| InstructorsPage.Page.HandleDelete | src/pages/InstructorsPage.jsx:175-185 | success refetches the same page and search; failure changes only the notifications |
| InstructorsPage.Page.HandleEdit | src/pages/InstructorsPage.jsx:188-191 | the row is selected and the editor opens |
| InstructorsPage.Page.HandleEditProfile | src/pages/InstructorsPage.jsx:199-202 | the page's principal, possibly none, is selected and the editor opens |
| InstructorsPage.Page.HandleCancel | src/pages/InstructorsPage.jsx:384-387 | the editor closes and the selection clears |
| InstructorsPage.Page.SetLoginVisible | src/pages/InstructorsPage.jsx:338 | the sign-in dialog opens or closes |
| InstructorsPage.Page.OffersActions | src/pages/InstructorsPage.jsx:278 | a row offers its actions exactly when it does not show "View Only", judged from the page's own session flags |
| InstructorsPage.SuccessWithoutToken | src/pages/InstructorsPage.jsx:100-105 | a `success` reply without a token shows the page signed in while storage holds no session, and the instructor's own row still shows "View Only" |
| StudentsPage.NoFallbacks | src/pages/StudentsPage.jsx:52-59 | missing numbers stay undefined where the other pages fall back; a reply without pagination still replaces the rows, keeps the old pagination and reports a failure |
| StudentsPage.AfterStudentFetch | src/pages/StudentsPage.jsx:52-57 | a reply replaces the rows by its data as given; with pagination, the reported page and total are copied with the requested limit; without it the old pagination stays; a thrown error changes nothing |
| StudentsPage.StudentFetchNotices | src/pages/StudentsPage.jsx:52-60 | no notification exactly when the reply carries pagination; otherwise one "Failed to fetch students" |
| StudentsPage.PageOrFirst | src/pages/StudentsPage.jsx:43 | an undefined page argument is 1 and a given one is kept |
| StudentsPage.Page.constructor | src/pages/StudentsPage.jsx:30-40 | no rows, page 1 of size 10 with total 0, no search, dialog closed |
| StudentsPage.Page.Fetch | src/pages/StudentsPage.jsx:43-64 | the call carries the given page, limit and search; the reply's data and pagination are taken without fallback; a failure is shown on error or missing pagination; loading ends cleared |
| StudentsPage.Page.FetchPage | src/pages/StudentsPage.jsx:102 | an undefined stored page is fetched as page 1 |
| StudentsPage.Page.Mount | src/pages/StudentsPage.jsx:67-69 | on mount, page 1 of 10 with no search is fetched |
| StudentsPage.Page.HandleTableChange | src/pages/StudentsPage.jsx:72-78 | the requested page and size are fetched with the stored search text |
| StudentsPage.Page.HandleSearch | src/pages/StudentsPage.jsx:81-84 | the text is stored and page 1 is fetched with the current page size |
| StudentsPage.Page.HandleSubmit | src/pages/StudentsPage.jsx:87-110 | an update by `student_id` or a create; success closes, clears and refetches the current page; failure keeps the dialog open |
| StudentsPage.Page.HandleDelete | src/pages/StudentsPage.jsx:113-124 | success refetches the same page and search; failure leaves rows and pagination untouched |
| StudentsPage.Page.HandleEdit | src/pages/StudentsPage.jsx:127-130 | the row is selected and the editor opens, with no ownership gate |
| StudentsPage.Page.HandleAddNew | src/pages/StudentsPage.jsx:133-136 | the selection always clears and the dialog always opens, with no sign-in gate |
| StudentsPage.Page.HandleCancel | src/pages/StudentsPage.jsx:273-276 | the dialog closes and the selection clears |

## Left out

- HTTP transport: the `./api` module is not part of this model. Replies are method parameters: a body, or a thrown error carrying the server's optional `error` text.
- The student client, `src/services/studentService.js`, is not part of this model. The students page records the calls it makes to that client instead of HTTP requests.
- The pass-through endpoints that no core page or form calls are not modelled: `getInstructorById`, `getInstructorCourses`, `getInstructorStudents`, `updateProfile`, `getMyCourses`, `getMyAnalytics`, `getCourseById`, `getCourseEnrollments` and `getAvailableSpots`. `src/App.jsx` (routing and layout) is not modelled either.
- Storage failures are not modelled. JSON parsing is assumed to give back the stored record, and the case of a login reply without `data` (which would store the text `undefined`) is left out.
- Async interleaving: each handler runs to completion, and the refetch it starts is folded into it with its own reply. Out-of-order replies of overlapping fetches are not modelled.
- Form library internals are abstract: the `type: 'email'` check is a parameter `isEmail`, and `InputNumber` clamping of credits and capacity is not modelled. Rendering, labels, titles, `destroyOnClose`, tabs and `console.error` are also left out.
- Date arithmetic is reduced to integer days. `today`, "today less 16 years" and "today less 120 years" are parameters. The pickers and validators compare whole days, so the time of day of a picked value is not modelled. Course status uses millisecond instants, with each date read as its local midnight; time zones are not modelled.
- Non-date text in a date field is read as a value that cannot be formatted, so submit does not go through. How dayjs would parse such text is not modelled.
- `Patterns.ToUpper`: upper-cases ASCII letters only. The non-ASCII case mappings of `toUpperCase` (including those that change length) are not modelled.
- `null` and `undefined` are not told apart in list replies and list parameters: both are `None`. So a `null` page passed to a fetch takes the default page, which JavaScript would not do.
- `ListView.ActionsOrViewOnly`: compares `instructor_id` values structurally. It does not model JavaScript's `NaN !== NaN`.
- `InstructorService.GetCurrentInstructor`: requires the `instructor` entry, when present, to be JSON text (`Storage.Parsable`). On other text `JSON.parse` throws; that path is not modelled.
- `InstructorService.AuthenticatedHasPrincipal`: holds for the storage states that login and logout produce (`Storage.Valid`). Storage edited by other code is not covered.
- `CoursesPage.Instant`: free text in a date property is read as an invalid date. dayjs would parse ISO-like text itself and hand other text to `Date`; the API sends `YYYY-MM-DD` text, which is modelled. The code reads the clock twice, for `now` and for an undefined date; the model takes one instant for both.
- `FormRules.MatchesValue`: the text of a picked day (a `Date` string such as `Mon, 01 Jan 2024 00:00:00 GMT`) is not built. The model uses what follows from its shape: only the password pattern accepts it. A `YYYY-MM-DD` date text is accepted by none of the three patterns.
