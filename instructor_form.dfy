/** The instructor editor, used to create, edit and register instructors: which fields it
    shows in which mode, their rules, the hire-date picker, pre-fill and submit. */
module InstructorForm {
  import opened Common
  import opened Patterns
  import opened FormRules

  const TitleField := Item("title", [])
  const FirstNameField := Item("first_name", [
    Rule(Required, "Please enter first name"),
    Rule(Length(Some(2), Some(50)), "First name must be between 2 and 50 characters")])
  const LastNameField := Item("last_name", [
    Rule(Required, "Please enter last name"),
    Rule(Length(Some(2), Some(50)), "Last name must be between 2 and 50 characters")])
  const EmailField := Item("email", [
    Rule(Required, "Please enter email"),
    Rule(EmailType, "Please enter a valid email")])
  const PasswordField := Item("password", [
    Rule(Required, "Please enter password"),
    Rule(Length(Some(6), None), "Password must be at least 6 characters long"),
    Rule(Matches(PasswordRegex),
      "Password must contain at least one lowercase letter, one uppercase letter, and one number")])
  const PhoneField := Item("phone", [Rule(Matches(PhoneRegex), "Please enter a valid phone number")])
  const DepartmentField := Item("department", [
    Rule(Required, "Please enter department"),
    Rule(Length(Some(2), Some(100)), "Department must be between 2 and 100 characters")])
  const BioField := Item("bio", [Rule(Length(None, Some(1000)), "Bio cannot exceed 1000 characters")])
  const HireDateField := Item("hire_date", [])

  const InstructorDates: set<string> := {"hire_date"}

  /** `initialValues` of the form. */
  const InstructorDefaults: Record := map["title" := Str("Mr.")]

  /** Whether the password field is rendered: when registering, or when not editing. */
  predicate ShowsPassword(registration: bool, editing: bool)
    ensures !ShowsPassword(registration, editing) <==> editing && !registration
  {
    registration || !editing
  }

  /** The items rendered with the password field, and without it, in order. */
  const ItemsWithPassword: seq<Item> := [TitleField, FirstNameField, LastNameField, EmailField, PasswordField,
    PhoneField, DepartmentField, BioField, HireDateField]
  const ItemsWithoutPassword: seq<Item> := [TitleField, FirstNameField, LastNameField, EmailField,
    PhoneField, DepartmentField, BioField, HireDateField]

  /** The rendered items; `registration` is `mode === 'register'` and `editing` is `!!instructor`. */
  function InstructorItems(registration: bool, editing: bool): (items: seq<Item>)
    ensures PasswordField in items <==> ShowsPassword(registration, editing)
    ensures "password" in Names(items) <==> ShowsPassword(registration, editing)
  {
    if ShowsPassword(registration, editing) then
      assert ItemsWithPassword[4].name == "password";
      ItemsWithPassword
    else
      assert forall i :: 0 <= i < |ItemsWithoutPassword| ==> ItemsWithoutPassword[i].name != "password";
      ItemsWithoutPassword
  }

  /** The rule table read field by field; the password is checked only where it is shown. */
  predicate InstructorRequirements(values: Record, withPassword: bool, isEmail: string -> bool)
  {
    && TextBetween(values, "first_name", 2, 50)
    && TextBetween(values, "last_name", 2, 50)
    && EmailGiven(values, "email", isEmail)
    && (withPassword ==> StrongPassword(values, "password"))
    && OptionalPhone(values, "phone")
    && TextBetween(values, "department", 2, 100)
    && OptionalTextAtMost(values, "bio", 1000)
  }

  lemma ItemsWithPasswordEach(values: Record, isEmail: string -> bool)
    ensures Accepts(ItemsWithPassword, values, isEmail) <==>
      && ItemPasses(FirstNameField, values, isEmail) && ItemPasses(LastNameField, values, isEmail)
      && ItemPasses(EmailField, values, isEmail) && ItemPasses(PasswordField, values, isEmail)
      && ItemPasses(PhoneField, values, isEmail) && ItemPasses(DepartmentField, values, isEmail)
      && ItemPasses(BioField, values, isEmail)
  {
    assert ItemPasses(TitleField, values, isEmail) && ItemPasses(HireDateField, values, isEmail);
  }

  lemma ItemsWithoutPasswordEach(values: Record, isEmail: string -> bool)
    ensures Accepts(ItemsWithoutPassword, values, isEmail) <==>
      && ItemPasses(FirstNameField, values, isEmail) && ItemPasses(LastNameField, values, isEmail)
      && ItemPasses(EmailField, values, isEmail)
      && ItemPasses(PhoneField, values, isEmail) && ItemPasses(DepartmentField, values, isEmail)
      && ItemPasses(BioField, values, isEmail)
  {
    assert ItemPasses(TitleField, values, isEmail) && ItemPasses(HireDateField, values, isEmail);
  }

  /** The form's rules accept exactly the values that meet the field-by-field requirements. */
  lemma InstructorRulesMeaning(registration: bool, editing: bool, values: Record, isEmail: string -> bool)
    ensures Accepts(InstructorItems(registration, editing), values, isEmail)
      <==> InstructorRequirements(values, ShowsPassword(registration, editing), isEmail)
  {
    ItemsWithPasswordEach(values, isEmail);
    ItemsWithoutPasswordEach(values, isEmail);
    var f, l, e, p, d := FirstNameField, LastNameField, EmailField, PasswordField, DepartmentField;
    RequiredLengthMeaning(values, f.name, 2, 50, f.rules[0].message, f.rules[1].message, isEmail);
    RequiredLengthMeaning(values, l.name, 2, 50, l.rules[0].message, l.rules[1].message, isEmail);
    EmailMeaning(values, e.name, e.rules[0].message, e.rules[1].message, isEmail);
    PasswordMeaning(values, p.name, p.rules[0].message, p.rules[1].message, p.rules[2].message, isEmail);
    SingleRuleMeanings(values, PhoneField.name, 0, PhoneField.rules[0].message, isEmail);
    RequiredLengthMeaning(values, d.name, 2, 100, d.rules[0].message, d.rules[1].message, isEmail);
    SingleRuleMeanings(values, BioField.name, 1000, BioField.rules[0].message, isEmail);
  }

  /** `handleSubmit`: only values that pass the rules reach `onSubmit`; the hire date goes out
      as `YYYY-MM-DD` text (or null), every other registered field unchanged, and no password
      is sent when the password field is hidden. */
  function HandleSubmit(registration: bool, editing: bool, values: Record, isEmail: string -> bool): (out: Option<Record>)
    ensures out.Some? <==>
      InstructorRequirements(values, ShowsPassword(registration, editing), isEmail)
      && FormatDate(Get(values, "hire_date")).Some?
    ensures out.Some? ==> "hire_date" in out.value && Some(out.value["hire_date"]) == FormatDate(Get(values, "hire_date"))
    ensures out.Some? ==> forall k :: k in values && k in Names(InstructorItems(registration, editing)) && k != "hire_date" ==>
      k in out.value && out.value[k] == values[k]
    ensures out.Some? && !ShowsPassword(registration, editing) ==> "password" !in out.value
  {
    InstructorRulesMeaning(registration, editing, values, isEmail);
    Submit(InstructorItems(registration, editing), InstructorDates, values, isEmail)
  }

  /** The hire-date picker greys out every day after today. */
  predicate HireDisabled(current: int, today: int)
    ensures current == today ==> !HireDisabled(current, today)
    ensures current == today + 1 ==> HireDisabled(current, today)
  {
    current > today
  }

  /** The hire date is optional: with every other field valid, a picked day is sent as its
      text and a missing one as `null`. */
  lemma PickedHireDate(registration: bool, editing: bool, values: Record, day: int, isEmail: string -> bool)
    requires InstructorRequirements(values, ShowsPassword(registration, editing), isEmail)
    ensures var out := HandleSubmit(registration, editing, values["hire_date" := Day(day)], isEmail);
      out.Some? && out.value["hire_date"] == DateText(day)
    ensures var out := HandleSubmit(registration, editing, values - {"hire_date"}, isEmail);
      out.Some? && out.value["hire_date"] == Null
  {
    var v, w := values["hire_date" := Day(day)], values - {"hire_date"};
    RequirementsIgnoreHireDate(values, ShowsPassword(registration, editing), Day(day), isEmail);
    assert FormatDate(Get(v, "hire_date")) == Some(DateText(day));
    assert FormatDate(Get(w, "hire_date")) == Some(Null);
    var out := HandleSubmit(registration, editing, v, isEmail);
    assert out.Some?;
    var out2 := HandleSubmit(registration, editing, w, isEmail);
    assert out2.Some?;
  }

  /** The rules say nothing about the hire date, so picking or clearing one keeps valid values valid. */
  lemma RequirementsIgnoreHireDate(values: Record, withPassword: bool, hire: Value, isEmail: string -> bool)
    ensures InstructorRequirements(values["hire_date" := hire], withPassword, isEmail)
      <==> InstructorRequirements(values, withPassword, isEmail)
    ensures InstructorRequirements(values - {"hire_date"}, withPassword, isEmail)
      <==> InstructorRequirements(values, withPassword, isEmail)
  {
    var v, w := values["hire_date" := hire], values - {"hire_date"};
    forall k | k != "hire_date"
      ensures Get(v, k) == Get(values, k) && (k in v <==> k in values)
      ensures Get(w, k) == Get(values, k) && (k in w <==> k in values)
    {
    }
  }

  /** The `useEffect` run when the modal shows: pre-fill from the instructor being edited
      (password cleared, hire date converted for the picker), or reset to the defaults. */
  method OnShow(form: FormStore, visible: bool, instructor: Option<Record>)
    requires form.initial == InstructorDefaults
    modifies form
    ensures !visible ==> form.values == old(form.values)
    ensures visible && instructor.None? ==> form.values == InstructorDefaults
    ensures visible && instructor.Some? ==>
      form.values == Merge(old(form.values), Prefill(instructor.value, InstructorDates, {"password"}))
    ensures visible && instructor.Some? ==> "password" !in form.values
  {
    if visible {
      if instructor.Some? {
        form.SetFieldsValue(Prefill(instructor.value, InstructorDates, {"password"}));
      } else {
        form.ResetFields();
      }
    }
  }
}
