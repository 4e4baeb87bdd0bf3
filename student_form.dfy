/** The student editor: its field rules, the birth-date picker's window, defaults,
    pre-fill and the submit step. */
module StudentForm {
  import opened Common
  import opened Patterns
  import opened FormRules

  const FirstNameField := Item("first_name", [
    Rule(Required, "Please enter first name"),
    Rule(Length(Some(2), Some(50)), "First name must be between 2 and 50 characters")])
  const LastNameField := Item("last_name", [
    Rule(Required, "Please enter last name"),
    Rule(Length(Some(2), Some(50)), "Last name must be between 2 and 50 characters")])
  const EmailField := Item("email", [
    Rule(Required, "Please enter email"),
    Rule(EmailType, "Please enter a valid email")])
  const BirthDateField := Item("date_of_birth", [Rule(Required, "Please select date of birth")])
  const PhoneField := Item("phone", [Rule(Matches(PhoneRegex), "Please enter a valid phone number")])
  const AddressField := Item("address", [Rule(Length(None, Some(255)), "Address cannot exceed 255 characters")])

  /** The form's items in order. */
  const StudentItems: seq<Item> :=
    [FirstNameField, LastNameField, EmailField, BirthDateField, PhoneField, AddressField]

  const StudentDates: set<string> := {"date_of_birth"}

  /** `initialValues` of the form: every text field starts as `''`. */
  const StudentDefaults: Record :=
    map["first_name" := Str(""), "last_name" := Str(""), "email" := Str(""), "phone" := Str(""), "address" := Str("")]

  /** The rule table read field by field, the birth date aside. */
  predicate OtherStudentRequirements(values: Record, isEmail: string -> bool)
  {
    && TextBetween(values, "first_name", 2, 50)
    && TextBetween(values, "last_name", 2, 50)
    && EmailGiven(values, "email", isEmail)
    && OptionalPhone(values, "phone")
    && OptionalTextAtMost(values, "address", 255)
  }

  /** The rule table read field by field. */
  predicate StudentRequirements(values: Record, isEmail: string -> bool)
  {
    OtherStudentRequirements(values, isEmail) && Filled(values, "date_of_birth")
  }

  lemma StudentItemsEach(values: Record, isEmail: string -> bool)
    ensures Accepts(StudentItems, values, isEmail) <==>
      && ItemPasses(FirstNameField, values, isEmail) && ItemPasses(LastNameField, values, isEmail)
      && ItemPasses(EmailField, values, isEmail) && ItemPasses(BirthDateField, values, isEmail)
      && ItemPasses(PhoneField, values, isEmail) && ItemPasses(AddressField, values, isEmail)
  {
  }

  /** The form's rules accept exactly the values that meet the field-by-field requirements. */
  lemma StudentRulesMeaning(values: Record, isEmail: string -> bool)
    ensures Accepts(StudentItems, values, isEmail) <==> StudentRequirements(values, isEmail)
  {
    StudentItemsEach(values, isEmail);
    var f, l, e := FirstNameField, LastNameField, EmailField;
    RequiredLengthMeaning(values, f.name, 2, 50, f.rules[0].message, f.rules[1].message, isEmail);
    RequiredLengthMeaning(values, l.name, 2, 50, l.rules[0].message, l.rules[1].message, isEmail);
    EmailMeaning(values, e.name, e.rules[0].message, e.rules[1].message, isEmail);
    SingleRuleMeanings(values, BirthDateField.name, 0, BirthDateField.rules[0].message, isEmail);
    SingleRuleMeanings(values, PhoneField.name, 0, PhoneField.rules[0].message, isEmail);
    SingleRuleMeanings(values, AddressField.name, 255, AddressField.rules[0].message, isEmail);
  }

  /** A freshly reset form cannot be submitted: its empty names fail `required`. */
  lemma DefaultsRejected(isEmail: string -> bool)
    ensures !Accepts(StudentItems, StudentDefaults, isEmail)
  {
    StudentRulesMeaning(StudentDefaults, isEmail);
  }

  /** `handleSubmit`: only values that pass the rules reach `onSubmit`; the birth date goes out
      as `YYYY-MM-DD` text and every other registered field unchanged. */
  function HandleSubmit(values: Record, isEmail: string -> bool): (out: Option<Record>)
    ensures out.Some? <==> StudentRequirements(values, isEmail) && FormatDate(Get(values, "date_of_birth")).Some?
    ensures out.Some? ==>
      "date_of_birth" in out.value && Some(out.value["date_of_birth"]) == FormatDate(Get(values, "date_of_birth"))
    ensures out.Some? ==> forall k :: k in values && k in Names(StudentItems) && k != "date_of_birth" ==>
      k in out.value && out.value[k] == values[k]
  {
    StudentRulesMeaning(values, isEmail);
    Submit(StudentItems, StudentDates, values, isEmail)
  }

  /** The birth-date picker greys out every day after `latest` (today less 16 years) and every
      day before `earliest` (today less 120 years). */
  predicate BirthDateDisabled(current: int, latest: int, earliest: int)
    ensures !BirthDateDisabled(current, latest, earliest) ==> earliest <= current <= latest
    ensures latest < earliest ==> BirthDateDisabled(current, latest, earliest)
  {
    current > latest || current < earliest
  }

  /** With the other five fields valid, the birth date decides: a picked day is sent as its
      text, and a form without a birth date (a new one, say) is not submitted. */
  lemma PickedBirthDate(values: Record, day: int, isEmail: string -> bool)
    requires OtherStudentRequirements(values, isEmail)
    ensures var out := HandleSubmit(values["date_of_birth" := Day(day)], isEmail);
      out.Some? && out.value["date_of_birth"] == DateText(day)
    ensures HandleSubmit(values - {"date_of_birth"}, isEmail).None?
  {
    var v := values["date_of_birth" := Day(day)];
    OtherRequirementsIgnoreBirthDate(values, Day(day), isEmail);
    assert StudentRequirements(v, isEmail);
    assert !Filled(values - {"date_of_birth"}, "date_of_birth");
  }

  /** The other fields' rules do not look at the birth date. */
  lemma OtherRequirementsIgnoreBirthDate(values: Record, birth: Value, isEmail: string -> bool)
    ensures OtherStudentRequirements(values["date_of_birth" := birth], isEmail)
      <==> OtherStudentRequirements(values, isEmail)
    ensures OtherStudentRequirements(values - {"date_of_birth"}, isEmail)
      <==> OtherStudentRequirements(values, isEmail)
  {
    var v, w := values["date_of_birth" := birth], values - {"date_of_birth"};
    forall k | k != "date_of_birth"
      ensures Get(v, k) == Get(values, k) && (k in v <==> k in values)
      ensures Get(w, k) == Get(values, k) && (k in w <==> k in values)
    {
    }
  }

  /** A phone kept as a number, as an API record may hold it, passes the phone rule through
      its text: an edited student whose phone is `5551234567` can be submitted. */
  lemma NumericPhoneSubmits(values: Record, day: int, isEmail: string -> bool)
    requires OtherStudentRequirements(values, isEmail)
    ensures HandleSubmit(values["phone" := Num(5551234567)]["date_of_birth" := Day(day)], isEmail).Some?
  {
    var v := values["phone" := Num(5551234567)];
    NumericPhoneMeaning(values, "phone", 5551234567);
    PhoneDigitBound();
    assert forall k | k != "phone" :: Get(v, k) == Get(values, k);
    assert OtherStudentRequirements(v, isEmail);
    PickedBirthDate(v, day, isEmail);
  }

  /** The `useEffect` run when the modal shows: pre-fill from the student being edited
      (birth date converted for the picker), or reset to the empty defaults. */
  method OnShow(form: FormStore, visible: bool, student: Option<Record>)
    requires form.initial == StudentDefaults
    modifies form
    ensures !visible ==> form.values == old(form.values)
    ensures visible && student.None? ==> form.values == StudentDefaults
    ensures visible && student.Some? ==> form.values == Merge(old(form.values), Prefill(student.value, StudentDates, {}))
  {
    if visible {
      if student.Some? {
        form.SetFieldsValue(Prefill(student.value, StudentDates, {}));
      } else {
        form.ResetFields();
      }
    }
  }
}
