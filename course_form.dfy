/** The course editor: its field rules, the date pickers' windows, defaults and pre-fill,
    the upper-casing of the course code, and the submit step. */
module CourseForm {
  import opened Common
  import opened Patterns
  import opened FormRules

  const NameItem := Item("course_name", [
    Rule(Required, "Please enter course name"),
    Rule(Length(Some(3), Some(100)), "Course name must be between 3 and 100 characters")])
  const CodeItem := Item("course_code", [
    Rule(Required, "Please enter course code"),
    Rule(Length(Some(3), Some(20)), "Course code must be between 3 and 20 characters"),
    Rule(Matches(CourseCodeRegex), "Course code must contain only uppercase letters and numbers")])
  const DescriptionItem := Item("description", [
    Rule(Length(None, Some(1000)), "Description cannot exceed 1000 characters")])
  const CreditsItem := Item("credits", [Rule(Required, "Please enter credits")])
  const CapacityItem := Item("max_capacity", [Rule(Required, "Please enter maximum capacity")])
  const StartItem := Item("start_date", [Rule(Required, "Please select start date")])
  const EndItem := Item("end_date", [
    Rule(Required, "Please select end date"),
    Rule(AfterField("start_date"), "End date must be after start date")])

  /** The form's items in order. */
  const CourseItems: seq<Item> :=
    [NameItem, CodeItem, DescriptionItem, CreditsItem, CapacityItem, StartItem, EndItem]

  const CourseDates: set<string> := {"start_date", "end_date"}

  /** `initialValues` of the form. */
  const CourseDefaults: Record := map["credits" := Num(3), "max_capacity" := Num(30)]

  /** The end-date validator: it lets a missing end or start through, and otherwise passes
      exactly when both are picked days and the end is strictly later. */
  predicate EndAfterStart(values: Record)
    ensures !Truthy(Get(values, "end_date")) || !Truthy(Get(values, "start_date")) ==> EndAfterStart(values)
    ensures Truthy(Get(values, "end_date")) && Get(values, "end_date") == Get(values, "start_date") ==> !EndAfterStart(values)
  {
    var end, start := Get(values, "end_date"), Get(values, "start_date");
    !Truthy(end) || !Truthy(start) || (end.value.Day? && start.value.Day? && end.value.day > start.value.day)
  }

  /** The rule table read field by field. */
  predicate CourseRequirements(values: Record)
  {
    && TextBetween(values, "course_name", 3, 100)
    && TextBetween(values, "course_code", 3, 20) && CourseCodePattern(values["course_code"].s)
    && OptionalTextAtMost(values, "description", 1000)
    && Filled(values, "credits") && Filled(values, "max_capacity")
    && Filled(values, "start_date") && Filled(values, "end_date")
    && EndAfterStart(values)
  }

  /** The form's rules accept exactly the values that meet the field-by-field requirements. */
  lemma CourseRulesMeaning(values: Record, isEmail: string -> bool)
    ensures Accepts(CourseItems, values, isEmail) <==> CourseRequirements(values)
  {
    CourseItemsEach(values, isEmail);
    RequiredLengthMeaning(values, NameItem.name, 3, 100, NameItem.rules[0].message, NameItem.rules[1].message, isEmail);
    CodeItemMeaning(values, isEmail);
    SingleRuleMeanings(values, DescriptionItem.name, 1000, DescriptionItem.rules[0].message, isEmail);
    SingleRuleMeanings(values, CreditsItem.name, 0, CreditsItem.rules[0].message, isEmail);
    SingleRuleMeanings(values, CapacityItem.name, 0, CapacityItem.rules[0].message, isEmail);
    SingleRuleMeanings(values, StartItem.name, 0, StartItem.rules[0].message, isEmail);
    EndItemMeaning(values, isEmail);
  }

  lemma CourseItemsEach(values: Record, isEmail: string -> bool)
    ensures Accepts(CourseItems, values, isEmail) <==>
      && ItemPasses(NameItem, values, isEmail) && ItemPasses(CodeItem, values, isEmail)
      && ItemPasses(DescriptionItem, values, isEmail) && ItemPasses(CreditsItem, values, isEmail)
      && ItemPasses(CapacityItem, values, isEmail) && ItemPasses(StartItem, values, isEmail)
      && ItemPasses(EndItem, values, isEmail)
  {
  }

  lemma CodeItemMeaning(values: Record, isEmail: string -> bool)
    ensures ItemPasses(CodeItem, values, isEmail) <==>
      TextBetween(values, "course_code", 3, 20) && CourseCodePattern(values["course_code"].s)
  {
    var rules := CodeItem.rules;
    assert forall r :: r in rules <==> r == rules[0] || r == rules[1] || r == rules[2];
  }

  lemma EndItemMeaning(values: Record, isEmail: string -> bool)
    ensures ItemPasses(EndItem, values, isEmail) <==> Filled(values, "end_date") && EndAfterStart(values)
  {
  }

  /** The end-date rule on two picked days: accepted iff the end is strictly after the start,
      so equal dates are rejected; with either date missing the rule passes. */
  lemma EndDateValidator(values: Record, startDay: int, endDay: int, isEmail: string -> bool)
    ensures var v := values["start_date" := Day(startDay)]["end_date" := Day(endDay)];
      Holds(AfterField("start_date"), Get(v, "end_date"), v, isEmail) <==> endDay > startDay
    ensures var v := values - {"start_date"};
      Holds(AfterField("start_date"), Get(v, "end_date"), v, isEmail)
    ensures var v := values - {"end_date"};
      Holds(AfterField("start_date"), Get(v, "end_date"), v, isEmail)
  {
  }

  /** The start picker greys out every day before today. */
  predicate StartDisabled(current: int, today: int)
    ensures current == today ==> !StartDisabled(current, today)
  {
    current < today
  }

  /** The end picker: with a start picked, every day up to and including it is greyed out;
      without one, every day before today. */
  predicate EndDisabled(current: int, start: Option<int>, today: int)
    ensures start == Some(current) ==> EndDisabled(current, start, today)
    ensures start.None? ==> (EndDisabled(current, start, today) <==> StartDisabled(current, today))
  {
    match start
    case Some(s) => current <= s
    case None => current < today
  }

  /** Once a start is picked, the end picker offers exactly the days the end-date rule accepts. */
  lemma PickersAgreeWithValidator(values: Record, today: int, startDay: int, endDay: int)
    ensures !EndDisabled(endDay, Some(startDay), today)
      <==> EndAfterStart(values["start_date" := Day(startDay)]["end_date" := Day(endDay)])
  {
  }

  /** `handleSubmit`: only values that pass the rules reach `onSubmit`; the two dates go out as
      `YYYY-MM-DD` text (or null) and every other registered field is copied unchanged. */
  function HandleSubmit(values: Record, isEmail: string -> bool): (out: Option<Record>)
    ensures out.Some? ==> CourseRequirements(values)
    ensures out.Some? ==> forall k :: k in CourseDates ==>
      k in out.value && Some(out.value[k]) == FormatDate(Get(values, k))
    ensures out.Some? ==> forall k :: k in values && k in Names(CourseItems) && k !in CourseDates ==>
      k in out.value && out.value[k] == values[k]
    ensures CourseRequirements(values) && values["start_date"].Day? && values["end_date"].Day? ==>
      out.Some? && out.value["start_date"] == DateText(values["start_date"].day)
        && out.value["end_date"] == DateText(values["end_date"].day)
  {
    CourseRulesMeaning(values, isEmail);
    PickedDatesFormat(values);
    Submit(CourseItems, CourseDates, values, isEmail)
  }

  /** Two picked days can always be formatted, each as its own text. */
  lemma PickedDatesFormat(values: Record)
    ensures "start_date" in values && "end_date" in values && values["start_date"].Day? && values["end_date"].Day? ==>
      && DatesFormattable(values, CourseDates)
      && FormatDate(Get(values, "start_date")) == Some(DateText(values["start_date"].day))
      && FormatDate(Get(values, "end_date")) == Some(DateText(values["end_date"].day))
  {
  }

  /** The `useEffect` run when the modal shows: pre-fill from the course being edited
      (dates converted for the pickers), or reset a new form to its defaults. */
  method OnShow(form: FormStore, visible: bool, course: Option<Record>)
    requires form.initial == CourseDefaults
    modifies form
    ensures !visible ==> form.values == old(form.values)
    ensures visible && course.None? ==> form.values == CourseDefaults
    ensures visible && course.None? ==> form.values["credits"] == Num(3) && form.values["max_capacity"] == Num(30)
    ensures visible && course.Some? ==> form.values == Merge(old(form.values), Prefill(course.value, CourseDates, {}))
  {
    if visible {
      if course.Some? {
        form.SetFieldsValue(Prefill(course.value, CourseDates, {}));
      } else {
        form.ResetFields();
      }
    }
  }

  /** The course-code input's `onChange`: the field always holds the upper-cased input. */
  method OnCourseCodeChange(form: FormStore, input: string)
    modifies form
    ensures form.values == old(form.values)["course_code" := Str(ToUpper(input))]
  {
    form.SetFieldValue("course_code", Str(ToUpper(input)));
  }
}
