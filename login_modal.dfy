/** The authentication dialog: a login tab and a register tab, each a form whose validated
    values are handed to the page's callback. */
module LoginModal {
  import opened Common
  import opened Patterns
  import opened FormRules

  const LoginEmailField := Item("email", [
    Rule(Required, "Please enter your email"),
    Rule(EmailType, "Please enter a valid email")])
  const LoginPasswordField := Item("password", [Rule(Required, "Please enter your password")])

  /** The login tab's items. */
  const LoginItems: seq<Item> := [LoginEmailField, LoginPasswordField]

  const TitleField := Item("title", [])
  const FirstNameField := Item("first_name", [
    Rule(Required, "Please enter first name"),
    Rule(Length(Some(2), Some(50)), "First name must be between 2 and 50 characters")])
  const LastNameField := Item("last_name", [
    Rule(Required, "Please enter last name"),
    Rule(Length(Some(2), Some(50)), "Last name must be between 2 and 50 characters")])
  const EmailField := Item("email", [
    Rule(Required, "Please enter email"),
    Rule(EmailType, "Please enter a valid email")])
  const PasswordField := Item("password", [
    Rule(Required, "Please enter password"),
    Rule(Length(Some(6), None), "Password must be at least 6 characters long"),
    Rule(Matches(PasswordRegex),
      "Password must contain at least one lowercase letter, one uppercase letter, and one number")])
  const DepartmentField := Item("department", [
    Rule(Required, "Please enter department"),
    Rule(Length(Some(2), Some(100)), "Department must be between 2 and 100 characters")])
  const PhoneField := Item("phone", [Rule(Matches(PhoneRegex), "Please enter a valid phone number")])

  /** The register tab's items, in order. */
  const RegisterItems: seq<Item> :=
    [TitleField, FirstNameField, LastNameField, EmailField, PasswordField, DepartmentField, PhoneField]

  /** `initialValues` of the register tab. */
  const RegisterDefaults: Record := map["title" := Str("Mr.")]

  /** Login only asks for an email and some password; the password's strength is not checked. */
  predicate LoginRequirements(values: Record, isEmail: string -> bool)
  {
    EmailGiven(values, "email", isEmail) && Filled(values, "password")
  }

  /** The register tab's rule table read field by field; the department is required here. */
  predicate RegisterRequirements(values: Record, isEmail: string -> bool)
  {
    && TextBetween(values, "first_name", 2, 50)
    && TextBetween(values, "last_name", 2, 50)
    && EmailGiven(values, "email", isEmail)
    && StrongPassword(values, "password")
    && TextBetween(values, "department", 2, 100)
    && OptionalPhone(values, "phone")
  }

  lemma LoginRulesMeaning(values: Record, isEmail: string -> bool)
    ensures Accepts(LoginItems, values, isEmail) <==> LoginRequirements(values, isEmail)
  {
    var e := LoginEmailField;
    EmailMeaning(values, e.name, e.rules[0].message, e.rules[1].message, isEmail);
    SingleRuleMeanings(values, LoginPasswordField.name, 0, LoginPasswordField.rules[0].message, isEmail);
  }

  lemma RegisterItemsEach(values: Record, isEmail: string -> bool)
    ensures Accepts(RegisterItems, values, isEmail) <==>
      && ItemPasses(FirstNameField, values, isEmail) && ItemPasses(LastNameField, values, isEmail)
      && ItemPasses(EmailField, values, isEmail) && ItemPasses(PasswordField, values, isEmail)
      && ItemPasses(DepartmentField, values, isEmail) && ItemPasses(PhoneField, values, isEmail)
  {
    assert ItemPasses(TitleField, values, isEmail);
  }

  lemma RegisterRulesMeaning(values: Record, isEmail: string -> bool)
    ensures Accepts(RegisterItems, values, isEmail) <==> RegisterRequirements(values, isEmail)
  {
    RegisterItemsEach(values, isEmail);
    var f, l, e, p, d := FirstNameField, LastNameField, EmailField, PasswordField, DepartmentField;
    RequiredLengthMeaning(values, f.name, 2, 50, f.rules[0].message, f.rules[1].message, isEmail);
    RequiredLengthMeaning(values, l.name, 2, 50, l.rules[0].message, l.rules[1].message, isEmail);
    EmailMeaning(values, e.name, e.rules[0].message, e.rules[1].message, isEmail);
    PasswordMeaning(values, p.name, p.rules[0].message, p.rules[1].message, p.rules[2].message, isEmail);
    RequiredLengthMeaning(values, d.name, 2, 100, d.rules[0].message, d.rules[1].message, isEmail);
    SingleRuleMeanings(values, PhoneField.name, 0, PhoneField.rules[0].message, isEmail);
  }

  /** `handleLogin`: `onLogin` receives the email and password exactly as typed, and only when
      both pass; otherwise an error is shown and nothing is called (`None`). */
  function HandleLogin(values: Record, isEmail: string -> bool): (credentials: Option<Record>)
    ensures credentials.Some? <==> LoginRequirements(values, isEmail)
    ensures credentials.Some? ==> credentials.value == map["email" := values["email"], "password" := values["password"]]
  {
    LoginRulesMeaning(values, isEmail);
    var out := Submit(LoginItems, {}, values, isEmail);
    assert Names(LoginItems) == {"email", "password"} by {
      assert LoginItems[0].name == "email" && LoginItems[1].name == "password";
    }
    out
  }

  /** `handleRegister`: `onRegister` receives the registered fields exactly as entered, and only
      when every rule passes. */
  function HandleRegister(values: Record, isEmail: string -> bool): (profile: Option<Record>)
    ensures profile.Some? <==> RegisterRequirements(values, isEmail)
    ensures profile.Some? ==> forall k :: k in profile.value <==> k in values && k in Names(RegisterItems)
    ensures profile.Some? ==> forall k :: k in profile.value ==> profile.value[k] == values[k]
  {
    RegisterRulesMeaning(values, isEmail);
    Submit(RegisterItems, {}, values, isEmail)
  }

  /** Login and registration judge passwords differently: with an accepted email, any
      non-empty password logs in, while one shorter than six characters or rejected by the
      password pattern cannot register. */
  lemma WeakPasswordOnlyAtLogin(values: Record, p: string, isEmail: string -> bool)
    requires EmailGiven(values, "email", isEmail)
    ensures HandleLogin(values["password" := Str(p)], isEmail).Some? <==> p != ""
    ensures |p| < 6 || !PasswordPattern(p) ==> HandleRegister(values["password" := Str(p)], isEmail).None?
  {
    var v := values["password" := Str(p)];
    assert EmailGiven(v, "email", isEmail);
  }
}
