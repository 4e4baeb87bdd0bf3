/** Declarative per-field validation rules, the form store they run against, and the
    submit step shared by the entity forms ("validate, format the dates, copy the rest"). */
module FormRules {
  import opened Common
  import opened Patterns

  datatype PatternKind = PhoneRegex | PasswordRegex | CourseCodeRegex

  /** One rule of a field's `rules` array. */
  datatype Check =
    | Required                                  // { required: true }
    | Length(min: Option<nat>, max: Option<nat>) // { min, max }
    | Matches(pattern: PatternKind)             // { pattern: /.../ }
    | EmailType                                 // { type: 'email' }
    | AfterField(other: string)                 // the custom end-date validator

  datatype Rule = Rule(check: Check, message: string)

  /** A `Form.Item`: the field name and its rules. */
  datatype Item = Item(name: string, rules: seq<Rule>)

  datatype FieldError = FieldError(name: string, message: string)

  /** The values the validator treats as "not filled in": undefined, null and `''`. */
  predicate IsEmptyValue(v: Option<Value>)
    ensures IsEmptyValue(v) ==> !Truthy(v)
    ensures v == Some(Num(0)) || v == Some(Bool(false)) ==> !IsEmptyValue(v) && !Truthy(v)
  {
    v.None? || v == Some(Null) || v == Some(Str(""))
  }

  predicate PatternHolds(p: PatternKind, s: string)
  {
    match p
    case PhoneRegex => PhonePattern(s)
    case PasswordRegex => PasswordPattern(s)
    case CourseCodeRegex => CourseCodePattern(s)
  }

  /** Whether a pattern accepts a value. `RegExp.prototype.test` converts its argument with
      `String(v)`, so a number is tested through its decimal text. The texts of date values are
      not built: an API date is `YYYY-MM-DD`, whose dash no pattern here accepts and which has
      no letter; a picker day prints as its UTC string (`Mon, 01 Jan 2024 00:00:00 GMT`), which
      starts with a letter and holds a comma, so only the password pattern accepts it. */
  predicate MatchesValue(p: PatternKind, v: Value)
    ensures v.Str? ==> (MatchesValue(p, v) <==> PatternHolds(p, v.s))
    ensures v.Num? ==> (MatchesValue(p, v) <==> PatternHolds(p, DecimalText(v.n)))
  {
    match v
    case Str(s) => PatternHolds(p, s)
    case Num(n) => PatternHolds(p, DecimalText(n))
    case Bool(b) => PatternHolds(p, if b then "true" else "false")
    case Null => PatternHolds(p, "null")
    case DateText(_) => false
    case Day(_) => p == PasswordRegex
  }

  predicate WithinLength(s: string, min: Option<nat>, max: Option<nat>)
  {
    (min.Some? ==> |s| >= min.value) && (max.Some? ==> |s| <= max.value)
  }

  /** Whether one check passes for the field value `v` of the form `values`.
      Only `required` and the custom validator look at an empty value; every other rule
      lets it through. A length or email rule is a string rule, so a non-text value fails it;
      a pattern rule tests the value's text. `isEmail` is the validator's email check. */
  predicate Holds(c: Check, v: Option<Value>, values: Record, isEmail: string -> bool)
    ensures IsEmptyValue(v) ==> (Holds(c, v, values, isEmail) <==> !c.Required?)
    ensures !IsEmptyValue(v) && !v.value.Str? && (c.Length? || c.EmailType?) ==> !Holds(c, v, values, isEmail)
  {
    match c
    case Required => !IsEmptyValue(v)
    case Length(min, max) => IsEmptyValue(v) || (v.value.Str? && WithinLength(v.value.s, min, max))
    case Matches(p) => IsEmptyValue(v) || MatchesValue(p, v.value)
    case EmailType => IsEmptyValue(v) || (v.value.Str? && isEmail(v.value.s))
    case AfterField(other) =>
      var start := Get(values, other);
      !Truthy(v) || !Truthy(start) || (v.value.Day? && start.value.Day? && v.value.day > start.value.day)
  }

  /** The messages of the failing rules of one field, in rule order. */
  function Messages(rules: seq<Rule>, v: Option<Value>, values: Record, isEmail: string -> bool): (ms: seq<string>)
    ensures |ms| <= |rules|
    ensures ms == [] <==> forall r :: r in rules ==> Holds(r.check, v, values, isEmail)
  {
    if rules == [] then []
    else
      var rest := Messages(rules[1..], v, values, isEmail);
      assert rules == [rules[0]] + rules[1..];
      if Holds(rules[0].check, v, values, isEmail) then rest else [rules[0].message] + rest
  }

  predicate ItemPasses(item: Item, values: Record, isEmail: string -> bool)
  {
    forall r :: r in item.rules ==> Holds(r.check, Get(values, item.name), values, isEmail)
  }

  /** Every error the form shows: each field with each of its failing rules' messages, in form order. */
  function Errors(items: seq<Item>, values: Record, isEmail: string -> bool): (es: seq<FieldError>)
    ensures es == [] <==> forall it :: it in items ==> ItemPasses(it, values, isEmail)
    ensures forall e :: e in es ==> exists it :: it in items && it.name == e.name
  {
    if items == [] then []
    else
      var ms := Messages(items[0].rules, Get(values, items[0].name), values, isEmail);
      var rest := Errors(items[1..], values, isEmail);
      assert items == [items[0]] + items[1..];
      var head := seq(|ms|, k requires 0 <= k < |ms| => FieldError(items[0].name, ms[k]));
      assert |head| == |ms|;
      assert forall e :: e in head ==> e.name == items[0].name;
      assert A: ms == [] <==> ItemPasses(items[0], values, isEmail);
      assert B: head + rest == [] <==> ms == [] && rest == [];
      assert C: (forall it :: it in items ==> ItemPasses(it, values, isEmail)) <==>
        ItemPasses(items[0], values, isEmail) && forall it :: it in items[1..] ==> ItemPasses(it, values, isEmail);
      head + rest
  }

  // ---------------------------------------------------------------------------
  // What the common rule combinations mean for the value of one field

  /** A text field that is present with a length in `[lo, hi]`. */
  predicate TextBetween(values: Record, key: string, lo: nat, hi: nat)
  {
    key in values && values[key].Str? && lo <= |values[key].s| <= hi
  }

  /** An optional text field: empty, or text of at most `hi` characters. */
  predicate OptionalTextAtMost(values: Record, key: string, hi: nat)
  {
    IsEmptyValue(Get(values, key)) || (values[key].Str? && |values[key].s| <= hi)
  }

  /** A field holding anything but undefined, null or `''`. */
  predicate Filled(values: Record, key: string)
  {
    !IsEmptyValue(Get(values, key))
  }

  /** A non-empty text the email check accepts. */
  predicate EmailGiven(values: Record, key: string, isEmail: string -> bool)
  {
    key in values && values[key].Str? && values[key].s != "" && isEmail(values[key].s)
  }

  /** A password of at least six characters whose first line has a lowercase letter,
      an uppercase letter and a digit. */
  predicate StrongPassword(values: Record, key: string)
  {
    key in values && values[key].Str? && |values[key].s| >= 6 && PasswordPattern(values[key].s)
  }

  /** An optional phone number: empty, or a value whose text the phone pattern accepts. */
  predicate OptionalPhone(values: Record, key: string)
  {
    IsEmptyValue(Get(values, key)) || MatchesValue(PhoneRegex, values[key])
  }

  /** A phone kept as a number (as an API record may hold it) passes exactly when the number
      is between 1 and `10^16 - 1`, since the pattern tests its decimal text. */
  lemma NumericPhoneMeaning(values: Record, key: string, n: int)
    ensures OptionalPhone(values[key := Num(n)], key) <==> 1 <= n < Pow10(16)
  {
    NumericPhone(n);
  }

  /** `required` plus a `min`/`max` window (with `min` at least 1). */
  lemma RequiredLengthMeaning(values: Record, name: string, min: nat, max: nat, m1: string, m2: string, isEmail: string -> bool)
    requires min >= 1
    ensures ItemPasses(Item(name, [Rule(Required, m1), Rule(Length(Some(min), Some(max)), m2)]), values, isEmail)
      <==> TextBetween(values, name, min, max)
  {
    var rules := [Rule(Required, m1), Rule(Length(Some(min), Some(max)), m2)];
    assert forall r :: r in rules <==> r == rules[0] || r == rules[1];
  }

  /** `required` plus `type: 'email'`. */
  lemma EmailMeaning(values: Record, name: string, m1: string, m2: string, isEmail: string -> bool)
    ensures ItemPasses(Item(name, [Rule(Required, m1), Rule(EmailType, m2)]), values, isEmail)
      <==> EmailGiven(values, name, isEmail)
  {
    var rules := [Rule(Required, m1), Rule(EmailType, m2)];
    assert forall r :: r in rules <==> r == rules[0] || r == rules[1];
  }

  /** `required`, `min: 6` and the password pattern. */
  lemma PasswordMeaning(values: Record, name: string, m1: string, m2: string, m3: string, isEmail: string -> bool)
    ensures ItemPasses(Item(name, [Rule(Required, m1), Rule(Length(Some(6), None), m2), Rule(Matches(PasswordRegex), m3)]), values, isEmail)
      <==> StrongPassword(values, name)
  {
    var rules := [Rule(Required, m1), Rule(Length(Some(6), None), m2), Rule(Matches(PasswordRegex), m3)];
    assert forall r :: r in rules <==> r == rules[0] || r == rules[1] || r == rules[2];
  }

  /** A lone `required`, a lone `max` and a lone phone pattern. */
  lemma SingleRuleMeanings(values: Record, name: string, max: nat, m: string, isEmail: string -> bool)
    ensures ItemPasses(Item(name, [Rule(Required, m)]), values, isEmail) <==> Filled(values, name)
    ensures ItemPasses(Item(name, [Rule(Length(None, Some(max)), m)]), values, isEmail)
      <==> OptionalTextAtMost(values, name, max)
    ensures ItemPasses(Item(name, [Rule(Matches(PhoneRegex), m)]), values, isEmail) <==> OptionalPhone(values, name)
  {
    assert Rule(Length(None, Some(max)), m) in [Rule(Length(None, Some(max)), m)];
    assert Rule(Matches(PhoneRegex), m) in [Rule(Matches(PhoneRegex), m)];
  }

  /** `validateFields` resolves exactly when no rule of any field fails. */
  predicate Accepts(items: seq<Item>, values: Record, isEmail: string -> bool)
  {
    Errors(items, values, isEmail) == []
  }

  function Names(items: seq<Item>): (ns: set<string>)
    ensures forall n :: n in ns <==> exists i :: 0 <= i < |items| && items[i].name == n
  {
    set i | 0 <= i < |items| :: items[i].name
  }

  // ---------------------------------------------------------------------------
  // Dates on submit

  /** `v ? v.format('YYYY-MM-DD') : null`; `None` when `.format` is not there to call
      (a non-date in a date field), which throws. */
  function FormatDate(v: Option<Value>): (r: Option<Value>)
    ensures !Truthy(v) ==> r == Some(Null)
    ensures Truthy(v) && v.value.Day? ==> r == Some(DateText(v.value.day))
    ensures Truthy(v) && !v.value.Day? ==> r.None?
  {
    if !Truthy(v) then Some(Null)
    else if v.value.Day? then Some(DateText(v.value.day))
    else None
  }

  /** `dayjs(v)` for a value read from a record when a form is pre-filled:
      falsy becomes `null`, a date text becomes the picker's day. */
  function ToPicker(v: Option<Value>): (r: Value)
    ensures !Truthy(v) ==> r == Null
    ensures Truthy(v) && v.value.DateText? ==> r == Day(v.value.day)
  {
    if !Truthy(v) then Null
    else if v.value.DateText? then Day(v.value.day)
    else v.value
  }

  predicate DatesFormattable(values: Record, dates: set<string>)
  {
    forall k :: k in dates ==> FormatDate(Get(values, k)).Some?
  }

  /** `handleSubmit` of an entity form: `validateFields()` (which yields the registered
      fields' values), then `{ ...values, d: format(values.d) }` for each date field `d`.
      `None`: the rules failed or a date could not be formatted, so an error is shown and `onSubmit` is not called. */
  function Submit(items: seq<Item>, dates: set<string>, values: Record, isEmail: string -> bool): (out: Option<Record>)
    ensures out.Some? <==> Accepts(items, values, isEmail) && DatesFormattable(values, dates)
    ensures out.Some? ==> forall k :: k in dates ==>
      k in out.value && Some(out.value[k]) == FormatDate(Get(values, k))
    ensures out.Some? ==> forall k :: k in values && k in Names(items) && k !in dates ==>
      k in out.value && out.value[k] == values[k]
    ensures out.Some? ==> forall k :: k in out.value ==> k in dates || (k in values && k in Names(items))
  {
    if !Accepts(items, values, isEmail) || !DatesFormattable(values, dates) then None
    else
      var names := Names(items);
      Some(map k | k in dates + (values.Keys * names) ::
        if k in dates then FormatDate(Get(values, k)).value else values[k])
  }

  // ---------------------------------------------------------------------------
  // The form store

  /** A `setFieldsValue` argument: `None` sets a field to `undefined`. */
  type Patch = map<string, Option<Value>>

  function Merge(values: Record, patch: Patch): (r: Record)
    ensures forall k :: k in patch && patch[k].Some? ==> k in r && r[k] == patch[k].value
    ensures forall k :: k in patch && patch[k].None? ==> k !in r
    ensures forall k :: k !in patch ==> (k in r <==> k in values) && (k in values ==> r[k] == values[k])
  {
    map k | k in values.Keys + patch.Keys && (k in patch ==> patch[k].Some?) ::
      if k in patch then patch[k].value else values[k]
  }

  /** The patch that spreads a whole record. */
  function Spread(r: Record): (p: Patch)
    ensures p.Keys == r.Keys
    ensures forall k :: k in r ==> p[k] == Some(r[k])
  {
    map k | k in r :: Some(r[k])
  }

  /** The `setFieldsValue` argument that pre-fills a form from a record: the record spread,
      then each field of `cleared` set to `undefined`, then each date field of `dates`
      converted for the picker (later properties of the object literal win). */
  function Prefill(r: Record, dates: set<string>, cleared: set<string>): (p: Patch)
    ensures p.Keys == r.Keys + dates + cleared
    ensures forall k :: k in dates ==> p[k] == Some(ToPicker(Get(r, k)))
    ensures forall k :: k in cleared && k !in dates ==> p[k].None?
    ensures forall k :: k in r && k !in dates && k !in cleared ==> p[k] == Some(r[k])
  {
    map k | k in r.Keys + dates + cleared ::
      if k in dates then Some(ToPicker(Get(r, k)))
      else if k in cleared then None
      else Some(r[k])
  }

  /** What a form holds after being pre-filled from `r`: every field of the record except the
      cleared ones, the date fields converted, and every field the record does not mention kept
      from before (`setFieldsValue` merges, it does not reset). */
  lemma PrefillEffect(before: Record, r: Record, dates: set<string>, cleared: set<string>)
    ensures var after := Merge(before, Prefill(r, dates, cleared));
      && (forall k :: k in r && k !in dates && k !in cleared ==> k in after && after[k] == r[k])
      && (forall k :: k in dates ==> k in after && after[k] == ToPicker(Get(r, k)))
      && (forall k :: k in cleared && k !in dates ==> k !in after)
      && (forall k :: k !in r && k !in dates && k !in cleared ==>
            (k in after <==> k in before) && (k in before ==> after[k] == before[k]))
  {
  }

  /** An antd form instance: its current values and the `initialValues` it resets to. */
  class FormStore {
    const initial: Record
    var values: Record

    constructor (initial: Record)
      ensures this.initial == initial && values == initial
    {
      this.initial := initial;
      values := initial;
    }

    method SetFieldsValue(patch: Patch)
      modifies this
      ensures values == Merge(old(values), patch)
    {
      values := Merge(values, patch);
    }

    method SetFieldValue(name: string, v: Value)
      modifies this
      ensures values == old(values)[name := v]
    {
      values := values[name := v];
    }

    method ResetFields()
      modifies this
      ensures values == initial
    {
      values := initial;
    }
  }
}
