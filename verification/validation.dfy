/** The express-validator rule arrays, written as data: each chain names a body
    field, says when the whole chain is skipped, and lists its checks with
    their messages. Every check of a chain that runs is evaluated, and every
    failure is reported, in rule order; nothing short-circuits. */
module Validation {
  import opened Options
  import opened JsText
  import opened Model

  /** JavaScript's date handling, abstracted: `isIso8601` is the ISO 8601
      syntax check, which sees the value as text; `dayOf` is the local
      calendar day that `new Date(value)` falls on for the body value itself,
      so a number is read as milliseconds since the epoch and a string is
      parsed (`None` for an Invalid Date). */
  datatype Dates = Dates(isIso8601: string -> bool, dayOf: Value -> Option<int>)

  /** When a chain is skipped: never (`Required`), when the field is
      `undefined` (`.optional()`), or when it is falsy
      (`.optional({ values: 'falsy' })`). */
  datatype Optionality = Required | SkipUndefined | SkipFalsy

  /** The regular expressions the rules use. */
  datatype Pattern =
    | NamePattern      // /^[a-zA-Z\s]+$/
    | UsernamePattern  // /^[a-zA-Z0-9_]+$/
    | PasswordPattern  // /^(?=.*[a-z])(?=.*[A-Z])(?=.*\d)/
    | PhonePattern     // /^[\+]?[1-9][\d]{0,15}$/

  datatype Check =
    | NotEmpty
    | Length(min: nat, max: Option<nat>)
    | Matches(pattern: Pattern)
    | IsIso8601
    | NotBeforeToday
    | IntAtLeastOne
    | OneOf(options: seq<string>)
    | SameAs(other: string)

  datatype Rule = Rule(check: Check, msg: string)

  datatype Chain = Chain(field: string, optionality: Optionality, rules: seq<Rule>)

  // ---------------------------------------------------------------------
  // Patterns

  predicate IsNameText(s: string) {
    |s| >= 1 && forall i :: 0 <= i < |s| ==> IsAsciiLetter(s[i]) || IsJsSpace(s[i])
  }

  predicate IsUsernameText(s: string) {
    |s| >= 1 && forall i :: 0 <= i < |s| ==> IsAsciiLetter(s[i]) || IsDigit(s[i]) || s[i] == '_'
  }

  /** The text before the first line terminator: what `.*` can cover from the
      start of the string. */
  function FirstLine(s: string): (r: string)
    ensures |r| <= |s| && r == s[..|r|]
    ensures forall i :: 0 <= i < |r| ==> !IsLineTerminator(r[i])
    ensures |r| < |s| ==> IsLineTerminator(s[|r|])
  {
    if s == [] || IsLineTerminator(s[0]) then [] else [s[0]] + FirstLine(s[1..])
  }

  predicate HasLower(s: string) {
    exists i :: 0 <= i < |s| && IsAsciiLower(s[i])
  }

  predicate HasUpper(s: string) {
    exists i :: 0 <= i < |s| && IsAsciiUpper(s[i])
  }

  predicate HasDigit(s: string) {
    exists i :: 0 <= i < |s| && IsDigit(s[i])
  }

  /** The three look-aheads, each anchored at the start and running over `.`,
      which does not cross a line terminator. */
  predicate IsComplexPassword(s: string) {
    HasLower(FirstLine(s)) && HasUpper(FirstLine(s)) && HasDigit(FirstLine(s))
  }

  /** An optional `+`, a digit 1-9, then at most fifteen more digits. */
  predicate IsPhoneText(s: string) {
    var d := if |s| > 0 && s[0] == '+' then s[1..] else s;
    1 <= |d| <= 16 && '1' <= d[0] <= '9' && AllDigits(d)
  }

  predicate PatternMatches(p: Pattern, s: string) {
    match p
    case NamePattern => IsNameText(s)
    case UsernamePattern => IsUsernameText(s)
    case PasswordPattern => IsComplexPassword(s)
    case PhonePattern => IsPhoneText(s)
  }

  // ---------------------------------------------------------------------
  // Evaluation

  predicate LengthWithin(s: string, min: nat, max: Option<nat>) {
    min <= |s| && (max.None? || |s| <= max.value)
  }

  /** The `Due date cannot be in the past` test: a date before today's local
      midnight fails; an Invalid Date compares false and passes. */
  predicate NotInPast(dates: Dates, today: int, v: Value) {
    match dates.dayOf(v)
    case None => true
    case Some(d) => d >= today
  }

  /** `isInt({ min: 1 })`. */
  predicate IsPositiveIntText(s: string) {
    IsIntText(s) && IntTextValue(s) >= 1
  }

  predicate Passes(c: Check, v: Value, body: JsonBody, dates: Dates, today: int) {
    var s := ToText(v);
    match c
    case NotEmpty => s != ""
    case Length(min, max) => LengthWithin(s, min, max)
    case Matches(p) => PatternMatches(p, s)
    case IsIso8601 => dates.isIso8601(s)
    case NotBeforeToday => NotInPast(dates, today, v)
    case IntAtLeastOne => IsPositiveIntText(s)
    case OneOf(options) => s in options
    case SameAs(other) => v == Field(body, other)
  }

  predicate Skipped(o: Optionality, v: Value) {
    match o
    case Required => false
    case SkipUndefined => v == Undefined
    case SkipFalsy => !Truthy(v)
  }

  /** The failures of the rules `rules` on the value `v` of `field`. */
  function RuleErrors(field: string, rules: seq<Rule>, v: Value, body: JsonBody, dates: Dates, today: int)
    : (r: seq<Detail>)
    ensures |r| <= |rules|
    ensures r == [] <==> forall i :: 0 <= i < |rules| ==> Passes(rules[i].check, v, body, dates, today)
  {
    if rules == [] then []
    else
      var rest := RuleErrors(field, rules[1..], v, body, dates, today);
      assert forall i :: 1 <= i < |rules| ==> rules[i] == rules[1..][i - 1];
      if Passes(rules[0].check, v, body, dates, today) then rest
      else [Detail(field, rules[0].msg)] + rest
  }

  /** Every failing rule is reported, with its own message. */
  lemma {:induction false} RuleErrorsReport(field: string, rules: seq<Rule>, i: nat, v: Value, body: JsonBody, dates: Dates, today: int)
    requires i < |rules| && !Passes(rules[i].check, v, body, dates, today)
    ensures Detail(field, rules[i].msg) in RuleErrors(field, rules, v, body, dates, today)
  {
    if i > 0 {
      assert rules[1..][i - 1] == rules[i];
      RuleErrorsReport(field, rules[1..], i - 1, v, body, dates, today);
    }
  }

  /** Every reported failure names the chain's field. */
  lemma {:induction false} RuleErrorsPaths(field: string, rules: seq<Rule>, v: Value, body: JsonBody, dates: Dates, today: int)
    ensures forall d :: d in RuleErrors(field, rules, v, body, dates, today) ==> d.path == field
  {
    if rules != [] {
      RuleErrorsPaths(field, rules[1..], v, body, dates, today);
    }
  }

  function ChainErrors(ch: Chain, body: JsonBody, dates: Dates, today: int): seq<Detail> {
    var v := Field(body, ch.field);
    if Skipped(ch.optionality, v) then [] else RuleErrors(ch.field, ch.rules, v, body, dates, today)
  }

  /** `validationResult(req).array()` after the chains ran. */
  function Errors(chains: seq<Chain>, body: JsonBody, dates: Dates, today: int): seq<Detail> {
    if chains == [] then []
    else
      ChainErrors(chains[0], body, dates, today) + Errors(chains[1..], body, dates, today)
  }

  /** A chain that is not skipped passes exactly when each of its checks does. */
  lemma ChainPassesIff(ch: Chain, body: JsonBody, dates: Dates, today: int)
    ensures ChainErrors(ch, body, dates, today) == [] <==>
              Skipped(ch.optionality, Field(body, ch.field))
              || forall i :: 0 <= i < |ch.rules| ==> Passes(ch.rules[i].check, Field(body, ch.field), body, dates, today)
  {
  }

  // ---------------------------------------------------------------------
  // The rule arrays

  const TaskStatuses: seq<string> := ["Pending", "Completed", "Overdue"]

  // validateLogin

  const LoginUsername: Chain :=
    Chain("username", Required, [
      Rule(NotEmpty, "Username is required"),
      Rule(Length(3, Some(50)), "Username must be between 3 and 50 characters")])

  const LoginPassword: Chain :=
    Chain("password", Required, [
      Rule(NotEmpty, "Password is required"),
      Rule(Length(6, None), "Password must be at least 6 characters long")])

  const LoginRules: seq<Chain> := [LoginUsername, LoginPassword]

  // validateProfileUpdate

  const ProfileName: Chain :=
    Chain("name", SkipFalsy, [
      Rule(Length(2, Some(100)), "Name must be between 2 and 100 characters"),
      Rule(Matches(NamePattern), "Name can only contain letters and spaces")])

  const ProfileDepartment: Chain :=
    Chain("department", SkipFalsy, [
      Rule(Length(2, Some(100)), "Department must be between 2 and 100 characters")])

  const ProfileDivision: Chain :=
    Chain("division", SkipFalsy, [
      Rule(Length(1, Some(10)), "Division must be between 1 and 10 characters")])

  const ProfileSemester: Chain :=
    Chain("semester", SkipFalsy, [
      Rule(Length(1, Some(10)), "Semester must be between 1 and 10 characters")])

  const ProfileEmergencyName: Chain :=
    Chain("emergency_contact_name", SkipFalsy, [
      Rule(Length(2, Some(100)), "Emergency contact name must be between 2 and 100 characters"),
      Rule(Matches(NamePattern), "Emergency contact name can only contain letters and spaces")])

  const ProfileEmergencyRelationship: Chain :=
    Chain("emergency_contact_relationship", SkipFalsy, [
      Rule(Length(2, Some(50)), "Emergency contact relationship must be between 2 and 50 characters")])

  const ProfileEmergencyPhone: Chain :=
    Chain("emergency_contact_phone", SkipFalsy, [
      Rule(Matches(PhonePattern), "Please enter a valid phone number (e.g., +1234567890 or 1234567890)")])

  const ProfileUpdateRules: seq<Chain> := [
    ProfileName, ProfileDepartment, ProfileDivision, ProfileSemester,
    ProfileEmergencyName, ProfileEmergencyRelationship, ProfileEmergencyPhone]

  // validatePasswordChange

  const CurrentPassword: Chain :=
    Chain("currentPassword", Required, [
      Rule(NotEmpty, "Current password is required")])

  const NewPassword: Chain :=
    Chain("newPassword", Required, [
      Rule(Length(6, None), "New password must be at least 6 characters long"),
      Rule(Matches(PasswordPattern),
           "New password must contain at least one uppercase letter, one lowercase letter, and one number")])

  const PasswordChangeRules: seq<Chain> := [CurrentPassword, NewPassword]

  // validateHomework, which validateAssignment is

  const TaskSubject: Chain :=
    Chain("subject", Required, [
      Rule(NotEmpty, "Subject is required"),
      Rule(Length(2, Some(50)), "Subject must be between 2 and 50 characters")])

  const TaskTitle: Chain :=
    Chain("title", Required, [
      Rule(NotEmpty, "Title is required"),
      Rule(Length(5, Some(200)), "Title must be between 5 and 200 characters")])

  const TaskDescription: Chain :=
    Chain("description", Required, [
      Rule(NotEmpty, "Description is required"),
      Rule(Length(10, Some(1000)), "Description must be between 10 and 1000 characters")])

  const TaskDueDate: Chain :=
    Chain("due_date", Required, [
      Rule(NotEmpty, "Due date is required"),
      Rule(IsIso8601, "Please provide a valid date in YYYY-MM-DD format"),
      Rule(NotBeforeToday, "Due date cannot be in the past")])

  const TaskAssignee: Chain :=
    Chain("assigned_to", SkipUndefined, [
      Rule(IntAtLeastOne, "Assigned to must be a valid user ID")])

  const TaskStatus: Chain :=
    Chain("status", SkipUndefined, [
      Rule(OneOf(TaskStatuses), "Status must be one of: Pending, Completed, Overdue")])

  const TaskRules: seq<Chain> := [TaskSubject, TaskTitle, TaskDescription, TaskDueDate, TaskAssignee, TaskStatus]

  // validateStudentRegistration and validateAdminRegistration

  const StudentName: Chain :=
    Chain("name", Required, [
      Rule(NotEmpty, "Full name is required"),
      Rule(Length(2, Some(100)), "Name must be between 2 and 100 characters"),
      Rule(Matches(NamePattern), "Name can only contain letters and spaces")])

  const AdminName: Chain :=
    Chain("name", Required, [
      Rule(NotEmpty, "Name is required"),
      Rule(Length(2, Some(100)), "Name must be between 2 and 100 characters"),
      Rule(Matches(NamePattern), "Name can only contain letters and spaces")])

  const RegistrationUsername: Chain :=
    Chain("username", Required, [
      Rule(NotEmpty, "Username is required"),
      Rule(Length(3, Some(50)), "Username must be between 3 and 50 characters"),
      Rule(Matches(UsernamePattern), "Username can only contain letters, numbers, and underscores")])

  const RegistrationPassword: Chain :=
    Chain("password", Required, [
      Rule(NotEmpty, "Password is required"),
      Rule(Length(6, None), "Password must be at least 6 characters long"),
      Rule(Matches(PasswordPattern),
           "Password must contain at least one uppercase letter, one lowercase letter, and one number")])

  const ConfirmPassword: Chain :=
    Chain("confirmPassword", Required, [
      Rule(NotEmpty, "Please confirm your password"),
      Rule(SameAs("password"), "Passwords do not match")])

  const RegistrationStudentId: Chain :=
    Chain("student_id", SkipUndefined, [
      Rule(Length(5, Some(20)), "Student ID must be between 5 and 20 characters")])

  const RegistrationDepartment: Chain :=
    Chain("department", SkipUndefined, [
      Rule(Length(2, Some(100)), "Department must be between 2 and 100 characters")])

  const RegistrationDivision: Chain :=
    Chain("division", SkipUndefined, [
      Rule(Length(1, Some(10)), "Division must be between 1 and 10 characters")])

  const RegistrationSemester: Chain :=
    Chain("semester", SkipUndefined, [
      Rule(Length(1, Some(10)), "Semester must be between 1 and 10 characters")])

  const StudentRegistrationRules: seq<Chain> := [
    StudentName, RegistrationUsername, RegistrationPassword, ConfirmPassword,
    RegistrationStudentId, RegistrationDepartment, RegistrationDivision, RegistrationSemester]

  const AdminRegistrationRules: seq<Chain> := [
    AdminName, RegistrationUsername, RegistrationPassword, RegistrationDepartment, RegistrationDivision]
}
