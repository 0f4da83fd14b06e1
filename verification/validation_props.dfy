/** What each rule array accepts, stated directly on the body's fields, and
    the quirks of the patterns. */
module ValidationProps {
  import opened Options
  import opened JsText
  import opened Model
  import opened Validation

  function Text(body: JsonBody, name: string): string {
    ToText(Field(body, name))
  }

  /** An array accepts exactly when each of its chains does. */
  lemma {:induction false} ErrorsEmptyEach(chains: seq<Chain>, body: JsonBody, dates: Dates, today: int)
    ensures Errors(chains, body, dates, today) == [] <==>
              forall ch :: ch in chains ==> ChainErrors(ch, body, dates, today) == []
  {
    if chains != [] {
      ErrorsEmptyEach(chains[1..], body, dates, today);
      assert forall ch :: ch in chains <==> ch == chains[0] || ch in chains[1..];
    }
  }

  /** The failures of two arrays run one after the other. */
  lemma {:induction false} ErrorsConcat(a: seq<Chain>, b: seq<Chain>, body: JsonBody, dates: Dates, today: int)
    ensures Errors(a + b, body, dates, today) == Errors(a, body, dates, today) + Errors(b, body, dates, today)
  {
    if a != [] {
      assert (a + b)[0] == a[0];
      assert (a + b)[1..] == a[1..] + b;
      ErrorsConcat(a[1..], b, body, dates, today);
    } else {
      assert a + b == b;
    }
  }

  // The chain shapes the arrays use, each with what it accepts.

  lemma OneRuleChain(ch: Chain, body: JsonBody, dates: Dates, today: int)
    requires |ch.rules| == 1
    ensures ChainErrors(ch, body, dates, today) == [] <==>
              Skipped(ch.optionality, Field(body, ch.field))
              || Passes(ch.rules[0].check, Field(body, ch.field), body, dates, today)
  {
    ChainPassesIff(ch, body, dates, today);
  }

  /** `.notEmpty().isLength(...)`. */
  lemma RequiredLengthChain(ch: Chain, body: JsonBody, dates: Dates, today: int, min: nat, max: Option<nat>)
    requires ch.optionality == Required && |ch.rules| == 2
    requires ch.rules[0].check == NotEmpty && ch.rules[1].check == Length(min, max)
    ensures ChainErrors(ch, body, dates, today) == [] <==>
              Text(body, ch.field) != "" && LengthWithin(Text(body, ch.field), min, max)
  {
    ChainPassesIff(ch, body, dates, today);
  }

  /** `.isLength(...)` alone, after its optionality. */
  lemma LengthChain(ch: Chain, body: JsonBody, dates: Dates, today: int, min: nat, max: Option<nat>)
    requires |ch.rules| == 1 && ch.rules[0].check == Length(min, max)
    ensures ChainErrors(ch, body, dates, today) == [] <==>
              Skipped(ch.optionality, Field(body, ch.field)) || LengthWithin(Text(body, ch.field), min, max)
  {
    ChainPassesIff(ch, body, dates, today);
  }

  /** `.isLength(...).matches(...)`, after its optionality. */
  lemma LengthPatternChain(ch: Chain, body: JsonBody, dates: Dates, today: int, min: nat, max: Option<nat>, p: Pattern)
    requires |ch.rules| == 2 && ch.rules[0].check == Length(min, max) && ch.rules[1].check == Matches(p)
    ensures ChainErrors(ch, body, dates, today) == [] <==>
              Skipped(ch.optionality, Field(body, ch.field))
              || (LengthWithin(Text(body, ch.field), min, max) && PatternMatches(p, Text(body, ch.field)))
  {
    ChainPassesIff(ch, body, dates, today);
  }

  /** `.notEmpty().isLength(...).matches(...)`. */
  lemma RequiredLengthPatternChain(ch: Chain, body: JsonBody, dates: Dates, today: int, min: nat, max: Option<nat>, p: Pattern)
    requires ch.optionality == Required && |ch.rules| == 3
    requires ch.rules[0].check == NotEmpty && ch.rules[1].check == Length(min, max) && ch.rules[2].check == Matches(p)
    ensures ChainErrors(ch, body, dates, today) == [] <==>
              Text(body, ch.field) != "" && LengthWithin(Text(body, ch.field), min, max)
              && PatternMatches(p, Text(body, ch.field))
  {
    ChainPassesIff(ch, body, dates, today);
  }

  /** A failure of one chain is a failure of the array. */
  lemma {:induction false} ReportedIn(chains: seq<Chain>, i: nat, d: Detail, body: JsonBody, dates: Dates, today: int)
    requires i < |chains| && d in ChainErrors(chains[i], body, dates, today)
    ensures d in Errors(chains, body, dates, today)
  {
    if i > 0 {
      assert chains[1..][i - 1] == chains[i];
      ReportedIn(chains[1..], i - 1, d, body, dates, today);
    }
  }

  predicate NameOk(s: string) {
    2 <= |s| <= 100 && IsNameText(s)
  }

  predicate UsernameOk(s: string) {
    3 <= |s| <= 50 && IsUsernameText(s)
  }

  predicate PasswordOk(s: string) {
    6 <= |s| && IsComplexPassword(s)
  }

  /** A field under `.optional({ values: 'falsy' })`. */
  predicate FalsyOr(body: JsonBody, name: string, ok: bool) {
    !Truthy(Field(body, name)) || ok
  }

  /** A field under `.optional()`: skipped only when absent. */
  predicate AbsentOr(body: JsonBody, name: string, min: nat, max: nat) {
    Field(body, name) == Undefined || min <= |Text(body, name)| <= max
  }

  // ---------------------------------------------------------------------
  // Login

  lemma LoginUsernameAccepts(body: JsonBody, dates: Dates, today: int)
    ensures ChainErrors(LoginUsername, body, dates, today) == [] <==> 3 <= |Text(body, "username")| <= 50
  {
    RequiredLengthChain(LoginUsername, body, dates, today, 3, Some(50));
  }

  lemma LoginPasswordAccepts(body: JsonBody, dates: Dates, today: int)
    ensures ChainErrors(LoginPassword, body, dates, today) == [] <==> 6 <= |Text(body, "password")|
  {
    RequiredLengthChain(LoginPassword, body, dates, today, 6, None);
  }

  /** `validateLogin` accepts a username of 3 to 50 characters and a password
      of at least 6. */
  lemma LoginAccepts(body: JsonBody, dates: Dates, today: int)
    ensures Errors(LoginRules, body, dates, today) == [] <==>
              3 <= |Text(body, "username")| <= 50 && 6 <= |Text(body, "password")|
  {
    ErrorsEmptyEach(LoginRules, body, dates, today);
    LoginUsernameAccepts(body, dates, today);
    LoginPasswordAccepts(body, dates, today);
  }

  /** Rules are not short-circuited: a missing username is reported both as
      required and as too short. */
  lemma LoginMissingUsernameReportsBoth(body: JsonBody, dates: Dates, today: int)
    requires Text(body, "username") == ""
    ensures Detail("username", "Username is required") in Errors(LoginRules, body, dates, today)
    ensures Detail("username", "Username must be between 3 and 50 characters") in Errors(LoginRules, body, dates, today)
  {
    var ch := LoginUsername;
    assert !Passes(ch.rules[0].check, Field(body, "username"), body, dates, today);
    RuleErrorsReport(ch.field, ch.rules, 0, Field(body, "username"), body, dates, today);
    assert !Passes(ch.rules[1].check, Field(body, "username"), body, dates, today);
    RuleErrorsReport(ch.field, ch.rules, 1, Field(body, "username"), body, dates, today);
    ReportedIn(LoginRules, 0, Detail("username", "Username is required"), body, dates, today);
    ReportedIn(LoginRules, 0, Detail("username", "Username must be between 3 and 50 characters"), body, dates, today);
  }

  // ---------------------------------------------------------------------
  // Password change

  lemma CurrentPasswordAccepts(body: JsonBody, dates: Dates, today: int)
    ensures ChainErrors(CurrentPassword, body, dates, today) == [] <==> Text(body, "currentPassword") != ""
  {
    OneRuleChain(CurrentPassword, body, dates, today);
  }

  lemma NewPasswordAccepts(body: JsonBody, dates: Dates, today: int)
    ensures ChainErrors(NewPassword, body, dates, today) == [] <==> PasswordOk(Text(body, "newPassword"))
  {
    LengthPatternChain(NewPassword, body, dates, today, 6, None, PasswordPattern);
  }

  lemma PasswordChangeAccepts(body: JsonBody, dates: Dates, today: int)
    ensures Errors(PasswordChangeRules, body, dates, today) == [] <==>
              Text(body, "currentPassword") != "" && PasswordOk(Text(body, "newPassword"))
  {
    ErrorsEmptyEach(PasswordChangeRules, body, dates, today);
    CurrentPasswordAccepts(body, dates, today);
    NewPasswordAccepts(body, dates, today);
  }

  // ---------------------------------------------------------------------
  // Profile update

  lemma ProfileNameAccepts(body: JsonBody, dates: Dates, today: int)
    ensures ChainErrors(ProfileName, body, dates, today) == [] <==>
              FalsyOr(body, "name", NameOk(Text(body, "name")))
  {
    LengthPatternChain(ProfileName, body, dates, today, 2, Some(100), NamePattern);
  }

  lemma ProfileDepartmentAccepts(body: JsonBody, dates: Dates, today: int)
    ensures ChainErrors(ProfileDepartment, body, dates, today) == [] <==>
              FalsyOr(body, "department", 2 <= |Text(body, "department")| <= 100)
  {
    LengthChain(ProfileDepartment, body, dates, today, 2, Some(100));
  }

  lemma ProfileDivisionAccepts(body: JsonBody, dates: Dates, today: int)
    ensures ChainErrors(ProfileDivision, body, dates, today) == [] <==>
              FalsyOr(body, "division", 1 <= |Text(body, "division")| <= 10)
  {
    LengthChain(ProfileDivision, body, dates, today, 1, Some(10));
  }

  lemma ProfileSemesterAccepts(body: JsonBody, dates: Dates, today: int)
    ensures ChainErrors(ProfileSemester, body, dates, today) == [] <==>
              FalsyOr(body, "semester", 1 <= |Text(body, "semester")| <= 10)
  {
    LengthChain(ProfileSemester, body, dates, today, 1, Some(10));
  }

  lemma ProfileEmergencyNameAccepts(body: JsonBody, dates: Dates, today: int)
    ensures ChainErrors(ProfileEmergencyName, body, dates, today) == [] <==>
              FalsyOr(body, "emergency_contact_name", NameOk(Text(body, "emergency_contact_name")))
  {
    LengthPatternChain(ProfileEmergencyName, body, dates, today, 2, Some(100), NamePattern);
  }

  lemma ProfileEmergencyRelationshipAccepts(body: JsonBody, dates: Dates, today: int)
    ensures ChainErrors(ProfileEmergencyRelationship, body, dates, today) == [] <==>
              FalsyOr(body, "emergency_contact_relationship", 2 <= |Text(body, "emergency_contact_relationship")| <= 50)
  {
    LengthChain(ProfileEmergencyRelationship, body, dates, today, 2, Some(50));
  }

  lemma ProfileEmergencyPhoneAccepts(body: JsonBody, dates: Dates, today: int)
    ensures ChainErrors(ProfileEmergencyPhone, body, dates, today) == [] <==>
              FalsyOr(body, "emergency_contact_phone", IsPhoneText(Text(body, "emergency_contact_phone")))
  {
    OneRuleChain(ProfileEmergencyPhone, body, dates, today);
  }

  /** `validateProfileUpdate` skips every falsy field and checks the rest. */
  lemma ProfileUpdateAccepts(body: JsonBody, dates: Dates, today: int)
    ensures Errors(ProfileUpdateRules, body, dates, today) == [] <==>
              && FalsyOr(body, "name", NameOk(Text(body, "name")))
              && FalsyOr(body, "department", 2 <= |Text(body, "department")| <= 100)
              && FalsyOr(body, "division", 1 <= |Text(body, "division")| <= 10)
              && FalsyOr(body, "semester", 1 <= |Text(body, "semester")| <= 10)
              && FalsyOr(body, "emergency_contact_name", NameOk(Text(body, "emergency_contact_name")))
              && FalsyOr(body, "emergency_contact_relationship", 2 <= |Text(body, "emergency_contact_relationship")| <= 50)
              && FalsyOr(body, "emergency_contact_phone", IsPhoneText(Text(body, "emergency_contact_phone")))
  {
    ErrorsEmptyEach(ProfileUpdateRules, body, dates, today);
    ProfileNameAccepts(body, dates, today);
    ProfileDepartmentAccepts(body, dates, today);
    ProfileDivisionAccepts(body, dates, today);
    ProfileSemesterAccepts(body, dates, today);
    ProfileEmergencyNameAccepts(body, dates, today);
    ProfileEmergencyRelationshipAccepts(body, dates, today);
    ProfileEmergencyPhoneAccepts(body, dates, today);
  }

  // ---------------------------------------------------------------------
  // Registration

  lemma StudentNameAccepts(body: JsonBody, dates: Dates, today: int)
    ensures ChainErrors(StudentName, body, dates, today) == [] <==> NameOk(Text(body, "name"))
  {
    RequiredLengthPatternChain(StudentName, body, dates, today, 2, Some(100), NamePattern);
  }

  lemma AdminNameAccepts(body: JsonBody, dates: Dates, today: int)
    ensures ChainErrors(AdminName, body, dates, today) == [] <==> NameOk(Text(body, "name"))
  {
    RequiredLengthPatternChain(AdminName, body, dates, today, 2, Some(100), NamePattern);
  }

  lemma RegistrationUsernameAccepts(body: JsonBody, dates: Dates, today: int)
    ensures ChainErrors(RegistrationUsername, body, dates, today) == [] <==> UsernameOk(Text(body, "username"))
  {
    RequiredLengthPatternChain(RegistrationUsername, body, dates, today, 3, Some(50), UsernamePattern);
  }

  lemma RegistrationPasswordAccepts(body: JsonBody, dates: Dates, today: int)
    ensures ChainErrors(RegistrationPassword, body, dates, today) == [] <==> PasswordOk(Text(body, "password"))
  {
    RequiredLengthPatternChain(RegistrationPassword, body, dates, today, 6, None, PasswordPattern);
  }

  /** The confirmation must be non-empty and the very same value as the
      password (a strict comparison: the number 123456 does not confirm the
      string "123456"). */
  lemma ConfirmPasswordAccepts(body: JsonBody, dates: Dates, today: int)
    ensures ChainErrors(ConfirmPassword, body, dates, today) == [] <==>
              Text(body, "confirmPassword") != "" && Field(body, "confirmPassword") == Field(body, "password")
  {
    ChainPassesIff(ConfirmPassword, body, dates, today);
    var rules := ConfirmPassword.rules;
    assert rules[0].check == NotEmpty && rules[1].check == SameAs("password");
  }

  lemma RegistrationStudentIdAccepts(body: JsonBody, dates: Dates, today: int)
    ensures ChainErrors(RegistrationStudentId, body, dates, today) == [] <==> AbsentOr(body, "student_id", 5, 20)
  {
    LengthChain(RegistrationStudentId, body, dates, today, 5, Some(20));
  }

  lemma RegistrationDepartmentAccepts(body: JsonBody, dates: Dates, today: int)
    ensures ChainErrors(RegistrationDepartment, body, dates, today) == [] <==> AbsentOr(body, "department", 2, 100)
  {
    LengthChain(RegistrationDepartment, body, dates, today, 2, Some(100));
  }

  lemma RegistrationDivisionAccepts(body: JsonBody, dates: Dates, today: int)
    ensures ChainErrors(RegistrationDivision, body, dates, today) == [] <==> AbsentOr(body, "division", 1, 10)
  {
    LengthChain(RegistrationDivision, body, dates, today, 1, Some(10));
  }

  lemma RegistrationSemesterAccepts(body: JsonBody, dates: Dates, today: int)
    ensures ChainErrors(RegistrationSemester, body, dates, today) == [] <==> AbsentOr(body, "semester", 1, 10)
  {
    LengthChain(RegistrationSemester, body, dates, today, 1, Some(10));
  }

  lemma StudentRegistrationAccepts(body: JsonBody, dates: Dates, today: int)
    ensures Errors(StudentRegistrationRules, body, dates, today) == [] <==>
              && NameOk(Text(body, "name"))
              && UsernameOk(Text(body, "username"))
              && PasswordOk(Text(body, "password"))
              && Text(body, "confirmPassword") != ""
              && Field(body, "confirmPassword") == Field(body, "password")
              && AbsentOr(body, "student_id", 5, 20)
              && AbsentOr(body, "department", 2, 100)
              && AbsentOr(body, "division", 1, 10)
              && AbsentOr(body, "semester", 1, 10)
  {
    var credentials := [StudentName, RegistrationUsername, RegistrationPassword, ConfirmPassword];
    var placement := [RegistrationStudentId, RegistrationDepartment, RegistrationDivision, RegistrationSemester];
    assert StudentRegistrationRules == credentials + placement;
    ErrorsConcat(credentials, placement, body, dates, today);
    StudentCredentialsAccept(body, dates, today);
    StudentPlacementAccepts(body, dates, today);
  }

  lemma StudentCredentialsAccept(body: JsonBody, dates: Dates, today: int)
    ensures Errors([StudentName, RegistrationUsername, RegistrationPassword, ConfirmPassword], body, dates, today) == [] <==>
              && NameOk(Text(body, "name"))
              && UsernameOk(Text(body, "username"))
              && PasswordOk(Text(body, "password"))
              && Text(body, "confirmPassword") != ""
              && Field(body, "confirmPassword") == Field(body, "password")
  {
    ErrorsEmptyEach([StudentName, RegistrationUsername, RegistrationPassword, ConfirmPassword], body, dates, today);
    StudentNameAccepts(body, dates, today);
    RegistrationUsernameAccepts(body, dates, today);
    RegistrationPasswordAccepts(body, dates, today);
    ConfirmPasswordAccepts(body, dates, today);
  }

  lemma StudentPlacementAccepts(body: JsonBody, dates: Dates, today: int)
    ensures Errors([RegistrationStudentId, RegistrationDepartment, RegistrationDivision, RegistrationSemester], body, dates, today) == [] <==>
              && AbsentOr(body, "student_id", 5, 20)
              && AbsentOr(body, "department", 2, 100)
              && AbsentOr(body, "division", 1, 10)
              && AbsentOr(body, "semester", 1, 10)
  {
    ErrorsEmptyEach([RegistrationStudentId, RegistrationDepartment, RegistrationDivision, RegistrationSemester], body, dates, today);
    RegistrationStudentIdAccepts(body, dates, today);
    RegistrationDepartmentAccepts(body, dates, today);
    RegistrationDivisionAccepts(body, dates, today);
    RegistrationSemesterAccepts(body, dates, today);
  }

  lemma AdminRegistrationAccepts(body: JsonBody, dates: Dates, today: int)
    ensures Errors(AdminRegistrationRules, body, dates, today) == [] <==>
              && NameOk(Text(body, "name"))
              && UsernameOk(Text(body, "username"))
              && PasswordOk(Text(body, "password"))
              && AbsentOr(body, "department", 2, 100)
              && AbsentOr(body, "division", 1, 10)
  {
    ErrorsEmptyEach(AdminRegistrationRules, body, dates, today);
    AdminNameAccepts(body, dates, today);
    RegistrationUsernameAccepts(body, dates, today);
    RegistrationPasswordAccepts(body, dates, today);
    RegistrationDepartmentAccepts(body, dates, today);
    RegistrationDivisionAccepts(body, dates, today);
  }

  /** A confirmation that is not the identical value is reported. */
  lemma MismatchedConfirmationReported(body: JsonBody, dates: Dates, today: int)
    requires Field(body, "confirmPassword") != Field(body, "password")
    ensures Detail("confirmPassword", "Passwords do not match") in Errors(StudentRegistrationRules, body, dates, today)
  {
    var ch := ConfirmPassword;
    assert !Passes(ch.rules[1].check, Field(body, ch.field), body, dates, today);
    RuleErrorsReport(ch.field, ch.rules, 1, Field(body, ch.field), body, dates, today);
    ReportedIn(StudentRegistrationRules, 3, Detail("confirmPassword", "Passwords do not match"), body, dates, today);
  }

  /** The same empty string is skipped by the profile rules but fails the
      registration rule of the same field. */
  lemma EmptyOptionalFieldsDiffer(body: JsonBody, dates: Dates, today: int)
    requires Field(body, "department") == Str("")
    ensures ChainErrors(ProfileDepartment, body, dates, today) == []
    ensures Detail("department", "Department must be between 2 and 100 characters")
              in Errors(StudentRegistrationRules, body, dates, today)
  {
    var ch := RegistrationDepartment;
    assert !Passes(ch.rules[0].check, Field(body, ch.field), body, dates, today);
    RuleErrorsReport(ch.field, ch.rules, 0, Field(body, ch.field), body, dates, today);
    ReportedIn(StudentRegistrationRules, 5, Detail("department", "Department must be between 2 and 100 characters"), body, dates, today);
  }

  /** `student_id: ''` is not skipped by `.optional()` and fails its length rule. */
  lemma EmptyStudentIdRejected(body: JsonBody, dates: Dates, today: int)
    requires Field(body, "student_id") == Str("")
    ensures Detail("student_id", "Student ID must be between 5 and 20 characters")
              in Errors(StudentRegistrationRules, body, dates, today)
  {
    var ch := RegistrationStudentId;
    assert !Passes(ch.rules[0].check, Field(body, ch.field), body, dates, today);
    RuleErrorsReport(ch.field, ch.rules, 0, Field(body, ch.field), body, dates, today);
    ReportedIn(StudentRegistrationRules, 4, Detail("student_id", "Student ID must be between 5 and 20 characters"), body, dates, today);
  }

  // ---------------------------------------------------------------------
  // Tasks

  lemma TaskSubjectAccepts(body: JsonBody, dates: Dates, today: int)
    ensures ChainErrors(TaskSubject, body, dates, today) == [] <==> 2 <= |Text(body, "subject")| <= 50
  {
    RequiredLengthChain(TaskSubject, body, dates, today, 2, Some(50));
  }

  lemma TaskTitleAccepts(body: JsonBody, dates: Dates, today: int)
    ensures ChainErrors(TaskTitle, body, dates, today) == [] <==> 5 <= |Text(body, "title")| <= 200
  {
    RequiredLengthChain(TaskTitle, body, dates, today, 5, Some(200));
  }

  lemma TaskDescriptionAccepts(body: JsonBody, dates: Dates, today: int)
    ensures ChainErrors(TaskDescription, body, dates, today) == [] <==> 10 <= |Text(body, "description")| <= 1000
  {
    RequiredLengthChain(TaskDescription, body, dates, today, 10, Some(1000));
  }

  lemma TaskDueDateAccepts(body: JsonBody, dates: Dates, today: int)
    ensures ChainErrors(TaskDueDate, body, dates, today) == [] <==>
              && Text(body, "due_date") != ""
              && dates.isIso8601(Text(body, "due_date"))
              && NotInPast(dates, today, Field(body, "due_date"))
  {
    ChainPassesIff(TaskDueDate, body, dates, today);
    var rules := TaskDueDate.rules;
    assert rules[0].check == NotEmpty && rules[1].check == IsIso8601 && rules[2].check == NotBeforeToday;
  }

  lemma TaskAssigneeAccepts(body: JsonBody, dates: Dates, today: int)
    ensures ChainErrors(TaskAssignee, body, dates, today) == [] <==>
              Field(body, "assigned_to") == Undefined || IsPositiveIntText(Text(body, "assigned_to"))
  {
    OneRuleChain(TaskAssignee, body, dates, today);
  }

  lemma TaskStatusAccepts(body: JsonBody, dates: Dates, today: int)
    ensures ChainErrors(TaskStatus, body, dates, today) == [] <==>
              Field(body, "status") == Undefined || Text(body, "status") in TaskStatuses
  {
    OneRuleChain(TaskStatus, body, dates, today);
  }

  predicate TaskFieldsOk(body: JsonBody, dates: Dates, today: int) {
    && 2 <= |Text(body, "subject")| <= 50
    && 5 <= |Text(body, "title")| <= 200
    && 10 <= |Text(body, "description")| <= 1000
    && Text(body, "due_date") != ""
    && dates.isIso8601(Text(body, "due_date"))
    && NotInPast(dates, today, Field(body, "due_date"))
    && (Field(body, "assigned_to") == Undefined || IsPositiveIntText(Text(body, "assigned_to")))
    && (Field(body, "status") == Undefined || Text(body, "status") in TaskStatuses)
  }

  lemma TaskAccepts(body: JsonBody, dates: Dates, today: int)
    ensures Errors(TaskRules, body, dates, today) == [] <==> TaskFieldsOk(body, dates, today)
  {
    ErrorsEmptyEach(TaskRules, body, dates, today);
    TaskSubjectAccepts(body, dates, today);
    TaskTitleAccepts(body, dates, today);
    TaskDescriptionAccepts(body, dates, today);
    TaskDueDateAccepts(body, dates, today);
    TaskAssigneeAccepts(body, dates, today);
    TaskStatusAccepts(body, dates, today);
  }

  /** A due date on a day before today is reported. */
  lemma PastDueDateReported(body: JsonBody, dates: Dates, today: int)
    requires dates.dayOf(Field(body, "due_date")).Some?
    requires dates.dayOf(Field(body, "due_date")).value < today
    ensures Detail("due_date", "Due date cannot be in the past") in Errors(TaskRules, body, dates, today)
  {
    var ch := TaskDueDate;
    assert !Passes(ch.rules[2].check, Field(body, ch.field), body, dates, today);
    RuleErrorsReport(ch.field, ch.rules, 2, Field(body, ch.field), body, dates, today);
    ReportedIn(TaskRules, 3, Detail("due_date", "Due date cannot be in the past"), body, dates, today);
  }

  /** An assignee that passed `isInt({ min: 1 })` names a positive user id
      when the handler looks it up. */
  lemma AcceptedAssigneeIsPositiveKey(body: JsonBody, dates: Dates, today: int)
    requires Errors(TaskRules, body, dates, today) == []
    requires Field(body, "assigned_to") != Undefined
    ensures SqlIntKey(Field(body, "assigned_to")).Some?
    ensures SqlIntKey(Field(body, "assigned_to")).value >= 1
  {
    TaskAccepts(body, dates, today);
    var v := Field(body, "assigned_to");
    match v
    case Num(n) => IntTextRoundTrip(n);
    case Str(s) =>
    case Null =>
  }

  // ---------------------------------------------------------------------
  // Patterns

  /** A complex password has a lowercase letter, an uppercase letter and a
      digit. */
  lemma ComplexPasswordHasClasses(s: string)
    requires IsComplexPassword(s)
    ensures HasLower(s) && HasUpper(s) && HasDigit(s)
  {
    var line := FirstLine(s);
    var i :| 0 <= i < |line| && IsAsciiLower(line[i]);
    var j :| 0 <= j < |line| && IsAsciiUpper(line[j]);
    var k :| 0 <= k < |line| && IsDigit(line[k]);
    assert s[i] == line[i] && s[j] == line[j] && s[k] == line[k];
  }

  /** On a single line the look-aheads ask for exactly the three classes. */
  lemma ComplexPasswordOnOneLine(s: string)
    requires forall i :: 0 <= i < |s| ==> !IsLineTerminator(s[i])
    ensures IsComplexPassword(s) <==> HasLower(s) && HasUpper(s) && HasDigit(s)
  {
    assert FirstLine(s) == s;
  }

  /** `.` stops at a line break: a lowercase letter only after it does not count. */
  lemma ComplexPasswordStopsAtLineBreak()
    ensures HasLower("AB1\nab") && HasUpper("AB1\nab") && HasDigit("AB1\nab")
    ensures !IsComplexPassword("AB1\nab")
  {
    assert "AB1\nab"[4] == 'a';
    assert FirstLine("AB1\nab") == "AB1";
  }

  /** Every positive number of at most sixteen digits is a phone number, with
      or without a leading `+`. */
  lemma DecimalIsPhone(n: nat)
    requires n > 0 && |NatToDecimal(n)| <= 16
    ensures IsPhoneText(NatToDecimal(n))
    ensures IsPhoneText("+" + NatToDecimal(n))
  {
    var d := NatToDecimal(n);
    assert ("+" + d)[1..] == d;
  }

  lemma PhoneRejections()
    ensures !IsPhoneText("+0123")
    ensures !IsPhoneText("12345678901234567")
    ensures !IsPhoneText("+")
    ensures IsPhoneText("1234567890123456")
  {
    assert |"12345678901234567"| == 17;
  }
}
