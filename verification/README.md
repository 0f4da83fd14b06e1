# Student portal: authentication, roles, validation and tasks

This project models the server core of a small school portal. Students and
administrators log in with a username and password. They get a signed bearer
token, and a session row records it. Every protected request passes
`authenticateToken`, which checks the token's signature, a live session row
and the user row, in that order. A role gate (`authorizeRole`) may follow,
then the route's express-validator rule array, then the handler. The handlers
are:

- the account handlers of `authController`: login, logout, the caller's
  profile, profile update, password change, and the registration of students
  and of administrators;
- two parallel task controllers, homework and assignments. They are the same
  code over two tables, so they are modelled once as a task service with a
  `Kind` tag. A student sees the tasks assigned to them plus the global ones,
  which have no assignee. An administrator sees and writes every task.

The database is a value: `Model.Db` holds the users, the sessions and the two
task tables, each with its AUTOINCREMENT counter. Every handler is a pure
function from a database and a request to a new database and an HTTP response.

The model covers SQLite's behaviour where the handlers rely on it:

- `PRAGMA foreign_keys = ON`, the `status` CHECK constraint and the NOT NULL
  columns. A write that violates one of them is refused with the 500 of the
  handler's catch block, and nothing is written.
- Bound parameters: a value compared with a TEXT column is bound as text. A
  route `:id` or a body value compared with an INTEGER key matches when it is
  a number or a text that spells a signed decimal integer
  (`JsText.SqlIntKey`); the other texts SQLite converts are listed under
  "## Left out".

JavaScript values in a JSON body are `undefined`, `null`, strings and
integers. Truthiness is JavaScript's: the empty string and 0 are falsy.

Four things come from outside and are parameters: the cryptography, the clock,
date parsing and the current local day.

- `Model.Crypto` signs and verifies tokens, and hashes and compares passwords
  (jsonwebtoken and bcrypt).
- `Model.Clock` gives `Date.now()` and the current local day.
- `Validation.Dates` parses dates for the validators.

`Routes.Run` puts the pieces together. It resolves a method and a path below
`/api` to a route of `routes/auth.js`, `routes/homework.js` or
`routes/assignments.js`. Then it runs that route's middleware chain and its
handler. A path that no router matches gets the 404 of `server.js`.

Some consequences of the code that the model states as lemmas:

- A student's `PUT` on a task is answered by `authorizeAdmin` on the route
  with 403 "Insufficient permissions". The controller's own 403 "Only
  administrators can update ..." cannot be reached through that route
  (`RoutesProps.StudentsCannotWriteTasks`).
- The `PUT /:id` task routes run no validators. An update is never checked
  against the task rules, and its `errors` are always empty
  (`RoutesProps.UpdateRouteUnvalidated`).
- On an update, a new assignee is checked against the students only when it
  is truthy. A falsy `0` or `''` skips the check, and only the foreign key
  then refuses it
  (`TaskProps.FalsyAssigneeNamesNoUser`).
- The phone pattern takes an optional `+`, a first digit from 1 to 9 and at
  most 15 more digits, so a number may not start with 0
  (`ValidationProps.PhoneRejections`).
- The due-date check runs `new Date` on the body value itself, while
  `isISO8601` sees its text: a JSON number is read as milliseconds since the
  epoch (`Validation.Dates`).
- The session expiry test does not reject a session once its moment has
  passed. See "## Findings".

## Model

| member | source | states |
|---|---|---|
| Model.ParseStatus | deepak/models/database.js:101 | a text passes the status CHECK constraint exactly when it is 'Pending', 'Completed' or 'Overdue', and then names that status |
| Model.StatusNameRoundTrip | deepak/models/database.js:101 | every status is written as a text that the CHECK constraint reads back as the same status |
| Model.FindUser | deepak/middleware/auth.js:23-26 | the lookup by id returns a row of the table with that id, and returns none exactly when no row has that id |
| Model.FindUsername | controllers/authController.js:18-21 | the lookup by username returns a row with that username, and returns none exactly when no row has it |
| Model.IdentityOf | deepak/middleware/auth.js:23-28 | the identity attached to the request carries the user row's id and role |
| JsText.SqlText | controllers/authController.js:18 | a body value bound to a TEXT comparison is its text; it is `NULL`, and matches nothing, exactly when the value is `undefined` or `null` |
| JsText.SqlIntKey | deepak/controllers/homeworkController.js:121 | a value compared with an INTEGER key selects by a number itself or by the integer a signed decimal numeral spells; any other value selects no key |
| JsText.IntTextRoundTrip | deepak/controllers/homeworkController.js:38-53 | the decimal text of every integer is a numeral whose INTEGER binding is that integer again |
| JsText.TrimIdempotent | controllers/authController.js:117-148 | trimming a trimmed text changes nothing |
| JsText.TrimEmptyIff | controllers/authController.js:117-148 | `trim()` gives the empty string exactly when every character is JavaScript white space or a line terminator |
| JsText.TrimIsCore | controllers/authController.js:117-148 | `trim()` returns a contiguous slice of its input that neither starts nor ends with white space |
| AuthMiddleware.BearerToken | deepak/middleware/auth.js:6-11 | a token is found only in a header that holds it as its second space-separated piece, and it is non-empty and has no space |
| AuthMiddleware.BearerTokenFound | deepak/middleware/auth.js:6-7 | conversely, a header of a first piece, one space and a non-empty token yields exactly that token |
| AuthMiddleware.NoBearerToken | deepak/middleware/auth.js:6-11 | a missing header, or a header with no second piece or an empty one, yields no token |
| AuthMiddleware.HasLiveSession | deepak/middleware/auth.js:17-20 | `SELECT * FROM sessions WHERE token = ? AND ...` finds a row exactly when some session of that token has not expired, by the corrected test that its expiry lies after now |
| AuthMiddleware.Authenticate | deepak/middleware/auth.js:5-34 | no token gives 401 "Access token required"; a bad signature gives 403 "Invalid token"; success means a verified token, a live session row for it and the user row of the claims' id, attached as the identity; every refusal is 401 or 403 |
| AuthMiddleware.AuthenticatesExistingUser | deepak/middleware/auth.js:17-29 | with a valid signature and a live session, the request is authenticated exactly when the claims' user id exists, as that user; otherwise it gets 401 "User not found" |
| AuthMiddleware.NoSessionRejected | deepak/middleware/auth.js:17-20 | a token without a live session row is refused, and with a valid signature it gets 401 "Invalid or expired token" |
| AuthMiddleware.ClaimedRoleIgnored | deepak/middleware/auth.js:23-28 | only the claims' user id matters: the role and username in a token do not change who the request is |
| AuthMiddleware.AuthorizeRole | deepak/middleware/auth.js:37-44 | the gate lets a request through exactly when the caller's role is in the list, and otherwise answers 403 "Insufficient permissions" |
| AuthMiddleware.RoleGates | deepak/middleware/auth.js:46-53 | `authorizeAdmin` passes exactly the admins, `authorizeStudent` exactly the students, each user passes exactly one of them, and `authorizeUser` passes everyone |
| AuthController.DeleteSessions | controllers/authController.js:66-69 | a session delete keeps exactly the sessions its condition does not select |
| AuthController.WithoutToken | controllers/authController.js:66-69 | `DELETE FROM sessions WHERE token = ?` keeps exactly the sessions of other tokens |
| AuthController.LookupUsername | controllers/authController.js:17-21 | a username value bound as text finds a row with that username; nothing is found exactly when the value binds to no text or no row has it |
| AuthController.LoggedIn | controllers/authController.js:28-51 | a login answers 200 with the user without the password and a token signed for the user's id, username and role; it appends one session for that token that expires 24 hours later, and changes nothing else |
| AuthController.Login | controllers/authController.js:7-58 | validation errors give 400 with no write; an unknown username gives 401 "Invalid credentials"; only a 200 writes, and a 200 means a user with that username whose stored hash matches the string password |
| AuthController.Logout | controllers/authController.js:61-76 | logout always answers "Logout successful"; it deletes exactly the sessions of the presented token and touches nothing else |
| AuthController.GetProfile | controllers/authController.js:79-97 | 200 exactly when the caller's row still exists, with that row's profile columns; otherwise 404 "User not found" |
| AuthController.ApplyProfile | controllers/authController.js:117-158 | a profile update writes only the seven profile columns and `updated_at`, and leaves the id, username, hash, role and student id alone |
| AuthController.UpdateProfileRows | controllers/authController.js:157-161 | `UPDATE users ... WHERE id = ?` rewrites exactly the rows with the caller's id and keeps the others |
| AuthController.UpdateProfile | controllers/authController.js:100-168 | errors give 400; a truthy non-string field makes `trim` throw (500); no qualifying field gives 400 "No valid fields to update"; a body with a qualifying field and no throwing field gets 200; a 200 writes the qualifying fields into the caller's row and nothing else |
| AuthController.SetPassword | controllers/authController.js:196-197 | the new hash and `updated_at` are written into the caller's row only |
| AuthController.ChangePassword | controllers/authController.js:171-207 | errors give 400; a missing row gives 404; a current password that is not a string gives 500; a wrong one gives 400 "Current password is incorrect"; a matching one gives 200 when the new password is a string and 500 otherwise; a 200 means the current password matched; it stores the hash of the new one and deletes every session of the caller |
| AuthController.LastEight | controllers/authController.js:237 | `slice(-8)` keeps the last eight characters, or all of them when there are fewer |
| AuthController.GeneratedStudentId | controllers/authController.js:237 | a generated student id is "STU-" followed by one to eight digits |
| AuthController.GeneratedStudentIdWidth | controllers/authController.js:237 | once the clock has eight digits, a generated id has exactly twelve characters |
| AuthController.OrDefault | controllers/authController.js:246-248 | `v \|\| fallback` stores the text of a truthy value, and otherwise the fallback |
| AuthController.InsertUser | controllers/authController.js:240-251 | the insertion appends one row with the next id, the hashed password and the given role and columns, and echoes the new id; a string password and name, a username that binds and a new student id always give 201; a non-string password, a NOT NULL or a UNIQUE failure gives 500 with no write |
| AuthController.RegisterStudent | controllers/authController.js:210-268 | errors give 400; a taken username gives 400 "Username already exists"; a taken truthy student id gives 400 "Student ID already exists"; with no errors, a free username, a string password and name and a student id (given, or generated) that is not taken, the answer is 201; a 201 appends one student with the given or a generated student id and the defaults 'General Studies', 'A' and '1st' |
| AuthController.RegisterAdmin | controllers/authController.js:271-316 | errors give 400; a taken username gives 400; with no errors, a free username and a string password and name, the answer is 201; a 201 appends one admin without a student id, with the defaults 'Administration', 'Admin' and semester 'N/A' |
| AuthProps.FindUserUnique | deepak/models/database.js:78-94 | in a well-formed users table the lookup by id finds the row with that id |
| AuthProps.FindUsernameUnique | deepak/models/database.js:78-94 | in a well-formed users table the lookup by username finds the row with that username |
| AuthProps.LoginDecidesOnPassword | controllers/authController.js:17-27 | for an existing username, login succeeds exactly when the password matches the stored hash, and otherwise answers 401 "Invalid credentials" |
| AuthProps.LoginThenAuthenticate | controllers/authController.js:28-42 | the token a login hands out authenticates, as its user, any request within the next 24 hours while its signature verifies |
| AuthProps.LoginSessionEnds | controllers/authController.js:35-42 | a login's session stops authenticating 24 hours after the login when no other session holds the same token |
| AuthProps.LogoutRevokes | controllers/authController.js:61-70 | after logout the presented token is refused on every later request |
| AuthProps.ChangePasswordRevokes | controllers/authController.js:196-200 | after a password change, a token whose sessions all belonged to the caller is refused |
| AuthProps.NewPasswordLogsIn | controllers/authController.js:193-200 | after a password change the new password logs in, and the old one no longer does when it does not match the new hash |
| AuthProps.RegisteredStudentLogsIn | controllers/authController.js:210-255 | a student who has just registered logs in with the same username and password |
| AuthProps.AppendKeepsUsersWellFormed | deepak/models/database.js:78-94 | a row with the next id, a new username and a new student id keeps the ids, usernames and student ids unique |
| AuthProps.RegisterStudentKeepsUsersWellFormed | controllers/authController.js:210-268 | student registration keeps the users table well formed |
| AuthProps.RegisterAdminKeepsUsersWellFormed | controllers/authController.js:271-316 | admin registration keeps the users table well formed |
| AuthProps.UpdateProfileKeepsCredentials | controllers/authController.js:100-168 | a profile update keeps every row's id, username, hash, role and student id, and the sessions and tasks |
| AuthProps.UpdateProfileKeepsUsersWellFormed | controllers/authController.js:100-168 | a profile update keeps the users table well formed |
| AuthProps.ChangePasswordKeepsUsersWellFormed | controllers/authController.js:171-207 | a password change keeps the users table well formed |
| AuthProps.ProfileFieldsWritten | controllers/authController.js:117-158 | after a successful update each qualifying field holds its trimmed value and every other field keeps its old value |
| Validation.NotInPast | deepak/middleware/validation.js:86-94 | the custom due-date check fails exactly when `new Date(value)` is a valid date on a local day before today; an Invalid Date passes |
| Validation.Passes | deepak/middleware/validation.js:4-202 | one check on a field value: `notEmpty`, `isLength`, `matches`, `isISO8601`, `isInt`, `isIn` on the value's text, the due-date check on the value itself, and the password confirmation by strict equality |
| Validation.ChainErrors | deepak/middleware/validation.js:153-169 | a `body(field)` chain reports nothing when its optionality skips the value, and otherwise the failures of its checks in order |
| Validation.Errors | controllers/authController.js:10-13 | `validationResult(req).array()` is the failures of the route's chains, chain by chain, in order |
| Validation.FirstLine | deepak/middleware/validation.js:141 | the part of a password that `.*` can scan: the longest prefix without a line terminator |
| Validation.RuleErrors | deepak/middleware/validation.js:4-15 | a chain reports one failure per failing rule, and reports nothing exactly when every rule passes |
| Validation.RuleErrorsReport | deepak/middleware/validation.js:4-15 | every failing rule is reported with its own message |
| Validation.RuleErrorsPaths | deepak/middleware/validation.js:4-15 | every reported failure names the chain's field |
| Validation.ChainPassesIff | deepak/middleware/validation.js:18-51 | a chain passes exactly when it is skipped by its optionality or all of its rules pass |
| ValidationProps.ErrorsEmptyEach | deepak/middleware/validation.js:4-15 | a rule array accepts exactly when each of its chains does; failures are collected, not short-circuited |
| ValidationProps.ErrorsConcat | deepak/middleware/validation.js:122-169 | the failures of two rule arrays run one after the other are the failures of the first, then those of the second |
| ValidationProps.ReportedIn | deepak/middleware/validation.js:4-15 | a failure of one chain is a failure of the array |
| ValidationProps.LoginUsernameAccepts | deepak/middleware/validation.js:5-9 | the login username passes exactly when it has 3 to 50 characters |
| ValidationProps.LoginPasswordAccepts | deepak/middleware/validation.js:10-14 | the login password passes exactly when it has at least 6 characters |
| ValidationProps.LoginAccepts | deepak/middleware/validation.js:4-15 | `validateLogin` accepts exactly a username of 3 to 50 characters and a password of at least 6 |
| ValidationProps.LoginMissingUsernameReportsBoth | deepak/middleware/validation.js:5-9 | a missing username is reported both as required and as too short |
| ValidationProps.CurrentPasswordAccepts | deepak/middleware/validation.js:55-57 | the current password passes exactly when it is not empty |
| ValidationProps.NewPasswordAccepts | deepak/middleware/validation.js:58-62 | the new password passes exactly when it has at least 6 characters and is complex |
| ValidationProps.PasswordChangeAccepts | deepak/middleware/validation.js:54-63 | `validatePasswordChange` accepts exactly a non-empty current password and a valid new one |
| ValidationProps.ProfileNameAccepts | deepak/middleware/validation.js:19-24 | a falsy name is skipped; otherwise the name needs 2 to 100 characters and only letters and white space |
| ValidationProps.ProfileDepartmentAccepts | deepak/middleware/validation.js:25-28 | a falsy department is skipped; otherwise it needs 2 to 100 characters |
| ValidationProps.ProfileDivisionAccepts | deepak/middleware/validation.js:29-32 | a falsy division is skipped; otherwise it needs 1 to 10 characters |
| ValidationProps.ProfileSemesterAccepts | deepak/middleware/validation.js:33-36 | a falsy semester is skipped; otherwise it needs 1 to 10 characters |
| ValidationProps.ProfileEmergencyNameAccepts | deepak/middleware/validation.js:37-42 | a falsy contact name is skipped; otherwise it needs 2 to 100 letters and white space |
| ValidationProps.ProfileEmergencyRelationshipAccepts | deepak/middleware/validation.js:43-46 | a falsy relationship is skipped; otherwise it needs 2 to 50 characters |
| ValidationProps.ProfileEmergencyPhoneAccepts | deepak/middleware/validation.js:47-50 | a falsy phone is skipped; otherwise it must be an optional '+', a digit 1 to 9 and at most fifteen more digits |
| ValidationProps.ProfileUpdateAccepts | deepak/middleware/validation.js:18-51 | `validateProfileUpdate` accepts exactly when every truthy field meets its rule |
| ValidationProps.StudentNameAccepts | deepak/middleware/validation.js:123-129 | the student's name passes exactly when it is non-empty, 2 to 100 characters, letters and white space |
| ValidationProps.AdminNameAccepts | deepak/middleware/validation.js:173-179 | the admin's name passes under the same condition |
| ValidationProps.RegistrationUsernameAccepts | deepak/middleware/validation.js:130-136 | a registration username passes exactly when it has 3 to 50 letters, digits and underscores |
| ValidationProps.RegistrationPasswordAccepts | deepak/middleware/validation.js:137-143 | a registration password passes exactly when it has at least 6 characters and is complex |
| ValidationProps.ConfirmPasswordAccepts | deepak/middleware/validation.js:144-152 | the confirmation passes exactly when it is non-empty and the very same value as the password |
| ValidationProps.RegistrationStudentIdAccepts | deepak/middleware/validation.js:153-156 | an absent student id is skipped; a present one, even '', needs 5 to 20 characters |
| ValidationProps.RegistrationDepartmentAccepts | deepak/middleware/validation.js:157-160 | an absent department is skipped; a present one needs 2 to 100 characters |
| ValidationProps.RegistrationDivisionAccepts | deepak/middleware/validation.js:161-164 | an absent division is skipped; a present one needs 1 to 10 characters |
| ValidationProps.RegistrationSemesterAccepts | deepak/middleware/validation.js:165-168 | an absent semester is skipped; a present one needs 1 to 10 characters |
| ValidationProps.StudentCredentialsAccept | deepak/middleware/validation.js:123-152 | the name, username, password and confirmation chains accept exactly when those four conditions hold |
| ValidationProps.StudentPlacementAccepts | deepak/middleware/validation.js:153-169 | the student id, department, division and semester chains accept exactly when each is absent or of its length |
| ValidationProps.StudentRegistrationAccepts | deepak/middleware/validation.js:122-169 | `validateStudentRegistration` accepts exactly when all eight field conditions hold |
| ValidationProps.AdminRegistrationAccepts | deepak/middleware/validation.js:172-202 | `validateAdminRegistration` accepts exactly when its five field conditions hold |
| ValidationProps.MismatchedConfirmationReported | deepak/middleware/validation.js:147-151 | a confirmation that is not the identical value is reported as "Passwords do not match" |
| ValidationProps.EmptyOptionalFieldsDiffer | deepak/middleware/validation.js:25-28 | an empty department is skipped by the profile rules but fails the registration rules |
| ValidationProps.EmptyStudentIdRejected | deepak/middleware/validation.js:153-156 | `student_id: ''` is not skipped and fails its length rule |
| ValidationProps.TaskSubjectAccepts | deepak/middleware/validation.js:67-71 | a subject passes exactly when it has 2 to 50 characters |
| ValidationProps.TaskTitleAccepts | deepak/middleware/validation.js:72-76 | a title passes exactly when it has 5 to 200 characters |
| ValidationProps.TaskDescriptionAccepts | deepak/middleware/validation.js:77-81 | a description passes exactly when it has 10 to 1000 characters |
| ValidationProps.TaskDueDateAccepts | deepak/middleware/validation.js:82-95 | a due date passes exactly when its text is non-empty and ISO 8601, and `new Date` of the body value itself is not on a local day before today |
| ValidationProps.TaskAssigneeAccepts | deepak/middleware/validation.js:96-99 | an absent assignee is skipped; a present one must be an integer of at least 1 |
| ValidationProps.TaskStatusAccepts | deepak/middleware/validation.js:100-103 | an absent status is skipped; a present one must be one of the three statuses |
| ValidationProps.TaskAccepts | deepak/middleware/validation.js:66-107 | `validateHomework` and `validateAssignment` accept exactly when all six field conditions hold |
| ValidationProps.PastDueDateReported | deepak/middleware/validation.js:87-94 | a due date on a day before today is reported as "Due date cannot be in the past" |
| ValidationProps.AcceptedAssigneeIsPositiveKey | deepak/middleware/validation.js:96-99 | an accepted, present assignee binds to an integer key of at least 1 |
| ValidationProps.ComplexPasswordHasClasses | deepak/middleware/validation.js:141 | a complex password has a lowercase letter, an uppercase letter and a digit |
| ValidationProps.ComplexPasswordOnOneLine | deepak/middleware/validation.js:141 | on a single line the look-aheads ask for exactly those three classes |
| ValidationProps.ComplexPasswordStopsAtLineBreak | deepak/middleware/validation.js:141 | a lowercase letter that comes only after a line break does not count |
| ValidationProps.DecimalIsPhone | deepak/middleware/validation.js:47-50 | every positive numeral of at most sixteen digits is a phone number, with or without a leading '+' |
| ValidationProps.PhoneRejections | deepak/middleware/validation.js:47-50 | a leading zero, seventeen digits and a bare '+' are rejected |
| SessionExpiry.ThreeDigits | controllers/authController.js:41 | the milliseconds of an ISO timestamp are three digits |
| SessionExpiry.PaddedOrdered | deepak/middleware/auth.js:17 | zero-padded numerals of one width sort as text in the order of the numbers they write, as the `YYYY-MM-DD` dates do |
| SessionExpiry.CalendarExists | deepak/middleware/auth.js:17 | a calendar that writes the days 1970-01-01 through 9999-12-31 as ten-character texts sorting by day exists |
| SessionExpiry.LiveAsWritten | deepak/middleware/auth.js:17 | the expiry test as the query writes it: the text of `datetime("now")` sorts below the stored `toISOString()` text |
| SessionExpiry.LiveAsWrittenComparesDays | deepak/middleware/auth.js:17 | the expiry test as written accepts exactly when the expiry's UTC day is on or after the current UTC day |
| SessionExpiry.StaleSessionAccepted | deepak/middleware/auth.js:17 | a session written at UTC midnight is still accepted almost 24 hours after its expiry |
| SessionExpiry.IntendedWithinAsWritten | deepak/middleware/auth.js:17 | everything the intended test accepts, the test as written accepts too |
| TaskOrder.InOrder | deepak/controllers/homeworkController.js:15 | `ORDER BY due_date ASC, created_at DESC`: an earlier due date as text comes first, and on equal due dates the later creation |
| TaskOrder.InOrderTotal | deepak/controllers/homeworkController.js:15 | of any two rows, one may be listed before the other |
| TaskOrder.InOrderTransitive | deepak/controllers/homeworkController.js:15 | the listing order is transitive |
| TaskOrder.SortTasks | deepak/controllers/homeworkController.js:15 | the listed rows are exactly the selected ones, as a multiset, in due-date order with newer rows first on equal dates |
| TaskService.VisibleTo | deepak/controllers/homeworkController.js:23 | a student may see a task assigned to them or to nobody |
| TaskService.IdKey | deepak/controllers/homeworkController.js:121 | a route `:id` selects a row by the integer its text spells, and selects none when it spells no integer |
| TaskService.ReadableRows | deepak/controllers/homeworkController.js:9-26 | a row is selected exactly when the caller is an admin, or it is assigned to the caller, or it is global; an admin gets every row |
| TaskService.ListTasks | deepak/controllers/homeworkController.js:5-33 | the list answers 200 under the kind's key with exactly the caller's readable rows, sorted |
| TaskService.FindTask | deepak/controllers/homeworkController.js:38-53 | the lookup returns a row with the key that the viewer may read, and returns none exactly when no such row exists |
| TaskService.GetTask | deepak/controllers/homeworkController.js:36-64 | 404 "Homework not found" or "Assignment not found" exactly when no row with the id is readable by the caller; otherwise 200 with that row |
| TaskService.InsertTask | deepak/controllers/homeworkController.js:87-102 | the insert answers 201 exactly when the fields are non-null and the creator exists; it appends a Pending row with the next id, the creator and the assignee; otherwise 500 with no write |
| TaskService.CreateTask | deepak/controllers/homeworkController.js:67-107 | errors give 400; a given assignee that is not a student gives 400 "Invalid student ID for assignment"; a 201 comes exactly when there are no errors, the assignee is absent, null or a student's key, the four text columns bind and the creator's row exists; nothing but a 201 writes, and a 201 appends one row, global when no assignee is given |
| TaskService.Merge | deepak/controllers/homeworkController.js:144-147 | `field \|\| stored`: a truthy value replaces the stored text and a falsy one keeps it |
| TaskService.MergeStatus | deepak/controllers/homeworkController.js:148 | a falsy status keeps the stored one; a truthy one must pass the CHECK constraint |
| TaskService.MergeAssignee | deepak/controllers/homeworkController.js:149 | an undefined assignee keeps the stored one and null clears it; any other value must bind to an existing user id |
| TaskService.ReplaceRows | deepak/controllers/homeworkController.js:138-151 | `UPDATE ... WHERE id = ?` replaces exactly the rows with that id |
| TaskService.UpdateTask | deepak/controllers/homeworkController.js:110-170 | errors give 400; a missing id gives 404; a student gets 403 "Only administrators can update ..."; a rejected assignee gives 400; a failed constraint gives 500; only a 200 writes, and then every field is merged and `updated_at` is refreshed |
| TaskService.DeleteTask | deepak/controllers/homeworkController.js:173-189 | 404 exactly when no row has the id; otherwise 200 "... deleted successfully" and the rows with that id removed |
| TaskProps.ListShowsReadable | deepak/controllers/homeworkController.js:9-26 | a student's list holds exactly the tasks assigned to them and the global ones; an admin's list holds every task |
| TaskProps.SameIdSameRow | deepak/models/database.js:97-110 | the primary key is unique: two rows with the same id are the same row |
| TaskProps.IdKeyOfDecimal | deepak/controllers/homeworkController.js:38-53 | the decimal text of an id, as a route parameter, selects that id |
| TaskProps.ListedRowFound | deepak/controllers/homeworkController.js:36-64 | reading a listed row by its id returns that row |
| TaskProps.FoundRowListed | deepak/controllers/homeworkController.js:5-64 | a row read by its id is in the caller's list |
| TaskProps.CreateKeepsInvariants | deepak/controllers/homeworkController.js:67-107 | a create keeps the ids unique and below the counter, and assigns only students |
| TaskProps.CreateThenGet | deepak/controllers/homeworkController.js:87-102 | an admin reads a created row back by its new id |
| TaskProps.FalsyAssigneeNamesNoUser | deepak/controllers/homeworkController.js:131-149 | a falsy assignee other than undefined and null names no user, so the foreign key refuses it |
| TaskProps.MergedAssigneeIsStudent | deepak/controllers/homeworkController.js:131-149 | the assignee an accepted update writes is a student or none |
| TaskProps.ReplaceKeepsInvariants | deepak/controllers/homeworkController.js:138-151 | replacing the rows of an existing id with a row of that id keeps the table well formed |
| TaskProps.UpdateKeepsInvariants | deepak/controllers/homeworkController.js:110-170 | an update keeps the ids, the counter and the row count, assigns only students, and leaves the rows of other ids alone |
| TaskProps.FindReplaced | deepak/controllers/homeworkController.js:155-160 | after the replacement the lookup by that id finds the new row |
| TaskProps.UpdateThenGet | deepak/controllers/homeworkController.js:155-165 | an admin reads an updated row back as the update returned it |
| TaskService.RemoveRows | deepak/controllers/homeworkController.js:182 | `DELETE ... WHERE id = ?` never adds rows; which rows it keeps is `TaskProps.RemoveRowsMembers` |
| TaskProps.RemoveRowsMembers | deepak/controllers/homeworkController.js:182 | `DELETE ... WHERE id = ?` keeps exactly the rows with another id |
| TaskProps.RemoveConcat | deepak/controllers/homeworkController.js:182 | the delete works row by row: on two row sequences one after the other it is the two deletes one after the other |
| TaskProps.RemoveUnique | deepak/controllers/homeworkController.js:182 | with a unique match the delete cuts out exactly that row |
| TaskProps.RemoveNone | deepak/controllers/homeworkController.js:182 | a delete that matches nothing changes nothing |
| TaskProps.OnlyRowWithId | deepak/models/database.js:97-110 | a row of a well-formed table is the only one with its id |
| TaskProps.CutKeepsInvariants | deepak/controllers/homeworkController.js:182 | cutting one row out keeps the table well formed |
| TaskProps.DeleteRemovesOne | deepak/controllers/homeworkController.js:173-189 | a successful delete removes exactly one row, the one with the id, and keeps the invariants |
| TaskProps.DeleteThenGet | deepak/controllers/homeworkController.js:173-189 | after a delete the id reads as missing for every caller |
| TaskProps.ReadKindsAgree | controllers/assignmentController.js:5-64 | homework and assignments list and read alike |
| TaskProps.CreateKindsAgree | controllers/assignmentController.js:67-107 | homework and assignments create alike |
| TaskProps.UpdateKindsAgree | controllers/assignmentController.js:110-170 | homework and assignments update alike |
| TaskProps.DeleteKindsAgree | controllers/assignmentController.js:173-189 | homework and assignments delete alike |
| Routes.Resolve | server.js:65-67 | a path below `/api` goes to the auth router under `auth`, to a task router under `homework` or `assignments`, and to no route otherwise |
| Routes.AuthRoute | routes/auth.js:8-18 | the seven routes of the auth router: login and student registration public, the other five behind `authenticateToken`, and admin registration also behind `authorizeAdmin` |
| Routes.TaskRoute | routes/homework.js:8-17 | the task router: `GET /` and `GET /:id` for every user, `POST /` admin-only with the task rules, `PUT /:id` and `DELETE /:id` admin-only, and every other path of the router authenticated first |
| Routes.WithTaskTable | server.js:65-67 | writing one task table leaves the users, the sessions and the other task table alone |
| Routes.Run | server.js:65-90 | a path no router matches gets 404 "API endpoint not found"; a public route runs its validators and then its handler |
| RoutesProps.RejectedRequestWritesNothing | routes/homework.js:8 | a request that `authenticateToken` refuses gets that refusal and writes nothing; without a token it is 401 |
| RoutesProps.TaskPathsAuthenticated | routes/homework.js:8 | every path below the task routers needs a token, even one that no route matches |
| RoutesProps.PublicIgnoresHeader | routes/auth.js:8-9 | login and student registration answer alike whatever the `Authorization` header |
| RoutesProps.TaskRouteOf | server.js:66-67 | the first path segment picks the homework or the assignments router |
| RoutesProps.StudentsCannotWriteTasks | routes/homework.js:13-17 | an authenticated student's POST, PUT or DELETE on a task path writes nothing and gets 403 "Insufficient permissions" or 404 |
| RoutesProps.TaskWritesAdminOnly | routes/homework.js:13-17 | a task router answers POST, PUT and DELETE either behind `authorizeAdmin` or with no route |
| RoutesProps.AdminGateRefusesStudents | deepak/middleware/auth.js:37-47 | on an admin-only route a student gets 403 "Insufficient permissions" and nothing is written |
| RoutesProps.UnknownPathAfterToken | server.js:88-90 | an unmatched path inside a task router gets, once the token is accepted, 404 "API endpoint not found" |
| RoutesProps.ProtectedRunsHandler | routes/auth.js:12-18 | past `authenticateToken` and the role gate, a protected route runs its handler with its validators' findings |
| RoutesProps.UpdateRouteResolves | routes/homework.js:13 | `PUT /:id` resolves to the admin-only update with no validators |
| RoutesProps.UpdateRouteUnvalidated | routes/homework.js:13 | an admin's PUT runs the update handler with no validation errors |
| RoutesProps.RunUpdateHandler | routes/homework.js:13 | the update handler is the task service's update on the kind's table |
| RoutesProps.NoRulesNoErrors | routes/homework.js:13 | a route without rules reports no validation errors |
| RoutesProps.RegisterAdminRoute | routes/auth.js:18 | `POST /auth/register-admin` is authenticated, admin-only and validated by the admin registration rules |
| RoutesProps.RegisterAdminGatesFirst | routes/auth.js:18 | a student's `register-admin` gets 403 before any validation, and writes nothing |
| RoutesProps.AccountHandlersKeepTasks | routes/auth.js:12-18 | the account handlers leave both task tables alone |
| RoutesProps.TaskWritesGated | routes/homework.js:13-17 | every route to a task-writing handler is behind `authorizeAdmin` |
| RoutesProps.ReadersKeepTasks | routes/homework.js:11-12 | the list and read handlers write nothing |
| RoutesProps.UnhandledKeepsDb | server.js:88-90 | a request that reaches no handler writes nothing |
| RoutesProps.PublicHandlersKeepTasks | controllers/authController.js:7-268 | login and student registration leave both task tables alone |
| RoutesProps.PublicKeepsTasks | routes/auth.js:8-9 | the public routes leave both task tables alone |
| RoutesProps.OnlyAdminsWriteTasks | routes/homework.js:8-17 | a request that changes a task table was made by an authenticated admin |
| RoutesProps.AssigneesCarry | deepak/models/database.js:78-110 | tasks that assign students stay valid while every student stays a student |
| RoutesProps.SameRolesKeepStudents | deepak/models/database.js:78-94 | rows that keep their ids and roles, or rows appended after them, keep every student a student |
| RoutesProps.AccountStepKeepsWellFormed | deepak/models/database.js:78-136 | an account step that keeps the tasks, the users invariant and the existing ids and roles keeps the whole database well formed |
| RoutesProps.PublicKeepsWellFormed | routes/auth.js:8-9 | login and student registration keep the database well formed |
| RoutesProps.LogoutKeepsWellFormed | controllers/authController.js:61-76 | logout keeps the database well formed |
| RoutesProps.UpdateProfileKeepsWellFormed | controllers/authController.js:100-168 | a profile update keeps the database well formed |
| RoutesProps.ChangePasswordKeepsWellFormed | controllers/authController.js:171-207 | a password change keeps the database well formed |
| RoutesProps.RegisterAdminKeepsWellFormed | controllers/authController.js:271-316 | admin registration keeps the database well formed |
| RoutesProps.AccountKeepsWellFormed | routes/auth.js:12-18 | the protected account handlers keep the database well formed |
| RoutesProps.TaskKeepsWellFormed | routes/homework.js:11-17 | the task handlers keep the database well formed |
| RoutesProps.RunKeepsWellFormed | server.js:65-90 | no request breaks the invariants: unique ids, usernames and student ids, task ids below their counters, and every assignee a student |

## Left out

- JSON booleans, objects, arrays and non-integer numbers in request bodies are not modelled. Numbers in exponent notation are not modelled either.
- Only the coercions the handlers rely on are modelled: TEXT binding, and INTEGER binding of signed decimal numerals. The NUMERIC affinity of `due_date`, which would store a numeric text as a number, is not modelled.
- JsText.SqlIntKey: treats as matching no key the texts that SQLite's INTEGER affinity still turns into an integer: a numeral with a decimal point or an exponent that has an integer value ("5.0", "5e0", "+5.00") and a numeral with leading or trailing spaces. SQLite reads those as 5, so `GET /api/homework/5.0` finds row 5 and `assigned_to: "5.0"` names user 5; the model answers 404 and 400 "Invalid student ID for assignment" there. Real-number parsing is not modelled.
- validator's `isLength` counts code points less the variation selectors U+FE0E and U+FE0F; the model counts every code point, so "ab\uFE0F" has length 2 there and 3 here. `isISO8601` and `new Date(...)` are the `Dates` parameter.
- The `avatar_url` column and the `assigned_to_name`/`assigned_to_username` columns of the LEFT JOIN are not modelled. They are derived display data.
- Catch blocks that only log and answer 500 are modelled where the model can name the fault. Faults of the database driver itself are not modelled. Neither is the global error handler of `server.js`.
- The rest of `server.js` is not modelled: helmet, rate limiting, CORS, static files, HTML pages and the health check. They are outside the modelled core.
- A `HEAD` request is routed like `GET` and runs the same middleware and handler; the model keeps the response body that Express drops for `HEAD`.
- Express's case-insensitive path matching and trailing slashes are not modelled. A path is a sequence of exact segments.
- `validateHomeworkStatusUpdate` is not modelled. No route uses it.
- Out of scope: the browser client `js/api.js`, the seed script `initDatabase.js`, and the scripts `test_api.js` and `start_and_test.js`.
- `setHours(getHours() + 24)` is modelled as exactly 24 hours later. Daylight saving shifts are not modelled.
- bcrypt's salt is folded into the `hash` parameter.
- The two readings of `Date.now()` in one request are modelled as one clock reading.
- The expiry embedded in the JWT is decided inside the `verify` parameter.
- SessionExpiry.LiveAsWrittenComparesDays: holds for the days 1970-01-01 through 9999-12-31 (`SessionExpiry.Days`), the days whose `YYYY-MM-DD` text is ten characters wide; later days are not modelled.
- AuthMiddleware.Authenticate: uses the corrected session expiry test, `expires_at` after the current moment. The code compares texts; see "## Findings" and `SessionExpiry`.
- TaskOrder.SortTasks: rows equal on both sort keys may come in any order. SQLite leaves that order unspecified, so the contract is a sorted permutation and not one fixed sequence.

## Findings

| source | as written | input that shows it | evidently intended | confidence | as-written member | corrected member |
|---|---|---|---|---|---|---|
| deepak/middleware/auth.js:17 | `expires_at > datetime("now")` compares the stored `toISOString()` text, `YYYY-MM-DDTHH:MM:SS.sssZ`, with SQLite's `YYYY-MM-DD HH:MM:SS`. On the same day 'T' sorts above ' ', so only the day is compared. | A login at 00:00:00 UTC writes an expiry at 00:00 the next day. A request at 23:59:59 that next day is still accepted, almost 24 hours after the expiry. | A session authenticates only while its expiry lies after the current moment, that is, for 24 hours. | not executed | SessionExpiry.StaleSessionAccepted | AuthProps.LoginSessionEnds |
