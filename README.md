# School backend core, modelled in Dafny

This project models the core of a Django REST school backend. There is a
parent, teacher and office-staff user model, and the core covers four areas:

- **Admission numbers.** A number is the school code, then random digits,
  then a Luhn-style check digit.
- **Enrolment.** A parent's student account is created with defaults and a
  sibling flag. Inserts are retried on duplicate admission numbers, and the
  account e-mail is deferred until the unit of work commits.
- **Ledger validation.** Fee, transaction and transaction-item rows follow
  the student app's model rules (`Transaction.clean` and the field
  validators).
- **Profile and admin views.** The profile API views include the update
  that can enrol a child in the same atomic unit. The student admin covers
  row visibility, the change permission and the verification bookkeeping.
  The three role permissions are modelled too.

Modules follow the source files:

| module | file | models |
|---|---|---|
| `Common` | common.dfy | users, `Option`, `Result` |
| `Permissions` | permissions.dfy | `core_apps/common/permissions.py` |
| `StudentModels` | student_models.dfy | `core_apps/student/models.py` |
| `Store` | store.dfy | the student and profile tables and the on-commit queue, as one mutable `Database` object |
| `StudentUtils` | student_utils.dfy | `core_apps/student/utils.py` |
| `ProfileViews` | profile_views.dfy | `core_apps/user_profile/views.py` |
| `StudentAdmin` | student_admin.dfy | `core_apps/student/admin.py` |

Inputs the program takes from its environment are parameters of the model:

- `SCHOOL_CODE` is an `Option<string>`.
- Each call of `secrets.choice` is one value of a digit source `nat -> Digit`.
- `timezone.now()` is a `Time` value.
- The serializer's verdict and a failure of `serializer.save()` are inputs of
  the update view.

Amounts (`DecimalField(decimal_places=2)`) are integer cents.

The check digit is computed the way the code computes it. The Luhn
validation weighting is applied to the partial number: its rightmost digit
is taken as it is, and the digit to its left is doubled. ISO/IEC 7812-1
Annex B generation does the opposite. So the issued number need not pass
standard Luhn validation. `StudentUtils.WorkedExample` proves this for the
partial number 7992739871: the code gives check digit 4, the standard
gives 3. The code's relation `(total + check) % 10 == 0` is the one proved.

Points where the code's behaviour is easy to misread:

- The `items_owner` error is the fixed message "All fee items must belong
  to students of the payer.". It does not list the offending items.
- An invalid gender raises `ValueError` with the sorted allowed values, not
  a validation error.
- A transaction without a payer is not reported in the error map. Reading
  `self.payer` on the unset non-null foreign key raises `DoesNotExist`
  first.
- Only the profile-update path sets `has_sibling` retroactively. Direct
  enrolment only snapshots it for the new row. The model keeps that
  asymmetry.

## Model

| member | source | states |
|---|---|---|
| Permissions.IsParent | core_apps/common/permissions.py:6-14 | defined as: the user is authenticated, has a role, and the role is "parent" |
| Permissions.IsTeacher | core_apps/common/permissions.py:17-21 | defined as: the user is authenticated, has a role, and the role is "teacher" |
| Permissions.IsOfficeStaff | core_apps/common/permissions.py:24-30 | defined as: the user is authenticated, has a role, and the role is "office_staff" |
| Permissions.NoRoleNoPermission | core_apps/common/permissions.py:6-30 | an anonymous user, or one without a role attribute, passes none of the three checks |
| Permissions.PermissionsExclusive | core_apps/common/permissions.py:6-30 | no user passes two of the role checks |
| StudentModels.ParseGender | core_apps/student/models.py:16-19 | a string names a gender choice exactly when it is one of "female", "male", "other", and the choice's stored value is that string |
| StudentModels.FullName | core_apps/student/models.py:72-74 | the full name is the first name, one space, then the last name |
| StudentModels.FeeErrors | core_apps/student/models.py:91-108 | `full_clean` reports an error on "amount" exactly when the amount is negative or exceeds twelve digits, and on "__all__" exactly when another fee row has the same student and fee type |
| StudentModels.FeeSavePreservesValidity | core_apps/student/models.py:91-108 | saving a fee that passes validation keeps (student, fee type) unique and all amounts non-negative |
| StudentModels.NewTransaction | core_apps/student/models.py:124-143 | a new transaction is unsaved, pending, and has amount 0.00 |
| StudentModels.ItemErrors | core_apps/student/models.py:177-203 | `full_clean` reports an error on an item exactly when its amount is below 0.01 or too wide, or when the same (transaction, fee) pair already exists |
| StudentModels.ItemInsertPreservesValidity | core_apps/student/models.py:177-203 | inserting an item that passes validation keeps (transaction, fee) unique and all item amounts at least 0.01 |
| StudentModels.ItemsOf | core_apps/student/models.py:159 | an item is among a transaction's items exactly when it is in the table and belongs to that transaction |
| StudentModels.ItemsOfMultiplicity | core_apps/student/models.py:159 | the filter keeps every item of the transaction as often as the table holds it, and no other item |
| StudentModels.NoRowsNoItems | core_apps/student/models.py:159-160 | a table without rows of the transaction gives it no items, so `items.exists()` is false |
| StudentModels.NewStudent | core_apps/student/utils.py:78-85 | the created row has the given parent, admission number, sibling flag, names and gender, and every other field at its declared default |
| StudentModels.CleanResult | core_apps/student/models.py:148-170 | the error map has each of "payer", "amount", "items", "items_amount", "items_owner" exactly when its rule is violated, each with its message; a missing payer raises instead, an empty map passes, and a non-empty one raises |
| StudentModels.NoItemsReportsBoth | core_apps/student/models.py:158-164 | a saved transaction with no items reports both "items" and "items_amount" (the empty sum is None) |
| StudentModels.UnsavedChecksNoItems | core_apps/student/models.py:158 | an unsaved transaction, or one with primary key 0, is never checked for its items |
| StudentModels.FieldErrors | core_apps/student/models.py:150-156 | "payer" is reported exactly when the payer's role is not "parent", "amount" exactly when an amount is set and not positive, each with its message |
| StudentModels.ItemRuleErrors | core_apps/student/models.py:158-168 | "items" is reported exactly when there are no items, "items_amount" exactly when there are none or their sum differs from the amount, "items_owner" exactly when an item's fee belongs to another parent's student |
| StudentModels.AddItemErrors | core_apps/student/models.py:158-168 | the item checks add exactly the item-rule errors to those already collected |
| StudentModels.ScanItems | core_apps/student/models.py:159-168 | the one pass over the items returns how many belong to the transaction, their total, and whether one of them has a fee of another parent's student |
| StudentModels.Clean | core_apps/student/models.py:148-170 | `clean` computes exactly the outcome `CleanResult` specifies |
| Store.Database.InsertStudent | core_apps/student/models.py:28-30 | an insert fails and changes nothing exactly when the admission number is in use; otherwise it adds the row under a fresh key and keeps the uniqueness of admission numbers |
| Store.Database.SetSiblingFlag | core_apps/user_profile/views.py:116-118 | the parent's students get the flag as `WithSiblingFlag` says; the other tables and the uniqueness of admission numbers are kept |
| Store.Database.OnCommit | core_apps/student/utils.py:92 | the notification is appended to the commit queue and nothing else changes |
| StudentUtils.DigitsOf | core_apps/student/utils.py:31-34 | a digit string becomes the list of its digit values, position by position |
| StudentUtils.DoubledDigitSum | core_apps/student/utils.py:40-41 | the digit sum of a doubled digit is the double below 5 and the double minus nine from 5 on |
| StudentUtils.CheckDigitOf | core_apps/student/utils.py:43 | the check digit brings the weighted total to a multiple of ten |
| StudentUtils.CheckDigitUnique | core_apps/student/utils.py:43 | no other digit brings the weighted total to a multiple of ten |
| StudentUtils.LuhnCheckDigit | core_apps/student/utils.py:30-43 | a check digit exists exactly for all-digit input, and closes the weighted total to a multiple of ten |
| StudentUtils.CalculateLuhnCheckDigit | core_apps/student/utils.py:30-43 | the two loops over the odd and the doubled even places compute exactly `LuhnCheckDigit` |
| StudentUtils.LuhnTotalAppend | core_apps/student/utils.py:35-37 | appending a digit shifts the weighting by one place: the total of the longer number is that digit plus the standard generation total |
| StudentUtils.StandardValidIffStandardCheckDigit | core_apps/student/utils.py:35-43 | a number passes standard Luhn validation exactly when its last digit is the standard check digit of the rest |
| StudentUtils.WorkedExample | core_apps/student/utils.py:30-43 | for 7992739871 the code's check digit is 4, the standard one is 3, and the number the code builds fails standard validation |
| StudentUtils.RandomDigits | core_apps/student/utils.py:21-23 | the random part has the requested length, is all digits, and holds the draws in order |
| StudentUtils.GenerateAdmissionNumber | core_apps/student/utils.py:10-27 | an unset, empty or non-numeric code, or a code too long for the length, fails with its own error; otherwise the number has the requested length, is all digits, starts with the code, continues with the draws, and ends with the check digit of everything before it |
| StudentUtils.TrimLeft | core_apps/student/utils.py:82-83 | the result is a suffix, only whitespace was removed, and it does not start with whitespace |
| StudentUtils.TrimRight | core_apps/student/utils.py:82-83 | the result is a prefix, only whitespace was removed, and it does not end with whitespace |
| StudentUtils.Strip | core_apps/student/utils.py:82-83 | the stripped name neither starts nor ends with whitespace, and is empty exactly when the name was all whitespace |
| StudentUtils.StripIsSlice | core_apps/student/utils.py:82-83 | the stripped name is a contiguous slice of the name with only whitespace before and after it |
| StudentUtils.TitleFromShape | core_apps/student/utils.py:82-83 | each character of the title-cased name: a non-letter is kept, a letter after a letter becomes lower case, any other letter upper case |
| StudentUtils.NormalizeNameTrimmed | core_apps/student/utils.py:82-83 | the normalised name has the stripped name's length, is empty exactly when the name is all whitespace, and neither starts nor ends with whitespace |
| StudentUtils.EffectiveFirstName | core_apps/student/utils.py:59-60 | a non-empty first name is kept; an absent or empty one becomes "Student" |
| StudentUtils.EffectiveLastName | core_apps/student/utils.py:61-62 | a non-empty last name is kept; an absent or empty one becomes the parent's last name, or "Account" when that is empty too |
| StudentUtils.EffectiveGender | core_apps/student/utils.py:63-64 | a non-empty gender is kept; an absent or empty one becomes the value of `Gender.OTHER` |
| StudentUtils.ConfigurationError | core_apps/student/utils.py:10-19 | an unusable school code makes `generate_admission_number(16)` raise the same error whatever digits are drawn |
| StudentUtils.RetryInsert | core_apps/student/utils.py:74-89 | the loop as intended succeeds exactly when some draw gives a valid number not in use, and the number is not in use; an invalid or too long school code fails with its configuration error, even with no draws, since the first attempt always runs; with a valid configuration the only failure is running out of draws |
| StudentUtils.RetryInsertTakesFirstFresh | core_apps/student/utils.py:74-89 | the number the loop settles on is that of the first draw giving an unused number; every earlier draw collided |
| StudentUtils.RetryInsertAsWritten | core_apps/student/utils.py:74-89 | as written, a fresh first draw succeeds with its number and a first draw that collides breaks the transaction; an unusable school code fails with its configuration error; nothing else succeeds |
| StudentUtils.CollisionBreaksRetryAsWritten | core_apps/student/utils.py:74-89 | a first draw that collides and a second that does not: as written the enrolment fails, the intended loop succeeds with the second number |
| StudentUtils.RetryAgreesWithoutCollision | core_apps/student/utils.py:74-89 | without a collision on the first draw, the loop as written and as intended agree |
| StudentUtils.InsertWithRetry | core_apps/student/utils.py:74-89 | the loop inserts exactly one row, with the number `RetryInsert` settles on, or fails and changes nothing |
| StudentUtils.CreateStudentAccount | core_apps/student/utils.py:46-94 | with the retry loop as intended (`RetryInsert`): invalid gender fails before any access; on success exactly one row is added with the parent, the sibling snapshot, the defaulted and normalised names, the gender and the creation defaults, under an unused admission number, and exactly one e-mail is queued for after commit; on failure nothing changes |
| StudentUtils.AccountEmailHookAsWritten | core_apps/student/utils.py:92 | the callback as written raises for every notification, with `NameError`'s detail, since the name it calls is never bound in the module |
| StudentUtils.AccountEmailHook | core_apps/student/utils.py:92 | the callback as intended, `StudentEmails.send_account_creation_email`, never raises |
| ProfileViews.FirstSegment | core_apps/user_profile/views.py:79 | the text before the first comma: a comma-free prefix followed by a comma or the end |
| ProfileViews.GetClientIp | core_apps/user_profile/views.py:76-82 | a non-empty forwarded-for header gives its first entry; otherwise the remote address, or none |
| ProfileViews.ProfileList | core_apps/user_profile/views.py:41-44 | exactly the profiles whose user is neither staff nor superuser, unchanged |
| ProfileViews.Truthy | core_apps/user_profile/views.py:100-101 | defined as Python truthiness on JSON values: null, false, 0, "", [] and {} are falsy |
| ProfileViews.CreateRequested | core_apps/user_profile/views.py:100 | defined as the truthiness of the `create_student` entry, false when it is absent |
| ProfileViews.CreateFlagIsTruthiness | core_apps/user_profile/views.py:100 | the create flag is Python truthiness: the string "false" requests a student, an absent flag, "" or false does not |
| ProfileViews.StudentPayload | core_apps/user_profile/views.py:101 | a present, truthy `student` entry is the payload as it is; an absent or falsy one is replaced by an empty object |
| ProfileViews.ChildField | core_apps/user_profile/views.py:105-107 | an absent or falsy child field is passed as absent, a non-empty string as it is, and any other truthy value makes the enrolment fail |
| Store.WithSiblingFlag | core_apps/user_profile/views.py:116-118 | every student of the parent gets `has_sibling` set and nothing else changes |
| Store.WithSiblingFlagKeepsNumbers | core_apps/user_profile/views.py:118 | the flag update keeps the admission numbers and their uniqueness |
| ProfileViews.AfterEnrolment | core_apps/user_profile/views.py:109-118 | the table gains exactly the new row; when the parent then has more than one student all of them are flagged and the older rows keep every other field, otherwise the table is the insert alone; other parents' rows are unchanged |
| ProfileViews.SiblingFlagsAfterRecompute | core_apps/user_profile/views.py:116-118 | after the recompute for a parent, every one of its students has the flag set; the view runs it when the parent has more than one student |
| ProfileViews.EnrolmentFlagsExistingSiblings | core_apps/user_profile/views.py:109-118 | enrolling a second student of a parent leaves every student of that parent flagged, and other parents' students unchanged |
| ProfileViews.Retrieve | core_apps/user_profile/views.py:84-87 | the user's own profile, or a 404 when there is none |
| ProfileViews.Saved | core_apps/user_profile/views.py:97 | the validated fields overwrite the profile's, and the others are kept |
| ProfileViews.EnrolFromPayload | core_apps/user_profile/views.py:103-118 | the enrolment succeeds exactly when the payload is an object, its child fields are absent, falsy or strings, the effective gender is valid and the retry loop finds an unused number; on success the enrolled student carries the payload's normalised fields, the sibling snapshot, the creation defaults and the number `RetryInsert` settles on, one e-mail is queued, and the table is the enrolment followed by the sibling recompute |
| ProfileViews.Update | core_apps/user_profile/views.py:89-131 | the atomic block, with the retry loop as intended (`RetryInsert`): no profile gives 404; serializer and save errors give 400; the update succeeds exactly when the profile exists, the serializer and the save succeed and, when a student is requested, the enrolment succeeds; any failure restores profiles, students and the commit queue; success saves the profile and, when requested, enrols exactly one student, with the payload's fields, the sibling snapshot, the creation defaults and the number `RetryInsert` settles on, and recomputes the flags, with the matching message |
| Store.RunCommitHooks | core_apps/student/utils.py:92 | the callbacks of a committed block run in order; the result is no error exactly when every callback returns, and otherwise the error of the first callback that raised, every earlier one having returned |
| ProfileViews.AfterCommit | core_apps/user_profile/views.py:96-136 | a failed block's response stands; a committed block's response stands when its callbacks return and becomes a 400 with the error when one raises |
| ProfileViews.AfterCommitAsWritten | core_apps/student/utils.py:92 | with the callback as written, no registered callback leaves the response as it is, and a registered one turns a success into a 400 |
| ProfileViews.EnrolmentCallbackFailsAsWritten | core_apps/student/utils.py:92 | as written, the one e-mail callback of an enrolment turns the 200 into a 400 with the `NameError` |
| ProfileViews.CallbacksKeepResponse | core_apps/student/utils.py:92 | with the callback as intended, the block's response stands |
| ProfileViews.UpdateAsWritten | core_apps/user_profile/views.py:89-136 | with the commit callback as written and the retry loop as intended: the update answers 200 exactly when it succeeds without an enrolment, with the profile saved and the students and queue unchanged; a successful update with an enrolment answers 400 with the `NameError` detail although the saved profile is committed, the table is `AfterEnrolment` of the row `EnrolledRow` describes and its e-mail is queued; a failed block changes nothing |
| ProfileViews.UpdateCommitted | core_apps/user_profile/views.py:89-136 | with the commit callback and the retry loop as intended: the update answers 200 exactly when its block succeeds, carrying the saved profile's fields and the matching message; without an enrolment the students and queue are unchanged, with one the table is `AfterEnrolment` of the row `EnrolledRow` describes and its e-mail is queued; otherwise nothing changes |
| StudentAdmin.GetVerifiedBy | core_apps/student/admin.py:83-84 | the verifier's full name, or "-" without a verifier |
| StudentAdmin.GetQueryset | core_apps/student/admin.py:89-94 | a superuser sees every student, anyone else exactly the students they verified |
| StudentAdmin.HasChangePermission | core_apps/student/admin.py:96-99 | defined as: allowed without an object, and for a student to a superuser and to the student's verifier |
| StudentAdmin.VisibleIffChangeable | core_apps/student/admin.py:89-99 | a student is visible to an admin user exactly when they may change it |
| StudentAdmin.VerifierChoices | core_apps/student/admin.py:101-105 | only staff users can be chosen as verifier |
| StudentAdmin.PreviousVerifier | core_apps/student/admin.py:109-115 | the stored verifier is looked up only for a change of an object with a truthy primary key; a missing row counts as none |
| StudentAdmin.SaveModel | core_apps/student/admin.py:107-127 | only the verifier and the date change; an unset verifier becomes the acting staff user; the date becomes now exactly when a verifier is set and the object is new or its verifier changed, and is kept otherwise |
| StudentAdmin.NewVerifiedStudentIsStamped | core_apps/student/admin.py:117-127 | adding a student with a verifier, given or defaulted, stamps the date |
| StudentAdmin.UnchangedVerifierKeepsDate | core_apps/student/admin.py:122-127 | re-saving with the stored verifier leaves the object, date included, unchanged |
| StudentAdmin.ChangedVerifierIsStamped | core_apps/student/admin.py:122-127 | a changed verifier stamps the date |
| StudentAdmin.MissingRowCountsAsUnverified | core_apps/student/admin.py:110-115 | a row that cannot be found again counts as having had no verifier |
| StudentAdmin.NonStaffWithoutVerifierChangesNothing | core_apps/student/admin.py:117-127 | a non-staff save without a verifier changes nothing |

## Left out

- Randomness: `secrets.choice` is a digit-source parameter. Its uniformity and unpredictability are not modelled.
- Environment and clock: `SCHOOL_CODE` and `timezone.now()` are parameters.
- StudentUtils.RetryInsert: the source loops until a fresh number turns up. The model bounds the loop by the draws it is given, and `CandidatesExhausted` stands for looping for ever. Through the update view that outcome becomes a 400 with the tables restored, where the source keeps looping and never answers.
- StudentModels.FeesValid, StudentModels.ItemsValid: the amount bounds are validators, which Django runs in `full_clean` and serializers but not in a plain `save()` or `objects.create()`. Only the two `unique_together` pairs are database constraints. The amount parts of these invariants hold only for rows written after `full_clean` or a serializer accepted them.
- Concurrency: concurrent requests are not modelled. The retry loop runs against a fixed table, so two enrolments racing for the same admission number, and the isolation of the atomic blocks, are outside the model.
- StudentUtils.IsAsciiDigit: `str.isdigit` and `int()` also accept non-ASCII digits. The model accepts only '0'–'9'.
- StudentUtils.Strip: `str.strip` whitespace is approximated by ASCII whitespace and the separators 28–31.
- StudentUtils.TitleFromShape: `str.title` is modelled on ASCII letters only. Other cased letters are kept as they are.
- The ORM and the database: rows are maps, `atomic` is a snapshot restored on failure, and `on_commit` is a queue of notifications. The e-mail delivery itself is not modelled: a callback either returns or raises.
- Commit callbacks are run at the end of the view's own `transaction.atomic()` block. This is Django's behaviour when `ATOMIC_REQUESTS` is off, its default; the settings are not part of this model.
- Store.Database.InsertStudent: a failed insert consumes no key here, though a database sequence would. As with a sequence, a rollback does not return the keys that were handed out.
- `record_profile_view` in the profile detail view: the content-view upsert is I/O. Its client address is `GetClientIp`.
- Serializers: `ProfileSerializer` is not modelled. Its verdict, its save failure and its output fields are inputs. `partial_update` differs from `update` only in the serializer's partial flag, so it is not modelled separately.
- `CharField` `max_length` limits of the student, transaction and profile fields: database errors are not modelled.
- The admin's final `super().save_model` row write: `StudentAdmin.SaveModel` stops at the object about to be written. The admin's display, filter and search options are not modelled.
- The sibling many-to-many relation, images, time stamps and `__str__` methods: not used by the core logic.
- StudentModels.CleanResult: a payer's role is the user's role field. `User.RoleChoices` is not part of this model. The fee and student foreign keys are non-null and protected or cascading, so an item whose fee or student row is missing cannot arise; the model counts such an item as not foreign.

## Findings

| source | as written | input that shows it | evidently intended | confidence | as-written member | corrected member |
|---|---|---|---|---|---|---|
| core_apps/student/utils.py:74-89 | `Student.objects.create` raises `IntegrityError` inside `transaction.atomic()` without its own savepoint. The insert ran under `mark_for_rollback_on_error`, so the block is marked for rollback, and the next insert attempt raises `TransactionManagementError`, which the loop does not catch | a first generated admission number already in use, then a second one that is free | a collision is discarded and the next number is inserted, as the comment says | medium, not executed | StudentUtils.RetryInsertAsWritten, StudentUtils.CollisionBreaksRetryAsWritten | StudentUtils.RetryInsert |
| core_apps/student/utils.py:92 | The `on_commit` callback calls `send_account_creation_email`, a name the module never binds: it imports the e-mail module only as `StudentEmails`. Django runs the callback after the outermost atomic block commits, so in `update` the `NameError` leaves the `with` block at views.py:96 after the commit, and the `except Exception` at views.py:135-136 answers 400 | a profile update with a truthy `create_student` that enrols a student | `StudentEmails.send_account_creation_email(user, student_account)`, and the 200 with the created message | high, not executed | ProfileViews.UpdateAsWritten, ProfileViews.EnrolmentCallbackFailsAsWritten, StudentUtils.AccountEmailHookAsWritten | ProfileViews.UpdateCommitted, ProfileViews.CallbacksKeepResponse, StudentUtils.AccountEmailHook |
