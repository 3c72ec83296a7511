/** The user-profile API views: the client address of a request, the
    profile list shown to office staff, and the profile update that can
    enrol a new student in the same unit of work. */
module ProfileViews {
  import opened Common
  import opened StudentModels
  import opened Store
  import opened StudentUtils

  // ---------------------------------------------------------------------------
  // Client address

  /** `s.split(",")[0]`: the text before the first comma, or all of `s`. */
  function FirstSegment(s: string): (r: string)
    ensures ',' !in r
    ensures |r| <= |s| && r == s[..|r|]
    ensures |r| < |s| ==> s[|r|] == ','
  {
    if s == [] || s[0] == ',' then [] else [s[0]] + FirstSegment(s[1..])
  }

  const ForwardedFor: string := "HTTP_X_FORWARDED_FOR"
  const RemoteAddr: string := "REMOTE_ADDR"

  /** `get_client_ip`: the first entry of a non-empty X-Forwarded-For header,
      otherwise REMOTE_ADDR (None when that is absent too). */
  function GetClientIp(meta: map<string, string>): (r: Option<string>)
    ensures ForwardedFor in meta && meta[ForwardedFor] != "" ==>
      var header := meta[ForwardedFor];
      && r.Some?
      && ',' !in r.value
      && |r.value| <= |header|
      && r.value == header[..|r.value|]
      && (|r.value| == |header| || header[|r.value|] == ',')
    ensures (ForwardedFor !in meta || meta[ForwardedFor] == "") ==>
      (r.Some? <==> RemoteAddr in meta) && (r.Some? ==> r.value == meta[RemoteAddr])
  {
    if ForwardedFor in meta && meta[ForwardedFor] != "" then Some(FirstSegment(meta[ForwardedFor]))
    else if RemoteAddr in meta then Some(meta[RemoteAddr])
    else None
  }

  // ---------------------------------------------------------------------------
  // Profile list

  function ExcludeStaff(profiles: map<UserId, Profile>): map<UserId, Profile> {
    map k | k in profiles && !profiles[k].user.isStaff :: profiles[k]
  }

  function ExcludeSuperusers(profiles: map<UserId, Profile>): map<UserId, Profile> {
    map k | k in profiles && !profiles[k].user.isSuperuser :: profiles[k]
  }

  /** `ProfileListAPIView.get_queryset`: the two successive excludes keep
      exactly the profiles whose user is neither staff nor superuser. */
  function ProfileList(profiles: map<UserId, Profile>): (r: map<UserId, Profile>)
    ensures forall k :: k in r <==>
      k in profiles && !profiles[k].user.isStaff && !profiles[k].user.isSuperuser
    ensures forall k :: k in r ==> r[k] == profiles[k]
  {
    ExcludeSuperusers(ExcludeStaff(profiles))
  }

  // ---------------------------------------------------------------------------
  // Request data

  /** A value of the parsed request body. */
  datatype Json = JNull | JBool(b: bool) | JNum(n: int) | JStr(s: string)
                | JList(elems: seq<Json>) | JObj(fields: map<string, Json>)

  /** Python's `bool()` of a parsed value. */
  predicate Truthy(v: Json) {
    match v
    case JNull => false
    case JBool(b) => b
    case JNum(n) => n != 0
    case JStr(s) => s != ""
    case JList(elems) => elems != []
    case JObj(fields) => fields != map[]
  }

  /** `data.get(key, default)`. */
  function Get(data: map<string, Json>, key: string, default: Json): Json {
    if key in data then data[key] else default
  }

  /** `bool(request.data.get("create_student", False))`. */
  predicate CreateRequested(data: map<string, Json>) {
    Truthy(Get(data, "create_student", JBool(false)))
  }

  /** The raw truthiness decides: the string "false" requests a student,
      while an absent flag, an empty string or `false` does not. */
  lemma CreateFlagIsTruthiness()
    ensures CreateRequested(map["create_student" := JStr("false")])
    ensures CreateRequested(map["create_student" := JNum(1)])
    ensures !CreateRequested(map[])
    ensures !CreateRequested(map["create_student" := JStr("")])
    ensures !CreateRequested(map["create_student" := JBool(false)])
  {
  }

  /** `request.data.get("student", {}) or {}`. */
  function StudentPayload(data: map<string, Json>): (v: Json)
    ensures "student" in data && Truthy(data["student"]) ==> v == data["student"]
    ensures !("student" in data && Truthy(data["student"])) ==> v == JObj(map[])
  {
    var v := Get(data, "student", JObj(map[]));
    if Truthy(v) then v else JObj(map[])
  }

  /** How a child field reaches `create_student_account`: a falsy value gets
      the default there (None), a non-empty string is passed on, and any
      other truthy value makes the enrolment raise (`.strip()` or the gender
      membership test fails on it). */
  function ChildField(payload: map<string, Json>, key: string): (r: Result<Option<string>, string>)
    ensures key !in payload ==> r == Ok(None)
    ensures key in payload && !Truthy(payload[key]) ==> r == Ok(None)
    ensures key in payload && payload[key].JStr? && payload[key].s != "" ==> r == Ok(Some(payload[key].s))
    ensures key in payload && Truthy(payload[key]) && !payload[key].JStr? ==> r.Err?
  {
    if key !in payload || !Truthy(payload[key]) then Ok(None)
    else if payload[key].JStr? then Ok(Some(payload[key].s))
    else Err("unsupported value for " + key)
  }

  // ---------------------------------------------------------------------------
  // The sibling flag

  /** After the recompute, every student of the parent has the flag set. The
      view runs it only when the parent has more than one student. */
  lemma SiblingFlagsAfterRecompute(students: map<StudentId, Student>, parent: UserId)
    ensures forall k :: k in ChildrenOf(WithSiblingFlag(students, parent), parent) ==>
      WithSiblingFlag(students, parent)[k].hasSibling
  {
  }

  // ---------------------------------------------------------------------------
  // The update view

  const UpdatedMessage: string := "Profile updated successfully."
  const CreatedMessage: string :=
    "Profile updated and new student created successfully. An email has been sent to your account."

  /** A response of the view. The detail of a 400 is the serializer's or the
      save's error as given; for the other errors it is a placeholder for
      Python's `str(e)`, whose exact wording is not modelled. */
  datatype Response =
    | Success(message: string, data: map<string, string>)  // 200
    | BadRequest(detail: string)                             // 400
    | NotFound                                               // 404 from get_object

  /** `retrieve`: the requesting user's profile, or a 404 when they have none. */
  function Retrieve(profiles: map<UserId, Profile>, requestUser: User): (r: Response)
    ensures r.NotFound? <==> requestUser.id !in profiles
    ensures r.Success? ==> r.data == profiles[requestUser.id].fields
    ensures !r.BadRequest?
  {
    if requestUser.id in profiles then Success("", profiles[requestUser.id].fields) else NotFound
  }

  /** `serializer.save()`: the validated fields are written onto the profile. */
  function Saved(p: Profile, validated: map<string, string>): (q: Profile)
    ensures q.user == p.user
    ensures q.fields.Keys == p.fields.Keys + validated.Keys
    ensures forall f :: f in validated ==> q.fields[f] == validated[f]
    ensures forall f :: f in p.fields && f !in validated ==> q.fields[f] == p.fields[f]
  {
    p.(fields := p.fields + validated)
  }

  /** The student table after the nested enrolment of `s` under `id` and the
      sibling recompute for its parent. */
  function AfterEnrolment(students: map<StudentId, Student>, id: StudentId, s: Student): (r: map<StudentId, Student>)
    ensures r.Keys == students.Keys + {id}
    ensures r[id] == s.(hasSibling := s.hasSibling || |ChildrenOf(students[id := s], s.parent)| > 1)
    ensures |ChildrenOf(students[id := s], s.parent)| > 1 ==>
      forall k :: k in r && r[k].parent == s.parent ==> r[k].hasSibling
    ensures |ChildrenOf(students[id := s], s.parent)| > 1 ==>
      forall k :: k in students && k != id && students[k].parent == s.parent ==>
        r[k] == students[k].(hasSibling := true)
    ensures |ChildrenOf(students[id := s], s.parent)| <= 1 ==> r == students[id := s]
    ensures forall k :: k in r && r[k].parent != s.parent ==> k in students && r[k] == students[k]
    ensures forall k :: k in students && k != id && students[k].parent != s.parent ==> r[k] == students[k]
  {
    var t := students[id := s];
    if |ChildrenOf(t, s.parent)| > 1 then WithSiblingFlag(t, s.parent) else t
  }

  /** The new student's names and gender are those of the payload, after the
      enrolment defaults and normalisation. */
  ghost predicate StudentFieldsFrom(s: Student, payload: map<string, Json>, parent: User) {
    var first := ChildField(payload, "first_name");
    var last := ChildField(payload, "last_name");
    var gender := ChildField(payload, "gender");
    && first.Ok? && last.Ok? && gender.Ok?
    && s.firstName == NormalizeName(EffectiveFirstName(first.value))
    && s.lastName == NormalizeName(EffectiveLastName(last.value, parent))
    && GenderValue(s.gender) == EffectiveGender(gender.value)
  }

  /** The row `create_student_account` writes for `parent` from `payload`:
      the payload's normalised fields, the sibling snapshot taken before the
      insert, the creation defaults, and the admission number the retry loop
      settles on. */
  ghost predicate EnrolledRow(s: Student, payload: map<string, Json>, parent: User,
                              students: map<StudentId, Student>,
                              schoolCode: Option<string>, draws: seq<nat -> Digit>) {
    var outcome := RetryInsert(AdmissionNumbers(students), schoolCode, draws);
    && s.parent == parent.id
    && StudentFieldsFrom(s, payload, parent)
    && s.hasSibling == (ChildrenOf(students, parent.id) != {})
    && HasCreationDefaults(s)
    && outcome.Ok? && s.admissionNumber == outcome.value
  }

  /** Whether the `if create_student:` branch succeeds for `payload`: it is an
      object, every child field is absent, falsy or a string, the effective
      gender is a valid choice, and the retry loop finds a free admission
      number. */
  predicate PayloadEnrols(payload: Json, students: map<StudentId, Student>,
                          schoolCode: Option<string>, draws: seq<nat -> Digit>) {
    && payload.JObj?
    && ChildField(payload.fields, "first_name").Ok?
    && ChildField(payload.fields, "last_name").Ok?
    && ChildField(payload.fields, "gender").Ok?
    && ParseGender(EffectiveGender(ChildField(payload.fields, "gender").value)).Some?
    && RetryInsert(AdmissionNumbers(students), schoolCode, draws).Ok?
  }

  /** The body of `if create_student:` after the profile save: read the child
      fields from the payload, enrol the student, and recompute the sibling
      flag of the parent's students. On an error nothing of the student table
      or the commit queue has changed. */
  method EnrolFromPayload(db: Database, parent: User, payload: Json,
                          schoolCode: Option<string>, draws: seq<nat -> Digit>)
    returns (r: Result<StudentId, string>)
    requires db.Valid()
    modifies db
    ensures db.Valid()
    ensures db.profiles == old(db.profiles)
    ensures r.Err? ==> db.students == old(db.students) && db.onCommit == old(db.onCommit)
    ensures r.Ok? <==> PayloadEnrols(payload, old(db.students), schoolCode, draws)
    ensures r.Ok? ==>
      && |db.onCommit| == |old(db.onCommit)| + 1
      && var s := db.onCommit[|old(db.onCommit)|].student;
         && db.onCommit == old(db.onCommit) + [AccountCreationEmail(parent, s)]
         && payload.JObj?
         && EnrolledRow(s, payload.fields, parent, old(db.students), schoolCode, draws)
         && r.value !in old(db.students)
         && db.students == AfterEnrolment(old(db.students), r.value, s)
  {
    if !payload.JObj? {
      return Err("student payload is not an object");
    }
    var first := ChildField(payload.fields, "first_name");
    var last := ChildField(payload.fields, "last_name");
    var gender := ChildField(payload.fields, "gender");
    if first.Err? || last.Err? || gender.Err? {
      return Err("invalid student field");
    }
    var created := CreateStudentAccount(db, parent, first.value, last.value, gender.value, schoolCode, draws);
    if created.Err? {
      return Err("student could not be created");
    }
    ghost var s := db.onCommit[|old(db.onCommit)|].student;
    assert db.students == old(db.students)[created.value := s];
    var qs := ChildrenOf(db.students, parent.id);
    if |qs| > 1 {
      db.SetSiblingFlag(parent.id);
    }
    return Ok(created.value);
  }

  /** A nested enrolment for a parent who already had a student leaves every
      student of that parent, the new one included, flagged as having a
      sibling; no other parent's students change. */
  lemma {:induction false} EnrolmentFlagsExistingSiblings(students: map<StudentId, Student>, id: StudentId,
                                                         s: Student, older: StudentId)
    requires id !in students
    requires older in students && students[older].parent == s.parent
    ensures var t := AfterEnrolment(students, id, s);
      && t.Keys == students.Keys + {id}
      && (forall k :: k in t && t[k].parent == s.parent ==> t[k].hasSibling)
      && (forall k :: k in students && students[k].parent != s.parent ==> t[k] == students[k])
  {
    var t := students[id := s];
    assert older in ChildrenOf(t, s.parent) && id in ChildrenOf(t, s.parent);
    SubsetCardinality({older, id}, ChildrenOf(t, s.parent));
  }

  lemma {:induction false} SubsetCardinality<T>(a: set<T>, b: set<T>)
    requires a <= b
    ensures |a| <= |b|
  {
    if a != {} {
      var x :| x in a;
      SubsetCardinality(a - {x}, b - {x});
    }
  }

  /** Whether the atomic block of `update` completes: the profile exists, the
      serializer accepts the data and saves it, and a requested enrolment
      succeeds. */
  predicate UpdateSucceeds(profiles: map<UserId, Profile>, students: map<StudentId, Student>,
                           requestUser: User, data: map<string, Json>,
                           validated: Result<map<string, string>, string>, saveError: Option<string>,
                           schoolCode: Option<string>, draws: seq<nat -> Digit>) {
    && requestUser.id in profiles
    && validated.Ok? && saveError.None?
    && (CreateRequested(data) ==> PayloadEnrols(StudentPayload(data), students, schoolCode, draws))
  }

  /** `ProfileDetailAPIView.update` up to the end of its atomic block. The
      serializer's verdict (`validated`), a failure of `serializer.save()`
      (`saveError`), the configured school code and the digit draws are
      inputs. Everything from the profile save on runs in one atomic block:
      any error inside it restores the profile table, the student table and
      the commit queue, and gives a 400. The response is the one the block
      returns; `AfterCommit` gives what the commit callbacks make of it. */
  method Update(db: Database, requestUser: User, data: map<string, Json>,
                validated: Result<map<string, string>, string>, saveError: Option<string>,
                schoolCode: Option<string>, draws: seq<nat -> Digit>)
    returns (resp: Response)
    requires db.Valid()
    modifies db
    ensures db.Valid()
    ensures resp.NotFound? <==> requestUser.id !in old(db.profiles)
    ensures !resp.Success? ==>
      db.profiles == old(db.profiles) && db.students == old(db.students) && db.onCommit == old(db.onCommit)
    ensures requestUser.id in old(db.profiles) && validated.Err? ==> resp == BadRequest(validated.error)
    ensures requestUser.id in old(db.profiles) && validated.Ok? && saveError.Some? ==> resp == BadRequest(saveError.value)
    ensures resp.Success? <==>
      UpdateSucceeds(old(db.profiles), old(db.students), requestUser, data, validated, saveError, schoolCode, draws)
    ensures resp.Success? ==>
      && requestUser.id in old(db.profiles)
      && validated.Ok? && saveError.None?
      && db.profiles == old(db.profiles)[requestUser.id := Saved(old(db.profiles)[requestUser.id], validated.value)]
      && resp.data == db.profiles[requestUser.id].fields
    ensures resp.Success? && !CreateRequested(data) ==>
      && resp.message == UpdatedMessage
      && db.students == old(db.students)
      && db.onCommit == old(db.onCommit)
    ensures resp.Success? && CreateRequested(data) ==>
      && resp.message == CreatedMessage
      && |db.onCommit| == |old(db.onCommit)| + 1
      && old(db.students).Keys < db.students.Keys
      && exists id: StudentId, s: Student ::
           && id !in old(db.students)
           && s.parent == requestUser.id
           && EnrolledRow(s, StudentPayload(data).fields, old(db.profiles)[requestUser.id].user,
                          old(db.students), schoolCode, draws)
           && db.students == AfterEnrolment(old(db.students), id, s)
           && db.onCommit == old(db.onCommit) + [AccountCreationEmail(old(db.profiles)[requestUser.id].user, s)]
  {
    if requestUser.id !in db.profiles {
      return NotFound;
    }
    var instance := db.profiles[requestUser.id];
    if validated.Err? {
      return BadRequest(validated.error);
    }
    // with transaction.atomic():
    var savedProfiles, savedStudents, savedQueue := db.profiles, db.students, db.onCommit;
    if saveError.Some? {
      return BadRequest(saveError.value);
    }
    var updated := Saved(instance, validated.value);
    db.profiles := db.profiles[requestUser.id := updated];
    var createStudent := CreateRequested(data);
    var payload := StudentPayload(data);
    if !createStudent {
      return Success(UpdatedMessage, updated.fields);
    }
    if !payload.JObj? {
      db.profiles := savedProfiles;
      return BadRequest("student payload is not an object");
    }
    var created := EnrolFromPayload(db, updated.user, payload, schoolCode, draws);
    if created.Err? {
      db.profiles := savedProfiles;
      return BadRequest(created.error);
    }
    ghost var s := db.onCommit[|savedQueue|].student;
    assert db.onCommit == savedQueue + [AccountCreationEmail(updated.user, s)];
    return Success(CreatedMessage, updated.fields);
  }

  /** The response `update` gives once its atomic block has ended. A block
      that failed rolled back, so no callback runs. A block that returned a
      response committed and then ran `hooks`, the callbacks registered
      inside it; one that raises escapes the `with` block after the commit,
      and the `except Exception` clause answers 400 with its message. */
  function AfterCommit(resp: Response, hooks: seq<Notification>, run: Notification -> HookResult): (r: Response)
    ensures !resp.Success? ==> r == resp
    ensures resp.Success? && RunCommitHooks(hooks, run).None? ==> r == resp
    ensures resp.Success? && RunCommitHooks(hooks, run).Some? ==>
      r == BadRequest(RunCommitHooks(hooks, run).value)
  {
    if !resp.Success? then resp
    else
      match RunCommitHooks(hooks, run)
      case None => resp
      case Some(e) => BadRequest(e)
  }

  /** As written, the e-mail callback of an enrolment turns any response the
      block returned into a 400, after the commit. */
  lemma EnrolmentCallbackFailsAsWritten(resp: Response, n: Notification)
    requires resp.Success?
    ensures AfterCommit(resp, [n], AccountEmailHookAsWritten) == BadRequest(AccountEmailHookAsWritten(n).error)
  {
  }

  /** As intended, the callbacks return and the block's response stands. */
  lemma CallbacksKeepResponse(resp: Response, hooks: seq<Notification>)
    ensures AfterCommit(resp, hooks, AccountEmailHook) == resp
  {
  }

  /** With the callback as written, no registered callback leaves the
      response as it is, and any registered callback turns a success into
      a 400. */
  lemma AfterCommitAsWritten(resp: Response, hooks: seq<Notification>)
    ensures hooks == [] ==> AfterCommit(resp, hooks, AccountEmailHookAsWritten) == resp
    ensures resp.Success? && hooks != [] ==> AfterCommit(resp, hooks, AccountEmailHookAsWritten).BadRequest?
  {
    if hooks != [] {
      assert AccountEmailHookAsWritten(hooks[0]).HookRaised?;
    }
  }

  /** `update` with the commit callback as written and the retry loop as
      intended (`RetryInsert`; the loop as written is `RetryInsertAsWritten`).
      An update that enrols a student commits the saved profile and the new
      row, and then answers 400, because the e-mail callback raises after the
      commit. An update without an enrolment registers no callback and is
      unaffected. */
  method UpdateAsWritten(db: Database, requestUser: User, data: map<string, Json>,
                         validated: Result<map<string, string>, string>, saveError: Option<string>,
                         schoolCode: Option<string>, draws: seq<nat -> Digit>)
    returns (resp: Response)
    requires db.Valid()
    modifies db
    ensures db.Valid()
    ensures resp.Success? <==>
      UpdateSucceeds(old(db.profiles), old(db.students), requestUser, data, validated, saveError, schoolCode, draws)
      && !CreateRequested(data)
    ensures UpdateSucceeds(old(db.profiles), old(db.students), requestUser, data, validated, saveError, schoolCode, draws)
            && CreateRequested(data) ==>
      && resp == BadRequest("name 'send_account_creation_email' is not defined")
      && db.profiles == old(db.profiles)[requestUser.id := Saved(old(db.profiles)[requestUser.id], validated.value)]
      && exists id: StudentId, s: Student ::
        && id !in old(db.students)
        && EnrolledRow(s, StudentPayload(data).fields, old(db.profiles)[requestUser.id].user,
                       old(db.students), schoolCode, draws)
        && db.students == AfterEnrolment(old(db.students), id, s)
        && db.onCommit == old(db.onCommit) + [AccountCreationEmail(old(db.profiles)[requestUser.id].user, s)]
    ensures !UpdateSucceeds(old(db.profiles), old(db.students), requestUser, data, validated, saveError, schoolCode, draws) ==>
      db.profiles == old(db.profiles) && db.students == old(db.students) && db.onCommit == old(db.onCommit)
    ensures resp.Success? ==>
      && db.profiles == old(db.profiles)[requestUser.id := Saved(old(db.profiles)[requestUser.id], validated.value)]
      && db.students == old(db.students) && db.onCommit == old(db.onCommit)
  {
    var mark := |db.onCommit|;
    var inner := Update(db, requestUser, data, validated, saveError, schoolCode, draws);
    var registered := db.onCommit[mark..];
    resp := AfterCommit(inner, registered, AccountEmailHookAsWritten);
    AfterCommitAsWritten(inner, registered);
  }

  /** `update` with the commit callback and the retry loop as intended: the
      callbacks return, so the response is the one the atomic block gives. */
  method UpdateCommitted(db: Database, requestUser: User, data: map<string, Json>,
                         validated: Result<map<string, string>, string>, saveError: Option<string>,
                         schoolCode: Option<string>, draws: seq<nat -> Digit>)
    returns (resp: Response)
    requires db.Valid()
    modifies db
    ensures db.Valid()
    ensures resp.Success? <==>
      UpdateSucceeds(old(db.profiles), old(db.students), requestUser, data, validated, saveError, schoolCode, draws)
    ensures !resp.Success? ==>
      db.profiles == old(db.profiles) && db.students == old(db.students) && db.onCommit == old(db.onCommit)
    ensures resp.Success? ==>
      && db.profiles == old(db.profiles)[requestUser.id := Saved(old(db.profiles)[requestUser.id], validated.value)]
      && resp.message == (if CreateRequested(data) then CreatedMessage else UpdatedMessage)
      && resp.data == db.profiles[requestUser.id].fields
    ensures resp.Success? && !CreateRequested(data) ==>
      db.students == old(db.students) && db.onCommit == old(db.onCommit)
    ensures resp.Success? && CreateRequested(data) ==>
      exists id: StudentId, s: Student ::
        && id !in old(db.students)
        && EnrolledRow(s, StudentPayload(data).fields, old(db.profiles)[requestUser.id].user,
                       old(db.students), schoolCode, draws)
        && db.students == AfterEnrolment(old(db.students), id, s)
        && db.onCommit == old(db.onCommit) + [AccountCreationEmail(old(db.profiles)[requestUser.id].user, s)]
  {
    var mark := |db.onCommit|;
    var inner := Update(db, requestUser, data, validated, saveError, schoolCode, draws);
    resp := AfterCommit(inner, db.onCommit[mark..], AccountEmailHook);
  }
}
