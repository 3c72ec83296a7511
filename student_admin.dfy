/** The student admin: which rows an admin user sees and may change, the
    verifier column, the choices offered for the verifier, and the
    verification bookkeeping done when a student is saved. */
module StudentAdmin {
  import opened Common
  import opened StudentModels

  /** The "Verified By" column: the verifier's full name, or "-" when the
      student has no verifier. The foreign key guarantees that a set
      verifier is a known user. */
  function GetVerifiedBy(obj: Student, users: map<UserId, User>): (r: string)
    requires obj.verifiedBy.Some? ==> obj.verifiedBy.value in users
    ensures obj.verifiedBy.None? ==> r == "-"
    ensures obj.verifiedBy.Some? ==> r == users[obj.verifiedBy.value].fullName
  {
    if obj.verifiedBy.Some? then users[obj.verifiedBy.value].fullName else "-"
  }

  /** `get_queryset`: a superuser sees every student, anyone else exactly the
      students they verified. */
  function GetQueryset(actor: User, students: map<StudentId, Student>): (r: map<StudentId, Student>)
    ensures actor.isSuperuser ==> r == students
    ensures !actor.isSuperuser ==> forall k :: k in r <==>
      k in students && students[k].verifiedBy == Some(actor.id)
    ensures forall k :: k in r ==> k in students && r[k] == students[k]
  {
    if actor.isSuperuser then students
    else map k | k in students && students[k].verifiedBy == Some(actor.id) :: students[k]
  }

  /** `has_change_permission`: without an object (the change list) always
      allowed; for a student, allowed to a superuser and to its verifier. */
  predicate HasChangePermission(actor: User, obj: Option<Student>) {
    obj.None? || actor.isSuperuser || obj.value.verifiedBy == Some(actor.id)
  }

  /** The rows an admin user sees are exactly the rows they may change. */
  lemma VisibleIffChangeable(actor: User, students: map<StudentId, Student>, k: StudentId)
    requires k in students
    ensures k in GetQueryset(actor, students) <==> HasChangePermission(actor, Some(students[k]))
  {
  }

  /** `formfield_for_foreignkey`: the verifier can only be chosen among staff
      users. */
  function VerifierChoices(users: map<UserId, User>): (r: set<UserId>)
    ensures forall u :: u in r <==> u in users && users[u].isStaff
  {
    set u | u in users && users[u].isStaff
  }

  /** `obj.pk` as a condition: a primary key of 0 is falsy. */
  predicate PkTruthy(pk: Option<StudentId>) {
    pk.Some? && pk.value != 0
  }

  /** The verifier stored before this save: only looked up for a change of a
      saved object; a row that no longer exists counts as no verifier. */
  function PreviousVerifier(stored: map<StudentId, Student>, pk: Option<StudentId>, change: bool): (r: Option<UserId>)
    ensures r.Some? ==> change && PkTruthy(pk) && pk.value in stored && r == stored[pk.value].verifiedBy
    ensures change && PkTruthy(pk) && pk.value in stored ==> r == stored[pk.value].verifiedBy
  {
    if change && PkTruthy(pk) && pk.value in stored then stored[pk.value].verifiedBy else None
  }

  /** Whether this save stamps the verification date: a verifier is set and
      the object is new or its verifier differs from the stored one. */
  predicate ShouldSetDate(verifier: Option<UserId>, change: bool, previous: Option<UserId>) {
    verifier.Some? && (!change || previous != verifier)
  }

  /** `save_model` before the row is written: the form's object `obj` with
      the verifier defaulted to the acting staff user and the verification
      date stamped with `now` when the verifier is new or changed. */
  function SaveModel(stored: map<StudentId, Student>, actor: User, obj: Student,
                     pk: Option<StudentId>, change: bool, now: Time): (saved: Student)
    ensures saved == obj.(verifiedBy := saved.verifiedBy, verificationDate := saved.verificationDate)
    ensures obj.verifiedBy.None? && actor.isStaff ==> saved.verifiedBy == Some(actor.id)
    ensures obj.verifiedBy.Some? || !actor.isStaff ==> saved.verifiedBy == obj.verifiedBy
    ensures saved.verificationDate == Some(now) || saved.verificationDate == obj.verificationDate
    ensures saved.verificationDate != obj.verificationDate ==>
      ShouldSetDate(saved.verifiedBy, change, PreviousVerifier(stored, pk, change))
    ensures ShouldSetDate(saved.verifiedBy, change, PreviousVerifier(stored, pk, change)) ==>
      saved.verificationDate == Some(now)
  {
    var previous := PreviousVerifier(stored, pk, change);
    var verifier := if obj.verifiedBy.None? && actor.isStaff then Some(actor.id) else obj.verifiedBy;
    var date := if ShouldSetDate(verifier, change, previous) then Some(now) else obj.verificationDate;
    obj.(verifiedBy := verifier, verificationDate := date)
  }

  /** Adding a student with a verifier, given in the form or defaulted to the
      acting staff user, stamps the date. */
  lemma NewVerifiedStudentIsStamped(stored: map<StudentId, Student>, actor: User, obj: Student,
                                    pk: Option<StudentId>, now: Time)
    requires obj.verifiedBy.Some? || actor.isStaff
    ensures SaveModel(stored, actor, obj, pk, false, now).verificationDate == Some(now)
  {
  }

  /** Re-saving a stored student whose verifier is unchanged keeps its
      verification date. */
  lemma UnchangedVerifierKeepsDate(stored: map<StudentId, Student>, actor: User, obj: Student,
                                   pk: Option<StudentId>, now: Time)
    requires PkTruthy(pk) && pk.value in stored
    requires obj.verifiedBy.Some? && stored[pk.value].verifiedBy == obj.verifiedBy
    ensures SaveModel(stored, actor, obj, pk, true, now) == obj
  {
  }

  /** A changed verifier on a stored student stamps the date. */
  lemma ChangedVerifierIsStamped(stored: map<StudentId, Student>, actor: User, obj: Student,
                                 pk: Option<StudentId>, now: Time)
    requires PkTruthy(pk) && pk.value in stored
    requires obj.verifiedBy.Some? && stored[pk.value].verifiedBy != obj.verifiedBy
    ensures SaveModel(stored, actor, obj, pk, true, now).verificationDate == Some(now)
  {
  }

  /** A row that cannot be found again is treated as having had no verifier:
      any verifier on the saved object stamps the date. */
  lemma MissingRowCountsAsUnverified(stored: map<StudentId, Student>, actor: User, obj: Student,
                                     pk: Option<StudentId>, now: Time)
    requires PkTruthy(pk) && pk.value !in stored
    requires obj.verifiedBy.Some? || actor.isStaff
    ensures SaveModel(stored, actor, obj, pk, true, now).verificationDate == Some(now)
  {
  }

  /** Without a verifier, a save by a non-staff user changes nothing. */
  lemma NonStaffWithoutVerifierChangesNothing(stored: map<StudentId, Student>, actor: User, obj: Student,
                                              pk: Option<StudentId>, change: bool, now: Time)
    requires obj.verifiedBy.None? && !actor.isStaff
    ensures SaveModel(stored, actor, obj, pk, change, now) == obj
  {
  }
}
