/** The persistent store the core writes to, as one mutable object: the
    student table (with the unique admission-number constraint and its
    primary-key sequence), the profile table, and the callbacks that the
    current unit of work has registered to run after it commits
    (`transaction.on_commit`). */
module Store {
  import opened Common
  import opened StudentModels

  /** A user profile: its user and the profile fields the serializer writes.
      The fields themselves are not interpreted by the core. */
  datatype Profile = Profile(user: User, fields: map<string, string>)

  /** A deferred side effect: the account-creation e-mail for a student. */
  datatype Notification = AccountCreationEmail(user: User, student: Student)

  /** What running one `on_commit` callback does: it returns, or it raises an
      exception whose `str(e)` is `error`. */
  datatype HookResult = Ran | HookRaised(error: string)

  /** Django running the callbacks of a committed outermost atomic block, in
      the order they were registered, after the commit: the first one that
      raises stops the rest, and its exception leaves the `with` block. The
      committed rows stay committed. */
  function RunCommitHooks(hooks: seq<Notification>, run: Notification -> HookResult): (r: Option<string>)
    ensures r.None? <==> forall i :: 0 <= i < |hooks| ==> run(hooks[i]) == Ran
    ensures r.Some? ==> exists i :: (0 <= i < |hooks| && run(hooks[i]) == HookRaised(r.value)
      && forall j :: 0 <= j < i ==> run(hooks[j]) == Ran)
    decreases |hooks|
  {
    if hooks == [] then None
    else
      match run(hooks[0])
      case Ran =>
        var r := RunCommitHooks(hooks[1..], run);
        assert forall i :: 1 <= i < |hooks| ==> hooks[1..][i - 1] == hooks[i];
        r
      case HookRaised(e) => Some(e)
  }

  /** `Student.objects.filter(parent=p).update(has_sibling=True)`. */
  function WithSiblingFlag(students: map<StudentId, Student>, parent: UserId): (r: map<StudentId, Student>)
    ensures r.Keys == students.Keys
    ensures forall k :: k in students && students[k].parent == parent ==>
      r[k] == students[k].(hasSibling := true)
    ensures forall k :: k in students && students[k].parent != parent ==> r[k] == students[k]
  {
    map k | k in students :: if students[k].parent == parent then students[k].(hasSibling := true) else students[k]
  }

  /** The flag update only touches `has_sibling`, so the admission numbers,
      and with them their uniqueness, are those of the table before. */
  lemma {:induction false} WithSiblingFlagKeepsNumbers(students: map<StudentId, Student>, parent: UserId)
    ensures AdmissionNumbers(WithSiblingFlag(students, parent)) == AdmissionNumbers(students)
    ensures UniqueAdmissionNumbers(students) ==> UniqueAdmissionNumbers(WithSiblingFlag(students, parent))
  {
    var r := WithSiblingFlag(students, parent);
    assert forall k :: k in r ==> r[k].admissionNumber == students[k].admissionNumber;
    forall n | n in AdmissionNumbers(students) ensures n in AdmissionNumbers(r) {
      var k :| k in students && students[k].admissionNumber == n;
      assert r[k].admissionNumber == n;
    }
  }

  /** Each profile is stored under its own user's id
      (`Profile.objects.get(user=...)` finds the profile of that user). */
  ghost predicate ProfilesKeyedByUser(profiles: map<UserId, Profile>) {
    forall k :: k in profiles ==> profiles[k].user.id == k
  }

  class Database {
    var students: map<StudentId, Student>
    /** The next value of the primary-key sequence; a rollback does not
        return values it has handed out. */
    var nextStudentId: StudentId
    var profiles: map<UserId, Profile>
    /** Callbacks registered with `on_commit` in the current unit of work, in
        registration order. */
    var onCommit: seq<Notification>

    ghost predicate Valid()
      reads this
    {
      && (forall k :: k in students ==> k < nextStudentId)
      && UniqueAdmissionNumbers(students)
      && ProfilesKeyedByUser(profiles)
    }

    constructor (profiles: map<UserId, Profile>)
      requires ProfilesKeyedByUser(profiles)
      ensures Valid()
      ensures students == map[] && this.profiles == profiles && onCommit == []
    {
      students := map[];
      nextStudentId := 1;
      this.profiles := profiles;
      onCommit := [];
    }

    /** `Student.objects.create`: insert `s` under the next primary key, or
        fail with an integrity error (None) and change nothing when its
        admission number is already in use. */
    method InsertStudent(s: Student) returns (id: Option<StudentId>)
      requires Valid()
      modifies this
      ensures Valid()
      ensures profiles == old(profiles) && onCommit == old(onCommit)
      ensures id.None? <==> s.admissionNumber in AdmissionNumbers(old(students))
      ensures id.None? ==> students == old(students) && nextStudentId == old(nextStudentId)
      ensures id.Some? ==> id.value !in old(students) && students == old(students)[id.value := s]
    {
      if s.admissionNumber in AdmissionNumbers(students) {
        return None;
      }
      id := Some(nextStudentId);
      assert forall k :: k in students ==> students[k].admissionNumber in AdmissionNumbers(students);
      students := students[nextStudentId := s];
      nextStudentId := nextStudentId + 1;
    }

    /** `Student.objects.filter(parent=parent).update(has_sibling=True)`. */
    method SetSiblingFlag(parent: UserId)
      requires Valid()
      modifies this
      ensures Valid()
      ensures students == WithSiblingFlag(old(students), parent)
      ensures nextStudentId == old(nextStudentId)
      ensures profiles == old(profiles) && onCommit == old(onCommit)
    {
      WithSiblingFlagKeepsNumbers(students, parent);
      students := WithSiblingFlag(students, parent);
    }

    /** `transaction.on_commit(callback)`: queue `n` to run after commit. */
    method OnCommit(n: Notification)
      requires Valid()
      modifies this
      ensures Valid()
      ensures onCommit == old(onCommit) + [n]
      ensures students == old(students) && nextStudentId == old(nextStudentId)
      ensures profiles == old(profiles)
    {
      onCommit := onCommit + [n];
    }
  }
}
