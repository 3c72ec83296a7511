/** The student app's entities: students, fees, transactions and their line
    items, with the field defaults, the field validators, the two
    `unique_together` constraints, and the transaction validator
    (`Transaction.clean`). Amounts are `DecimalField(decimal_places=2)` and are
    held here as integer cents. */
module StudentModels {
  import opened Common

  type StudentId = nat
  type FeeId = nat
  type TransactionId = nat

  /** A decimal amount with two decimal places, in hundredths. */
  type Cents = int

  // ---------------------------------------------------------------------------
  // Student

  datatype Gender = Male | Female | Other

  /** The stored value of each gender choice. */
  function GenderValue(g: Gender): string {
    match g
    case Male => "male"
    case Female => "female"
    case Other => "other"
  }

  /** The stored values, in sorted order (the order of the error message). */
  const GenderValues: seq<string> := ["female", "male", "other"]

  /** The gender choice whose stored value is `s`, if there is one. */
  function ParseGender(s: string): (r: Option<Gender>)
    ensures r.Some? <==> s in GenderValues
    ensures r.Some? ==> GenderValue(r.value) == s
  {
    if s == "male" then Some(Male)
    else if s == "female" then Some(Female)
    else if s == "other" then Some(Other)
    else None
  }

  datatype AccountStatus = Active | Inactive

  /** A student row. The sibling many-to-many, the image fields and the
      time stamps are not part of this model. */
  datatype Student = Student(
    parent: UserId,
    admissionNumber: string,
    firstName: string,
    lastName: string,
    gender: Gender,
    accountStatus: AccountStatus,
    hasSibling: bool,
    verifiedBy: Option<UserId>,
    verificationDate: Option<Time>,
    verificationNotes: string,
    fullyActivated: bool
  )

  /** A row created with only the fields the enrolment service passes; every
      other field takes its declared default. */
  function NewStudent(parent: UserId, admissionNumber: string, hasSibling: bool,
                      firstName: string, lastName: string, gender: Gender): (r: Student)
    ensures HasCreationDefaults(r)
    ensures r.parent == parent && r.admissionNumber == admissionNumber && r.hasSibling == hasSibling
    ensures r.firstName == firstName && r.lastName == lastName && r.gender == gender
  {
    Student(parent, admissionNumber, firstName, lastName, gender,
            Inactive, hasSibling, None, None, "", false)
  }

  /** The defaults of a freshly created row: inactive, unverified, no notes,
      not fully activated. */
  predicate HasCreationDefaults(s: Student) {
    && s.accountStatus == Inactive
    && s.verifiedBy.None?
    && s.verificationDate.None?
    && s.verificationNotes == ""
    && !s.fullyActivated
  }

  /** `Student.full_name`: first name, one space, last name. */
  function FullName(s: Student): (r: string)
    ensures |r| == |s.firstName| + 1 + |s.lastName|
    ensures r[..|s.firstName|] == s.firstName
    ensures r[|s.firstName|] == ' '
    ensures r[|s.firstName| + 1..] == s.lastName
  {
    s.firstName + " " + s.lastName
  }

  /** The admission numbers in use in a student table. */
  function AdmissionNumbers(students: map<StudentId, Student>): set<string> {
    set k | k in students :: students[k].admissionNumber
  }

  /** `admission_number` is declared `unique=True`. */
  ghost predicate UniqueAdmissionNumbers(students: map<StudentId, Student>) {
    forall a, b :: a in students && b in students && a != b ==>
      students[a].admissionNumber != students[b].admissionNumber
  }

  /** The students a parent owns. */
  function ChildrenOf(students: map<StudentId, Student>, parent: UserId): set<StudentId> {
    set k | k in students && students[k].parent == parent
  }

  // ---------------------------------------------------------------------------
  // Decimal fields

  /** `max_digits=12, decimal_places=2`: at most ten digits before the point. */
  predicate FitsAmountField(c: Cents) {
    -1_000_000_000_000 < c < 1_000_000_000_000
  }

  // ---------------------------------------------------------------------------
  // Fees

  datatype FeeType = Admission | BookFee | BusFee | TuitionFee | ExamFee | TermFee | YearlyFee

  datatype Fee = Fee(student: StudentId, feeType: FeeType, amount: Cents)

  /** The fee table's constraints: `unique_together = ["student", "fee_type"]`
      and `MinValueValidator(Decimal("0.00"))` on the amount. */
  ghost predicate FeesValid(fees: map<FeeId, Fee>) {
    && (forall a, b :: a in fees && b in fees && a != b ==>
          !(fees[a].student == fees[b].student && fees[a].feeType == fees[b].feeType))
    && (forall k :: k in fees ==> 0 <= fees[k].amount)
  }

  /** The error keys `full_clean` reports when row `id` of the fee table is
      saved as `f`: field errors under "amount", the `unique_together`
      clash under "__all__" (rows other than `id` itself are compared). */
  function FeeErrors(fees: map<FeeId, Fee>, id: FeeId, f: Fee): (errs: set<string>)
    ensures "amount" in errs <==> f.amount < 0 || !FitsAmountField(f.amount)
    ensures "__all__" in errs <==>
      exists k :: k in fees && k != id && fees[k].student == f.student && fees[k].feeType == f.feeType
    ensures errs <= {"amount", "__all__"}
  {
    (if f.amount < 0 || !FitsAmountField(f.amount) then {"amount"} else {})
    + (if exists k :: k in fees && k != id && fees[k].student == f.student && fees[k].feeType == f.feeType
       then {"__all__"} else {})
  }

  /** Saving a fee that passes `full_clean` keeps the fee table valid. */
  lemma FeeSavePreservesValidity(fees: map<FeeId, Fee>, id: FeeId, f: Fee)
    requires FeesValid(fees)
    requires FeeErrors(fees, id, f) == {}
    ensures FeesValid(fees[id := f])
  {
    var fees' := fees[id := f];
    forall a, b | a in fees' && b in fees' && a != b
      ensures !(fees'[a].student == fees'[b].student && fees'[a].feeType == fees'[b].feeType)
    {
      if a == id {
        assert "__all__" !in FeeErrors(fees, id, f);
      } else if b == id {
        assert "__all__" !in FeeErrors(fees, id, f);
      }
    }
    assert "amount" !in FeeErrors(fees, id, f);
  }

  // ---------------------------------------------------------------------------
  // Transactions and their items

  datatype TransactionStatus = Pending | Completed | Failed

  datatype TransactionType = Cash | CreditCard | DebitCard | Upi | BankTransfer

  /** A transaction instance. `pk` is None before the row is first saved;
      `payer` is None when no payer has been assigned; `amount` is None when
      it was explicitly cleared. */
  datatype Transaction = Transaction(
    pk: Option<TransactionId>,
    payer: Option<User>,
    amount: Option<Cents>,
    description: Option<string>,
    status: TransactionStatus,
    transactionType: TransactionType
  )

  /** A transaction as constructed with its declared defaults. */
  function NewTransaction(payer: Option<User>, transactionType: TransactionType): (t: Transaction)
    ensures t.pk.None? && t.amount == Some(0) && t.status == Pending
  {
    Transaction(None, payer, Some(0), None, Pending, transactionType)
  }

  datatype TransactionItem = TransactionItem(transaction: TransactionId, fee: FeeId, amount: Cents)

  /** The item table's constraints: `unique_together = ["transaction", "fee"]`
      and `MinValueValidator(Decimal("0.01"))` on the amount. */
  ghost predicate ItemsValid(items: seq<TransactionItem>) {
    && (forall i, j :: 0 <= i < |items| && 0 <= j < |items| && i != j ==>
          !(items[i].transaction == items[j].transaction && items[i].fee == items[j].fee))
    && (forall i :: 0 <= i < |items| ==> 1 <= items[i].amount)
  }

  /** The error keys `full_clean` reports for a new item `it`. */
  function ItemErrors(items: seq<TransactionItem>, it: TransactionItem): (errs: set<string>)
    ensures "amount" in errs <==> it.amount < 1 || !FitsAmountField(it.amount)
    ensures "__all__" in errs <==>
      exists i :: 0 <= i < |items| && items[i].transaction == it.transaction && items[i].fee == it.fee
    ensures errs <= {"amount", "__all__"}
  {
    (if it.amount < 1 || !FitsAmountField(it.amount) then {"amount"} else {})
    + (if exists i :: 0 <= i < |items| && items[i].transaction == it.transaction && items[i].fee == it.fee
       then {"__all__"} else {})
  }

  /** Adding an item that passes `full_clean` keeps the item table valid. */
  lemma ItemInsertPreservesValidity(items: seq<TransactionItem>, it: TransactionItem)
    requires ItemsValid(items)
    requires ItemErrors(items, it) == {}
    ensures ItemsValid(items + [it])
  {
    var items' := items + [it];
    forall i, j | 0 <= i < |items'| && 0 <= j < |items'| && i != j
      ensures !(items'[i].transaction == items'[j].transaction && items'[i].fee == items'[j].fee)
    {
      if i == |items| || j == |items| {
        assert "__all__" !in ItemErrors(items, it);
      }
    }
    assert "amount" !in ItemErrors(items, it);
  }

  /** The items of transaction `id`, in table order (`self.items.all()`). */
  function ItemsOf(items: seq<TransactionItem>, id: TransactionId): (r: seq<TransactionItem>)
    ensures forall x :: x in r <==> x in items && x.transaction == id
  {
    if items == [] then []
    else ItemsOf(items[..|items| - 1], id)
         + (if items[|items| - 1].transaction == id then [items[|items| - 1]] else [])
  }

  /** Each of the transaction's rows appears in `ItemsOf` as often as in the
      table, and no other row appears. */
  lemma {:induction false} ItemsOfMultiplicity(items: seq<TransactionItem>, id: TransactionId)
    ensures forall x :: multiset(ItemsOf(items, id))[x] == if x.transaction == id then multiset(items)[x] else 0
    decreases |items|
  {
    if items != [] {
      var init := items[..|items| - 1];
      var last := items[|items| - 1];
      ItemsOfMultiplicity(init, id);
      assert items == init + [last];
      assert multiset(items) == multiset(init) + multiset{last};
    }
  }

  /** The exact sum of the item amounts. */
  function Total(items: seq<TransactionItem>): int {
    if items == [] then 0 else Total(items[..|items| - 1]) + items[|items| - 1].amount
  }

  /** An item whose fee's student belongs to another parent than `payer`.
      The fee and student keys are non-null and protected or cascading, so
      every reference resolves; the model counts one that does not as not
      foreign, where Django would raise `DoesNotExist`. */
  predicate ForeignItem(it: TransactionItem, fees: map<FeeId, Fee>,
                        students: map<StudentId, Student>, payer: UserId) {
    && it.fee in fees
    && fees[it.fee].student in students
    && students[fees[it.fee].student].parent != payer
  }

  predicate HasForeignItem(its: seq<TransactionItem>, fees: map<FeeId, Fee>,
                           students: map<StudentId, Student>, payer: UserId) {
    exists i :: 0 <= i < |its| && ForeignItem(its[i], fees, students, payer)
  }

  /** `if self.pk`: a primary key that is unset or zero is falsy. */
  predicate Persisted(t: Transaction) {
    t.pk.Some? && t.pk.value != 0
  }

  const PayerMessage: string := "Payer must have role 'Parent'."
  const AmountMessage: string := "Amount must be greater than 0."
  const ItemsMessage: string := "At least one fee item must be added to the transaction."
  const ItemsAmountMessage: string := "Sum of item amounts must equal the transaction amount."
  const ItemsOwnerMessage: string := "All fee items must belong to students of the payer."

  /** What `Transaction.clean` does: return normally, raise a
      `ValidationError` carrying the error map, or raise
      `RelatedObjectDoesNotExist` because reading `self.payer` of a
      non-nullable foreign key that is unset raises before any check. */
  datatype CleanOutcome = Passed | Raised(errors: map<string, string>) | PayerDoesNotExist

  /** The error map of a raised outcome, empty otherwise. */
  function ErrorsOf(r: CleanOutcome): map<string, string> {
    if r.Raised? then r.errors else map[]
  }

  /** The errors of the two field rules: the payer's role and a positive
      amount. */
  function FieldErrors(t: Transaction, payer: User): (e: map<string, string>)
    ensures "payer" in e <==> payer.role != Some("parent")
    ensures "amount" in e <==> t.amount.Some? && t.amount.value <= 0
    ensures e.Keys <= {"payer", "amount"}
    ensures forall k :: k in e ==> e[k] == MessageFor(k)
  {
    var e0: map<string, string> := map[];
    var e1 := if payer.role != Some("parent") then e0["payer" := PayerMessage] else e0;
    if t.amount.Some? && t.amount.value <= 0 then e1["amount" := AmountMessage] else e1
  }

  /** The errors of the three item rules over the transaction's items
      `its`: at least one item, the items summing to the amount (an empty
      sum is None and never equal), and every item's fee belonging to a
      student of the payer. */
  function ItemRuleErrors(its: seq<TransactionItem>, amount: Option<Cents>, fees: map<FeeId, Fee>,
                          students: map<StudentId, Student>, payer: UserId): (e: map<string, string>)
    ensures "items" in e <==> its == []
    ensures "items_amount" in e <==> its == [] || amount.None? || Total(its) != amount.value
    ensures "items_owner" in e <==> HasForeignItem(its, fees, students, payer)
    ensures e.Keys <= {"items", "items_amount", "items_owner"}
    ensures forall k :: k in e ==> e[k] == MessageFor(k)
  {
    var e0: map<string, string> := map[];
    var a := if its == [] then e0["items" := ItemsMessage] else e0;
    var b := if its == [] || amount.None? || Total(its) != amount.value
             then a["items_amount" := ItemsAmountMessage] else a;
    if HasForeignItem(its, fees, students, payer) then b["items_owner" := ItemsOwnerMessage] else b
  }

  /** The outcome of `Transaction.clean` for the items table `items` and
      the fee and student tables the items refer to. Every rule is checked
      and every violated rule is reported together. */
  function CleanResult(t: Transaction, items: seq<TransactionItem>,
                       fees: map<FeeId, Fee>, students: map<StudentId, Student>): (r: CleanOutcome)
    ensures r.PayerDoesNotExist? <==> t.payer.None?
    ensures r.Raised? ==> r.errors != map[]
    ensures t.payer.Some? && ErrorsOf(r) == map[] ==> r.Passed?
    ensures ErrorsOf(r).Keys <= {"payer", "amount", "items", "items_amount", "items_owner"}
    ensures "payer" in ErrorsOf(r) <==> t.payer.Some? && t.payer.value.role != Some("parent")
    ensures "amount" in ErrorsOf(r) <==> t.payer.Some? && t.amount.Some? && t.amount.value <= 0
    ensures "items" in ErrorsOf(r) <==>
      t.payer.Some? && Persisted(t) && ItemsOf(items, t.pk.value) == []
    ensures "items_amount" in ErrorsOf(r) <==>
      t.payer.Some? && Persisted(t) &&
      (ItemsOf(items, t.pk.value) == [] || t.amount.None? || Total(ItemsOf(items, t.pk.value)) != t.amount.value)
    ensures "items_owner" in ErrorsOf(r) <==>
      t.payer.Some? && Persisted(t) && HasForeignItem(ItemsOf(items, t.pk.value), fees, students, t.payer.value.id)
    ensures forall k :: k in ErrorsOf(r) ==> ErrorsOf(r)[k] == MessageFor(k)
  {
    if t.payer.None? then PayerDoesNotExist
    else
      var fieldErrors := FieldErrors(t, t.payer.value);
      var errors :=
        if Persisted(t)
        then fieldErrors + ItemRuleErrors(ItemsOf(items, t.pk.value), t.amount, fees, students, t.payer.value.id)
        else fieldErrors;
      if errors == map[] then Passed else Raised(errors)
  }

  /** The message stored under each error key. */
  function MessageFor(key: string): string {
    if key == "payer" then PayerMessage
    else if key == "amount" then AmountMessage
    else if key == "items" then ItemsMessage
    else if key == "items_amount" then ItemsAmountMessage
    else ItemsOwnerMessage
  }

  /** A persisted transaction without items reports both the missing items
      and the amount mismatch, since the aggregate total is then None. */
  lemma NoItemsReportsBoth(t: Transaction, items: seq<TransactionItem>,
                          fees: map<FeeId, Fee>, students: map<StudentId, Student>)
    requires t.payer.Some? && Persisted(t)
    requires forall i :: 0 <= i < |items| ==> items[i].transaction != t.pk.value
    ensures "items" in ErrorsOf(CleanResult(t, items, fees, students))
    ensures "items_amount" in ErrorsOf(CleanResult(t, items, fees, students))
  {
    NoRowsNoItems(items, t.pk.value);
  }

  /** A table without rows of transaction `id` gives it no items. */
  lemma {:induction false} NoRowsNoItems(items: seq<TransactionItem>, id: TransactionId)
    requires forall i :: 0 <= i < |items| ==> items[i].transaction != id
    ensures ItemsOf(items, id) == []
    decreases |items|
  {
    if items != [] {
      NoRowsNoItems(items[..|items| - 1], id);
    }
  }

  /** Before the first save no item rule can fire, whatever the item table
      holds. */
  lemma UnsavedChecksNoItems(t: Transaction, items: seq<TransactionItem>,
                             fees: map<FeeId, Fee>, students: map<StudentId, Student>)
    requires !Persisted(t)
    ensures ErrorsOf(CleanResult(t, items, fees, students)).Keys <= {"payer", "amount"}
  {
  }

  /** The sum of the items of a transaction grows item by item. */
  lemma ItemsOfSnoc(items: seq<TransactionItem>, id: TransactionId, i: nat)
    requires i < |items|
    ensures ItemsOf(items[..i + 1], id)
            == ItemsOf(items[..i], id) + (if items[i].transaction == id then [items[i]] else [])
  {
    assert items[..i + 1][..i] == items[..i];
  }

  lemma TotalSnoc(its: seq<TransactionItem>, x: TransactionItem)
    ensures Total(its + [x]) == Total(its) + x.amount
  {
    assert (its + [x])[..|its|] == its;
  }

  lemma HasForeignSnoc(its: seq<TransactionItem>, x: TransactionItem, fees: map<FeeId, Fee>,
                       students: map<StudentId, Student>, payer: UserId)
    ensures HasForeignItem(its + [x], fees, students, payer)
            == (HasForeignItem(its, fees, students, payer) || ForeignItem(x, fees, students, payer))
  {
    var s := its + [x];
    assert s[|its|] == x;
    assert forall j :: 0 <= j < |its| ==> s[j] == its[j];
  }

  /** One pass over the item table, as `items.exists()`, the `Sum`
      aggregate and the list of invalid items do it: the number of the
      transaction's items, their total, and whether one of them belongs to
      another parent than `payer`. */
  method ScanItems(items: seq<TransactionItem>, id: TransactionId, fees: map<FeeId, Fee>,
                   students: map<StudentId, Student>, payer: UserId)
    returns (count: nat, total: int, invalid: bool)
    ensures count == |ItemsOf(items, id)|
    ensures total == Total(ItemsOf(items, id))
    ensures invalid == HasForeignItem(ItemsOf(items, id), fees, students, payer)
  {
    count, total, invalid := 0, 0, false;
    var i := 0;
    while i < |items|
      invariant 0 <= i <= |items|
      invariant count == |ItemsOf(items[..i], id)|
      invariant total == Total(ItemsOf(items[..i], id))
      invariant invalid == HasForeignItem(ItemsOf(items[..i], id), fees, students, payer)
    {
      ItemsOfSnoc(items, id, i);
      if items[i].transaction == id {
        TotalSnoc(ItemsOf(items[..i], id), items[i]);
        HasForeignSnoc(ItemsOf(items[..i], id), items[i], fees, students, payer);
        count := count + 1;
        total := total + items[i].amount;
        invalid := invalid || ForeignItem(items[i], fees, students, payer);
      } else {
        assert ItemsOf(items[..i + 1], id) == ItemsOf(items[..i], id);
      }
      i := i + 1;
    }
    assert items[..|items|] == items;
  }

  /** The item checks of `clean`, adding their errors to `errors`. */
  method AddItemErrors(errors: map<string, string>, items: seq<TransactionItem>, id: TransactionId,
                       amount: Option<Cents>, fees: map<FeeId, Fee>,
                       students: map<StudentId, Student>, payer: UserId)
    returns (r: map<string, string>)
    ensures r == errors + ItemRuleErrors(ItemsOf(items, id), amount, fees, students, payer)
  {
    var count, total, invalid := ScanItems(items, id, fees, students, payer);
    ghost var its := ItemsOf(items, id);
    ghost var added: map<string, string> := map[];
    r := errors;
    assert r == errors + added;
    if count == 0 {
      MergeUpdate(errors, added, "items", ItemsMessage);
      r, added := r["items" := ItemsMessage], added["items" := ItemsMessage];
    }
    if count == 0 || amount.None? || total != amount.value {
      MergeUpdate(errors, added, "items_amount", ItemsAmountMessage);
      r, added := r["items_amount" := ItemsAmountMessage], added["items_amount" := ItemsAmountMessage];
    }
    if invalid {
      MergeUpdate(errors, added, "items_owner", ItemsOwnerMessage);
      r, added := r["items_owner" := ItemsOwnerMessage], added["items_owner" := ItemsOwnerMessage];
    }
    assert added == ItemRuleErrors(its, amount, fees, students, payer);
  }

  lemma MergeUpdate(a: map<string, string>, b: map<string, string>, k: string, v: string)
    ensures (a + b)[k := v] == a + b[k := v]
  {
  }

  /** `Transaction.clean` as the source runs it: the checks in order, the
      item checks only once the row exists, every error collected before
      raising. */
  method Clean(t: Transaction, items: seq<TransactionItem>,
               fees: map<FeeId, Fee>, students: map<StudentId, Student>) returns (r: CleanOutcome)
    ensures r == CleanResult(t, items, fees, students)
  {
    if t.payer.None? {
      return PayerDoesNotExist;
    }
    var payer := t.payer.value;
    var errors: map<string, string> := map[];
    if payer.role != Some("parent") {
      errors := errors["payer" := PayerMessage];
    }
    if t.amount.Some? && t.amount.value <= 0 {
      errors := errors["amount" := AmountMessage];
    }
    assert errors == FieldErrors(t, payer);
    if Persisted(t) {
      errors := AddItemErrors(errors, items, t.pk.value, t.amount, fees, students, payer.id);
    }
    if errors != map[] {
      return Raised(errors);
    }
    return Passed;
  }
}
