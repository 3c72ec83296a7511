/** The admission-number issuer and the student enrolment service.

    An admission number is the school code, then random digits, then one
    check digit. The check digit is computed from the partial number
    (school code and random digits) by a Luhn-style sum. The rightmost
    digit of the partial number, and every second digit to its left, is
    added as it is. The others are doubled, and the digits of the doubled
    value are added. This is the weighting that ISO/IEC 7812-1 uses to
    VALIDATE a complete number, applied here to the number before its check
    digit is appended. So the complete admission number does not in general
    pass the standard Luhn validation. `WorkedExample` shows one instance. */
module StudentUtils {
  import opened Common
  import opened StudentModels
  import opened Store

  // ---------------------------------------------------------------------------
  // Digits

  type Digit = d: int | 0 <= d < 10

  /** `str.isdigit`, restricted to ASCII digits. */
  predicate IsAsciiDigit(c: char) { '0' <= c <= '9' }

  predicate IsDigitString(s: string) {
    forall i :: 0 <= i < |s| ==> IsAsciiDigit(s[i])
  }

  function DigitValue(c: char): Digit
    requires IsAsciiDigit(c)
  {
    (c as int) - ('0' as int)
  }

  function DigitChar(d: Digit): (c: char)
    ensures IsAsciiDigit(c) && DigitValue(c) == d
  {
    (('0' as int) + d) as char
  }

  /** `[int(digit) for digit in number]`. */
  function DigitsOf(s: string): (ds: seq<Digit>)
    requires IsDigitString(s)
    ensures |ds| == |s|
    ensures forall i :: 0 <= i < |s| ==> ds[i] == DigitValue(s[i])
  {
    seq(|s|, i requires 0 <= i < |s| => DigitValue(s[i]))
  }

  /** `sum(split_into_digits(n))`: the sum of the decimal digits of `n`. */
  function DigitSum(n: nat): nat {
    if n < 10 then n else n % 10 + DigitSum(n / 10)
  }

  /** The digit sum of a doubled digit is the doubled value itself below 5,
      and nine less from 5 on; either way it is a single digit. */
  lemma DoubledDigitSum(d: Digit)
    ensures DigitSum(2 * d) == if d < 5 then 2 * d else 2 * d - 9
    ensures DigitSum(2 * d) < 10
  {
  }

  // ---------------------------------------------------------------------------
  // The check digit

  /** What one digit adds to the sum: itself, or the digit sum of its double. */
  function Contribution(d: Digit, doubled: bool): nat {
    if doubled then DigitSum(2 * d) else d
  }

  /** The contributions of the rightmost digit of `ds` and of every second
      digit to its left (`ds[-1::-2]`). */
  function AlternateSum(ds: seq<Digit>, doubled: bool): nat
    decreases |ds|
  {
    if |ds| == 0 then 0
    else if |ds| == 1 then Contribution(ds[0], doubled)
    else Contribution(ds[|ds| - 1], doubled) + AlternateSum(ds[..|ds| - 2], doubled)
  }

  /** The source's total: odd places from the right as they are, even places
      from the right (`ds[-2::-2]`) doubled and digit-summed. */
  function LuhnTotal(ds: seq<Digit>): nat {
    AlternateSum(ds, false) + (if ds == [] then 0 else AlternateSum(ds[..|ds| - 1], true))
  }

  /** `(10 - total % 10) % 10`: the digit that brings the total to a
      multiple of ten. */
  function CheckDigitOf(ds: seq<Digit>): (c: Digit)
    ensures (LuhnTotal(ds) + c) % 10 == 0
  {
    (10 - LuhnTotal(ds) % 10) % 10
  }

  /** The check digit is the only digit that closes the total. */
  lemma CheckDigitUnique(ds: seq<Digit>, c: Digit)
    requires (LuhnTotal(ds) + c) % 10 == 0
    ensures c == CheckDigitOf(ds)
  {
  }

  /** `calculate_luhn_check_digit`: a non-digit character makes `int()`
      raise (None). */
  function LuhnCheckDigit(number: string): (r: Option<Digit>)
    ensures r.Some? <==> IsDigitString(number)
    ensures r.Some? ==> (LuhnTotal(DigitsOf(number)) + r.value) % 10 == 0
  {
    if IsDigitString(number) then Some(CheckDigitOf(DigitsOf(number))) else None
  }

  lemma AlternateSumStep(ds: seq<Digit>, n: nat, doubled: bool)
    requires 2 <= n <= |ds|
    ensures AlternateSum(ds[..n], doubled)
            == Contribution(ds[n - 1], doubled) + AlternateSum(ds[..n - 2], doubled)
  {
    assert ds[..n][..n - 2] == ds[..n - 2];
  }

  /** `calculate_luhn_check_digit` as the source runs it: the sum of the odd
      places, then a loop adding the digit sum of each doubled even place. */
  method CalculateLuhnCheckDigit(number: string) returns (r: Option<Digit>)
    ensures r == LuhnCheckDigit(number)
  {
    if !IsDigitString(number) {
      return None;
    }
    var digits := DigitsOf(number);
    assert digits[..|digits|] == digits;
    // total = sum(digits[-1::-2])
    var total := 0;
    var n := |digits|;
    while n > 0
      invariant 0 <= n <= |digits|
      invariant total + AlternateSum(digits[..n], false) == AlternateSum(digits, false)
    {
      if n >= 2 {
        AlternateSumStep(digits, n, false);
      }
      total := total + digits[n - 1];
      n := if n >= 2 then n - 2 else 0;
    }
    // for d in digits[-2::-2]: total += sum(split_into_digits(d * 2))
    var evens := if digits == [] then [] else digits[..|digits| - 1];
    assert evens[..|evens|] == evens;
    n := |evens|;
    while n > 0
      invariant 0 <= n <= |evens|
      invariant total + AlternateSum(evens[..n], true) == LuhnTotal(digits)
    {
      if n >= 2 {
        AlternateSumStep(evens, n, true);
      }
      var doubled: nat := (evens[n - 1] as int) * 2;
      total := total + DigitSum(doubled);
      n := if n >= 2 then n - 2 else 0;
    }
    var check: Digit := (10 - total % 10) % 10;
    return Some(check);
  }

  // ---------------------------------------------------------------------------
  // The standard Luhn check digit, for comparison

  /** The generation sum of ISO/IEC 7812-1 Annex B: the rightmost payload
      digit and every second one to its left are doubled. */
  function StandardTotal(ds: seq<Digit>): nat {
    AlternateSum(ds, true) + (if ds == [] then 0 else AlternateSum(ds[..|ds| - 1], false))
  }

  function StandardCheckDigit(ds: seq<Digit>): (c: Digit)
    ensures (StandardTotal(ds) + c) % 10 == 0
  {
    (10 - StandardTotal(ds) % 10) % 10
  }

  /** Standard validation of a complete number: its rightmost (check) digit
      is added as it is and the one to its left doubled, which is the
      weighting of `LuhnTotal`. */
  predicate StandardLuhnValid(ds: seq<Digit>) {
    LuhnTotal(ds) % 10 == 0
  }

  /** Appending a digit shifts the weighting by one place. */
  lemma LuhnTotalAppend(ds: seq<Digit>, c: Digit)
    ensures LuhnTotal(ds + [c]) == c + StandardTotal(ds)
  {
    var s := ds + [c];
    assert s[..|s| - 1] == ds;
    if |ds| >= 1 {
      assert s[..|s| - 2] == ds[..|ds| - 1];
    }
  }

  /** A number passes standard validation exactly when its last digit is
      the standard check digit of the digits before it. */
  lemma StandardValidIffStandardCheckDigit(ds: seq<Digit>, c: Digit)
    ensures StandardLuhnValid(ds + [c]) <==> c == StandardCheckDigit(ds)
  {
    LuhnTotalAppend(ds, c);
  }

  /** The partial number 7992739871, and the same without its last digit. */
  const ExamplePartial: seq<Digit> := [7, 9, 9, 2, 7, 3, 9, 8, 7, 1]
  const ExampleEvens: seq<Digit> := [7, 9, 9, 2, 7, 3, 9, 8, 7]

  lemma ExampleSums()
    ensures AlternateSum(ExamplePartial, false) == 23
    ensures AlternateSum(ExamplePartial, true) == 28
  {
    var p := ExamplePartial;
    assert p[..10] == p;
    assert p[..2] == [7, 9];
    assert DigitSum(16) == 7 && DigitSum(18) == 9;
    AlternateSumStep(p, 10, false); AlternateSumStep(p, 8, false); AlternateSumStep(p, 6, false);
    AlternateSumStep(p, 4, false);
    AlternateSumStep(p, 10, true); AlternateSumStep(p, 8, true); AlternateSumStep(p, 6, true);
    AlternateSumStep(p, 4, true);
  }

  lemma ExampleEvenSums()
    ensures AlternateSum(ExampleEvens, false) == 39
    ensures AlternateSum(ExampleEvens, true) == 33
  {
    var q := ExampleEvens;
    assert q[..9] == q;
    assert q[..1] == [7];
    assert DigitSum(14) == 5 && DigitSum(18) == 9;
    AlternateSumStep(q, 9, false); AlternateSumStep(q, 7, false); AlternateSumStep(q, 5, false);
    AlternateSumStep(q, 3, false);
    AlternateSumStep(q, 9, true); AlternateSumStep(q, 7, true); AlternateSumStep(q, 5, true);
    AlternateSumStep(q, 3, true);
  }

  /** For the partial number 7992739871 the source's check digit is 4, the
      standard one is 3, and the number the source builds fails standard
      validation. */
  lemma WorkedExample()
    ensures CheckDigitOf(ExamplePartial) == 4
    ensures StandardCheckDigit(ExamplePartial) == 3
    ensures !StandardLuhnValid(ExamplePartial + [4])
  {
    ExampleSums();
    ExampleEvenSums();
    assert ExamplePartial[..|ExamplePartial| - 1] == ExampleEvens;
    assert LuhnTotal(ExamplePartial) == 56;
    assert StandardTotal(ExamplePartial) == 67;
    LuhnTotalAppend(ExamplePartial, 4);
  }

  // ---------------------------------------------------------------------------
  // Admission numbers

  datatype ConfigError = SchoolCodeNotNumeric | SchoolCodeTooLong

  /** `SCHOOL_CODE` is set, non-empty and all digits. */
  predicate ValidSchoolCode(schoolCode: Option<string>) {
    schoolCode.Some? && schoolCode.value != "" && IsDigitString(schoolCode.value)
  }

  /** The first `n` draws of the digit source, as characters. */
  function RandomDigits(n: nat, random: nat -> Digit): (s: string)
    ensures |s| == n && IsDigitString(s)
    ensures forall i :: 0 <= i < n ==> DigitValue(s[i]) == random(i)
  {
    var s := seq(n, i requires 0 <= i < n => DigitChar(random(i)));
    assert forall i :: 0 <= i < n ==> s[i] == DigitChar(random(i));
    s
  }

  /** `generate_admission_number`. The environment's `SCHOOL_CODE` and the
      digit source (`random(i)` is the i-th draw of `secrets.choice`) are
      parameters. */
  function GenerateAdmissionNumber(totalLength: int, schoolCode: Option<string>,
                                   random: nat -> Digit): (r: Result<string, ConfigError>)
    ensures r == Err(SchoolCodeNotNumeric) <==> !ValidSchoolCode(schoolCode)
    ensures r == Err(SchoolCodeTooLong) <==>
      ValidSchoolCode(schoolCode) && totalLength - |schoolCode.value| - 1 <= 0
    ensures r.Ok? ==>
      && ValidSchoolCode(schoolCode)
      && var code := schoolCode.value;
      && |code| < totalLength - 1
      && |r.value| == totalLength
      && IsDigitString(r.value)
      && r.value[..|code|] == code
      && r.value[|code|..totalLength - 1] == RandomDigits(totalLength - |code| - 1, random)
      && LuhnCheckDigit(r.value[..totalLength - 1]) == Some(DigitValue(r.value[totalLength - 1]))
  {
    if !ValidSchoolCode(schoolCode) then Err(SchoolCodeNotNumeric)
    else
      var prefix := schoolCode.value;
      var remaining := totalLength - |prefix| - 1;
      if remaining <= 0 then Err(SchoolCodeTooLong)
      else
        var partial := prefix + RandomDigits(remaining, random);
        var check := LuhnCheckDigit(partial).value;
        var number := partial + [DigitChar(check)];
        assert number[..totalLength - 1] == partial;
        assert number[..|prefix|] == prefix;
        assert number[|prefix|..totalLength - 1] == RandomDigits(remaining, random);
        Ok(number)
  }

  // ---------------------------------------------------------------------------
  // Name normalisation (ASCII approximation of str.strip and str.title)

  /** Python's whitespace within ASCII. */
  predicate IsSpace(c: char) {
    c == ' ' || (9 <= c as int <= 13) || (28 <= c as int <= 31)
  }

  /** The index of the first character at or after `from` that is not
      whitespace, or `|s|` when there is none. */
  function SkipSpaces(s: string, from: nat): (k: nat)
    requires from <= |s|
    ensures from <= k <= |s|
    ensures k < |s| ==> !IsSpace(s[k])
    ensures forall i :: from <= i < k ==> IsSpace(s[i])
    decreases |s| - from
  {
    if from < |s| && IsSpace(s[from]) then SkipSpaces(s, from + 1) else from
  }

  /** The index just past the last character before `to` that is not
      whitespace, or 0 when there is none. */
  function SkipSpacesBack(s: string, to: nat): (k: nat)
    requires to <= |s|
    ensures k <= to
    ensures 0 < k ==> !IsSpace(s[k - 1])
    ensures forall i :: k <= i < to ==> IsSpace(s[i])
  {
    if 0 < to && IsSpace(s[to - 1]) then SkipSpacesBack(s, to - 1) else to
  }

  function TrimLeft(s: string): (r: string)
    ensures |r| <= |s| && r == s[|s| - |r|..]
    ensures r != [] ==> !IsSpace(r[0])
    ensures forall i :: 0 <= i < |s| - |r| ==> IsSpace(s[i])
  {
    s[SkipSpaces(s, 0)..]
  }

  function TrimRight(s: string): (r: string)
    ensures |r| <= |s| && r == s[..|r|]
    ensures r != [] ==> !IsSpace(r[|r| - 1])
    ensures forall i :: |r| <= i < |s| ==> IsSpace(s[i])
  {
    s[..SkipSpacesBack(s, |s|)]
  }

  /** `str.strip()`. */
  function Strip(s: string): (r: string)
    ensures |r| <= |s|
    ensures r != [] ==> !IsSpace(r[0]) && !IsSpace(r[|r| - 1])
    ensures r == [] <==> forall i :: 0 <= i < |s| ==> IsSpace(s[i])
  {
    TrimRight(TrimLeft(s))
  }

  /** The stripped name is the input with leading and trailing whitespace
      removed: a slice of it with only whitespace on either side. */
  lemma {:induction false} StripIsSlice(s: string)
    ensures var i := |s| - |TrimLeft(s)|;
      var j := i + |Strip(s)|;
      && 0 <= i <= j <= |s| && Strip(s) == s[i..j]
      && (forall k :: 0 <= k < i ==> IsSpace(s[k]))
      && (forall k :: j <= k < |s| ==> IsSpace(s[k]))
  {
    SuffixPrefixSlice(s, TrimLeft(s), Strip(s));
  }

  /** A prefix `r` of a suffix `l` of `s`, with only whitespace outside it,
      is the slice of `s` between the two removed parts. */
  lemma SuffixPrefixSlice(s: string, l: string, r: string)
    requires |l| <= |s| && l == s[|s| - |l|..]
    requires forall k :: 0 <= k < |s| - |l| ==> IsSpace(s[k])
    requires |r| <= |l| && r == l[..|r|]
    requires forall k :: |r| <= k < |l| ==> IsSpace(l[k])
    ensures var i := |s| - |l|;
      var j := i + |r|;
      && 0 <= i <= j <= |s| && r == s[i..j]
      && (forall k :: 0 <= k < i ==> IsSpace(s[k]))
      && (forall k :: j <= k < |s| ==> IsSpace(s[k]))
  {
    var i := |s| - |l|;
    forall k | i + |r| <= k < |s| ensures IsSpace(s[k]) {
      assert l[k - i] == s[k];
    }
  }

  predicate IsUpper(c: char) { 'A' <= c <= 'Z' }
  predicate IsLower(c: char) { 'a' <= c <= 'z' }
  predicate IsCased(c: char) { IsUpper(c) || IsLower(c) }

  function ToUpper(c: char): char {
    if IsLower(c) then (c as int - 32) as char else c
  }

  function ToLower(c: char): char {
    if IsUpper(c) then (c as int + 32) as char else c
  }

  /** `str.title()` on the rest of a string, `afterCased` telling whether the
      character before it was a letter: a letter after a non-letter becomes
      upper case, a letter after a letter lower case, anything else stays. */
  function TitleFrom(s: string, afterCased: bool): (r: string)
    ensures |r| == |s|
  {
    if s == [] then []
    else
      var c := if !IsCased(s[0]) then s[0] else if afterCased then ToLower(s[0]) else ToUpper(s[0]);
      [c] + TitleFrom(s[1..], IsCased(s[0]))
  }

  /** Whether the character before position `i` is a letter. */
  predicate AfterCased(s: string, i: nat, afterCased: bool)
    requires i < |s|
  {
    if i == 0 then afterCased else IsCased(s[i - 1])
  }

  /** What title-casing does to each character: a non-letter is kept, a
      letter becomes lower case after a letter and upper case otherwise. */
  lemma {:induction false} TitleFromShape(s: string, afterCased: bool, i: nat)
    requires i < |s|
    ensures TitleFrom(s, afterCased)[i] ==
      if !IsCased(s[i]) then s[i]
      else if AfterCased(s, i, afterCased) then ToLower(s[i])
      else ToUpper(s[i])
    ensures IsCased(s[i]) && AfterCased(s, i, afterCased) ==> IsLower(TitleFrom(s, afterCased)[i])
    ensures IsCased(s[i]) && !AfterCased(s, i, afterCased) ==> IsUpper(TitleFrom(s, afterCased)[i])
    decreases i
  {
    if i > 0 {
      TitleFromShape(s[1..], IsCased(s[0]), i - 1);
      assert s[1..][i - 1] == s[i];
      assert i - 1 > 0 ==> s[1..][i - 2] == s[i - 1];
    }
  }

  function Title(s: string): string { TitleFrom(s, false) }

  /** `name.strip().title()`. */
  function NormalizeName(s: string): string { Title(Strip(s)) }

  /** Normalising keeps the stripped name's length and whitespace positions:
      the result is empty exactly when the name is all whitespace, and does
      not start or end with whitespace. */
  lemma NormalizeNameTrimmed(s: string)
    ensures |NormalizeName(s)| == |Strip(s)|
    ensures NormalizeName(s) == [] <==> forall i :: 0 <= i < |s| ==> IsSpace(s[i])
    ensures NormalizeName(s) != [] ==>
      !IsSpace(NormalizeName(s)[0]) && !IsSpace(NormalizeName(s)[|NormalizeName(s)| - 1])
  {
    var t := Strip(s);
    if t != [] {
      TitleFromShape(t, false, 0);
      TitleFromShape(t, false, |t| - 1);
    }
  }

  // ---------------------------------------------------------------------------
  // Enrolment

  /** A falsy first name becomes "Student". */
  function EffectiveFirstName(firstName: Option<string>): (r: string)
    ensures r != ""
    ensures firstName.Some? && firstName.value != "" ==> r == firstName.value
    ensures firstName.None? || firstName.value == "" ==> r == "Student"
  {
    if firstName.None? || firstName.value == "" then "Student" else firstName.value
  }

  /** A falsy last name becomes the parent's last name, or "Account" when that
      is empty too. */
  function EffectiveLastName(lastName: Option<string>, user: User): (r: string)
    ensures r != ""
    ensures lastName.Some? && lastName.value != "" ==> r == lastName.value
    ensures (lastName.None? || lastName.value == "") && user.lastName != "" ==> r == user.lastName
    ensures (lastName.None? || lastName.value == "") && user.lastName == "" ==> r == "Account"
  {
    if lastName.None? || lastName.value == "" then
      (if user.lastName != "" then user.lastName else "Account")
    else lastName.value
  }

  /** A falsy gender becomes "other". */
  function EffectiveGender(gender: Option<string>): (r: string)
    ensures r != ""
    ensures gender.Some? && gender.value != "" ==> r == gender.value
    ensures gender.None? || gender.value == "" ==> r == GenderValue(Other)
  {
    if gender.None? || gender.value == "" then "other" else gender.value
  }

  /** The length `create_student_account` asks for. */
  const AdmissionNumberLength: int := 16

  datatype RetryError = Configuration(error: ConfigError) | CandidatesExhausted | TransactionBroken

  /** Whether draw `k` gives an admission number that is not yet in `used`. */
  predicate FreshDraw(used: set<string>, schoolCode: Option<string>, draws: seq<nat -> Digit>, k: nat)
    requires k < |draws|
  {
    var g := GenerateAdmissionNumber(AdmissionNumberLength, schoolCode, draws[k]);
    g.Ok? && g.value !in used
  }

  /** Whether the school code lets `generate_admission_number(16)` succeed;
      this does not depend on the random digits. */
  predicate ConfigurationOk(schoolCode: Option<string>) {
    ValidSchoolCode(schoolCode) && AdmissionNumberLength - |schoolCode.value| - 1 > 0
  }

  /** The `ValueError` that `generate_admission_number(16)` raises for a
      school code it cannot use. It is raised before any digit is drawn. */
  function ConfigurationError(schoolCode: Option<string>): (e: ConfigError)
    requires !ConfigurationOk(schoolCode)
    ensures forall random :: GenerateAdmissionNumber(AdmissionNumberLength, schoolCode, random) == Err(e)
  {
    if !ValidSchoolCode(schoolCode) then SchoolCodeNotNumeric else SchoolCodeTooLong
  }

  /** The admission number the retry loop settles on: the number of the first
      draw that is not yet in `used`. The first attempt always runs, so an
      unusable school code raises its configuration error whatever the draws.
      The draws running out stands for the source looping for ever. */
  function RetryInsert(used: set<string>, schoolCode: Option<string>,
                       draws: seq<nat -> Digit>): (r: Result<string, RetryError>)
    ensures r.Ok? <==> exists k :: 0 <= k < |draws| && FreshDraw(used, schoolCode, draws, k)
    ensures r.Ok? ==> r.value !in used
    ensures !ValidSchoolCode(schoolCode) ==> r == Err(Configuration(SchoolCodeNotNumeric))
    ensures ValidSchoolCode(schoolCode) && !ConfigurationOk(schoolCode) ==>
      r == Err(Configuration(SchoolCodeTooLong))
    ensures ConfigurationOk(schoolCode) && r.Err? ==> r == Err(CandidatesExhausted)
    ensures r.Err? ==> r.error != TransactionBroken
    decreases |draws|
  {
    if !ConfigurationOk(schoolCode) then
      NoFreshDrawWithoutConfiguration(used, schoolCode, draws);
      Err(Configuration(ConfigurationError(schoolCode)))
    else if draws == [] then Err(CandidatesExhausted)
    else
      var g := GenerateAdmissionNumber(AdmissionNumberLength, schoolCode, draws[0]);
      if g.Ok? && g.value !in used then
        assert FreshDraw(used, schoolCode, draws, 0);
        Ok(g.value)
      else
        RetryInsertShift(used, schoolCode, draws);
        RetryInsert(used, schoolCode, draws[1..])
  }

  /** With a school code that cannot be used, no draw gives a number. */
  lemma NoFreshDrawWithoutConfiguration(used: set<string>, schoolCode: Option<string>, draws: seq<nat -> Digit>)
    requires !ConfigurationOk(schoolCode)
    ensures forall k :: 0 <= k < |draws| ==> !FreshDraw(used, schoolCode, draws, k)
  {
  }

  /** The number the loop settles on is that of the first fresh draw: every
      earlier draw gives a number already in use. */
  lemma {:induction false} RetryInsertTakesFirstFresh(used: set<string>, schoolCode: Option<string>,
                                                      draws: seq<nat -> Digit>)
    requires RetryInsert(used, schoolCode, draws).Ok?
    ensures exists k :: (0 <= k < |draws|
      && GenerateAdmissionNumber(AdmissionNumberLength, schoolCode, draws[k])
         == Ok(RetryInsert(used, schoolCode, draws).value)
      && (forall j :: 0 <= j < k ==> !FreshDraw(used, schoolCode, draws, j)))
    decreases |draws|
  {
    var g := GenerateAdmissionNumber(AdmissionNumberLength, schoolCode, draws[0]);
    if g.Ok? && g.value !in used {
      assert GenerateAdmissionNumber(AdmissionNumberLength, schoolCode, draws[0])
             == Ok(RetryInsert(used, schoolCode, draws).value);
    } else {
      var rest := draws[1..];
      assert RetryInsert(used, schoolCode, draws) == RetryInsert(used, schoolCode, rest);
      RetryInsertTakesFirstFresh(used, schoolCode, rest);
      var k :| 0 <= k < |rest|
        && GenerateAdmissionNumber(AdmissionNumberLength, schoolCode, rest[k])
           == Ok(RetryInsert(used, schoolCode, rest).value)
        && (forall j :: 0 <= j < k ==> !FreshDraw(used, schoolCode, rest, j));
      assert rest[k] == draws[k + 1];
      forall j | 0 <= j < k + 1 ensures !FreshDraw(used, schoolCode, draws, j) {
        if j > 0 { FreshDrawShift(used, schoolCode, draws, j); }
      }
    }
  }

  lemma FreshDrawShift(used: set<string>, schoolCode: Option<string>, draws: seq<nat -> Digit>, j: nat)
    requires 0 < j < |draws|
    ensures FreshDraw(used, schoolCode, draws[1..], j - 1) == FreshDraw(used, schoolCode, draws, j)
  {
    assert draws[1..][j - 1] == draws[j];
  }

  /** Dropping a draw that is not fresh keeps the fresh draws, shifted by one. */
  lemma RetryInsertShift(used: set<string>, schoolCode: Option<string>, draws: seq<nat -> Digit>)
    requires draws != [] && !FreshDraw(used, schoolCode, draws, 0)
    ensures (exists k :: 0 <= k < |draws| && FreshDraw(used, schoolCode, draws, k))
        <==> (exists k :: 0 <= k < |draws[1..]| && FreshDraw(used, schoolCode, draws[1..], k))
  {
    forall k | 0 <= k < |draws[1..]|
      ensures FreshDraw(used, schoolCode, draws[1..], k) == FreshDraw(used, schoolCode, draws, k + 1)
    {
      assert draws[1..][k] == draws[k + 1];
    }
    if k :| 0 <= k < |draws| && FreshDraw(used, schoolCode, draws, k) {
      assert k > 0 && FreshDraw(used, schoolCode, draws[1..], k - 1);
    }
  }

  /** The retry loop as written. `Student.objects.create` runs its insert
      under `mark_for_rollback_on_error`. So a duplicate-key error raised
      inside the `atomic` block marks that block for rollback. The next
      insert attempt is then refused with `TransactionManagementError`,
      which the loop does not catch. */
  function RetryInsertAsWritten(used: set<string>, schoolCode: Option<string>,
                                draws: seq<nat -> Digit>): (r: Result<string, RetryError>)
    ensures r.Ok? ==> |draws| > 0 && GenerateAdmissionNumber(AdmissionNumberLength, schoolCode, draws[0]) == Ok(r.value)
    ensures r.Ok? ==> r.value !in used
    ensures |draws| > 0 && GenerateAdmissionNumber(AdmissionNumberLength, schoolCode, draws[0]).Ok? ==>
      var n := GenerateAdmissionNumber(AdmissionNumberLength, schoolCode, draws[0]).value;
      && (n !in used ==> r == Ok(n))
      && (n in used ==> r == Err(TransactionBroken))
    ensures !ConfigurationOk(schoolCode) ==> r == Err(Configuration(ConfigurationError(schoolCode)))
    ensures ConfigurationOk(schoolCode) && draws == [] ==> r == Err(CandidatesExhausted)
  {
    if !ConfigurationOk(schoolCode) then Err(Configuration(ConfigurationError(schoolCode)))
    else if draws == [] then Err(CandidatesExhausted)
    else
      var g := GenerateAdmissionNumber(AdmissionNumberLength, schoolCode, draws[0]);
      if g.Ok? && g.value !in used then Ok(g.value) else Err(TransactionBroken)
  }

  /** One collision is enough to tell the two apart: as written, the
      enrolment fails where the retry was meant to succeed with the next
      fresh number. */
  lemma CollisionBreaksRetryAsWritten(used: set<string>, schoolCode: Option<string>,
                                      draws: seq<nat -> Digit>)
    requires |draws| >= 2
    requires GenerateAdmissionNumber(AdmissionNumberLength, schoolCode, draws[0]).Ok?
    requires GenerateAdmissionNumber(AdmissionNumberLength, schoolCode, draws[0]).value in used
    requires GenerateAdmissionNumber(AdmissionNumberLength, schoolCode, draws[1]).Ok?
    requires GenerateAdmissionNumber(AdmissionNumberLength, schoolCode, draws[1]).value !in used
    ensures RetryInsertAsWritten(used, schoolCode, draws) == Err(TransactionBroken)
    ensures RetryInsert(used, schoolCode, draws)
            == Ok(GenerateAdmissionNumber(AdmissionNumberLength, schoolCode, draws[1]).value)
  {
    assert draws[1..][0] == draws[1];
  }

  /** The two agree whenever the first draw does not collide. */
  lemma RetryAgreesWithoutCollision(used: set<string>, schoolCode: Option<string>,
                                    draws: seq<nat -> Digit>)
    requires |draws| > 0 ==>
             GenerateAdmissionNumber(AdmissionNumberLength, schoolCode, draws[0]).Ok? ==>
             GenerateAdmissionNumber(AdmissionNumberLength, schoolCode, draws[0]).value !in used
    ensures RetryInsertAsWritten(used, schoolCode, draws) == RetryInsert(used, schoolCode, draws)
  {
  }

  /** One attempt of the retry loop. */
  lemma RetryInsertStep(used: set<string>, schoolCode: Option<string>,
                        draws: seq<nat -> Digit>, k: nat)
    requires k < |draws|
    ensures var g := GenerateAdmissionNumber(AdmissionNumberLength, schoolCode, draws[k]);
            RetryInsert(used, schoolCode, draws[k..])
            == if g.Err? then Err(Configuration(g.error))
               else if g.value !in used then Ok(g.value)
               else RetryInsert(used, schoolCode, draws[k + 1..])
  {
    assert draws[k..][0] == draws[k] && draws[k..][1..] == draws[k + 1..];
  }

  /** The callback `create_student_account` registers, as written. The module
      imports the e-mail module as `StudentEmails`, but the callback calls
      `send_account_creation_email` unqualified, a name the module never
      binds: running it raises `NameError`, whose `str(e)` is the detail. */
  function AccountEmailHookAsWritten(n: Notification): (r: HookResult)
    ensures r.HookRaised? && r.error != []
  {
    HookRaised("name 'send_account_creation_email' is not defined")
  }

  /** The callback as intended, `StudentEmails.send_account_creation_email`:
      it returns once the e-mail is handed over, which is I/O. */
  function AccountEmailHook(n: Notification): (r: HookResult)
    ensures !r.HookRaised?
  {
    Ran
  }

  datatype EnrolError = InvalidGender(allowed: seq<string>) | RetryFailed(reason: RetryError)

  /** The `while True` loop of `create_student_account`: draw a number,
      try the insert of a row with the given fields, and on a duplicate
      number try again with the next draw. */
  method InsertWithRetry(db: Database, parent: UserId, hasSibling: bool, firstName: string,
                         lastName: string, gender: Gender, schoolCode: Option<string>,
                         draws: seq<nat -> Digit>)
    returns (r: Result<StudentId, RetryError>)
    requires db.Valid()
    modifies db
    ensures db.Valid()
    ensures db.profiles == old(db.profiles) && db.onCommit == old(db.onCommit)
    ensures var outcome := RetryInsert(AdmissionNumbers(old(db.students)), schoolCode, draws);
      && (outcome.Err? ==> r == Err(outcome.error) && db.students == old(db.students))
      && (outcome.Ok? ==>
            && r.Ok?
            && r.value !in old(db.students)
            && db.students == old(db.students)[r.value :=
                 NewStudent(parent, outcome.value, hasSibling, firstName, lastName, gender)])
  {
    ghost var used := AdmissionNumbers(db.students);
    var k := 0;
    while k < |draws|
      invariant 0 <= k <= |draws|
      invariant db.Valid()
      invariant db.students == old(db.students) && db.profiles == old(db.profiles)
      invariant db.onCommit == old(db.onCommit)
      invariant RetryInsert(used, schoolCode, draws) == RetryInsert(used, schoolCode, draws[k..])
      invariant k > 0 ==> ConfigurationOk(schoolCode)
    {
      RetryInsertStep(used, schoolCode, draws, k);
      var number := GenerateAdmissionNumber(AdmissionNumberLength, schoolCode, draws[k]);
      if number.Err? {
        return Err(Configuration(number.error));
      }
      var id := db.InsertStudent(NewStudent(parent, number.value, hasSibling, firstName, lastName, gender));
      if id.Some? {
        return Ok(id.value);
      }
      k := k + 1;
    }
    assert draws[k..] == [];
    if draws == [] && !ConfigurationOk(schoolCode) {
      // The first attempt runs even without a draw: `generate_admission_number`
      // raises on the school code before it draws a digit.
      return Err(Configuration(ConfigurationError(schoolCode)));
    }
    return Err(CandidatesExhausted);
  }

  /** `create_student_account`, with the retry loop as intended (see
      `RetryInsertAsWritten` for the loop as written). Defaults are applied
      and the gender validated before anything is read or written; the
      sibling flag is read once, before the loop; each attempt draws a fresh
      admission number and tries the insert; the success registers exactly
      one e-mail to be sent after commit. On any failure nothing is written. */
  method CreateStudentAccount(db: Database, user: User, firstName: Option<string>,
                              lastName: Option<string>, gender: Option<string>,
                              schoolCode: Option<string>, draws: seq<nat -> Digit>)
    returns (r: Result<StudentId, EnrolError>)
    requires db.Valid()
    modifies db
    ensures db.Valid()
    ensures db.profiles == old(db.profiles)
    ensures r.Err? ==> db.students == old(db.students) && db.onCommit == old(db.onCommit)
    ensures r == Err(InvalidGender(GenderValues)) <==> ParseGender(EffectiveGender(gender)).None?
    ensures r.Ok? ==>
      && r.value !in old(db.students)
      && r.value in db.students
      && var s := db.students[r.value];
      && db.students == old(db.students)[r.value := s]
      && s.parent == user.id
      && s.hasSibling == (ChildrenOf(old(db.students), user.id) != {})
      && s.firstName == NormalizeName(EffectiveFirstName(firstName))
      && s.lastName == NormalizeName(EffectiveLastName(lastName, user))
      && GenderValue(s.gender) == EffectiveGender(gender)
      && HasCreationDefaults(s)
      && s.admissionNumber !in AdmissionNumbers(old(db.students))
      && db.onCommit == old(db.onCommit) + [AccountCreationEmail(user, s)]
    ensures ParseGender(EffectiveGender(gender)).Some? ==>
      var outcome := RetryInsert(AdmissionNumbers(old(db.students)), schoolCode, draws);
      && (outcome.Err? ==> r == Err(RetryFailed(outcome.error)))
      && (outcome.Ok? ==> r.Ok? && db.students[r.value].admissionNumber == outcome.value)
  {
    var first := EffectiveFirstName(firstName);
    var last := EffectiveLastName(lastName, user);
    var g := ParseGender(EffectiveGender(gender));
    if g.None? {
      return Err(InvalidGender(GenderValues));
    }
    var hasSibling := ChildrenOf(db.students, user.id) != {};
    var id := InsertWithRetry(db, user.id, hasSibling, NormalizeName(first), NormalizeName(last),
                              g.value, schoolCode, draws);
    if id.Err? {
      return Err(RetryFailed(id.error));
    }
    var s := db.students[id.value];
    db.OnCommit(AccountCreationEmail(user, s));
    return Ok(id.value);
  }
}
