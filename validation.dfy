/**
 * The browser-side form checks. Each validator runs its checks in field order
 * and collects one message per failing check; an empty list means the form may
 * be submitted. A missing field (`undefined` or `null`) is `None`; JavaScript
 * truthiness of a string is "present and not empty".
 */
module Validation {
  import opened Domain
  import opened Seqs
  import opened Text
  import ItemService

  /** The messages the validators collect; `Wording` gives the words the user sees. */
  datatype FormError =
    | ItemNameTooShort | DescriptionTooShort | CategoryRequired | ItemTypeRequired
    | NameTooShort | DepartmentTooShort | RegistrationNumberInvalid | YearOfStudyInvalid
    | EmailInvalid | PasswordTooShort | PasswordsDiffer

  function Wording(e: FormError): string {
    match e
    case ItemNameTooShort => "Item name must be at least 3 characters long"
    case DescriptionTooShort => "Description must be at least 10 characters long"
    case CategoryRequired => "Category is required"
    case ItemTypeRequired => "Item type is required"
    case NameTooShort => "Name must be at least 2 characters long"
    case DepartmentTooShort => "Department must be at least 2 characters long"
    case RegistrationNumberInvalid => "Registration number must be at least 8 digits"
    case YearOfStudyInvalid => "Year of study must be between 1 and 5"
    case EmailInvalid => "Please enter a valid email address"
    case PasswordTooShort => "Password must be at least 6 characters long"
    case PasswordsDiffer => "Passwords do not match"
  }

  /** The value of `yearOfStudy`: absent, an integer number, or any other value with its truthiness. */
  datatype YearValue = NoYear | IntegerYear(n: int) | OtherYear(truthy: bool)

  datatype ItemForm = ItemForm(name: Option<string>, description: Option<string>,
                               category: Option<string>, itemType: Option<string>)
  datatype ProfileForm = ProfileForm(name: Option<string>, department: Option<string>,
                                     registrationNumber: Option<string>, yearOfStudy: YearValue)
  datatype LoginForm = LoginForm(email: Option<string>, password: Option<string>)
  datatype SignupForm = SignupForm(name: Option<string>, email: Option<string>,
                                   password: Option<string>, confirmPassword: Option<string>)

  /** `!!s` for a string value. */
  predicate Truthy(s: Option<string>) {
    s.Some? && s.value != []
  }

  /** `s && s.trim().length >= n`. */
  predicate LongEnough(s: Option<string>, n: nat) {
    Truthy(s) && |Trim(s.value, IsJsSpace)| >= n
  }

  /** `/^\d{8,}$/`: eight or more ASCII digits and nothing else. */
  predicate IsRegistrationNumber(s: string) {
    |s| >= 8 && forall i :: 0 <= i < |s| ==> '0' <= s[i] <= '9'
  }

  /** `s && s.trim().length < n`: an optional field that is present but too short. */
  predicate OptionalTooShort(s: Option<string>, n: nat) {
    Truthy(s) && !LongEnough(s, n)
  }

  /** `s && !/^\d{8,}$/.test(s)`. */
  predicate RegistrationRejected(s: Option<string>) {
    Truthy(s) && !IsRegistrationNumber(s.value)
  }

  /** `!s || !isValidEmail(s)`. */
  predicate EmailRejected(s: Option<string>) {
    !(Truthy(s) && IsValidEmail(s.value))
  }

  /** `!s || s.length < 6`: the length counts every character, spaces included. */
  predicate PasswordRejected(s: Option<string>) {
    !(s.Some? && |s.value| >= 6)
  }

  /** `password !== confirmPassword`: two missing values are equal, a missing and an empty one are not. */
  predicate ConfirmationDiffers(signup: SignupForm) {
    signup.password != signup.confirmPassword
  }

  /** `yearOfStudy && (!Number.isInteger(yearOfStudy) || yearOfStudy < 1 || yearOfStudy > 5)`. */
  predicate YearRejected(y: YearValue) {
    match y
    case NoYear => false
    case IntegerYear(n) => n != 0 && (n < 1 || n > 5)
    case OtherYear(truthy) => truthy
  }

  /** A character `[^\s@]` accepts. */
  predicate Plain(c: char) {
    !IsJsSpace(c) && c != '@'
  }

  predicate AllPlain(t: string) {
    forall k :: 0 <= k < |t| ==> Plain(t[k])
  }

  /**
   * The language of `/^[^\s@]+@[^\s@]+\.[^\s@]+$/`: a non-empty local part, `@`,
   * a non-empty domain part, a dot, a non-empty last part, none of the three
   * parts holding white space or `@`.
   */
  ghost predicate EmailShape(s: string) {
    exists i, j :: 0 < i && i + 1 < j && j + 1 < |s| && s[i] == '@' && s[j] == '.'
      && AllPlain(s[..i]) && AllPlain(s[i + 1..j]) && AllPlain(s[j + 1..])
  }

  function IsAt(c: char): bool {
    c == '@'
  }

  /** isValidEmail: the regular expression, decided at the first `@`. */
  function IsValidEmail(s: string): (ok: bool)
    ensures ok ==> |s| >= 5 && '@' in s && Plain(s[0]) && Plain(s[|s| - 1])
  {
    var at := FirstIndex(s, IsAt);
    var ok := && at.Some? && 0 < at.value && AllPlain(s[..at.value]) && AllPlain(s[at.value + 1..])
              && |s| - at.value >= 4 && '.' in s[at.value + 2..|s| - 1];
    if ok then
      var local, rest := s[..at.value], s[at.value + 1..];
      assert s[0] == local[0] && s[|s| - 1] == rest[|rest| - 1];
      ok
    else
      ok
  }

  /** `IsValidEmail` accepts exactly the strings the regular expression describes. */
  lemma EmailCheckMatchesPattern(s: string)
    ensures IsValidEmail(s) <==> EmailShape(s)
  {
    if IsValidEmail(s) {
      AcceptedEmailHasShape(s);
    }
    if EmailShape(s) {
      EmailShapeAccepted(s);
    }
  }

  lemma AcceptedEmailHasShape(s: string)
    requires IsValidEmail(s)
    ensures EmailShape(s)
  {
    var i := FirstIndex(s, IsAt).value;
    var m :| 0 <= m < |s[i + 2..|s| - 1]| && s[i + 2..|s| - 1][m] == '.';
    EmailShapeIntro(s, i, i + 2 + m);
  }

  lemma EmailShapeAccepted(s: string)
    requires EmailShape(s)
    ensures IsValidEmail(s)
  {
    var i, j :| 0 < i && i + 1 < j && j + 1 < |s| && s[i] == '@' && s[j] == '.'
      && AllPlain(s[..i]) && AllPlain(s[i + 1..j]) && AllPlain(s[j + 1..]);
    EmailShapeElim(s, i, j);
  }

  /** Splitting at a first `@` and a later inner dot meets the pattern. */
  lemma EmailShapeIntro(s: string, i: nat, j: nat)
    requires 0 < i && i + 1 < j && j + 1 < |s| && s[i] == '@' && s[j] == '.'
    requires AllPlain(s[..i]) && AllPlain(s[i + 1..])
    ensures EmailShape(s)
  {
    var domain, rest, last := s[i + 1..j], s[i + 1..], s[j + 1..];
    forall k | 0 <= k < |domain|
      ensures Plain(domain[k])
    {
      assert domain[k] == rest[k];
    }
    forall k | 0 <= k < |last|
      ensures Plain(last[k])
    {
      assert last[k] == rest[k + j - i];
    }
  }

  /** Any split the pattern allows has the first `@` at `i` and the dot inside the domain. */
  lemma EmailShapeElim(s: string, i: nat, j: nat)
    requires 0 < i && i + 1 < j && j + 1 < |s| && s[i] == '@' && s[j] == '.'
    requires AllPlain(s[..i]) && AllPlain(s[i + 1..j]) && AllPlain(s[j + 1..])
    ensures FirstIndex(s, IsAt) == Some(i)
    ensures AllPlain(s[i + 1..])
    ensures '.' in s[i + 2..|s| - 1]
  {
    forall k | 0 <= k < i
      ensures !IsAt(s[k])
    {
      assert s[..i][k] == s[k];
    }
    var domain, rest, last := s[i + 1..j], s[i + 1..], s[j + 1..];
    forall k | 0 <= k < |rest|
      ensures Plain(rest[k])
    {
      if k < j - i - 1 {
        assert rest[k] == domain[k];
      } else if k > j - i - 1 {
        assert rest[k] == last[k - (j - i)];
      }
    }
    assert s[i + 2..|s| - 1][j - i - 2] == s[j];
  }

  /** Message ranks: the order in which a validator runs its checks. */
  function ItemRank(e: FormError): int {
    match e
    case ItemNameTooShort => 0
    case DescriptionTooShort => 1
    case CategoryRequired => 2
    case _ => 3
  }

  function ProfileRank(e: FormError): int {
    match e
    case NameTooShort => 0
    case DepartmentTooShort => 1
    case RegistrationNumberInvalid => 2
    case _ => 3
  }

  function SignupRank(e: FormError): int {
    match e
    case NameTooShort => 0
    case EmailInvalid => 1
    case PasswordTooShort => 2
    case _ => 3
  }

  /** Each message at most once, in check order. */
  ghost predicate InCheckOrder(errors: seq<FormError>, rank: FormError -> int) {
    forall i, j :: 0 <= i < j < |errors| ==> rank(errors[i]) < rank(errors[j])
  }

  /** `if (failed) errors.push(e)`. */
  function Note(errors: seq<FormError>, failed: bool, e: FormError): seq<FormError> {
    if failed then errors + [e] else errors
  }

  /** Noting a message ranked after every collected one keeps the check order. */
  lemma NoteInOrder(errors: seq<FormError>, failed: bool, e: FormError, rank: FormError -> int)
    requires InCheckOrder(errors, rank)
    requires forall x :: x in errors ==> rank(x) < rank(e)
    ensures InCheckOrder(Note(errors, failed, e), rank)
    ensures forall x :: x in Note(errors, failed, e) <==> x in errors || (failed && x == e)
  {
    if failed {
      var r := errors + [e];
      forall i, j | 0 <= i < j < |r|
        ensures rank(r[i]) < rank(r[j])
      {
        assert r[i] == errors[i];
        if j == |errors| {
          assert r[i] in errors;
        } else {
          assert r[j] == errors[j];
        }
      }
    }
  }

  /** The messages four checks in a row collect. */
  function NoteAll(f0: bool, e0: FormError, f1: bool, e1: FormError, f2: bool, e2: FormError,
                   f3: bool, e3: FormError): seq<FormError> {
    Note(Note(Note(Note([], f0, e0), f1, e1), f2, e2), f3, e3)
  }

  /**
   * Four checks in a row: each message is collected exactly when its check fails,
   * nothing else is, and the messages keep the order of the checks.
   */
  lemma NoteFour(f0: bool, e0: FormError, f1: bool, e1: FormError, f2: bool, e2: FormError,
                 f3: bool, e3: FormError, rank: FormError -> int)
    requires rank(e0) < rank(e1) < rank(e2) < rank(e3)
    ensures var r := NoteAll(f0, e0, f1, e1, f2, e2, f3, e3);
      && (e0 in r <==> f0) && (e1 in r <==> f1) && (e2 in r <==> f2) && (e3 in r <==> f3)
      && (forall m :: m in r ==> m == e0 || m == e1 || m == e2 || m == e3)
      && InCheckOrder(r, rank)
      && (r == [] <==> !f0 && !f1 && !f2 && !f3)
  {
    var r0 := Note([], f0, e0);
    var r1 := Note(r0, f1, e1);
    var r2 := Note(r1, f2, e2);
    var r3 := Note(r2, f3, e3);
    NoteFirst(f0, e0, rank);
    NoteNext(r0, f1, e1, rank, e0, e0, e0);
    NoteNext(r1, f2, e2, rank, e0, e1, e1);
    NoteNext(r2, f3, e3, rank, e0, e1, e2);
    assert r3 == NoteAll(f0, e0, f1, e1, f2, e2, f3, e3);
  }

  lemma NoteFirst(f: bool, e: FormError, rank: FormError -> int)
    ensures InCheckOrder(Note([], f, e), rank)
    ensures forall m :: m in Note([], f, e) ==> m == e
    ensures e in Note([], f, e) <==> f
    ensures Note([], f, e) == [] <==> !f
  {
  }

  /**
   * One more check after messages drawn from `a`, `b`, `c`, all ranked before `e`:
   * the order is kept, `e` is collected exactly when the check fails, and the
   * earlier messages stay as they were.
   */
  lemma NoteNext(r: seq<FormError>, f: bool, e: FormError, rank: FormError -> int,
                 a: FormError, b: FormError, c: FormError)
    requires InCheckOrder(r, rank)
    requires forall m :: m in r ==> m == a || m == b || m == c
    requires rank(a) < rank(e) && rank(b) < rank(e) && rank(c) < rank(e)
    ensures InCheckOrder(Note(r, f, e), rank)
    ensures forall m :: m in Note(r, f, e) ==> m == a || m == b || m == c || m == e
    ensures e in Note(r, f, e) <==> f
    ensures forall m :: m != e ==> (m in Note(r, f, e) <==> m in r)
    ensures Note(r, f, e) == [] <==> r == [] && !f
  {
    NoteInOrder(r, f, e, rank);
  }

  /** validateItem. */
  method ValidateItem(item: ItemForm) returns (errors: seq<FormError>)
    ensures ItemNameTooShort in errors <==> !LongEnough(item.name, 3)
    ensures DescriptionTooShort in errors <==> !LongEnough(item.description, 10)
    ensures CategoryRequired in errors <==> !Truthy(item.category)
    ensures ItemTypeRequired in errors <==> !Truthy(item.itemType)
    ensures forall m :: m in errors ==>
      m == ItemNameTooShort || m == DescriptionTooShort || m == CategoryRequired || m == ItemTypeRequired
    ensures InCheckOrder(errors, ItemRank)
    ensures errors == [] <==> LongEnough(item.name, 3) && LongEnough(item.description, 10)
                              && Truthy(item.category) && Truthy(item.itemType)
  {
    var nameFails, descriptionFails := !LongEnough(item.name, 3), !LongEnough(item.description, 10);
    var categoryFails, typeFails := !Truthy(item.category), !Truthy(item.itemType);
    errors := [];
    errors := Note(errors, nameFails, ItemNameTooShort);
    errors := Note(errors, descriptionFails, DescriptionTooShort);
    errors := Note(errors, categoryFails, CategoryRequired);
    errors := Note(errors, typeFails, ItemTypeRequired);
    NoteFour(nameFails, ItemNameTooShort, descriptionFails, DescriptionTooShort,
             categoryFails, CategoryRequired, typeFails, ItemTypeRequired, ItemRank);
  }

  /** validateProfile: only the name is required; the other fields are checked when present. */
  method ValidateProfile(profile: ProfileForm) returns (errors: seq<FormError>)
    ensures NameTooShort in errors <==> !LongEnough(profile.name, 2)
    ensures DepartmentTooShort in errors <==> OptionalTooShort(profile.department, 2)
    ensures RegistrationNumberInvalid in errors <==> RegistrationRejected(profile.registrationNumber)
    ensures YearOfStudyInvalid in errors <==> YearRejected(profile.yearOfStudy)
    ensures forall m :: m in errors ==>
      m == NameTooShort || m == DepartmentTooShort || m == RegistrationNumberInvalid || m == YearOfStudyInvalid
    ensures InCheckOrder(errors, ProfileRank)
  {
    var nameFails := !LongEnough(profile.name, 2);
    var departmentFails := OptionalTooShort(profile.department, 2);
    var numberFails := RegistrationRejected(profile.registrationNumber);
    var yearFails := YearRejected(profile.yearOfStudy);
    errors := [];
    errors := Note(errors, nameFails, NameTooShort);
    errors := Note(errors, departmentFails, DepartmentTooShort);
    errors := Note(errors, numberFails, RegistrationNumberInvalid);
    errors := Note(errors, yearFails, YearOfStudyInvalid);
    NoteFour(nameFails, NameTooShort, departmentFails, DepartmentTooShort,
             numberFails, RegistrationNumberInvalid, yearFails, YearOfStudyInvalid, ProfileRank);
  }

  /** validateLogin: the password length counts its spaces. */
  method ValidateLogin(login: LoginForm) returns (errors: seq<FormError>)
    ensures EmailInvalid in errors <==> EmailRejected(login.email)
    ensures PasswordTooShort in errors <==> PasswordRejected(login.password)
    ensures errors == [] || errors == [EmailInvalid] || errors == [PasswordTooShort]
         || errors == [EmailInvalid, PasswordTooShort]
  {
    var emailFails := EmailRejected(login.email);
    var passwordFails := PasswordRejected(login.password);
    errors := [];
    errors := Note(errors, emailFails, EmailInvalid);
    errors := Note(errors, passwordFails, PasswordTooShort);
  }

  /** validateSignup: the profile's name rule, the login rules, then the confirmation. */
  method ValidateSignup(signup: SignupForm) returns (errors: seq<FormError>)
    ensures NameTooShort in errors <==> !LongEnough(signup.name, 2)
    ensures EmailInvalid in errors <==> EmailRejected(signup.email)
    ensures PasswordTooShort in errors <==> PasswordRejected(signup.password)
    ensures PasswordsDiffer in errors <==> ConfirmationDiffers(signup)
    ensures forall m :: m in errors ==>
      m == NameTooShort || m == EmailInvalid || m == PasswordTooShort || m == PasswordsDiffer
    ensures InCheckOrder(errors, SignupRank)
  {
    var nameFails := !LongEnough(signup.name, 2);
    var emailFails := EmailRejected(signup.email);
    var passwordFails := PasswordRejected(signup.password);
    var mismatch := ConfirmationDiffers(signup);
    errors := [];
    errors := Note(errors, nameFails, NameTooShort);
    errors := Note(errors, emailFails, EmailInvalid);
    errors := Note(errors, passwordFails, PasswordTooShort);
    errors := Note(errors, mismatch, PasswordsDiffer);
    NoteFour(nameFails, NameTooShort, emailFails, EmailInvalid,
             passwordFails, PasswordTooShort, mismatch, PasswordsDiffer, SignupRank);
    assert errors == NoteAll(nameFails, NameTooShort, emailFails, EmailInvalid,
                             passwordFails, PasswordTooShort, mismatch, PasswordsDiffer);
  }

  /**
   * A name the item form accepts is also non-blank for the server's `trim()`
   * when it holds no control character below U+0020 other than JavaScript white space.
   */
  lemma {:induction false} AcceptedNameNotBlankOnServer(name: Option<string>)
    requires LongEnough(name, 3)
    requires forall i :: 0 <= i < |name.value| ==> IsJavaSpace(name.value[i]) ==> IsJsSpace(name.value[i])
    ensures !ItemService.Blank(name)
  {
    TrimEmpty(name.value, IsJsSpace);
    TrimEmpty(name.value, IsJavaSpace);
  }

  /** Without that condition the two layers disagree: three U+0001 characters pass the form but are blank on the server. */
  lemma ControlCharactersPassOnlyTheForm()
    ensures var name := [1 as char, 1 as char, 1 as char];
      LongEnough(Some(name), 3) && ItemService.Blank(Some(name))
  {
    var name := [1 as char, 1 as char, 1 as char];
    TrimEmpty(name, IsJavaSpace);
    assert TrimStart(name, IsJsSpace) == name;
    assert TrimEnd(name, IsJsSpace) == name;
  }
}
