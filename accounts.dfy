/** The user account rules of mysite/polls/models.py: the password rule, the capital-initial
    rule, the display name, `set_password` and the guards of `UserManager.create_user`. */
module Accounts {
  import opened Common
  import Text

  // ---------------------------------------------------------------------------------------
  // Password rule (`User.validate_password`)

  /** The character classes the password rule searches for: `[a-z]`, `[A-Z]` and `\d`. */
  datatype CharClass = Lowercase | Uppercase | Digit

  predicate InClass(c: char, k: CharClass)
  {
    match k
    case Lowercase => Text.IsAsciiLower(c)
    case Uppercase => Text.IsAsciiUpper(c)
    case Digit => Text.IsAsciiDigit(c)
  }

  /** Some character of `s` is in class `k`. */
  ghost predicate HasClass(s: string, k: CharClass)
  {
    exists i :: 0 <= i < |s| && InClass(s[i], k)
  }

  /** `re.search` with a one-class pattern: a left-to-right scan for a character of class `k`. */
  function Search(s: string, k: CharClass): (found: bool)
    ensures found <==> HasClass(s, k)
  {
    if s == [] then false
    else if InClass(s[0], k) then true
    else
      var rest := Search(s[1..], k);
      assert HasClass(s, k) ==> HasClass(s[1..], k) by {
        if HasClass(s, k) {
          var i :| 0 <= i < |s| && InClass(s[i], k);
          assert i != 0 && s[1..][i - 1] == s[i];
        }
      }
      assert HasClass(s[1..], k) ==> HasClass(s, k) by {
        if HasClass(s[1..], k) {
          var i :| 0 <= i < |s[1..]| && InClass(s[1..][i], k);
          assert s[i + 1] == s[1..][i];
        }
      }
      rest
  }

  /** `User.validate_password`: `None` and the empty string are refused, then a password shorter
      than 3 characters, then one lacking a small letter, a capital or a digit. */
  function ValidatePassword(password: Option<string>): (ok: bool)
    ensures ok <==> password.Some? && |password.value| >= 3
                    && HasClass(password.value, Lowercase)
                    && HasClass(password.value, Uppercase)
                    && HasClass(password.value, Digit)
  {
    if password.None? || password.value == [] then false
    else if |password.value| < 3 then false
    else if !Search(password.value, Lowercase) then false
    else if !Search(password.value, Uppercase) then false
    else if !Search(password.value, Digit) then false
    else true
  }

  /** A string holding a small letter, a capital and a digit has at least three characters:
      the three classes are disjoint, so their witnesses are three different positions. */
  lemma ThreeClassesNeedThreeCharacters(s: string)
    requires HasClass(s, Lowercase) && HasClass(s, Uppercase) && HasClass(s, Digit)
    ensures |s| >= 3
  {
    var i :| 0 <= i < |s| && InClass(s[i], Lowercase);
    var j :| 0 <= j < |s| && InClass(s[j], Uppercase);
    var k :| 0 <= k < |s| && InClass(s[k], Digit);
    assert i != j && j != k && i != k;
  }

  /** The emptiness test and the length test of `validate_password` never decide anything:
      the rule accepts exactly the strings holding all three classes. */
  lemma LengthCheckIsImplied(s: string)
    ensures ValidatePassword(Some(s)) <==> Search(s, Lowercase) && Search(s, Uppercase) && Search(s, Digit)
  {
    if Search(s, Lowercase) && Search(s, Uppercase) && Search(s, Digit) {
      ThreeClassesNeedThreeCharacters(s);
    }
  }

  // ---------------------------------------------------------------------------------------
  // Capital-initial rule (`User.clean`)

  /** `str.isupper` on one character, for the Latin capitals `A`..`Z` and the Cyrillic capitals
      U+0400..U+042F (`Ѐ`..`Я`, `Ё` included). */
  predicate IsCapital(c: char)
  {
    Text.IsAsciiUpper(c) || 0x400 <= c as int <= 0x42F
  }

  datatype NameField = FirstName | LastName | Patronymic

  /** `NotCapitalised` is the `ValueError` that `clean` raises; `EmptyName` is the `IndexError`
      that indexing `[0]` of an empty name raises. */
  datatype CleanError = NotCapitalised(field: NameField) | EmptyName(field: NameField)

  /** Position of a field in the order `clean` checks them. */
  function Rank(f: NameField): nat
  {
    match f
    case FirstName => 0
    case LastName => 1
    case Patronymic => 2
  }

  function NameOf(f: NameField, firstName: string, lastName: string, patronymic: string): string
  {
    match f
    case FirstName => firstName
    case LastName => lastName
    case Patronymic => patronymic
  }

  predicate StartsWithCapital(s: string)
  {
    |s| > 0 && IsCapital(s[0])
  }

  function CheckInitial(s: string, f: NameField): Outcome<CleanError>
  {
    if |s| == 0 then Fail(EmptyName(f))
    else if !IsCapital(s[0]) then Fail(NotCapitalised(f))
    else Pass
  }

  /** `User.clean`: each name must start with a capital; the first one in the order first name,
      surname, patronymic that does not is the one reported. */
  function CleanNames(firstName: string, lastName: string, patronymic: string): (r: Outcome<CleanError>)
    ensures r.Pass? <==> StartsWithCapital(firstName) && StartsWithCapital(lastName) && StartsWithCapital(patronymic)
    ensures r.Fail? ==> !StartsWithCapital(NameOf(r.error.field, firstName, lastName, patronymic))
    ensures r.Fail? ==> (r.error.EmptyName? <==> NameOf(r.error.field, firstName, lastName, patronymic) == [])
    ensures r.Fail? ==> forall g :: Rank(g) < Rank(r.error.field) ==> StartsWithCapital(NameOf(g, firstName, lastName, patronymic))
  {
    match CheckInitial(firstName, FirstName)
    case Fail(e) => Fail(e)
    case Pass =>
      match CheckInitial(lastName, LastName)
      case Fail(e) => Fail(e)
      case Pass => CheckInitial(patronymic, Patronymic)
  }

  // ---------------------------------------------------------------------------------------
  // Display name (`User.full_name`, also `__str__`)

  /** Surname, given name and patronymic separated by single spaces. */
  function FullName(lastName: string, firstName: string, patronymic: string): string
  {
    lastName + " " + firstName + " " + patronymic
  }

  /** `str.split(' ')`: the pieces between single spaces, empty pieces included. */
  function SplitOnSpaces(s: string): (parts: seq<string>)
    ensures |parts| >= 1
    decreases |s|
  {
    if s == [] then [""]
    else if s[0] == ' ' then [""] + SplitOnSpaces(s[1..])
    else
      var rest := SplitOnSpaces(s[1..]);
      [[s[0]] + rest[0]] + rest[1..]
  }

  lemma {:induction false} SplitWithoutSpace(a: string)
    requires ' ' !in a
    ensures SplitOnSpaces(a) == [a]
    decreases |a|
  {
    if a != [] {
      assert ' ' !in a[1..] by {
        forall k | 0 <= k < |a[1..]| ensures a[1..][k] != ' ' { assert a[1..][k] == a[k + 1]; }
      }
      SplitWithoutSpace(a[1..]);
      assert [a[0]] + a[1..] == a;
    }
  }

  lemma {:induction false} SplitAfterWord(a: string, b: string)
    requires ' ' !in a
    ensures SplitOnSpaces(a + " " + b) == [a] + SplitOnSpaces(b)
    decreases |a|
  {
    if a == [] {
      assert a + " " + b == [' '] + b;
      assert (a + " " + b)[1..] == b;
    } else {
      assert ' ' !in a[1..] by {
        forall k | 0 <= k < |a[1..]| ensures a[1..][k] != ' ' { assert a[1..][k] == a[k + 1]; }
      }
      SplitAfterWord(a[1..], b);
      assert (a + " " + b)[0] == a[0];
      assert (a + " " + b)[1..] == a[1..] + " " + b;
      assert [a[0]] + a[1..] == a;
    }
  }

  /** The display name splits back into its three parts when none of them holds a space, so
      such names are told apart by their display name. */
  lemma FullNameSplitsBack(lastName: string, firstName: string, patronymic: string)
    requires ' ' !in lastName && ' ' !in firstName && ' ' !in patronymic
    ensures SplitOnSpaces(FullName(lastName, firstName, patronymic)) == [lastName, firstName, patronymic]
  {
    assert FullName(lastName, firstName, patronymic) == lastName + " " + (firstName + " " + patronymic);
    SplitAfterWord(lastName, firstName + " " + patronymic);
    SplitAfterWord(firstName, patronymic);
    SplitWithoutSpace(patronymic);
  }

  // ---------------------------------------------------------------------------------------
  // Stored passwords, `set_password` and `create_user`

  /** A stored password. `Hashed(raw)` stands for `make_password(raw)`: the hashing algorithm
      and its salt are outside the model, so the value only records which raw password it was
      made from. `Unset` is the empty field of a new, unsaved user. */
  datatype Password = Unset | Unusable | Hashed(raw: string)

  datatype PasswordError = InvalidPassword

  /** A saved `User` row. */
  datatype UserRecord = UserRecord(email: string, firstName: string, lastName: string,
                                   patronymic: string, birthDate: Date, password: Password)

  /** An in-memory `User` instance, whose fields its methods assign in place. */
  class User {
    var email: string
    var firstName: string
    var lastName: string
    var patronymic: string
    var birthDate: Date
    var password: Password

    constructor (email: string, firstName: string, lastName: string, patronymic: string, birthDate: Date)
      ensures this.email == email && this.firstName == firstName && this.lastName == lastName
      ensures this.patronymic == patronymic && this.birthDate == birthDate && password == Unset
    {
      this.email := email;
      this.firstName := firstName;
      this.lastName := lastName;
      this.patronymic := patronymic;
      this.birthDate := birthDate;
      password := Unset;
    }

    function Record(): UserRecord
      reads this
    {
      UserRecord(email, firstName, lastName, patronymic, birthDate, password)
    }

    /** `User.set_password`: `None` makes the password unusable; a password the rule refuses
        raises and leaves the stored one as it was; any other is hashed and stored. */
    method SetPassword(raw: Option<string>) returns (r: Outcome<PasswordError>)
      modifies this`password
      ensures raw.None? ==> r == Pass && password == Unusable
      ensures raw.Some? && !ValidatePassword(raw) ==> r == Fail(InvalidPassword) && password == old(password)
      ensures raw.Some? && ValidatePassword(raw) ==> r == Pass && password == Hashed(raw.value)
    {
      if raw.None? {
        password := Unusable;
        return Pass;
      }
      if !ValidatePassword(raw) {
        return Fail(InvalidPassword);
      }
      password := Hashed(raw.value);
      return Pass;
    }
  }

  /** `EmailRequired` and `InvalidPasswordRejected` are the two `ValueError`s of
      `create_user`; `EmailTaken` is the integrity error of the unique `email` column on save. */
  datatype CreateUserError = EmailRequired | InvalidPasswordRejected | EmailTaken

  /** The `User` table as `UserManager` writes it. */
  class UserManager {
    var saved: seq<UserRecord>

    /** `email` is unique among saved users. */
    ghost predicate Valid()
      reads this
    {
      forall i, j :: 0 <= i < j < |saved| ==> saved[i].email != saved[j].email
    }

    predicate HasEmail(email: string)
      reads this
    {
      exists i :: 0 <= i < |saved| && saved[i].email == email
    }

    constructor ()
      ensures Valid() && saved == []
    {
      saved := [];
    }

    /** `UserManager.create_user`: the email and the password are checked before anything is
        built or saved; the user then gets the hash of the password and is saved. */
    method CreateUser(email: string, password: Option<string>, firstName: string, lastName: string,
                      patronymic: string, birthDate: Date) returns (r: Result<User, CreateUserError>)
      requires Valid()
      modifies this
      ensures Valid()
      ensures email == [] ==> r == Err(EmailRequired) && saved == old(saved)
      ensures email != [] && !ValidatePassword(password) ==> r == Err(InvalidPasswordRejected) && saved == old(saved)
      ensures email != [] && ValidatePassword(password) && old(HasEmail(email)) ==>
                r == Err(EmailTaken) && saved == old(saved)
      ensures email != [] && ValidatePassword(password) && !old(HasEmail(email)) ==>
                && r.Ok? && fresh(r.value)
                && r.value.Record() == UserRecord(email, firstName, lastName, patronymic, birthDate, Hashed(password.value))
                && saved == old(saved) + [r.value.Record()]
    {
      if email == [] {
        return Err(EmailRequired);
      }
      if !ValidatePassword(password) {
        return Err(InvalidPasswordRejected);
      }
      if HasEmail(email) {
        return Err(EmailTaken);
      }
      var user := new User(email, firstName, lastName, patronymic, birthDate);
      user.password := Hashed(password.value);
      saved := saved + [user.Record()];
      return Ok(user);
    }
  }
}
