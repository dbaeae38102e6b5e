/** The `registration` handler of mysite/polls/views.py, without its HTTP wrapping. */
module Registration {
  import opened Common
  import opened Accounts

  /** The request keys that must be present and non-empty, in the order they are checked. */
  const RequiredFields: seq<string> := ["first_name", "last_name", "patronymic", "email", "password", "birth_date"]

  /** `not data.get(field)`: the key is missing or its value is the empty string. */
  predicate IsBlank(data: map<string, string>, field: string)
  {
    field !in data || data[field] == ""
  }

  function BlankMessage(field: string): string
  {
    "field " + field + " can not be blank"
  }

  /** One entry of the `errors` dictionary. */
  datatype FieldError = FieldError(field: string, message: string)

  /** The fields among `fields` that are blank in `data`, in the order of `fields`. */
  function BlankFields(data: map<string, string>, fields: seq<string>): (r: seq<string>)
    ensures |r| <= |fields|
    ensures forall f :: f in r <==> f in fields && IsBlank(data, f)
  {
    if fields == [] then []
    else
      var last := fields[|fields| - 1];
      var front := BlankFields(data, fields[..|fields| - 1]);
      assert forall f :: f in fields <==> f in fields[..|fields| - 1] || f == last;
      front + (if IsBlank(data, last) then [last] else [])
  }

  /** The loop that fills `errors`: one entry per blank required field, in order. */
  method BlankFieldErrors(data: map<string, string>) returns (errors: seq<FieldError>)
    ensures |errors| == |BlankFields(data, RequiredFields)|
    ensures forall k :: 0 <= k < |errors| ==>
              errors[k] == FieldError(BlankFields(data, RequiredFields)[k], BlankMessage(BlankFields(data, RequiredFields)[k]))
  {
    errors := [];
    for i := 0 to |RequiredFields|
      invariant |errors| == |BlankFields(data, RequiredFields[..i])|
      invariant forall k :: 0 <= k < |errors| ==>
                  errors[k] == FieldError(BlankFields(data, RequiredFields[..i])[k], BlankMessage(BlankFields(data, RequiredFields[..i])[k]))
    {
      assert RequiredFields[..i + 1][..i] == RequiredFields[..i];
      var field := RequiredFields[i];
      if IsBlank(data, field) {
        errors := errors + [FieldError(field, BlankMessage(field))];
      }
    }
    assert RequiredFields[..|RequiredFields|] == RequiredFields;
  }

  /** Every required field is present and non-empty. */
  predicate AllGiven(data: map<string, string>)
  {
    && !IsBlank(data, "first_name") && !IsBlank(data, "last_name") && !IsBlank(data, "patronymic")
    && !IsBlank(data, "email") && !IsBlank(data, "password") && !IsBlank(data, "birth_date")
  }

  /** The checks are complete: no error is reported exactly when every required field is given. */
  lemma NoBlankFieldsIff(data: map<string, string>)
    ensures BlankFields(data, RequiredFields) == [] <==> AllGiven(data)
  {
    var blanks := BlankFields(data, RequiredFields);
    if blanks != [] {
      assert blanks[0] in blanks;
    }
    assert forall f :: f in RequiredFields <==>
      f == "first_name" || f == "last_name" || f == "patronymic" || f == "email" || f == "password" || f == "birth_date";
  }

  datatype RegistrationError =
    | BlankRequiredFields(errors: seq<FieldError>)
    | EmailAlreadyExists
    | PasswordRejected
    | BirthDateRejected
    | NameRejected(error: CleanError)

  /** What the successful response reports about the new user. */
  datatype Registered = Registered(name: string, email: string)

  /** Every required field is given, the email is free, the password is accepted and the birth
      date parses: the request reaches `create_user`. */
  predicate Admitted(users: UserManager, data: map<string, string>, parseDate: string -> Option<Date>)
    reads users
  {
    && AllGiven(data)
    && !users.HasEmail(data["email"])
    && ValidatePassword(Some(data["password"]))
    && parseDate(data["birth_date"]).Some?
  }

  /** `registration`. The user is saved by `create_user` BEFORE `user.clean()` runs, so a
      request whose names do not start with a capital is answered with an error and still
      leaves the new user saved. `parseDate` stands for `datetime.strptime(..., '%Y-%m-%d')`. */
  method Register(users: UserManager, data: map<string, string>, parseDate: string -> Option<Date>)
    returns (r: Result<Registered, RegistrationError>)
    requires users.Valid()
    modifies users
    ensures users.Valid()
    ensures BlankFields(data, RequiredFields) != [] ==>
              && r.Err? && r.error.BlankRequiredFields?
              && |r.error.errors| == |BlankFields(data, RequiredFields)|
              && forall k :: 0 <= k < |r.error.errors| ==>
                   r.error.errors[k] == FieldError(BlankFields(data, RequiredFields)[k], BlankMessage(BlankFields(data, RequiredFields)[k]))
    ensures AllGiven(data) && old(users.HasEmail(data["email"])) ==> r == Err(EmailAlreadyExists)
    ensures AllGiven(data) && !old(users.HasEmail(data["email"])) && !ValidatePassword(Some(data["password"])) ==>
              r == Err(PasswordRejected)
    ensures && AllGiven(data) && !old(users.HasEmail(data["email"])) && ValidatePassword(Some(data["password"]))
            && parseDate(data["birth_date"]).None? ==>
              r == Err(BirthDateRejected)
    ensures !old(Admitted(users, data, parseDate)) ==> r.Err? && users.saved == old(users.saved)
    ensures old(Admitted(users, data, parseDate)) ==>
              var record := UserRecord(data["email"], data["first_name"], data["last_name"], data["patronymic"],
                                       parseDate(data["birth_date"]).value, Hashed(data["password"]));
              var clean := CleanNames(data["first_name"], data["last_name"], data["patronymic"]);
              && users.saved == old(users.saved) + [record]
              && (clean.Pass? ==> r == Ok(Registered(FullName(data["last_name"], data["first_name"], data["patronymic"]), data["email"])))
              && (clean.Fail? ==> r == Err(NameRejected(clean.error)))
  {
    var errors := BlankFieldErrors(data);
    if errors != [] {
      NoBlankFieldsIff(data);
      return Err(BlankRequiredFields(errors));
    }
    NoBlankFieldsIff(data);
    if users.HasEmail(data["email"]) {
      return Err(EmailAlreadyExists);
    }
    if !ValidatePassword(Some(data["password"])) {
      return Err(PasswordRejected);
    }
    var birthDate := parseDate(data["birth_date"]);
    if birthDate.None? {
      return Err(BirthDateRejected);
    }
    var created := users.CreateUser(data["email"], Some(data["password"]), data["first_name"],
                                    data["last_name"], data["patronymic"], birthDate.value);
    match created
    case Err(e) =>
      assert false;
    case Ok(user) =>
      var clean := CleanNames(user.firstName, user.lastName, user.patronymic);
      if clean.Fail? {
        return Err(NameRejected(clean.error));
      }
      return Ok(Registered(FullName(user.lastName, user.firstName, user.patronymic), user.email));
  }
}
