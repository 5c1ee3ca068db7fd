/**
  `Login` (package quickchatapp): five nullable credential fields, their
  validators, registration and login. This variant only accepts South African
  numbers (`+27` and nine digits).
 */
module QuickChatLogin {
  import opened Wrappers
  import opened JavaStrings

  /** Which of `registerUser`'s fixed messages is returned. */
  datatype Registration =
    | FirstNameEmpty | LastNameEmpty | UsernameEmpty | PasswordEmpty | CellEmpty
    | UsernameIncorrect | PasswordIncorrect | CellIncorrect
    | Registered

  /** The messages for a user name, password or cell number that breaks its rule. */
  const UsernameFormatText := "Username is not correctly formatted, please ensure that your username contains an underscore and is no more than five characters in length."
  const PasswordFormatText := "Password is not correctly formatted, please ensure that the password contains at least eight characters, a capital letter, a number, and a special character."
  const CellFormatText := "Cell phone number incorrectly formatted or does not contain international code."

  /** The exact text of each registration message. */
  function RegistrationText(r: Registration): (t: string)
    ensures t == "User registered successfully." <==> r == Registered
  {
    match r
    case FirstNameEmpty => "First name cannot be empty."
    case LastNameEmpty => "Last name cannot be empty."
    case UsernameEmpty => "Username cannot be empty."
    case PasswordEmpty => "Password cannot be empty."
    case CellEmpty => "Cell phone number cannot be empty."
    case UsernameIncorrect => UsernameFormatText
    case PasswordIncorrect => PasswordFormatText
    case CellIncorrect => CellFormatText
    case Registered => "User registered successfully."
  }

  /** Every outcome has its own message: no two outcomes share a text. */
  lemma RegistrationTextIsInjective(r1: Registration, r2: Registration)
    ensures RegistrationText(r1) == RegistrationText(r2) ==> r1 == r2
  {
  }

  const LoginIncorrect := "Username or password incorrect, please try again."

  /** `s == null || s.trim().isEmpty()`; by `Trim`'s contract, `trim()` is empty exactly for blank strings. */
  predicate NullOrBlank(s: Option<string>) {
    s.None? || IsBlank(s.value)
  }

  /** Java's string concatenation, which writes a null reference as "null". */
  function Text(s: Option<string>): string {
    if s.None? then "null" else s.value
  }

  /** `checkfirstName` / `checklastName`: not null, not empty, no space character. */
  predicate NameRule(name: Option<string>) {
    name.Some? && name.value != "" && ' ' !in name.value
  }

  /** `checkUserName`: contains an underscore and is at most five characters long. */
  predicate UserNameRule(username: Option<string>) {
    username.Some? && '_' in username.value && |username.value| <= 5
  }

  /** What `checkPasswordComplexity` decides: at least eight characters, a capital, a digit and a non-alphanumeric character. */
  predicate PasswordRule(password: Option<string>) {
    password.Some? && |password.value| >= 8
    && HasUpper(password.value) && HasDigit(password.value) && HasSpecial(password.value)
  }

  /** `^\+27[0-9]{9}$`, matched against the whole string. */
  predicate MatchesSouthAfrican(s: string) {
    |s| == 12 && s[..3] == "+27" && AllDigits(s[3..])
  }

  /** `checkCellPhoneNumber` */
  predicate CellRule(cell: Option<string>) {
    cell.Some? && MatchesSouthAfrican(cell.value)
  }

  predicate AnyNullOrBlank(f: Option<string>, l: Option<string>, u: Option<string>, p: Option<string>, c: Option<string>) {
    NullOrBlank(f) || NullOrBlank(l) || NullOrBlank(u) || NullOrBlank(p) || NullOrBlank(c)
  }

  /** An input passing its credential rule cannot be null or blank. */
  lemma RulesImplyNotBlank(u: Option<string>, p: Option<string>, c: Option<string>)
    ensures UserNameRule(u) ==> !NullOrBlank(u)
    ensures PasswordRule(p) ==> !NullOrBlank(p)
    ensures CellRule(c) ==> !NullOrBlank(c)
  {
    if CellRule(c) {
      assert c.value[0] == c.value[..3][0];
    }
  }

  /** The message `registerUser` returns for these five inputs. */
  function RegistrationResponse(f: Option<string>, l: Option<string>, u: Option<string>, p: Option<string>, c: Option<string>): (r: Registration)
    ensures r == Registered <==> !NullOrBlank(f) && !NullOrBlank(l) && UserNameRule(u) && PasswordRule(p) && CellRule(c)
    ensures AnyNullOrBlank(f, l, u, p, c) <==> r.FirstNameEmpty? || r.LastNameEmpty? || r.UsernameEmpty? || r.PasswordEmpty? || r.CellEmpty?
    ensures r == FirstNameEmpty <==> NullOrBlank(f)
    ensures r == LastNameEmpty <==> !NullOrBlank(f) && NullOrBlank(l)
    ensures r == UsernameEmpty <==> !NullOrBlank(f) && !NullOrBlank(l) && NullOrBlank(u)
    ensures r == PasswordEmpty <==> !NullOrBlank(f) && !NullOrBlank(l) && !NullOrBlank(u) && NullOrBlank(p)
    ensures r == CellEmpty <==> !NullOrBlank(f) && !NullOrBlank(l) && !NullOrBlank(u) && !NullOrBlank(p) && NullOrBlank(c)
    ensures r == UsernameIncorrect <==> !AnyNullOrBlank(f, l, u, p, c) && !UserNameRule(u)
    ensures r == PasswordIncorrect <==> !AnyNullOrBlank(f, l, u, p, c) && UserNameRule(u) && !PasswordRule(p)
    ensures r == CellIncorrect <==> !AnyNullOrBlank(f, l, u, p, c) && UserNameRule(u) && PasswordRule(p) && !CellRule(c)
  {
    RulesImplyNotBlank(u, p, c);
    if NullOrBlank(f) then FirstNameEmpty
    else if NullOrBlank(l) then LastNameEmpty
    else if NullOrBlank(u) then UsernameEmpty
    else if NullOrBlank(p) then PasswordEmpty
    else if NullOrBlank(c) then CellEmpty
    else if !UserNameRule(u) then UsernameIncorrect
    else if !PasswordRule(p) then PasswordIncorrect
    else if !CellRule(c) then CellIncorrect
    else Registered
  }

  /** Registration never applies the no-space name rule: a first name with a space is accepted. */
  lemma RegistrationIgnoresNameRule()
    ensures !NameRule(Some("Mary Ann"))
    ensures RegistrationResponse(Some("Mary Ann"), Some("Doe"), Some("kyl_1"), Some("Ch&&sec@ke99!"), Some("+27838968976")) == Registered
  {
    assert "Mary Ann"[4] == ' ';
    var p := "Ch&&sec@ke99!";
    assert IsUpper(p[0]) && IsDigit(p[10]) && !IsLetterOrDigit(p[2]);
    assert "kyl_1"[3] == '_';
    assert "Doe"[0] > ' ' && "Mary Ann"[0] > ' ' && "+27838968976"[0] > ' ';
  }

  /** Every number this variant accepts is eligible for `+` and 8 to 13 digits; the converse fails. */
  lemma SouthAfricanIsInternational(s: string)
    requires MatchesSouthAfrican(s)
    ensures |s| >= 1 && s[0] == '+' && 8 <= |s| - 1 <= 13 && AllDigits(s[1..])
  {
    assert s[0] == s[..3][0] == '+';
    forall i | 0 <= i < |s| - 1 ensures IsDigit(s[1..][i]) {
      if i >= 2 { assert s[1..][i] == s[3..][i - 2]; }
      else { assert s[1..][i] == s[..3][i + 1]; }
    }
  }

  class Login {
    var username: Option<string>
    var password: Option<string>
    var cellPhoneNumber: Option<string>
    var firstName: Option<string>
    var lastName: Option<string>

    /** Every field starts as the empty string. */
    constructor ()
      ensures username == Some("") && password == Some("") && cellPhoneNumber == Some("")
      ensures firstName == Some("") && lastName == Some("")
    {
      username, password, cellPhoneNumber := Some(""), Some(""), Some("");
      firstName, lastName := Some(""), Some("");
    }

    /** The four-argument constructor leaves the cell number null. */
    constructor WithCredentials(firstName: string, lastName: string, username: string, password: string)
      ensures this.firstName == Some(firstName) && this.lastName == Some(lastName)
      ensures this.username == Some(username) && this.password == Some(password)
      ensures cellPhoneNumber == None
    {
      this.firstName, this.lastName := Some(firstName), Some(lastName);
      this.username, this.password := Some(username), Some(password);
      cellPhoneNumber := None;
    }

    /** `checkfirstName` */
    function CheckFirstName(): (ok: bool)
      reads this
      ensures ok <==> NameRule(firstName)
    {
      if firstName.None? then false
      else if firstName.value == "" then false
      else if ' ' in firstName.value then false
      else true
    }

    /** `checklastName` */
    function CheckLastName(): (ok: bool)
      reads this
      ensures ok <==> NameRule(lastName)
    {
      if lastName.None? then false
      else if lastName.value == "" then false
      else if ' ' in lastName.value then false
      else true
    }

    /** `checkUserName`: the empty string fails, since it has no underscore. */
    function CheckUserName(): (ok: bool)
      reads this
      ensures ok <==> UserNameRule(username)
      ensures username == Some("") ==> !ok
    {
      if username.None? then false else '_' in username.value && |username.value| <= 5
    }

    /** `checkPasswordComplexity`: one pass over the characters setting three flags. */
    method CheckPasswordComplexity() returns (ok: bool)
      ensures ok == PasswordRule(password)
    {
      if password.None? || |password.value| < 8 {
        return false;
      }
      var pw := password.value;
      var hasCapital, hasNumber, hasSpecialChar := false, false, false;
      for i := 0 to |pw|
        invariant hasCapital <==> exists j :: 0 <= j < i && IsUpper(pw[j])
        invariant hasNumber <==> exists j :: 0 <= j < i && IsDigit(pw[j])
        invariant hasSpecialChar <==> exists j :: 0 <= j < i && !IsLetterOrDigit(pw[j])
      {
        var c := pw[i];
        if IsUpper(c) {
          hasCapital := true;
        } else if IsDigit(c) {
          hasNumber := true;
        } else if !IsLetterOrDigit(c) {
          hasSpecialChar := true;
        }
      }
      ok := hasCapital && hasNumber && hasSpecialChar;
    }

    /** `checkCellPhoneNumber`: false for null, otherwise `+27` and exactly nine digits. */
    function CheckCellPhoneNumber(): (ok: bool)
      reads this
      ensures ok ==> cellPhoneNumber.Some? && |cellPhoneNumber.value| == 12
      ensures ok <==> CellRule(cellPhoneNumber)
    {
      if cellPhoneNumber.None? then false else MatchesSouthAfrican(cellPhoneNumber.value)
    }

    /**
      `registerUser`, returning which message (`RegistrationText` gives its
      text): a null or blank input returns its message and changes
      nothing; otherwise all five fields are assigned first, and only then are
      the username, password and cell number checked, in that order.
     */
    method RegisterUser(firstName: Option<string>, lastName: Option<string>, username: Option<string>,
                        password: Option<string>, cellPhoneNumber: Option<string>) returns (response: Registration)
      modifies this
      ensures response == RegistrationResponse(firstName, lastName, username, password, cellPhoneNumber)
      ensures AnyNullOrBlank(firstName, lastName, username, password, cellPhoneNumber) ==>
                this.firstName == old(this.firstName) && this.lastName == old(this.lastName)
                && this.username == old(this.username) && this.password == old(this.password)
                && this.cellPhoneNumber == old(this.cellPhoneNumber)
      ensures !AnyNullOrBlank(firstName, lastName, username, password, cellPhoneNumber) ==>
                this.firstName == firstName && this.lastName == lastName
                && this.username == username && this.password == password
                && this.cellPhoneNumber == cellPhoneNumber
      ensures !AnyNullOrBlank(firstName, lastName, username, password, cellPhoneNumber) ==>
                LoginUser(username, password)
    {
      if NullOrBlank(firstName) { return FirstNameEmpty; }
      if NullOrBlank(lastName) { return LastNameEmpty; }
      if NullOrBlank(username) { return UsernameEmpty; }
      if NullOrBlank(password) { return PasswordEmpty; }
      if NullOrBlank(cellPhoneNumber) { return CellEmpty; }

      this.firstName := firstName;
      this.lastName := lastName;
      this.username := username;
      this.password := password;
      this.cellPhoneNumber := cellPhoneNumber;

      var isUsernameValid := CheckUserName();
      var isPasswordValid := CheckPasswordComplexity();
      var isCellPhoneValid := CheckCellPhoneNumber();

      if !isUsernameValid { return UsernameIncorrect; }
      if !isPasswordValid { return PasswordIncorrect; }
      if !isCellPhoneValid { return CellIncorrect; }
      return Registered;
    }

    /** The inputs for which `loginUser` does not dereference a null stored username or password. */
    predicate LoginDefined(username: Option<string>, password: Option<string>)
      reads this
    {
      NullOrBlank(username) || NullOrBlank(password)
      || (this.username.Some? && (this.username.value != username.value || this.password.Some?))
    }

    /** `loginUser`: null or blank inputs fail; otherwise both must equal the stored values exactly. */
    function LoginUser(username: Option<string>, password: Option<string>): (ok: bool)
      reads this
      requires LoginDefined(username, password)
      ensures ok <==> !NullOrBlank(username) && !NullOrBlank(password)
                      && this.username == username && this.password == password
    {
      if NullOrBlank(username) then false
      else if NullOrBlank(password) then false
      else this.username.value == username.value && this.password.value == password.value
    }

    /** `returnLoginStatus`: the welcome line (no space after the comma) or the failure line. */
    function ReturnLoginStatus(username: Option<string>, password: Option<string>): (status: string)
      reads this
      requires LoginDefined(username, password)
      ensures LoginUser(username, password) ==>
                status == "Welcome " + Text(firstName) + "," + Text(lastName) + " it is great to see you again."
      ensures !LoginUser(username, password) ==> status == LoginIncorrect
    {
      if LoginUser(username, password) then
        "Welcome " + Text(firstName) + "," + Text(lastName) + " it is great to see you again."
      else LoginIncorrect
    }

    method SetUsername(username: Option<string>)
      modifies this`username
      ensures this.username == username
    {
      this.username := username;
    }

    method SetPassword(password: Option<string>)
      modifies this`password
      ensures this.password == password
    {
      this.password := password;
    }

    method SetCellPhoneNumber(cellPhoneNumber: Option<string>)
      modifies this`cellPhoneNumber
      ensures this.cellPhoneNumber == cellPhoneNumber
    {
      this.cellPhoneNumber := cellPhoneNumber;
    }

    method SetFirstName(firstName: Option<string>)
      modifies this`firstName
      ensures this.firstName == firstName
    {
      this.firstName := firstName;
    }

    method SetLastName(lastName: Option<string>)
      modifies this`lastName
      ensures this.lastName == lastName
    {
      this.lastName := lastName;
    }
  }

  /**
    A registration rejected for its password still stores that password, so
    logging in with it succeeds afterwards.
   */
  method RejectedPasswordStillLogsIn() returns (response: Registration, loggedIn: bool)
    ensures response == PasswordIncorrect
    ensures loggedIn
  {
    var login := new Login();
    assert "Kyle"[0] > ' ' && "Doe"[0] > ' ' && "kyl_1"[0] > ' ' && "password"[0] > ' ' && "+27838968976"[0] > ' ';
    assert "kyl_1"[3] == '_';
    assert !HasUpper("password") by {
      assert forall i :: 0 <= i < 8 ==> IsLower("password"[i]);
    }
    response := login.RegisterUser(Some("Kyle"), Some("Doe"), Some("kyl_1"), Some("password"), Some("+27838968976"));
    loggedIn := login.LoginUser(Some("kyl_1"), Some("password"));
  }
}
