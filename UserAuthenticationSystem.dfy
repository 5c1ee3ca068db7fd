/**
  `UserAuthenticationSystem` (package userauthenticationsystem): the console
  chat application's account, login and messaging state. Every line the
  source reads from its `Scanner` is a parameter here; what it prints is left
  out, except for the strings its methods return.
 */
module UserAuthentication {
  import opened Wrappers
  import opened JavaStrings
  import opened PhonePattern
  import Messages

  const DefaultMessageLimit := 5

  // ---------------------------------------------------------------------
  // Validators (null-aware: `None` is Java's null)
  // ---------------------------------------------------------------------

  /**
    `checkUsernameFormat`: null and blank are refused (`trim().isEmpty()` is
    `IsBlank`, by the contract of `Trim`), then at most five characters holding
    an underscore. The blank guard never decides anything: an underscore is
    not blank.
   */
  function CheckUsernameFormat(username: Option<string>): (ok: bool)
    ensures ok <==> username.Some? && |username.value| <= 5 && '_' in username.value
  {
    if username.None? || IsBlank(username.value) then false
    else |username.value| <= 5 && '_' in username.value
  }

  /**
    `checkPasswordComplexity`: not null, at least eight characters, and a
    `find()` of `[A-Z]`, of `[0-9]` and of `[^A-Za-z0-9]` each succeeding.
   */
  function CheckPasswordComplexity(password: Option<string>): (ok: bool)
    ensures ok <==> password.Some? && |password.value| >= 8
                    && HasUpper(password.value) && HasDigit(password.value) && HasSpecial(password.value)
  {
    if password.None? || |password.value| < 8 then false
    else HasUpper(password.value) && HasDigit(password.value) && HasSpecial(password.value)
  }

  /**
    `checkCellPhoneNumberFormat`: null and blank are refused, then the whole
    string must match `^\+\d{1,3}\d{7,10}$`, i.e. a plus sign and 8 to 13 digits.
   */
  function CheckCellPhoneNumberFormat(cellNumber: Option<string>): (ok: bool)
    ensures ok <==> cellNumber.Some? && PlusAndDigits(cellNumber.value, 8, 13)
  {
    if cellNumber.None? || IsBlank(cellNumber.value) then false
    else
      InternationalMeaning(cellNumber.value);
      MatchesInternational(cellNumber.value)
  }

  // ---------------------------------------------------------------------
  // Users and messages (the nested classes `User` and `Message`)
  // ---------------------------------------------------------------------

  /** The nested `User` class: it is never changed after construction, so it is a value. */
  datatype User = User(firstName: string, lastName: string, userName: string, password: string, cellNumber: string)

  /** The nested `Message` class without its timestamp; `sent` is its `markAsSent` flag. */
  datatype ChatMessage = ChatMessage(sender: string, receiver: string, content: string, sent: bool)

  /** Details the three registration checks accept, stated by what the checks mean. */
  predicate Acceptable(userName: string, password: string, cellNumber: string) {
    |userName| <= 5 && '_' in userName
    && |password| >= 8 && HasUpper(password) && HasDigit(password) && HasSpecial(password)
    && PlusAndDigits(cellNumber, 8, 13)
  }

  predicate Accepted(u: User) {
    Acceptable(u.userName, u.password, u.cellNumber)
  }

  /** `getSentMessageCount`: how many stored entries carry the sent flag. */
  function SentCount(messages: seq<ChatMessage>): (n: nat)
    ensures n <= |messages|
  {
    if messages == [] then 0
    else SentCount(messages[..|messages| - 1]) + (if messages[|messages| - 1].sent then 1 else 0)
  }

  /** Counting the sent entries of a concatenation adds the two counts. */
  lemma {:induction false} SentCountAppend(a: seq<ChatMessage>, b: seq<ChatMessage>)
    ensures SentCount(a + b) == SentCount(a) + SentCount(b)
    decreases |b|
  {
    if b == [] {
      assert a + b == a;
    } else {
      var b' := b[..|b| - 1];
      assert (a + b)[..|a + b| - 1] == a + b';
      SentCountAppend(a, b');
    }
  }

  /** The count is the size of the set of positions whose entry was sent. */
  lemma {:induction false} SentCountIsSentPositions(messages: seq<ChatMessage>)
    ensures SentCount(messages) == |set i | 0 <= i < |messages| && messages[i].sent|
    decreases |messages|
  {
    if messages != [] {
      var n := |messages| - 1;
      var init := messages[..n];
      SentCountIsSentPositions(init);
      var before := set i | 0 <= i < |init| && init[i].sent;
      var after := set i | 0 <= i < |messages| && messages[i].sent;
      if messages[n].sent {
        assert after == before + {n};
        assert n !in before;
      } else {
        assert after == before;
      }
    }
  }

  /** Index of the first user with the given user name, `|users|` when there is none. */
  function FirstMatch(users: seq<User>, name: string): (k: nat)
    ensures k <= |users|
    ensures forall j :: 0 <= j < k ==> users[j].userName != name
    ensures k < |users| ==> users[k].userName == name
  {
    if users == [] then 0
    else if users[0].userName == name then 0
    else 1 + FirstMatch(users[1..], name)
  }

  /** What `findUserByUsername` returns: the first user so named, or null. */
  function Lookup(users: seq<User>, name: string): (r: Option<User>)
    ensures r.None? <==> forall j :: 0 <= j < |users| ==> users[j].userName != name
    ensures r.Some? ==> r.value in users && r.value.userName == name
  {
    var k := FirstMatch(users, name);
    if k < |users| then Some(users[k]) else None
  }

  /** Registration never checks for duplicates: a second user of the same name is never found. */
  lemma DuplicateUserShadowed(users: seq<User>, first: User, second: User)
    requires first.userName == second.userName
    requires Lookup(users, first.userName).None?
    ensures Lookup(users + [first] + [second], first.userName) == Some(first)
  {
    var all := users + [first] + [second];
    assert all[|users|] == first;
    assert forall j :: 0 <= j < |users| ==> all[j] == users[j];
  }

  /** A user registered later is found by name when no earlier one has that name. */
  lemma LookupAppend(users: seq<User>, u: User)
    ensures Lookup(users + [u], u.userName) ==
            if Lookup(users, u.userName).Some? then Lookup(users, u.userName) else Some(u)
  {
    var all := users + [u];
    assert all[|users|] == u;
    assert forall j :: 0 <= j < |users| ==> all[j] == users[j];
    if Lookup(users, u.userName).Some? {
      assert FirstMatch(all, u.userName) == FirstMatch(users, u.userName);
    }
  }

  // ---------------------------------------------------------------------
  // Registration and login results
  // ---------------------------------------------------------------------

  /** The four results of `registerNewUser`. */
  datatype RegistrationResult = UsernameRejected | PasswordRejected | CellNumberRejected | RegistrationSuccessful

  /** The messages for a user name, password or cell number that breaks its rule. */
  const UsernameFormatText := "Username is not correctly formatted, please ensure that your username contains an underscore and is no more than five characters in length."
  const PasswordFormatText := "Password is not correctly formatted, please ensure that the password contains at least eight characters, a capital letter, a number, and a special character."
  const CellFormatText := "Cell phone number incorrectly formatted or does not contain international code."

  /** The string `registerNewUser` returns for each result. */
  function RegistrationText(r: RegistrationResult): (t: string)
    ensures t == "Registration successful!" <==> r == RegistrationSuccessful
  {
    match r
    case UsernameRejected =>
      UsernameFormatText
    case PasswordRejected =>
      PasswordFormatText
    case CellNumberRejected =>
      CellFormatText
    case RegistrationSuccessful =>
      "Registration successful!"
  }

  /** Every outcome has its own message: no two outcomes share a text. */
  lemma RegistrationTextIsInjective(r1: RegistrationResult, r2: RegistrationResult)
    ensures RegistrationText(r1) == RegistrationText(r2) ==> r1 == r2
  {
  }

  /** The checks run in order (user name, password, cell number) and the first failure decides. */
  function RegistrationOutcome(username: string, password: string, cellNumber: string): (r: RegistrationResult)
    ensures r == RegistrationSuccessful <==> Acceptable(username, password, cellNumber)
    ensures r == UsernameRejected <==> !(|username| <= 5 && '_' in username)
    ensures r == PasswordRejected <==> CheckUsernameFormat(Some(username)) && !CheckPasswordComplexity(Some(password))
    ensures r == CellNumberRejected <==> CheckUsernameFormat(Some(username)) && CheckPasswordComplexity(Some(password))
                                         && !PlusAndDigits(cellNumber, 8, 13)
  {
    if !CheckUsernameFormat(Some(username)) then UsernameRejected
    else if !CheckPasswordComplexity(Some(password)) then PasswordRejected
    else if !CheckCellPhoneNumberFormat(Some(cellNumber)) then CellNumberRejected
    else RegistrationSuccessful
  }

  const LoginFailedText := "Username or password incorrect, please try again."

  /** The welcome line of `getLoginStatusMessage`. */
  function WelcomeText(firstName: string, lastName: string): (t: string)
    ensures |t| == |firstName| + |lastName| + 40
    ensures t[..8] == "Welcome " && t[8..8 + |firstName|] == firstName
    ensures t[8 + |firstName|..10 + |firstName|] == ", "
    ensures t[10 + |firstName|..10 + |firstName| + |lastName|] == lastName
    ensures t[10 + |firstName| + |lastName|..] == " it is great to see you again."
  {
    "Welcome " + firstName + ", " + lastName + " it is great to see you again."
  }

  /** With an empty last name the welcome line has two blanks after the comma, never one. */
  lemma WelcomeWithEmptyLastName(firstName: string)
    ensures WelcomeText(firstName, "") == "Welcome " + firstName + ",  it is great to see you again."
    ensures WelcomeText(firstName, "") != "Welcome " + firstName + ", it is great to see you again."
  {
    assert |WelcomeText(firstName, "")| == |firstName| + 40;
  }

  /** The welcome line names the user: it is injective in the first name for a fixed last name. */
  lemma {:induction false} WelcomeNamesFirstName(a: string, b: string, lastName: string)
    requires WelcomeText(a, lastName) == WelcomeText(b, lastName)
    ensures a == b
  {
    var ta, tb := WelcomeText(a, lastName), WelcomeText(b, lastName);
    var tail := ", " + lastName + " it is great to see you again.";
    assert ta == "Welcome " + a + tail;
    assert tb == "Welcome " + b + tail;
    assert |a| == |b|;
    assert a == ta[8..8 + |a|];
    assert b == tb[8..8 + |b|];
  }

  // ---------------------------------------------------------------------
  // The messaging workflow as a function of its inputs
  // ---------------------------------------------------------------------

  /** How `sendMessageWorkflow` ends. */
  datatype SendOutcome =
    | LimitReached
    | RecipientNotFound
    | MessageTooLong
    | InvalidRecipientNumber
    | Sent
    | Stored
    | Discarded
    | InvalidActionDiscarded

  /** The action line as the workflow compares it: trimmed, then lower-cased. */
  function NormalizeAction(line: string): (a: string)
    ensures |a| <= |line|
    ensures a == [] <==> IsBlank(line)
    ensures forall i :: 0 <= i < |a| ==> !IsUpper(a[i])
  {
    ToLowerCase(Trim(line))
  }

  /** The `switch` on the normalised action, once every gate has passed. */
  function ActionOutcome(action: string): (o: SendOutcome)
    ensures o in {Sent, Discarded, Stored, InvalidActionDiscarded}
    ensures o == Sent <==> action == "send"
    ensures o == Discarded <==> action == "discard"
    ensures o == Stored <==> action == "store"
  {
    match action
    case "send" => Sent
    case "discard" => Discarded
    case "store" => Stored
    case _ => InvalidActionDiscarded
  }

  /**
    The gates of `sendMessageWorkflow` in source order: the quota on sent
    messages, the recipient lookup (on the trimmed line), the length of the
    trimmed content, the recipient's stored cell number, then the action.
    Each ending happens exactly when the gates before it have passed and its
    own has not, and a message is only kept or dropped by choice once every
    gate has passed.
   */
  function Route(sentCount: nat, limit: int, users: seq<User>,
                 recipientLine: string, contentLine: string, actionLine: string): (o: SendOutcome)
    ensures o == LimitReached <==> sentCount >= limit
    ensures o == RecipientNotFound <==> sentCount < limit && Lookup(users, Trim(recipientLine)).None?
    ensures o == MessageTooLong <==>
              sentCount < limit && Lookup(users, Trim(recipientLine)).Some? && |Trim(contentLine)| > Messages.MaxMessageLength
    ensures o == InvalidRecipientNumber <==>
              sentCount < limit && Lookup(users, Trim(recipientLine)).Some? && |Trim(contentLine)| <= Messages.MaxMessageLength
              && !PlusAndDigits(Lookup(users, Trim(recipientLine)).value.cellNumber, 8, 13)
    ensures (o == Sent || o == Stored || o == Discarded || o == InvalidActionDiscarded) ==>
              sentCount < limit
              && Lookup(users, Trim(recipientLine)).Some?
              && |Trim(contentLine)| <= Messages.MaxMessageLength
              && PlusAndDigits(Lookup(users, Trim(recipientLine)).value.cellNumber, 8, 13)
    ensures o == Sent ==> NormalizeAction(actionLine) == "send"
    ensures o == Stored ==> NormalizeAction(actionLine) == "store"
    ensures o == Discarded ==> NormalizeAction(actionLine) == "discard"
    ensures o == InvalidActionDiscarded ==> NormalizeAction(actionLine) !in {"send", "discard", "store"}
  {
    if sentCount >= limit then LimitReached
    else
      var recipient := Lookup(users, Trim(recipientLine));
      if recipient.None? then RecipientNotFound
      else if |Trim(contentLine)| > Messages.MaxMessageLength then MessageTooLong
      else if !CheckCellPhoneNumberFormat(Some(recipient.value.cellNumber)) then InvalidRecipientNumber
      else ActionOutcome(NormalizeAction(actionLine))
  }

  lemma RouteWhenGatesPass(sentCount: nat, limit: int, users: seq<User>,
                           recipientLine: string, contentLine: string, actionLine: string)
    requires sentCount < limit && Lookup(users, Trim(recipientLine)).Some?
    requires |Trim(contentLine)| <= Messages.MaxMessageLength
    requires PlusAndDigits(Lookup(users, Trim(recipientLine)).value.cellNumber, 8, 13)
    ensures Route(sentCount, limit, users, recipientLine, contentLine, actionLine) == ActionOutcome(NormalizeAction(actionLine))
  {
  }

  /** The entry the workflow appends to the message list for an outcome. */
  function Recorded(o: SendOutcome, sender: string, recipientLine: string, contentLine: string): (added: seq<ChatMessage>)
    ensures |added| <= 1
    ensures SentCount(added) == (if o == Sent then 1 else 0)
  {
    if o == Sent then [ChatMessage(sender, Trim(recipientLine), Trim(contentLine), true)]
    else if o == Stored then [ChatMessage(sender, Trim(recipientLine), Trim(contentLine), false)]
    else []
  }

  /** Only registered users are ever written to; a registry of accepted users never fails the number check. */
  lemma AcceptedRegistryPassesNumberCheck(sentCount: nat, limit: int, users: seq<User>,
                                          recipientLine: string, contentLine: string, actionLine: string)
    requires forall i :: 0 <= i < |users| ==> Accepted(users[i])
    ensures Route(sentCount, limit, users, recipientLine, contentLine, actionLine) != InvalidRecipientNumber
  {
    var k := FirstMatch(users, Trim(recipientLine));
    if k < |users| {
      assert Accepted(users[k]);
    }
  }

  /** The quota is never exceeded: a workflow run adds a sent entry only while below the limit. */
  lemma {:induction false} WorkflowKeepsQuota(messages: seq<ChatMessage>, limit: int, users: seq<User>, sender: string,
                                              recipientLine: string, contentLine: string, actionLine: string)
    requires SentCount(messages) <= limit
    ensures SentCount(messages + Recorded(Route(SentCount(messages), limit, users, recipientLine, contentLine, actionLine),
                                          sender, recipientLine, contentLine)) <= limit
  {
    var o := Route(SentCount(messages), limit, users, recipientLine, contentLine, actionLine);
    SentCountAppend(messages, Recorded(o, sender, recipientLine, contentLine));
  }

  /** The limit `setMessageLimit` leaves for a parsed line (`None` when `parseInt` throws). */
  function MessageLimitFor(parsed: Option<int>): (limit: int)
    ensures limit >= 1
    ensures parsed.Some? && parsed.value > 0 ==> limit == parsed.value
    ensures (parsed.None? || parsed.value <= 0) ==> limit == DefaultMessageLimit
  {
    if parsed.Some? && parsed.value > 0 then parsed.value else DefaultMessageLimit
  }

  // ---------------------------------------------------------------------
  // The object
  // ---------------------------------------------------------------------

  class UserAuthenticationSystem {
    var userName: string
    var password: string
    var cellNumber: Option<string>
    var firstName: string
    var lastName: string
    var loggedIn: bool
    var messages: seq<ChatMessage>
    var registeredUsers: seq<User>
    var messageLimit: int
    var totalMessagesSent: int

    /** The running total of sent messages agrees with the sent entries of the list. */
    ghost predicate Valid()
      reads this
    {
      totalMessagesSent == SentCount(messages)
    }

    /** Every registered user passed the registration checks. */
    ghost predicate RegistryAccepted()
      reads this
    {
      forall i :: 0 <= i < |registeredUsers| ==> Accepted(registeredUsers[i])
    }

    /** The default constructor: empty details, logged out, no messages, no users, a zero limit. */
    constructor()
      ensures Valid() && RegistryAccepted()
      ensures firstName == "" && lastName == "" && cellNumber == Some("") && userName == "" && password == ""
      ensures !loggedIn && messages == [] && registeredUsers == [] && messageLimit == 0 && totalMessagesSent == 0
    {
      firstName, lastName, cellNumber, userName, password := "", "", Some(""), "", "";
      loggedIn := false;
      messages, registeredUsers := [], [];
      messageLimit, totalMessagesSent := 0, 0;
    }

    /** The constructor with details; only the cell number may be null. */
    constructor WithDetails(firstName: string, lastName: string, userName: string, password: string, cellNumber: Option<string>)
      ensures Valid() && RegistryAccepted()
      ensures this.firstName == firstName && this.lastName == lastName && this.userName == userName
      ensures this.password == password && this.cellNumber == cellNumber
      ensures !loggedIn && messages == [] && registeredUsers == [] && messageLimit == 0 && totalMessagesSent == 0
    {
      this.firstName, this.lastName, this.userName, this.password, this.cellNumber :=
        firstName, lastName, userName, password, cellNumber;
      loggedIn := false;
      messages, registeredUsers := [], [];
      messageLimit, totalMessagesSent := 0, 0;
    }

    /** `authenticateUser`: both entries equal the current details. */
    function AuthenticateUser(enteredUsername: string, enteredPassword: string): (ok: bool)
      reads this
      ensures ok <==> enteredUsername == userName && enteredPassword == password
    {
      enteredUsername == userName && enteredPassword == password
    }

    /** `loginUser`: authenticate and record the outcome as the login state. */
    method LoginUser(enteredUsername: string, enteredPassword: string) returns (success: bool)
      modifies this`loggedIn
      ensures success == AuthenticateUser(enteredUsername, enteredPassword)
      ensures loggedIn == success
    {
      success := enteredUsername == userName && enteredPassword == password;
      loggedIn := success;
    }

    /** `logout`. */
    method Logout()
      modifies this`loggedIn
      ensures !loggedIn
    {
      loggedIn := false;
    }

    /** `getLoginStatusMessage`. */
    function GetLoginStatusMessage(isSuccessful: bool): (msg: string)
      reads this
      ensures isSuccessful ==> msg == WelcomeText(firstName, lastName)
      ensures !isSuccessful ==> msg == LoginFailedText
    {
      if isSuccessful then WelcomeText(firstName, lastName) else LoginFailedText
    }

    /** `setMessageLimit`, given the parsed line (`None` when it is not an integer). */
    method SetMessageLimit(parsed: Option<int>)
      modifies this`messageLimit
      ensures messageLimit == MessageLimitFor(parsed)
    {
      if parsed.None? {
        messageLimit := DefaultMessageLimit;
      } else if parsed.value <= 0 {
        messageLimit := DefaultMessageLimit;
      } else {
        messageLimit := parsed.value;
      }
    }

    /** `getSentMessageCount`. */
    function SentMessageCount(): (n: nat)
      reads this
      ensures n <= |messages|
      ensures n == |set i | 0 <= i < |messages| && messages[i].sent|
    {
      SentCountIsSentPositions(messages);
      SentCount(messages)
    }

    /**
      `registerNewUser`: the names are always overwritten; each detail is
      stored as soon as its own check passes, so a later failure leaves the
      earlier ones in place; the user is added only when all three pass, with
      no check for an existing user of that name.
     */
    method RegisterNewUser(first: string, last: string, username: string, pwd: string, cell: string)
      returns (result: RegistrationResult)
      modifies this`firstName, this`lastName, this`userName, this`password, this`cellNumber, this`registeredUsers
      ensures result == RegistrationOutcome(username, pwd, cell)
      ensures firstName == first && lastName == last
      ensures userName == (if result == UsernameRejected then old(userName) else username)
      ensures password == (if result == UsernameRejected || result == PasswordRejected then old(password) else pwd)
      ensures cellNumber == (if result == RegistrationSuccessful then Some(cell) else old(cellNumber))
      ensures registeredUsers ==
        old(registeredUsers) + (if result == RegistrationSuccessful then [User(first, last, username, pwd, cell)] else [])
      ensures old(RegistryAccepted()) ==> RegistryAccepted()
    {
      firstName := first;
      lastName := last;
      if !CheckUsernameFormat(Some(username)) {
        return UsernameRejected;
      }
      userName := username;
      if !CheckPasswordComplexity(Some(pwd)) {
        return PasswordRejected;
      }
      password := pwd;
      if !CheckCellPhoneNumberFormat(Some(cell)) {
        return CellNumberRejected;
      }
      cellNumber := Some(cell);
      registeredUsers := registeredUsers + [User(firstName, lastName, userName, password, cell)];
      result := RegistrationSuccessful;
    }

    /** `findUserByUsername`: a linear scan returning the first user so named. */
    method FindUserByUsername(username: string) returns (user: Option<User>)
      ensures user == Lookup(registeredUsers, username)
    {
      var i := 0;
      while i < |registeredUsers|
        invariant 0 <= i <= |registeredUsers|
        invariant forall j :: 0 <= j < i ==> registeredUsers[j].userName != username
      {
        if registeredUsers[i].userName == username {
          return Some(registeredUsers[i]);
        }
        i := i + 1;
      }
      return None;
    }

    /**
      `sendMessageWorkflow`, given the three lines it reads. A sent message is
      appended with its flag set and counted; a stored one is appended
      unsent; every other ending leaves the list and the total alone.
     */
    method SendMessageWorkflow(recipientLine: string, contentLine: string, actionLine: string)
      returns (outcome: SendOutcome)
      requires Valid()
      modifies this`messages, this`totalMessagesSent
      ensures Valid()
      ensures outcome == Route(old(SentCount(messages)), messageLimit, registeredUsers, recipientLine, contentLine, actionLine)
      ensures messages == old(messages) + Recorded(outcome, userName, recipientLine, contentLine)
      ensures totalMessagesSent == old(totalMessagesSent) + (if outcome == Sent then 1 else 0)
    {
      if SentCount(messages) >= messageLimit {
        return LimitReached;
      }
      var recipient := Trim(recipientLine);
      var recipientUser := FindUserByUsername(recipient);
      if recipientUser.None? {
        return RecipientNotFound;
      }
      var messageContent := Trim(contentLine);
      var newMessage := ChatMessage(userName, recipientUser.value.userName, messageContent, false);
      if |messageContent| > Messages.MaxMessageLength {
        return MessageTooLong;
      }
      if !CheckCellPhoneNumberFormat(Some(recipientUser.value.cellNumber)) {
        return InvalidRecipientNumber;
      }
      outcome := ActionOutcome(NormalizeAction(actionLine));
      RouteWhenGatesPass(SentCount(messages), messageLimit, registeredUsers, recipientLine, contentLine, actionLine);
      if outcome == Sent {
        SentCountAppend(messages, [newMessage.(sent := true)]);
        messages := messages + [newMessage.(sent := true)];
        totalMessagesSent := totalMessagesSent + 1;
      } else if outcome == Stored {
        SentCountAppend(messages, [newMessage]);
        messages := messages + [newMessage];
      }
    }
  }

  // ---------------------------------------------------------------------
  // Scenarios
  // ---------------------------------------------------------------------

  /** The action line "send" is already normalised. */
  lemma SendIsNormal()
    ensures NormalizeAction("send") == "send"
  {
    TrimOfTrimmed("send");
    assert ToLowerCase("send") == "send";
  }

  /** Writing to oneself as the only registered user: sent below the limit, refused at it. */
  lemma SendToSelfRoute(u: User, content: string, action: string)
    requires Accepted(u) && Trim(u.userName) == u.userName && |Trim(content)| <= Messages.MaxMessageLength
    requires NormalizeAction(action) == "send"
    ensures Route(0, 1, [u], u.userName, content, action) == Sent
    ensures Route(1, 1, [u], u.userName, content, action) == LimitReached
  {
    assert FirstMatch([u], u.userName) == 0;
  }

  /**
    With a limit of one and no messages yet, writing to oneself as the only
    registered user is sent the first time and refused the second time.
   */
  method SendUntilLimit(app: UserAuthenticationSystem, content: string, action: string)
    returns (once: SendOutcome, twice: SendOutcome)
    requires app.Valid() && app.messages == [] && app.messageLimit == 1
    requires |app.registeredUsers| == 1 && Accepted(app.registeredUsers[0])
    requires Trim(app.registeredUsers[0].userName) == app.registeredUsers[0].userName
    requires |Trim(content)| <= Messages.MaxMessageLength && NormalizeAction(action) == "send"
    modifies app
    ensures once == Sent && twice == LimitReached
    ensures app.totalMessagesSent == 1
  {
    var u := app.registeredUsers[0];
    assert app.registeredUsers == [u];
    SendToSelfRoute(u, content, action);
    once := app.SendMessageWorkflow(u.userName, content, action);
    twice := app.SendMessageWorkflow(u.userName, content, action);
  }

  /**
    Register any acceptable details, log in with them, set a limit of one and
    send a message to oneself: the message is sent, and a second one hits the
    limit. (`SendIsNormal`: "send" is such an action line.)
   */
  method RegisterLoginAndSend(first: string, last: string, username: string, pwd: string, cell: string,
                              content: string, action: string)
    returns (registered: RegistrationResult, loggedIn: bool, once: SendOutcome, twice: SendOutcome)
    requires Acceptable(username, pwd, cell)
    requires Trim(username) == username && |Trim(content)| <= Messages.MaxMessageLength
    requires NormalizeAction(action) == "send"
    ensures registered == RegistrationSuccessful && loggedIn
    ensures once == Sent && twice == LimitReached
  {
    var app := new UserAuthenticationSystem();
    registered := app.RegisterNewUser(first, last, username, pwd, cell);
    assert app.registeredUsers == [User(first, last, username, pwd, cell)];
    loggedIn := app.LoginUser(username, pwd);
    app.SetMessageLimit(Some(1));
    assert app.Valid() && app.messages == [] && app.messageLimit == 1;
    once, twice := SendUntilLimit(app, content, action);
  }

  /**
    A registration that fails on the password still replaces the user name,
    so the new name logs in with the earlier password although no user of
    that name was added.
   */
  method FailedRegistrationChangesLogin(username: string, pwd: string, cell: string, otherName: string, weak: string)
    returns (second: RegistrationResult, loggedIn: bool, found: Option<User>)
    requires Acceptable(username, pwd, cell)
    requires otherName != username && |otherName| <= 5 && '_' in otherName
    requires !CheckPasswordComplexity(Some(weak))
    ensures second == PasswordRejected
    ensures loggedIn
    ensures found.None?
  {
    var app := new UserAuthenticationSystem();
    var first := app.RegisterNewUser("Kyle", "Smith", username, pwd, cell);
    second := app.RegisterNewUser("Ann", "Lee", otherName, weak, cell);
    loggedIn := app.LoginUser(otherName, pwd);
    found := app.FindUserByUsername(otherName);
  }

  /** Details the scenarios above accept. */
  lemma ExampleDetails()
    ensures Acceptable("kyl_1", "Ch&&se9!", "+27831234567")
    ensures !CheckPasswordComplexity(Some("short"))
  {
    assert "kyl_1"[3] == '_';
    assert IsUpper("Ch&&se9!"[0]) && IsDigit("Ch&&se9!"[6]) && !IsLetterOrDigit("Ch&&se9!"[2]);
  }
}
