# QuickChat accounts, login and messages in Dafny

QuickChat is a console chat application written in Java for a programming
course. A user registers with a user name, a password and a cell-phone
number, logs in, sets how many messages they may send, and then writes
messages to other registered users, choosing for each whether to send, store
or discard it. This project models the core of that application and proves
properties of the model:

- `UserAuthenticationSystem` (module `UserAuthentication`): the application
  object with its credential checks, its registry of users and its list of
  messages. Registration, login, the message limit and the send workflow
  change that object's fields, so they are methods of a Dafny class; user
  lookup is a method of the class too, and changes nothing. The workflow also has a function saying which way each run ends
  (`Route`), and the quota, lookup and registration facts are proved about
  that function.
- `Login` (module `QuickChatLogin`): the second copy of the account code,
  with null-aware fields, a different cell-number rule (South African
  numbers only), its own registration and its welcome line.
- `Message` (module `Messages`): message ids drawn from a shared counter, the
  length and recipient checks, the content fingerprint ("hash"), the menu
  that picks an action, and the sent/stored flags.
- `CellPhoneNumber` (module `CellPhoneNumbers`): the international
  cell-number rule with no null guard.
- `RuleComparison`: where the copies of the credential rules agree and where
  they differ.

The Java library behaviour the core relies on has its own modules:

- `JavaStrings`: `trim`, ASCII case mapping and the regex character classes.
- `DecimalFormat`: `String.format("%0Nd")` and decimal rendering.
- `WhitespaceSplit`: `split("\\s+")` with Java 8 semantics. A leading empty
  element is kept and trailing empty elements are dropped.
- `PhonePattern`: the regex `^\+\d{1,3}\d{7,10}$` with every split its
  engine can backtrack to, proved equal to "a plus sign and 8 to 13 digits".

Java `null` is `Option.None`, but only where the source tests for null:
`Login`'s fields and parameters, the validators' parameters in
`UserAuthenticationSystem`, the stored cell number there, and a message's
recipient. Every line the program reads from its `Scanner` becomes a
`string` parameter. Where a method returns a fixed message, it returns a
datatype instead, and separate functions give the exact texts.

## Model

| member | source | states |
|---|---|---|
| UserAuthentication.UserAuthenticationSystem.constructor | src/userauthenticationsystem/UserAuthenticationSystem.java:21-32 | every detail is the empty string, logged out, no messages, no users, limit and total zero; the sent-count and registry invariants hold |
| UserAuthentication.UserAuthenticationSystem.WithDetails | src/userauthenticationsystem/UserAuthenticationSystem.java:35-50 | stores the five details as given (the cell number may be null), logged out, empty lists, zero limit and total |
| UserAuthentication.CheckUsernameFormat | src/userauthenticationsystem/UserAuthenticationSystem.java:317-322 | true exactly for a non-null name of at most five characters containing an underscore; the blank guard never changes the answer |
| UserAuthentication.CheckPasswordComplexity | src/userauthenticationsystem/UserAuthenticationSystem.java:325-335 | true exactly for a non-null password of at least eight characters with a capital, a digit and a character outside A-Za-z0-9 |
| UserAuthentication.CheckCellPhoneNumberFormat | src/userauthenticationsystem/UserAuthenticationSystem.java:338-344 | true exactly for a non-null string that is a plus sign followed by 8 to 13 digits and nothing else |
| UserAuthentication.SentCount | src/userauthenticationsystem/UserAuthenticationSystem.java:86-90 | the number of sent entries never exceeds the number of entries |
| UserAuthentication.SentCountAppend | src/userauthenticationsystem/UserAuthenticationSystem.java:86-90 | the sent count of a concatenation is the sum of the two counts |
| UserAuthentication.SentCountIsSentPositions | src/userauthenticationsystem/UserAuthenticationSystem.java:86-90 | the sent count equals the size of the set of positions whose entry has the sent flag (the stream filter-and-count) |
| UserAuthentication.UserAuthenticationSystem.SentMessageCount | src/userauthenticationsystem/UserAuthenticationSystem.java:86-90 | the object's count is the number of its messages flagged sent, at most the list length |
| UserAuthentication.FirstMatch | src/userauthenticationsystem/UserAuthenticationSystem.java:307-314 | the index of the first user with that name: every earlier user has another name, and it is the list length when none matches |
| UserAuthentication.Lookup | src/userauthenticationsystem/UserAuthenticationSystem.java:307-314 | null exactly when no registered user has the name; otherwise a registered user of that name |
| UserAuthentication.UserAuthenticationSystem.FindUserByUsername | src/userauthenticationsystem/UserAuthenticationSystem.java:307-314 | the linear scan returns the first user so named, or null, as Lookup specifies |
| UserAuthentication.LookupAppend | src/userauthenticationsystem/UserAuthenticationSystem.java:122-123 | after a user is appended, looking up that user's name finds the earlier user of that name if there is one, otherwise the new user |
| UserAuthentication.DuplicateUserShadowed | src/userauthenticationsystem/UserAuthenticationSystem.java:121-123 | registering a second user with an existing name is allowed, and lookup then always finds the first one |
| UserAuthentication.RegistrationOutcome | src/userauthenticationsystem/UserAuthenticationSystem.java:101-125 | success exactly when all three rules hold; the user-name failure exactly when the name rule fails; the password failure exactly when the name passes and the password fails; the cell failure exactly when both pass and the number fails |
| UserAuthentication.RegistrationText | src/userauthenticationsystem/UserAuthenticationSystem.java:103-125 | the text is "Registration successful!" exactly for the success result |
| UserAuthentication.RegistrationTextIsInjective | src/userauthenticationsystem/UserAuthenticationSystem.java:103-125 | no two registration results share a text |
| UserAuthentication.UserAuthenticationSystem.RegisterNewUser | src/userauthenticationsystem/UserAuthenticationSystem.java:93-126 | the names are always overwritten; user name and password are stored once their own checks pass, even if a later check fails; the cell number is stored and the user appended only on success; a registry of accepted users stays accepted |
| UserAuthentication.FailedRegistrationChangesLogin | src/userauthenticationsystem/UserAuthenticationSystem.java:102-112 | after a valid registration, a second one failing on the password still replaces the user name: the new name logs in with the old password, yet no user of that name is registered |
| UserAuthentication.ExampleDetails | src/userauthenticationsystem/UserAuthenticationSystem.java:100-116 | "kyl_1", "Ch&&se9!" and "+27831234567" pass all three checks; "short" fails the password check |
| UserAuthentication.UserAuthenticationSystem.AuthenticateUser | src/userauthenticationsystem/UserAuthenticationSystem.java:129-131 | true exactly when both entries equal the stored user name and password |
| UserAuthentication.UserAuthenticationSystem.LoginUser | src/userauthenticationsystem/UserAuthenticationSystem.java:52-56 | the result is the authentication result, and the logged-in flag becomes that result |
| UserAuthentication.UserAuthenticationSystem.Logout | src/userauthenticationsystem/UserAuthenticationSystem.java:58-61 | afterwards the user is logged out |
| UserAuthentication.UserAuthenticationSystem.GetLoginStatusMessage | src/userauthenticationsystem/UserAuthenticationSystem.java:134-139 | on success the welcome line naming the stored first and last name, otherwise the fixed failure line |
| UserAuthentication.WelcomeText | src/userauthenticationsystem/UserAuthenticationSystem.java:136 | the line is "Welcome ", the first name, ", ", the last name and " it is great to see you again.", each at its own position, so it is 40 characters longer than the two names |
| UserAuthentication.WelcomeWithEmptyLastName | src/userauthenticationsystem/UserAuthenticationSystem.java:136 | with an empty last name the welcome line has two spaces after the comma and is never the one-space form |
| UserAuthentication.WelcomeNamesFirstName | src/userauthenticationsystem/UserAuthenticationSystem.java:136 | for a fixed last name, two equal welcome lines have equal first names |
| UserAuthentication.MessageLimitFor | src/userauthenticationsystem/UserAuthenticationSystem.java:71-83 | the limit is at least one: the parsed number when it is positive, otherwise 5, also when the line is not a number |
| UserAuthentication.UserAuthenticationSystem.SetMessageLimit | src/userauthenticationsystem/UserAuthenticationSystem.java:67-84 | the stored limit becomes the limit MessageLimitFor gives for the parsed line |
| UserAuthentication.NormalizeAction | src/userauthenticationsystem/UserAuthenticationSystem.java:264 | the trimmed, lower-cased action line is no longer than the line, empty exactly when the line is blank, and has no capital letter |
| UserAuthentication.ActionOutcome | src/userauthenticationsystem/UserAuthenticationSystem.java:266-283 | sent exactly for "send", discarded exactly for "discard", stored exactly for "store", and any other text is the invalid-action ending |
| UserAuthentication.Route | src/userauthenticationsystem/UserAuthenticationSystem.java:219-283 | the limit ending happens exactly when the sent count has reached the limit; the not-found ending exactly when it has not and no user has the trimmed name; the too-long ending exactly when those pass and the trimmed content exceeds 250 characters; the invalid-number ending exactly when those pass and the recipient's stored number is not a plus sign and 8 to 13 digits; an action ending requires every gate to have passed, and send, store and discard each require that normalised action |
| UserAuthentication.Recorded | src/userauthenticationsystem/UserAuthenticationSystem.java:266-280 | at most one entry is appended, and it counts as sent exactly when the ending is a send |
| UserAuthentication.AcceptedRegistryPassesNumberCheck | src/userauthenticationsystem/UserAuthenticationSystem.java:254-257 | when every registered user passed registration, the stored-number check in the workflow never fails |
| UserAuthentication.WorkflowKeepsQuota | src/userauthenticationsystem/UserAuthenticationSystem.java:219-222 | if the sent count is within the limit before a run, it is within the limit after it |
| UserAuthentication.UserAuthenticationSystem.SendMessageWorkflow | src/userauthenticationsystem/UserAuthenticationSystem.java:218-286 | the ending is the one Route gives for the sent count, limit, registry and lines; the message list grows by exactly the entry Recorded gives; the total goes up by one exactly on a send; the total still equals the sent count |
| UserAuthentication.SendIsNormal | src/userauthenticationsystem/UserAuthenticationSystem.java:264 | the action line "send" is unchanged by trimming and lower-casing |
| UserAuthentication.SendToSelfRoute | src/userauthenticationsystem/UserAuthenticationSystem.java:219-273 | an accepted user as the only one registered, writing to themself with limit one: sent at count zero, limit reached at count one |
| UserAuthentication.SendUntilLimit | src/userauthenticationsystem/UserAuthenticationSystem.java:218-286 | with limit one and no messages, the first workflow run sends and the second ends at the limit, with a total of one |
| UserAuthentication.RegisterLoginAndSend | src/userauthenticationsystem/UserAuthenticationSystem.java:52-126 | any acceptable details register, log in, and with limit one send one message to oneself and then hit the limit |
| QuickChatLogin.Login.constructor | src/quickchatapp/Login.java:14-20 | every field is the empty string |
| QuickChatLogin.Login.WithCredentials | src/quickchatapp/Login.java:22-30 | stores the four details and leaves the cell number null |
| QuickChatLogin.Login.CheckFirstName | src/quickchatapp/Login.java:33-44 | true exactly for a non-null, non-empty first name without a space |
| QuickChatLogin.Login.CheckLastName | src/quickchatapp/Login.java:47-58 | true exactly for a non-null, non-empty last name without a space |
| QuickChatLogin.Login.CheckUserName | src/quickchatapp/Login.java:61-64 | true exactly for a non-null name with an underscore and at most five characters; the empty default fails |
| QuickChatLogin.Login.CheckPasswordComplexity | src/quickchatapp/Login.java:67-87 | the one-pass flag loop returns true exactly when the password is non-null, at least eight long, and contains a capital, a digit and a non-alphanumeric character |
| QuickChatLogin.Login.CheckCellPhoneNumber | src/quickchatapp/Login.java:90-99 | true exactly for "+27" followed by exactly nine digits (twelve characters), false for null |
| QuickChatLogin.RulesImplyNotBlank | src/quickchatapp/Login.java:105-119 | an input passing its user-name, password or cell rule is neither null nor blank |
| QuickChatLogin.RegistrationResponse | src/quickchatapp/Login.java:102-145 | registered exactly when the names are not blank and all three rules pass; one of the five "cannot be empty" results exactly when some input is null or blank; each result exactly when every earlier check in the order first name, last name, user name, password, cell number (blank checks before the three rules) passes and its own fails |
| QuickChatLogin.RegistrationText | src/quickchatapp/Login.java:106-144 | the text is "User registered successfully." exactly for the registered result |
| QuickChatLogin.RegistrationTextIsInjective | src/quickchatapp/Login.java:106-144 | no two registration results share a text |
| QuickChatLogin.Login.RegisterUser | src/quickchatapp/Login.java:102-145 | the result is RegistrationResponse; a null or blank input changes no field; otherwise all five fields are stored before any check, so the stored credentials log in whatever the result |
| QuickChatLogin.RegistrationIgnoresNameRule | src/quickchatapp/Login.java:105-144 | the first name "Mary Ann" fails the no-space name rule but registration still succeeds with it |
| QuickChatLogin.RejectedPasswordStillLogsIn | src/quickchatapp/Login.java:122-155 | a registration rejected for its password still stores it, and logging in with it then succeeds |
| QuickChatLogin.Login.LoginUser | src/quickchatapp/Login.java:148-156 | true exactly when neither entry is null or blank and both equal the stored values |
| QuickChatLogin.Login.ReturnLoginStatus | src/quickchatapp/Login.java:159-165 | the welcome line with no space after the comma (a null name written as "null") when login succeeds, otherwise the failure line |
| QuickChatLogin.SouthAfricanIsInternational | src/quickchatapp/Login.java:94 | a number matching the South African pattern is a plus sign followed by 8 to 13 digits |
| QuickChatLogin.Login.SetUsername | src/quickchatapp/Login.java:172-174 | the stored user name becomes the argument, null included |
| QuickChatLogin.Login.SetPassword | src/quickchatapp/Login.java:180-182 | the stored password becomes the argument, null included |
| QuickChatLogin.Login.SetCellPhoneNumber | src/quickchatapp/Login.java:188-190 | the stored cell number becomes the argument, null included |
| QuickChatLogin.Login.SetFirstName | src/quickchatapp/Login.java:196-198 | the stored first name becomes the argument, null included |
| QuickChatLogin.Login.SetLastName | src/quickchatapp/Login.java:204-206 | the stored last name becomes the argument, null included |
| Messages.MessageCounter.constructor | src/userauthenticationsystem/Message.java:14 | the shared counter starts at 1 with no id issued |
| Messages.MessageCounter.GenerateMessageId | src/userauthenticationsystem/Message.java:25-28 | returns the id for the current counter value and advances the counter by one |
| Messages.FormatMessageId | src/userauthenticationsystem/Message.java:26 | the id is all digits, at least five long, exactly five below 100000, and reads back as the counter value |
| Messages.MessageIdsIncrease | src/userauthenticationsystem/Message.java:26 | ids for different counter values differ, and a later id reads back as a larger number |
| Messages.Message.constructor | src/userauthenticationsystem/Message.java:16-23 | the new message takes the next id from the shared counter, keeps its content and recipient, and starts neither sent nor stored |
| Messages.Message.CheckMessageLength | src/userauthenticationsystem/Message.java:30-32 | true exactly when the content is at most MaxMessageLength (250) characters |
| Messages.Message.CheckRecipientFormat | src/userauthenticationsystem/Message.java:34-40 | true exactly for a non-null recipient that is a plus sign followed by 8 to 13 digits |
| Messages.MessageHash | src/userauthenticationsystem/Message.java:42-52 | the fingerprint begins with the id's first two characters and a colon, and after the counter field holds no lower-case letter |
| Messages.Message.CheckMessageHash | src/userauthenticationsystem/Message.java:42-52 | the fingerprint of the message begins with its id's first two characters, and its second field is all digits, followed by a colon, and reads back as the shared counter's current value |
| Messages.HashOfWords | src/userauthenticationsystem/Message.java:43-50 | for content with a non-whitespace character, the first word slot is everything before the first whitespace character and the last word slot is the content's final maximal run of non-whitespace, both upper-cased |
| Messages.HashOfOneWord | src/userauthenticationsystem/Message.java:42-52 | a one-word message puts that word, upper-cased, in both word slots of the fingerprint |
| Messages.HashOfBlankContent | src/userauthenticationsystem/Message.java:43-45 | empty content, or content of only whitespace, leaves both word slots empty |
| Messages.HashOfLeadingWhitespace | src/userauthenticationsystem/Message.java:43-45 | content starting with whitespace gets an empty first word, and the last word slot holds the final token |
| Messages.HashCounterField | src/userauthenticationsystem/Message.java:47-48 | after the two id characters and a colon, the fingerprint holds the padded counter followed by a colon |
| Messages.HashTracksCounter | src/userauthenticationsystem/Message.java:47-48 | the fingerprint reads the counter when asked, so different counter values give different fingerprints of the same message |
| Messages.Message.ReturnTotalMessages | src/userauthenticationsystem/Message.java:75-77 | the text shows one more than the number of messages created so far |
| Messages.Message.MarkAsSent | src/userauthenticationsystem/Message.java:85-87 | the sent flag is set and nothing else changes |
| Messages.Message.StoreMessage | src/userauthenticationsystem/Message.java:79-83 | the stored flag is set and nothing else changes |
| Messages.SendMessageAction | src/userauthenticationsystem/Message.java:61-72 | "send" exactly for the trimmed choice "1", "discard" exactly for "2", and "store" for every other choice |
| Messages.TwoMessages | src/userauthenticationsystem/Message.java:16-52 | two messages made one after the other get distinct, consecutive ids, and making the second changes the first one's fingerprint |
| CellPhoneNumbers.CheckCellPhoneNumberFormat | src/userauthenticationsystem/CellPhoneNumber.java:14-17 | true exactly for a plus sign followed by 8 to 13 digits and nothing else |
| CellPhoneNumbers.NoLeadingExtra | src/userauthenticationsystem/CellPhoneNumber.java:15-16 | nothing can be put in front of an accepted number |
| CellPhoneNumbers.NoTrailingExtra | src/userauthenticationsystem/CellPhoneNumber.java:15-16 | no non-digit can be put after an accepted number |
| CellPhoneNumbers.AcceptedExamples | src/userauthenticationsystem/CellPhoneNumber.java:14-17 | "+27831234567" and "+1234567890" are accepted |
| CellPhoneNumbers.RejectedExamples | src/userauthenticationsystem/CellPhoneNumber.java:14-17 | a number without the plus, one with six digits, one with letters and one with a trailing blank are rejected |
| RuleComparison.CellChecksAgree | src/userauthenticationsystem/CellPhoneNumber.java:14-17 | the unguarded cell check agrees with the null-aware one on every non-null string |
| RuleComparison.UsernameRulesAgree | src/quickchatapp/Login.java:61-64 | the user-name rules of the two account classes are the same, null included |
| RuleComparison.PasswordRulesAgree | src/quickchatapp/Login.java:67-87 | on ASCII passwords, the loop of one account class and the regex searches of the other accept the same passwords |
| RuleComparison.SouthAfricanPassesInternational | src/quickchatapp/Login.java:90-99 | every number the South African rule accepts, the international rule accepts too |
| RuleComparison.InternationalIsNotSouthAfrican | src/quickchatapp/Login.java:94 | "+1234567890" passes the international rule but not the South African one |
| RuleComparison.PasswordExamples | src/userauthenticationsystem/UserAuthenticationSystem.java:325-335 | three complex passwords pass; a seven-character one, one without a special character, "password123" and null fail |
| RuleComparison.LowerCasePasswordFails | src/userauthenticationsystem/UserAuthenticationSystem.java:330 | every password with no capital letter fails, whatever its length |
| RuleComparison.UsernameExamples | src/userauthenticationsystem/UserAuthenticationSystem.java:317-322 | "kyl_1" and "a_b" pass; names without an underscore or longer than five fail |
| JavaStrings.Trim | src/userauthenticationsystem/UserAuthenticationSystem.java:233 | the result is no longer than the input, empty exactly when the input is blank, and otherwise starts and ends with a character above U+0020 |
| JavaStrings.TrimIsSlice | src/userauthenticationsystem/UserAuthenticationSystem.java:233 | the trimmed string is one slice of the input, and everything cut away before and after it is blank |
| JavaStrings.TrimOfTrimmed | src/userauthenticationsystem/Message.java:61 | trimming a string whose ends are not blank leaves it unchanged |
| JavaStrings.ToUpperCase | src/userauthenticationsystem/Message.java:49-50 | the same length, each character upper-cased |
| JavaStrings.ToLowerCase | src/userauthenticationsystem/UserAuthenticationSystem.java:264 | the same length, each character lower-cased |
| DecimalFormat.ZeroPad | src/userauthenticationsystem/Message.java:48 | all digits, and exactly the requested width unless the number needs more digits |
| DecimalFormat.ParseZeroPad | src/userauthenticationsystem/Message.java:26 | the padded rendering reads back as the number |
| DecimalFormat.ZeroPadInjective | src/userauthenticationsystem/Message.java:26 | different numbers never share a padded rendering |
| DecimalFormat.ZeroPadWidth | src/userauthenticationsystem/Message.java:26 | below ten to the width, the padded rendering is exactly the width long |
| DecimalFormat.Decimal | src/userauthenticationsystem/Message.java:76 | at least one digit, all digits, and no leading zero except for zero itself |
| DecimalFormat.ParseDecimalOfDecimal | src/userauthenticationsystem/Message.java:76 | the rendering of a number reads back as that number |
| WhitespaceSplit.Split | src/userauthenticationsystem/Message.java:43 | the last element is empty only when the input is empty and the result is the single empty string |
| WhitespaceSplit.SplitWords | src/userauthenticationsystem/Message.java:43 | no element holds whitespace, every element after the first is non-empty, and together they are the non-whitespace characters of the input; the first element is everything before the first whitespace character, and when the input holds a non-whitespace character the last element is its final maximal run of non-whitespace |
| WhitespaceSplit.SplitNoSpace | src/userauthenticationsystem/Message.java:43 | a string without whitespace splits into itself alone |
| WhitespaceSplit.SplitEmptyIff | src/userauthenticationsystem/Message.java:43-44 | the result is empty exactly when the input is non-empty and all whitespace |
| WhitespaceSplit.SplitFirstEmptyIff | src/userauthenticationsystem/Message.java:43-44 | the first element is empty exactly when the input is empty or starts with whitespace |
| PhonePattern.InternationalMeaning | src/userauthenticationsystem/UserAuthenticationSystem.java:342-343 | the regex with its two digit groups matches exactly a plus sign followed by 8 to 13 digits |

## Left out

- Console input and output: the menus of `startApplication`, `main`, the printed prompts and notices, `showRecentMessages` and `displayMessageDetails`. Each line read from the `Scanner` is a parameter instead.
- `Integer.parseInt` in `setMessageLimit` is not modelled. The parsed line is an `Option<int>` parameter, and `None` stands for the `NumberFormatException` path.
- Timestamps (`new Date()`, `LocalDateTime.now()`), and the nested message class's `checkMessageHash`, which hashes a timestamp with `String.hashCode`. The clock is outside the model, so `ChatMessage` has no timestamp.
- The `toString` methods and the getters. The getters read fields the model exposes directly.
- `Message.storeMessage`'s JSON write: the source only mentions it in a comment and prints a line.
- Non-ASCII characters. `Character.isUpperCase`, `isDigit` and `isLetterOrDigit` are modelled on ASCII, so a non-ASCII letter counts as a special character in `Login`'s password rule, where Java would not count it. The two password rules therefore agree only on ASCII passwords. In Java, `Login` accepts "Äbcdefg1!" and rejects "Abcdefg1é", and the regex rule of `UserAuthenticationSystem` does the opposite; the model has both rules reject the first and accept the second.
- `toUpperCase` and `toLowerCase` (src/userauthenticationsystem/Message.java:49-50, src/userauthenticationsystem/UserAuthenticationSystem.java:264) map only ASCII letters and keep the length. Java maps every letter and can change the length: "straße" becomes "STRASSE".
- String lengths. A Dafny `string` counts characters, where Java's `length()` counts UTF-16 units, so a character outside the Basic Multilingual Plane counts once here and twice in Java. The user-name limit of five, the password minimum of eight and the message maximum of 250 are therefore checked on characters: three emoji and "_" are four characters here and seven in Java.
- 32-bit `int` wrap-around of `messageCounter`, `totalMessagesSent` and the message limit. Counters are unbounded, because wrap-around needs more than two billion messages.
- Null arguments that make Java throw are excluded by the types. The `null` checks in `UserAuthenticationSystem`'s five-argument constructor and `Login`'s four-argument constructor are such cases, as are `CellPhoneNumber` given `null` and `Login.loginUser` when a stored user name or password is null (`LoginDefined`).
- Results returned as strings: `registerNewUser` and `Login.registerUser` return datatypes, and `RegistrationText` gives each one's exact text.
- UserAuthentication.UserAuthenticationSystem.SendMessageWorkflow: its contract does not say that the quota holds afterwards. That fact is the separate lemma `WorkflowKeepsQuota`, applied to the list the contract describes.
- The welcome-line expectation of test/userauthenticationsystem/UserAuthenticationSystemTest.java:73 is not followed: that test expects one space after the comma for an empty last name, while the code writes two. The model follows the code, and `WelcomeWithEmptyLastName` states the difference.
- Message fingerprint with an id shorter than two characters: `MessageHash` and `CheckMessageHash` require a two-character id, which every id from the counter has (ids are at least five digits).
