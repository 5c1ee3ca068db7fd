/**
  The repository carries its credential rules more than once
  (`Login`, `UserAuthenticationSystem` and `CellPhoneNumber`).
  These lemmas say where the copies agree and where they part.
 */
module RuleComparison {
  import opened Wrappers
  import opened JavaStrings
  import opened PhonePattern
  import Auth = UserAuthentication
  import L = QuickChatLogin
  import Cell = CellPhoneNumbers

  /** The stand-alone cell-number check and the null-aware one agree on every non-null string. */
  lemma CellChecksAgree(s: string)
    ensures Cell.CheckCellPhoneNumberFormat(s) == Auth.CheckCellPhoneNumberFormat(Some(s))
  {
  }

  /** Both variants' user-name rules are the same predicate, null included. */
  lemma UsernameRulesAgree(u: Option<string>)
    ensures L.UserNameRule(u) == Auth.CheckUsernameFormat(u)
  {
  }

  /**
    Both variants' password rules are the same predicate on ASCII passwords,
    null included. The character classes here are ASCII ones, so this says
    nothing about passwords where Java's `Character.isUpperCase` and the
    regular expression `[A-Z]` part ways (an accented capital, say).
   */
  lemma PasswordRulesAgree(p: Option<string>)
    ensures L.PasswordRule(p) == Auth.CheckPasswordComplexity(p)
  {
  }

  /** Every number `Login` accepts is accepted by the international rule. */
  lemma SouthAfricanPassesInternational(c: Option<string>)
    requires L.CellRule(c)
    ensures Auth.CheckCellPhoneNumberFormat(c)
  {
    L.SouthAfricanIsInternational(c.value);
  }

  /** The converse fails: a ten-digit number with another country code passes one rule and not the other. */
  lemma InternationalIsNotSouthAfrican()
    ensures Auth.CheckCellPhoneNumberFormat(Some("+1234567890"))
    ensures !L.CellRule(Some("+1234567890"))
  {
    Cell.AcceptedExamples();
  }

  /** Passwords that pass and fail the shared rule. */
  lemma PasswordExamples()
    ensures Auth.CheckPasswordComplexity(Some("Ch&&sec@ke99!"))
    ensures Auth.CheckPasswordComplexity(Some("Pass@1wd"))
    ensures Auth.CheckPasswordComplexity(Some("A1@bcdefg"))
    ensures !Auth.CheckPasswordComplexity(Some("P@ssw0r"))
    ensures !Auth.CheckPasswordComplexity(Some("Password1"))
    ensures !Auth.CheckPasswordComplexity(Some("password123"))
    ensures !Auth.CheckPasswordComplexity(None)
  {
    LowerCasePasswordFails("password123");
    assert IsUpper("Ch&&sec@ke99!"[0]) && IsDigit("Ch&&sec@ke99!"[10]) && !IsLetterOrDigit("Ch&&sec@ke99!"[2]);
    assert IsUpper("Pass@1wd"[0]) && IsDigit("Pass@1wd"[5]) && !IsLetterOrDigit("Pass@1wd"[4]);
    assert IsUpper("A1@bcdefg"[0]) && IsDigit("A1@bcdefg"[1]) && !IsLetterOrDigit("A1@bcdefg"[2]);
    assert forall i :: 0 <= i < 9 ==> IsLetterOrDigit("Password1"[i]);
  }

  /** A password without a capital fails however long it is. */
  lemma LowerCasePasswordFails(p: string)
    requires forall i :: 0 <= i < |p| ==> !IsUpper(p[i])
    ensures !Auth.CheckPasswordComplexity(Some(p))
  {
  }

  /** User names that pass and fail the shared rule. */
  lemma UsernameExamples()
    ensures Auth.CheckUsernameFormat(Some("kyl_1"))
    ensures Auth.CheckUsernameFormat(Some("a_b"))
    ensures !Auth.CheckUsernameFormat(Some("kyle"))
    ensures !Auth.CheckUsernameFormat(Some("ky le"))
    ensures !Auth.CheckUsernameFormat(Some("kyle!!!!!!!"))
    ensures !Auth.CheckUsernameFormat(Some("kyl__1"))
  {
    assert "kyl_1"[3] == '_';
    assert "a_b"[1] == '_';
    assert forall i :: 0 <= i < 5 ==> "ky le"[i] != '_';
  }
}
