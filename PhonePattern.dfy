/**
  The international cell-number regular expression `^\+\d{1,3}\d{7,10}$`
  used by `UserAuthenticationSystem`, `Message` and `CellPhoneNumber`, matched
  with `Pattern.matches` (the whole string must match; `\d` is `[0-9]`).
 */
module PhonePattern {
  import opened JavaStrings

  /** One way the regex can match: the country-code group `\d{1,3}` takes `k` digits, `\d{7,10}` the rest. */
  predicate GroupsMatch(s: string, k: nat)
    requires |s| >= 1
  {
    1 <= k <= 3 && 1 + k <= |s| && AllDigits(s[1..1 + k])
    && 7 <= |s| - 1 - k <= 10 && AllDigits(s[1 + k..])
  }

  /** `Pattern.matches("^\\+\\d{1,3}\\d{7,10}$", s)`, trying every split the regex engine may backtrack to. */
  predicate MatchesInternational(s: string) {
    |s| >= 1 && s[0] == '+' && (GroupsMatch(s, 1) || GroupsMatch(s, 2) || GroupsMatch(s, 3))
  }

  /** A plus sign followed by between `lo` and `hi` ASCII digits, and nothing else. */
  predicate PlusAndDigits(s: string, lo: nat, hi: nat) {
    |s| >= 1 && s[0] == '+' && lo <= |s| - 1 <= hi && AllDigits(s[1..])
  }

  lemma DigitsJoin(s: string, a: nat, b: nat)
    requires a <= b <= |s| && AllDigits(s[a..b]) && AllDigits(s[b..])
    ensures AllDigits(s[a..])
  {
    forall i | 0 <= i < |s[a..]| ensures IsDigit(s[a..][i]) {
      if a + i < b { assert s[a..][i] == s[a..b][i]; } else { assert s[a..][i] == s[b..][a + i - b]; }
    }
  }

  /** The two digit groups add up to "a plus sign, then 8 to 13 digits". */
  lemma InternationalMeaning(s: string)
    ensures MatchesInternational(s) <==> PlusAndDigits(s, 8, 13)
  {
    if MatchesInternational(s) {
      if GroupsMatch(s, 1) { DigitsJoin(s, 1, 2); }
      else if GroupsMatch(s, 2) { DigitsJoin(s, 1, 3); }
      else { DigitsJoin(s, 1, 4); }
    }
    if PlusAndDigits(s, 8, 13) {
      var n := |s| - 1;
      var k := if n <= 11 then 1 else n - 10;
      var digits, code, rest := s[1..], s[1..1 + k], s[1 + k..];
      assert AllDigits(code) by {
        forall i | 0 <= i < |code| ensures IsDigit(code[i]) { assert code[i] == digits[i]; }
      }
      assert AllDigits(rest) by {
        forall i | 0 <= i < |rest| ensures IsDigit(rest[i]) { assert rest[i] == digits[k + i]; }
      }
      assert GroupsMatch(s, k);
    }
  }
}
