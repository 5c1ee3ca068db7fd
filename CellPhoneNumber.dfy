/** `CellPhoneNumber`: the international cell-number rule on its own, with no null or blank guard. */
module CellPhoneNumbers {
  import opened JavaStrings
  import opened PhonePattern

  /**
    `checkCellPhoneNumberFormat`: a plus sign and 8 to 13 digits. Java throws
    on `null` here, so the argument is a (non-null) string.
   */
  function CheckCellPhoneNumberFormat(cellNumber: string): (ok: bool)
    ensures ok <==> PlusAndDigits(cellNumber, 8, 13)
  {
    InternationalMeaning(cellNumber);
    MatchesInternational(cellNumber)
  }

  /** The match covers the whole string: no character can be put in front of an accepted number. */
  lemma NoLeadingExtra(cellNumber: string, c: char)
    requires CheckCellPhoneNumberFormat(cellNumber)
    ensures !CheckCellPhoneNumberFormat([c] + cellNumber)
  {
    assert ([c] + cellNumber)[1..][0] == '+';
  }

  /** Nor can a non-digit be put after it (a trailing blank, for one). */
  lemma NoTrailingExtra(cellNumber: string, c: char)
    requires CheckCellPhoneNumberFormat(cellNumber) && !IsDigit(c)
    ensures !CheckCellPhoneNumberFormat(cellNumber + [c])
  {
    var t := cellNumber + [c];
    assert t[1..][|t| - 2] == c;
  }

  /** A South African and a shorter international number both pass. */
  lemma AcceptedExamples()
    ensures CheckCellPhoneNumberFormat("+27831234567")
    ensures CheckCellPhoneNumberFormat("+1234567890")
  {
    assert "+27831234567"[1..] == "27831234567";
    assert "+1234567890"[1..] == "1234567890";
  }

  /** No plus sign, too few digits, letters, or a trailing blank: each fails. */
  lemma RejectedExamples()
    ensures !CheckCellPhoneNumberFormat("27831234567")
    ensures !CheckCellPhoneNumberFormat("+123456")
    ensures !CheckCellPhoneNumberFormat("+abc1234567")
    ensures !CheckCellPhoneNumberFormat("+27831234567 ")
  {
    assert "+abc1234567"[1..][0] == 'a';
    assert "+27831234567 "[1..][11] == ' ';
  }
}
