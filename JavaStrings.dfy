/**
  The pieces of `java.lang.String` and `java.lang.Character` that the
  credential and message rules rely on, restricted to ASCII: character
  classes, `trim()`, `contains`, `toUpperCase()` and `toLowerCase()`.
 */
module JavaStrings {

  /** `[A-Z]`, and `Character.isUpperCase` on ASCII. */
  predicate IsUpper(c: char) { 'A' <= c <= 'Z' }

  /** `[a-z]`, and `Character.isLowerCase` on ASCII. */
  predicate IsLower(c: char) { 'a' <= c <= 'z' }

  /** `[0-9]` and `\d`, and `Character.isDigit` on ASCII. */
  predicate IsDigit(c: char) { '0' <= c <= '9' }

  /** `[A-Za-z0-9]`, and `Character.isLetterOrDigit` on ASCII. */
  predicate IsLetterOrDigit(c: char) { IsUpper(c) || IsLower(c) || IsDigit(c) }

  predicate AllDigits(s: string) {
    forall i :: 0 <= i < |s| ==> IsDigit(s[i])
  }

  /** `Pattern.compile("[A-Z]").matcher(s).find()` */
  predicate HasUpper(s: string) {
    exists i :: 0 <= i < |s| && IsUpper(s[i])
  }

  /** `Pattern.compile("[0-9]").matcher(s).find()` */
  predicate HasDigit(s: string) {
    exists i :: 0 <= i < |s| && IsDigit(s[i])
  }

  /** `Pattern.compile("[^A-Za-z0-9]").matcher(s).find()` */
  predicate HasSpecial(s: string) {
    exists i :: 0 <= i < |s| && !IsLetterOrDigit(s[i])
  }

  /** `trim()` removes every leading and trailing character at or below U+0020. */
  predicate IsBlank(s: string) {
    forall i :: 0 <= i < |s| ==> s[i] <= ' '
  }

  /** The first index at or after `i` whose character is above U+0020, or `|s|`. */
  function SkipBlanks(s: string, i: nat): (k: nat)
    requires i <= |s|
    ensures i <= k <= |s|
    ensures forall j :: i <= j < k ==> s[j] <= ' '
    ensures k < |s| ==> s[k] > ' '
    decreases |s| - i
  {
    if i < |s| && s[i] <= ' ' then SkipBlanks(s, i + 1) else i
  }

  /** The end of `s[lo..hi]` once its trailing characters at or below U+0020 are dropped. */
  function DropBlanks(s: string, lo: nat, hi: nat): (m: nat)
    requires lo <= hi <= |s|
    ensures lo <= m <= hi
    ensures forall j :: m <= j < hi ==> s[j] <= ' '
    ensures m > lo ==> s[m - 1] > ' '
    decreases hi
  {
    if hi > lo && s[hi - 1] <= ' ' then DropBlanks(s, lo, hi - 1) else hi
  }

  /** `s.trim()`: what is left of `s` after dropping blank characters at both ends. */
  function Trim(s: string): (r: string)
    ensures |r| <= |s|
    ensures r == [] <==> IsBlank(s)
    ensures r != [] ==> r[0] > ' ' && r[|r| - 1] > ' '
  {
    var a := SkipBlanks(s, 0);
    s[a..DropBlanks(s, a, |s|)]
  }

  /** `trim()` cuts one slice out of `s`, and what it cuts away at either end is blank. */
  lemma TrimIsSlice(s: string)
    ensures exists a, b :: 0 <= a <= b <= |s| && Trim(s) == s[a..b] && IsBlank(s[..a]) && IsBlank(s[b..])
  {
    var a := SkipBlanks(s, 0);
    var b := DropBlanks(s, a, |s|);
    assert IsBlank(s[..a]) && IsBlank(s[b..]);
    assert Trim(s) == s[a..b];
  }

  /** A string holding a character above U+0020 is not empty after `trim()`. */
  lemma TrimNonEmpty(s: string, c: char)
    ensures c in s && c > ' ' ==> Trim(s) != []
  {
  }

  lemma {:induction false} TrimOfTrimmed(s: string)
    requires s == [] || (s[0] > ' ' && s[|s| - 1] > ' ')
    ensures Trim(s) == s
  {
    if s != [] {
      assert SkipBlanks(s, 0) == 0;
      assert DropBlanks(s, 0, |s|) == |s|;
    }
  }

  /** `Character.toUpperCase` on ASCII. */
  function UpperChar(c: char): (u: char)
    ensures !IsLower(u)
  {
    if IsLower(c) then (c as int - 32) as char else c
  }

  /** `Character.toLowerCase` on ASCII. */
  function LowerChar(c: char): (l: char)
    ensures !IsUpper(l)
  {
    if IsUpper(c) then (c as int + 32) as char else c
  }

  /** `s.toUpperCase()` over ASCII: every letter upper-cased, nothing else touched. */
  function ToUpperCase(s: string): (r: string)
    ensures |r| == |s|
    ensures forall i :: 0 <= i < |s| ==> r[i] == UpperChar(s[i])
  {
    seq(|s|, i requires 0 <= i < |s| => UpperChar(s[i]))
  }

  /** `s.toLowerCase()` over ASCII. */
  function ToLowerCase(s: string): (r: string)
    ensures |r| == |s|
    ensures forall i :: 0 <= i < |s| ==> r[i] == LowerChar(s[i])
  {
    seq(|s|, i requires 0 <= i < |s| => LowerChar(s[i]))
  }
}
