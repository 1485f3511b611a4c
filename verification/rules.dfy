/**
 * The field validators the submission handler chains: the express-validator
 * built-ins it uses (notEmpty, isAlpha, isLength, isInt, isDate, isAfter,
 * isBefore), given by what they accept, and the application's own isPhone.
 */
module Rules {
  import opened Optional
  import opened Text
  import opened Dates

  const NameMinLength: nat := 2
  const NameMaxLength: nat := 30
  const AgeMin: int := 10
  const AgeMax: int := 100
  const PhoneMinDigits: nat := 4
  const PhoneMaxDigits: nat := 20
  /** The lower bound the date of birth must lie after. */
  const Earliest := Day(1900, 1, 1)

  /** notEmpty: the value is not the empty string (white space counts as content). */
  predicate NotEmpty(s: string) { |s| != 0 }

  /** isAlpha with the default en-US alphabet: one or more ASCII letters. */
  predicate IsAlpha(s: string) { |s| > 0 && forall i | 0 <= i < |s| :: IsAsciiLetter(s[i]) }

  /** isLength({min, max}), counted in characters. */
  predicate IsLength(s: string, min: nat, max: nat) { min <= |s| <= max }

  /** isInt({min, max}): integer syntax whose value lies in [min, max]. */
  predicate IsInt(s: string, min: int, max: int) { IntSyntax(s) && min <= IntValue(s) <= max }

  /** isDate: the value reads as a calendar date. */
  predicate IsDate(s: string) { ParseDate(s).Some? }

  /** isAfter(bound): the value is a date strictly later than bound. */
  predicate IsAfter(s: string, bound: Day) {
    ParseDate(s).Some? && DayBefore(bound, ParseDate(s).value)
  }

  /** isBefore() with its default bound: the value is a date whose start is strictly before now. */
  predicate IsBefore(s: string, now: Clock) {
    ParseDate(s).Some? && StartsBefore(ParseDate(s).value, now)
  }

  /** isPhone: the pattern ^\+?\d{4,20}$, i.e. one optional '+' then 4 to 20 ASCII digits. */
  predicate IsPhone(s: string) {
    var digits := if |s| > 0 && s[0] == '+' then s[1..] else s;
    PhoneMinDigits <= |digits| <= PhoneMaxDigits && AllDigits(digits)
  }

  /** A phone number written with or without its leading '+'. */
  function PhoneNumber(plus: bool, digits: string): string {
    (if plus then "+" else "") + digits
  }

  /** isPhone accepts an optional '+' followed by a digit string exactly when there are 4 to 20 digits. */
  lemma PhoneAccepts(plus: bool, digits: string)
    requires AllDigits(digits)
    ensures IsPhone(PhoneNumber(plus, digits)) <==> PhoneMinDigits <= |digits| <= PhoneMaxDigits
  {
    var s := PhoneNumber(plus, digits);
    if plus {
      assert s[0] == '+' && s[1..] == digits;
    } else if |digits| > 0 {
      assert s[0] == digits[0];
    }
  }

  /** Everything isPhone accepts has that shape: no other phone numbers exist. */
  lemma PhoneShape(s: string)
    requires IsPhone(s)
    ensures var plus := |s| > 0 && s[0] == '+';
      var digits := s[(if plus then 1 else 0)..];
      s == PhoneNumber(plus, digits) && AllDigits(digits) &&
      PhoneMinDigits <= |digits| <= PhoneMaxDigits
  {
  }

  /** A separator, a space or a '+' anywhere but first makes isPhone fail. */
  lemma PhoneRejectsStrayCharacter(s: string, i: nat)
    requires i < |s| && !IsDigit(s[i]) && (i > 0 || s[i] != '+')
    ensures !IsPhone(s)
  {
    if |s| > 0 && s[0] == '+' {
      assert s[1..][i - 1] == s[i];
    }
  }

  /** The phone number of the application's successful test submission passes isPhone. */
  lemma PlainPhoneAccepted()
    ensures IsPhone("+919419212231")
  {
    PhoneAccepts(true, "919419212231");
    assert "+919419212231" == PhoneNumber(true, "919419212231");
  }

  /** The phone number of the rejected test submission, written with '-' and spaces, fails isPhone. */
  lemma FormattedPhoneRejected()
    ensures !IsPhone("+91-9419 212-231")
  {
    PhoneRejectsStrayCharacter("+91-9419 212-231", 3);
  }

  /** Four digits are enough for isPhone, fewer than the message's six. */
  lemma FourDigitPhoneAccepted()
    ensures IsPhone("1234")
  {
    PhoneAccepts(false, "1234");
    assert "1234" == PhoneNumber(false, "1234");
  }

  /** The age bounds: 23 passes, 101 and 9 do not. */
  lemma AgeExamples()
    ensures IsInt("23", AgeMin, AgeMax)
    ensures !IsInt("101", AgeMin, AgeMax)
    ensures !IsInt("9", AgeMin, AgeMax)
  {
    assert SplitSign("23").1 == "23";
    assert "23"[..1] == "2";
    assert SplitSign("101").1 == "101";
    assert "101"[..2] == "10" && "10"[..1] == "1";
    assert SplitSign("9").1 == "9";
  }

  /** A name that passes isAlpha contains no white space, so trimming it changes nothing. */
  lemma AlphaNoSpace(s: string)
    requires IsAlpha(s)
    ensures NoSpace(s)
  {
  }
}
