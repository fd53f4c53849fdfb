/** The readiness base score of `analyzeJD` (src/lib/analysisEngine.js:113-119). */
module Score {
  import opened Text

  function Min(a: int, b: int): int {
    if a <= b then a else b
  }

  /** `Math.min(hi, Math.max(lo, x))`. */
  function Clamp(x: int, lo: int, hi: int): (r: int)
    requires lo <= hi
    ensures lo <= r <= hi
    ensures lo <= x <= hi ==> r == x
    ensures x < lo ==> r == lo
    ensures x > hi ==> r == hi
  {
    if x < lo then lo else if x > hi then hi else x
  }

  /** Whether a string is truthy after `trim()`. */
  predicate HasText(s: string) {
    Trim(s) != ""
  }

  /** The base score: 35, plus 5 per detected category up to 30, plus 10 each for a
      non-blank company, a non-blank role and a description over 800 characters,
      capped at 100. */
  function BaseScore(detected: nat, company: string, role: string, jdText: string): (s: int)
    ensures 35 <= s <= 95
    ensures !HasText(company) && !HasText(role) && |jdText| <= 800 ==> s == 35 + Min(5 * detected, 30)
  {
    var score := 35 + Min(detected * 5, 30)
      + (if HasText(company) then 10 else 0)
      + (if HasText(role) then 10 else 0)
      + (if |jdText| > 800 then 10 else 0);
    Min(score, 100)
  }

  /** Every category beyond the sixth adds nothing. */
  lemma BaseScoreSaturates(detected: nat, company: string, role: string, jdText: string)
    requires detected >= 6
    ensures BaseScore(detected, company, role, jdText) == BaseScore(6, company, role, jdText)
  {
  }

  /** Each bonus is worth exactly ten: a company or role that is non-blank once trimmed, and a
      description longer than 800 characters, each add ten to the score without them (the
      highest sum, 95, stays below the cap). */
  lemma BonusesAddTen(detected: nat, company: string, role: string, jdText: string)
    ensures HasText(company) ==>
      BaseScore(detected, company, role, jdText) == BaseScore(detected, "", role, jdText) + 10
    ensures HasText(role) ==>
      BaseScore(detected, company, role, jdText) == BaseScore(detected, company, "", jdText) + 10
    ensures |jdText| > 800 ==>
      BaseScore(detected, company, role, jdText) == BaseScore(detected, company, role, "") + 10
  {
    CompanyBonus(detected, company, role, jdText);
    RoleBonus(detected, company, role, jdText);
    LengthBonus(detected, company, role, jdText);
  }

  lemma EmptyHasNoText()
    ensures !HasText("")
  {
    assert Trim("") == "";
  }

  lemma CompanyBonus(detected: nat, company: string, role: string, jdText: string)
    ensures HasText(company) ==>
      BaseScore(detected, company, role, jdText) == BaseScore(detected, "", role, jdText) + 10
  {
    EmptyHasNoText();
  }

  lemma RoleBonus(detected: nat, company: string, role: string, jdText: string)
    ensures HasText(role) ==>
      BaseScore(detected, company, role, jdText) == BaseScore(detected, company, "", jdText) + 10
  {
    EmptyHasNoText();
  }

  lemma LengthBonus(detected: nat, company: string, role: string, jdText: string)
    ensures |jdText| > 800 ==>
      BaseScore(detected, company, role, jdText) == BaseScore(detected, company, role, "") + 10
  {
  }

  /** A company or role made only of white space earns no bonus. */
  lemma BlankInputsEarnNothing(detected: nat, company: string, role: string, jdText: string)
    requires forall i :: 0 <= i < |company| ==> IsSpace(company[i])
    requires forall i :: 0 <= i < |role| ==> IsSpace(role[i])
    ensures BaseScore(detected, company, role, jdText) == BaseScore(detected, "", "", jdText)
  {
  }
}
