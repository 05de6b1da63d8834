/** The genuine/invalid verdict the page gives a scanned code. */
module Validation {
  import opened Digits

  /** The fixed database of genuine codes; membership in it wins outright. */
  const ValidBarcodes: set<string> := {
    "12345", "67890", "11111", "22222", "33333", "44444", "55555",
    "66666", "77777", "88888", "99999", "00000", "13579", "24680",
    "98765", "54321", "11223", "33445", "55667", "77889", "99001",
    "1234567890123", "123456789012", "12345678901", "1234567890"
  }

  /** The fall-back rule for codes outside the database: all digits, a leading
      '1' and at least five characters. */
  predicate PassesHeuristic(code: string) {
    AllDigits(code) && |code| >= 5 && code[0] == '1'
  }

  /** The ordered rule table: database membership wins; then a code shorter
      than three characters, or one that is not all digits, is invalid; then a
      code that starts with '1' and has at least five characters is genuine;
      everything else is invalid. */
  function ValidateBarcode(code: string): (genuine: bool)
    ensures genuine <==> code in ValidBarcodes || PassesHeuristic(code)
    ensures code in ValidBarcodes ==> genuine
    ensures |code| < 3 ==> !genuine
    ensures code !in ValidBarcodes && (exists i :: 0 <= i < |code| && !IsDigit(code[i])) ==> !genuine
    ensures code !in ValidBarcodes && AllDigits(code) && code[0] != '1' ==> !genuine
  {
    if code in ValidBarcodes then true
    else if |code| < 3 then false
    else if !AllDigits(code) then false
    else if code[0] == '1' && |code| >= 5 then true
    else false
  }

  /** Every database entry is a digit string of five to thirteen characters, so
      none of them is cut off by the length rule. */
  lemma DatabaseShape(s: string)
    requires s in ValidBarcodes
    ensures AllDigits(s) && 5 <= |s| <= 13
  {
  }

  /** The database contains codes that the heuristic alone would reject, and
      they are genuine all the same. */
  lemma DatabaseOverridesHeuristic()
    ensures ValidateBarcode("33445") && !PassesHeuristic("33445")
    ensures ValidateBarcode("00000") && !PassesHeuristic("00000")
  {
  }

  /** The page's worked examples. */
  lemma Scenarios()
    ensures ValidateBarcode("12345")
    ensures ValidateBarcode("19999")
    ensures !ValidateBarcode("1abc5")
  {
    assert !IsDigit("1abc5"[1]);
  }

  /** An eight-digit code outside the database that starts with '9' is invalid. */
  lemma RejectsLongCodeNotStartingWithOne()
    ensures !ValidateBarcode("99999999")
  {
    assert |"99999999"| == 8;
  }
}
