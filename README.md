# Barcode scanner page: validator, sample generator and scan controller

This project models the first-party logic of the barcode scanner page's
`BarcodeApp` class in Dafny:

- **Validator** (`validation.dfy`, module `Validation`). `ValidateBarcode` is
  the page's ordered rule table. A code in the fixed 25-entry database of
  genuine codes is accepted. Otherwise a code shorter than three characters
  is rejected, and so is one that is not all ASCII digits (`^\d+$`). A code
  that starts with `'1'` and has at least five characters is accepted.
  Everything else is rejected. The contract gives the closed form: accepted
  exactly when the code is in the database, or is all digits, starts with
  `'1'` and has length at least 5. The length-3 rule is subsumed by that.
- **Decimal rendering** (`digits.dfy`, module `Digits`). This is the plain
  decimal rendering of a non-negative integer and the digit class `\d`. It
  agrees with `Number.prototype.toString()` on the safe integers (up to
  2^53); the page renders only five-digit values.
  It comes with a round trip back to the number, injectivity, and the exact
  five-character form of a five-digit number.
- **Sample generator** (`samples.dfy`, module `Samples`).
  `GenerateSampleCodes` is the page's `while` loop. It starts from the five
  fixed genuine codes and keeps each drawn five-digit candidate that is
  neither genuine nor already collected, until five test codes are
  collected. Randomness is a parameter: `draws[k]` is the k-th candidate the
  page computes, `floor(10000 + Math.random() * 90000)`, minus 10000, so any
  value in [0, 90000). The candidate code is the decimal rendering of
  `10000 + draws[k]`. The loop is proved against the recursive
  specification `Collect` / `SampleCodes`. Lemmas prove the following. The
  result has ten distinct codes. The genuine five come first, in order. Each
  later code is a five-digit candidate of one of the draws. A result exists
  exactly when the draws offer at least five distinct non-genuine
  candidates. When the draws run out before that, the method returns `None`.
  The page itself would keep drawing.
- **Scan controller** (`scanner.dfy`, module `Scanner`). A class with the
  `isScanning` flag, the result panel (cleared, a scanned verdict, or the
  camera error), and the record of calls made into the external decoder
  (init, start, stop). `Start` does nothing while scanning. The
  initialisation callback sets the flag. `Stop` does nothing unless scanning
  and otherwise releases the camera. The detection handler shows the verdict
  and then stops. The object invariant says that the flag is set exactly
  when the last decoder call was the one that started decoding, so a cleared
  flag never leaves the decoder started.

## Model

| member | source | states |
|---|---|---|
| Validation.ValidateBarcode | script.js:126-164 | accepted iff in the genuine database, or all ASCII digits with a leading '1' and length at least 5; database codes are always accepted; codes shorter than 3, codes outside the database with a non-digit, and all-digit codes outside the database not starting with '1' are rejected |
| Validation.DatabaseShape | script.js:128-138 | every database entry is an all-digit string of 5 to 13 characters, so none is shorter than the minimum length |
| Validation.DatabaseOverridesHeuristic | script.js:140-143 | "33445" and "00000" fail the leading-'1' rule yet are accepted because they are in the database |
| Validation.Scenarios | script.js:152-160 | "12345" and "19999" are accepted; "1abc5" is rejected for its non-digits |
| Validation.RejectsLongCodeNotStartingWithOne | script.js:162-163 | "99999999" (outside the database, leading '9') is rejected |
| Digits.AllDigits | script.js:151-154 | the definition of the `^\d+$` test: non-empty, every character '0'..'9' |
| Digits.DecimalString | script.js:192 | the rendering of an integer is a non-empty all-digit string with no leading zero when the integer has more than one digit |
| Digits.DecimalRoundTrip | script.js:192 | reading a rendered integer back gives the integer |
| Digits.DecimalStringInjective | script.js:192-193 | two integers render the same exactly when they are equal, so distinct draws give distinct codes |
| Digits.FiveDigitRendering | script.js:192 | an integer in [10000, 99999] renders as its five decimal digits, most significant first |
| Samples.CandidateCode | script.js:192 | a candidate code is exactly five ASCII digits and is the rendering of 10000 + draw |
| Samples.Collect | script.js:191-196 | the loop's reference definition: when it finishes it holds exactly five test codes extending those already collected; with fewer draws left than codes still needed it cannot finish |
| Samples.SampleCodes | script.js:198 | the returned list is the genuine codes followed by the test codes: 10 entries with the genuine five first; with fewer than five draws no list is produced |
| Samples.CollectKeepsGoodCodes | script.js:191-196 | when the loop finishes it holds five test codes that extend those already collected, are pairwise distinct, are none of the genuine codes, and each come from a draw |
| Samples.PoolStep | script.js:192-195 | one loop turn keeps the collected codes distinct and non-genuine and keeps the pool (collected codes plus fresh candidates still to come) unchanged |
| Samples.CollectSucceeds | script.js:191-196 | from a partial collection the loop finishes exactly when the pool holds at least five codes |
| Samples.SampleCodesShape | script.js:185-199 | a produced list has exactly 10 codes, begins with '12345','67890','11111','22222','33333' in that order, is pairwise distinct, and each later code is five digits drawn from the draws |
| Samples.SampleCodesSucceeds | script.js:191 | the list is produced exactly when the draws offer at least five distinct candidates outside the genuine codes |
| Samples.GenerateSampleCodes | script.js:185-199 | the loop returns the specified list: ten distinct codes with the genuine five first, present exactly when the draws offer five fresh candidates |
| Samples.GenuineCodesValidate | script.js:187 | each of the five fixed sample codes is accepted by the validator |
| Samples.CandidateValidity | script.js:158-160 | a test code is accepted iff it is in the database or its draw is below 10000 (a draw is below 10000 exactly when its code starts with '1') |
| Scanner.Controller.constructor | script.js:3-5 | a new controller is not scanning, has a cleared panel and has made no decoder calls |
| Scanner.Controller.Start | script.js:22-34 | while scanning nothing changes; otherwise the panel is cleared, one initialisation is requested and the flag stays false |
| Scanner.Controller.InitSucceeded | script.js:65-77 | the successful initialisation callback sets the flag and starts decoding |
| Scanner.Controller.InitFailed | script.js:65-70 | the failed initialisation callback shows the camera error and leaves the flag and the decoder alone |
| Scanner.Controller.Stop | script.js:87-98 | when not scanning nothing changes; otherwise one stop call is made and the flag is cleared; afterwards the flag is always false |
| Scanner.Controller.Detected | script.js:79-84 | the panel shows the verdict of ValidateBarcode with the code and its length, then the controller is stopped |
| Scanner.RepeatedButtons | script.js:22-23 | scenario stop, stop, start, init success, start, stop from any state: the decoder sees one stop only if it was scanning, then exactly one init, one start and one stop, so the repeated stop and the start while scanning make no call |
| Scanner.VisibilityChanged | script.js:250-254 | when the page is hidden and a registered app instance is scanning, it is stopped; with no registered instance nothing happens |
| Scanner.PageHiddenAsWired | script.js:245-257 | as wired, no instance is registered, so hiding the page leaves a scanning controller scanning |
| Scanner.PageHidden | script.js:249-254 | with the controller registered, hiding the page stops it and releases the camera |

## Left out

- Quagga configuration, camera acquisition and the registration of the detection handler (script.js:34-84). These are a foreign library and asynchronous callbacks. The callbacks are modelled as the methods `InitSucceeded`, `InitFailed` and `Detected`, which the environment may call in any order. That a new detection handler is registered on every start is library behaviour and is not modelled.
- JsBarcode rendering, the 100 ms `setTimeout` and the plain-text fallback (script.js:201-236). These are a foreign renderer, timers and the DOM.
- HTML markup and button `disabled` toggling (script.js:100-124, 166-183, 73-74, 96-97). The panel is modelled only by its content: the verdict, the code and its length, or the error message.
- `Math.random` and floating point (script.js:192). Each draw is supplied as the computed candidate minus 10000, any integer in [0, 90000); which integer a given random double yields (the addition of 10000 can round up) is not modelled.
- Samples.GenerateSampleCodes: does not claim termination for arbitrary randomness. It returns `None` when the supplied draws run out before five test codes are collected, where the page would keep drawing.
- `generateRandomBarcode` (script.js:240-242). It is never called.
- `console.error` logging. This is I/O.
- Lengths are counted in characters, where JavaScript counts UTF-16 code units. The two differ only for characters outside the Basic Multilingual Plane. Such strings are not all digits, and the validator rejects them by either rule, so the verdicts agree.

## Findings

| source | as written | input that shows it | evidently intended | confidence | as-written member | corrected member |
|---|---|---|---|---|---|---|
| script.js:245-254 | the hide handler looks up `window.barcodeApp`, but the instance is created and discarded (line 246) and only the class is exported (line 257), so the lookup is always undefined | page hidden while the camera is scanning | hiding the page stops the scanner and releases the camera, as the comment at line 249 says | high, not executed | Scanner.PageHiddenAsWired | Scanner.PageHidden |
