/** The codes shown in the sample grid: five fixed genuine codes followed by
    five distinct random five-digit test codes. The random source is a
    parameter: `draws[k]` is the k-th candidate the page computes minus 10000,
    any value in [0, 90000). */
module Samples {
  import opened Digits
  import Validation

  datatype Option<T> = None | Some(value: T)

  /** The fixed genuine codes that open the grid. */
  const GenuineCodes: seq<string> := ["12345", "67890", "11111", "22222", "33333"]

  /** How many random test codes follow the genuine ones. */
  const TestCount: nat := 5

  /** Every draw lies in [0, 90000), so that 10000 + draw is a candidate the
      page can compute, `floor(10000 + Math.random() * 90000)`. */
  predicate ValidDraws(draws: seq<int>) {
    forall k :: 0 <= k < |draws| ==> 0 <= draws[k] < 90000
  }

  /** The candidate code for one draw: the decimal rendering of 10000 + d. */
  function CandidateCode(d: int): (code: string)
    requires 0 <= d < 90000
    ensures |code| == 5 && AllDigits(code)
    ensures code == DecimalString(10000 + d)
  {
    FiveDigitRendering(10000 + d);
    DecimalString(10000 + d)
  }

  predicate Distinct(s: seq<string>) {
    forall i, j :: 0 <= i < j < |s| ==> s[i] != s[j]
  }

  /** The codes `draws` can contribute as test codes: every candidate that is
      not one of the genuine codes. */
  ghost function FreshCandidates(draws: seq<int>): set<string>
    requires ValidDraws(draws)
  {
    set k | 0 <= k < |draws| && CandidateCode(draws[k]) !in GenuineCodes :: CandidateCode(draws[k])
  }

  /** What the page's loop collects from `draws`, starting with test codes
      `test` already collected: each candidate is kept unless it is a genuine
      code or already collected, until five are collected; `None` when the
      draws run out first. */
  function Collect(test: seq<string>, draws: seq<int>): (r: Option<seq<string>>)
    requires |test| <= TestCount && ValidDraws(draws)
    ensures r.Some? ==> |r.value| == TestCount && r.value[..|test|] == test
    ensures |draws| < TestCount - |test| ==> r.None?
    decreases |draws|
  {
    if |test| == TestCount then Some(test)
    else if draws == [] then None
    else
      var code := CandidateCode(draws[0]);
      if code !in GenuineCodes && code !in test then Collect(test + [code], draws[1..])
      else Collect(test, draws[1..])
  }

  /** The full list the page shows, genuine codes first. */
  function SampleCodes(draws: seq<int>): (r: Option<seq<string>>)
    requires ValidDraws(draws)
    ensures r.Some? ==> |r.value| == |GenuineCodes| + TestCount && r.value[..|GenuineCodes|] == GenuineCodes
    ensures |draws| < TestCount ==> r.None?
  {
    match Collect([], draws)
    case Some(test) => Some(GenuineCodes + test)
    case None => None
  }

  /** `code` is the candidate of one of the draws. */
  ghost predicate Drawn(code: string, draws: seq<int>)
    requires ValidDraws(draws)
  {
    exists k :: 0 <= k < |draws| && code == CandidateCode(draws[k])
  }

  lemma DrawnExtends(code: string, seen: seq<int>, more: seq<int>)
    requires ValidDraws(seen) && ValidDraws(more) && Drawn(code, seen)
    ensures Drawn(code, seen + more)
  {
    var k :| 0 <= k < |seen| && code == CandidateCode(seen[k]);
    assert (seen + more)[k] == seen[k];
  }

  /** The invariant of the collected test codes. */
  ghost predicate GoodTestCodes(test: seq<string>, draws: seq<int>)
    requires ValidDraws(draws)
  {
    && Distinct(test)
    && (forall i :: 0 <= i < |test| ==> test[i] !in GenuineCodes)
    && (forall i :: 0 <= i < |test| ==> Drawn(test[i], draws))
  }

  lemma {:induction false} CollectKeepsGoodCodes(test: seq<string>, seen: seq<int>, draws: seq<int>)
    requires |test| <= TestCount && ValidDraws(seen) && ValidDraws(draws)
    requires GoodTestCodes(test, seen)
    ensures Collect(test, draws).Some? ==>
      && |Collect(test, draws).value| == TestCount
      && Collect(test, draws).value[..|test|] == test
      && GoodTestCodes(Collect(test, draws).value, seen + draws)
    decreases |draws|
  {
    if |test| == TestCount {
      forall i | 0 <= i < |test| ensures Drawn(test[i], seen + draws) {
        DrawnExtends(test[i], seen, draws);
      }
    } else if draws != [] {
      var code := CandidateCode(draws[0]);
      var seen' := seen + [draws[0]];
      assert seen + draws == seen' + draws[1..];
      var test' := if code !in GenuineCodes && code !in test then test + [code] else test;
      forall i | 0 <= i < |test'| ensures Drawn(test'[i], seen') {
        if i < |test| {
          DrawnExtends(test[i], seen, [draws[0]]);
        } else {
          assert seen'[|seen|] == draws[0];
        }
      }
      CollectKeepsGoodCodes(test', seen', draws[1..]);
      if Collect(test, draws).Some? {
        assert Collect(test, draws).value[..|test'|] == test';
        assert test'[..|test|] == test;
      }
    }
  }

  /** When the page's list is produced it has ten entries, opens with the
      genuine codes in their order, has no duplicates, and every later entry
      is a five-digit candidate of one of the draws. */
  lemma SampleCodesShape(draws: seq<int>)
    requires ValidDraws(draws)
    ensures SampleCodes(draws).Some? ==>
      && |SampleCodes(draws).value| == 10
      && SampleCodes(draws).value[..5] == GenuineCodes
      && Distinct(SampleCodes(draws).value)
      && (forall i :: 5 <= i < 10 ==>
            |SampleCodes(draws).value[i]| == 5 && AllDigits(SampleCodes(draws).value[i]) &&
            Drawn(SampleCodes(draws).value[i], draws))
  {
    CollectKeepsGoodCodes([], [], draws);
    assert [] + draws == draws;
    if SampleCodes(draws).Some? {
      var test := Collect([], draws).value;
      var codes := GenuineCodes + test;
      forall i, j | 0 <= i < j < |codes| ensures codes[i] != codes[j] {
        if j >= 5 && i < 5 {
          assert codes[j] == test[j - 5];
          assert codes[i] in GenuineCodes;
        }
      }
      forall i | 5 <= i < 10
        ensures |codes[i]| == 5 && AllDigits(codes[i])
        ensures Drawn(codes[i], draws)
      {
        assert codes[i] == test[i - 5];
      }
    }
  }

  /** The distinct values of a list of codes. */
  ghost function Elements(s: seq<string>): set<string> {
    set c | c in s
  }

  /** Splitting off the first draw. */
  lemma FreshCandidatesCons(draws: seq<int>)
    requires |draws| > 0 && ValidDraws(draws)
    ensures FreshCandidates(draws) ==
      (if CandidateCode(draws[0]) !in GenuineCodes then {CandidateCode(draws[0])} else {})
      + FreshCandidates(draws[1..])
  {
    var code := CandidateCode(draws[0]);
    var rest := draws[1..];
    forall c | c in FreshCandidates(draws)
      ensures c in (if code !in GenuineCodes then {code} else {}) + FreshCandidates(rest)
    {
      var k :| 0 <= k < |draws| && CandidateCode(draws[k]) !in GenuineCodes && c == CandidateCode(draws[k]);
      if k > 0 { assert draws[k] == rest[k - 1]; }
    }
    forall c | c in FreshCandidates(rest) ensures c in FreshCandidates(draws) {
      var k :| 0 <= k < |rest| && CandidateCode(rest[k]) !in GenuineCodes && c == CandidateCode(rest[k]);
      assert rest[k] == draws[k + 1];
    }
  }

  /** One turn of the loop keeps the pool of codes (collected so far, or
      fresh candidates still to come) the same, and keeps the collected codes
      distinct and outside the genuine codes. */
  lemma PoolStep(test: seq<string>, draws: seq<int>)
    requires |test| < TestCount && |draws| > 0 && ValidDraws(draws)
    requires Distinct(test) && forall i :: 0 <= i < |test| ==> test[i] !in GenuineCodes
    ensures var code := CandidateCode(draws[0]);
      var test' := if code !in GenuineCodes && code !in test then test + [code] else test;
      && Distinct(test') && (forall i :: 0 <= i < |test'| ==> test'[i] !in GenuineCodes)
      && Elements(test) + FreshCandidates(draws) == Elements(test') + FreshCandidates(draws[1..])
  {
    var code := CandidateCode(draws[0]);
    FreshCandidatesCons(draws);
    if code !in GenuineCodes && code !in test {
      assert Elements(test + [code]) == Elements(test) + {code};
    }
  }

  /** Generalisation of SampleCodesSucceeds to a partial collection. */
  lemma {:induction false} CollectSucceeds(test: seq<string>, draws: seq<int>)
    requires |test| <= TestCount && ValidDraws(draws)
    requires Distinct(test) && forall i :: 0 <= i < |test| ==> test[i] !in GenuineCodes
    ensures Collect(test, draws).Some? <==> |Elements(test) + FreshCandidates(draws)| >= TestCount
    decreases |draws|
  {
    if |test| == TestCount {
      DistinctCardinality(test);
      SubsetCardinality(Elements(test), Elements(test) + FreshCandidates(draws));
    } else if draws == [] {
      DistinctCardinality(test);
      assert Elements(test) + FreshCandidates(draws) == Elements(test);
    } else {
      var code := CandidateCode(draws[0]);
      var test' := if code !in GenuineCodes && code !in test then test + [code] else test;
      PoolStep(test, draws);
      CollectSucceeds(test', draws[1..]);
    }
  }

  lemma {:induction false} SubsetCardinality(a: set<string>, b: set<string>)
    requires a <= b
    ensures |a| <= |b|
    decreases |b|
  {
    if a != {} {
      var x :| x in a;
      SubsetCardinality(a - {x}, b - {x});
    }
  }

  lemma {:induction false} DistinctCardinality(s: seq<string>)
    requires Distinct(s)
    ensures |Elements(s)| == |s|
  {
    if s != [] {
      var t := s[..|s| - 1];
      DistinctCardinality(t);
      assert Elements(s) == Elements(t) + {s[|s| - 1]};
    }
  }

  /** The loop produces the list exactly when the draws offer at least five
      distinct candidates outside the genuine codes; otherwise the page would
      keep drawing. */
  lemma SampleCodesSucceeds(draws: seq<int>)
    requires ValidDraws(draws)
    ensures SampleCodes(draws).Some? <==> |FreshCandidates(draws)| >= TestCount
  {
    CollectSucceeds([], draws);
    assert Elements([]) == {};
  }

  /** The page's loop, fed with `draws`: keeps drawing until five test codes
      are collected, and reports `None` if the draws run out first. */
  method GenerateSampleCodes(draws: seq<int>) returns (codes: Option<seq<string>>)
    requires ValidDraws(draws)
    ensures codes == SampleCodes(draws)
    ensures codes.Some? ==> |codes.value| == 10 && codes.value[..5] == GenuineCodes
    ensures codes.Some? ==> Distinct(codes.value)
    ensures codes.Some? <==> |FreshCandidates(draws)| >= TestCount
  {
    var test: seq<string> := [];
    var k := 0;
    while |test| < TestCount && k < |draws|
      invariant 0 <= k <= |draws|
      invariant |test| <= TestCount
      invariant Collect(test, draws[k..]) == Collect([], draws)
    {
      var code := CandidateCode(draws[k]);
      assert draws[k..][1..] == draws[k + 1..];
      if code !in GenuineCodes && code !in test {
        test := test + [code];
      }
      k := k + 1;
    }
    if |test| == TestCount {
      codes := Some(GenuineCodes + test);
    } else {
      codes := None;
    }
    SampleCodesShape(draws);
    SampleCodesSucceeds(draws);
  }

  /** Every genuine sample code is accepted by the validator. */
  lemma GenuineCodesValidate()
    ensures forall i :: 0 <= i < |GenuineCodes| ==> Validation.ValidateBarcode(GenuineCodes[i])
  {
  }

  /** A test code is accepted by the validator exactly when it is in the
      database or its draw lies below 10000; a draw lies below 10000 exactly
      when its code starts with '1'. */
  lemma CandidateValidity(d: int)
    requires 0 <= d < 90000
    ensures Validation.ValidateBarcode(CandidateCode(d)) <==>
      CandidateCode(d) in Validation.ValidBarcodes || d < 10000
    ensures d < 10000 <==> CandidateCode(d)[0] == '1'
  {
    FiveDigitRendering(10000 + d);
    assert CandidateCode(d)[0] == DigitChar((10000 + d) / 10000);
  }
}
