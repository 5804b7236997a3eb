/** Token estimates and truncation to a token budget. */
module Chunks {
  import opened Text

  const U32_MAX: nat := 0xFFFF_FFFF

  predicate IsAsciiAlphanumeric(c: char) {
    '0' <= c <= '9' || 'a' <= c <= 'z' || 'A' <= c <= 'Z'
  }

  /** Weight of a character in quarter tokens. */
  function CharTokenQuarters(c: char): (q: nat)
    ensures 1 <= q <= 4
  {
    if IsAsciiAlphanumeric(c) then 2 else if IsWhitespace(c) then 1 else 4
  }

  function Quarters(text: string): (q: nat)
    ensures |text| <= q <= 4 * |text|
  {
    if text == [] then 0 else Quarters(text[..|text| - 1]) + CharTokenQuarters(text[|text| - 1])
  }

  // ---- The weight, by counting ------------------------------------------------------------------

  function LettersAndDigits(text: string): set<nat> {
    set i: nat | i < |text| && ('0' <= text[i] <= '9' || 'a' <= text[i] <= 'z' || 'A' <= text[i] <= 'Z')
  }

  function Spaces(text: string): set<nat> {
    set i: nat | i < |text| && IsWhitespace(text[i])
  }

  /** Two quarters for each ASCII letter or digit, one for white space, four for anything else. */
  function Weight(text: string): int {
    var a, b := |LettersAndDigits(text)|, |Spaces(text)|;
    2 * a + b + 4 * (|text| - a - b)
  }

  lemma LettersStep(text: string)
    requires text != ""
    ensures var init, c := text[..|text| - 1], text[|text| - 1];
            |LettersAndDigits(text)| == |LettersAndDigits(init)| + if IsAsciiAlphanumeric(c) then 1 else 0
  {
    var init, n := text[..|text| - 1], |text| - 1;
    assert forall i: nat | i < n :: text[i] == init[i];
    assert n !in LettersAndDigits(init);
    assert LettersAndDigits(text)
        == if IsAsciiAlphanumeric(text[n]) then LettersAndDigits(init) + {n} else LettersAndDigits(init);
  }

  lemma SpacesStep(text: string)
    requires text != ""
    ensures var init, c := text[..|text| - 1], text[|text| - 1];
            |Spaces(text)| == |Spaces(init)| + if IsWhitespace(c) then 1 else 0
  {
    var init, n := text[..|text| - 1], |text| - 1;
    assert forall i: nat | i < n :: text[i] == init[i];
    assert n !in Spaces(init);
    assert Spaces(text) == if IsWhitespace(text[n]) then Spaces(init) + {n} else Spaces(init);
  }

  lemma {:induction false} QuartersAreWeight(text: string)
    ensures Quarters(text) == Weight(text)
  {
    if text == "" {
      assert LettersAndDigits(text) == {} && Spaces(text) == {};
    } else {
      QuartersAreWeight(text[..|text| - 1]);
      LettersStep(text);
      SpacesStep(text);
    }
  }

  /** `chars / 4` rounded up: the character count is cut to 32 bits, the addition saturates. */
  function ApproxTokenCount(text: string): nat {
    var chars := |text| % (U32_MAX + 1);
    (if chars + 3 > U32_MAX then U32_MAX else chars + 3) / 4
  }

  function Saturated(tokens: nat): nat {
    if tokens > U32_MAX then U32_MAX else tokens
  }

  /** The estimate, as a function of the weights. */
  function Estimate(quarters: nat): nat {
    Saturated((quarters + 3) / 4)
  }

  method ConservativeTokenEstimate(text: string) returns (tokens: nat)
    ensures tokens == Estimate(Quarters(text))
    ensures tokens == if (Weight(text) + 3) / 4 <= 0xFFFF_FFFF then (Weight(text) + 3) / 4 else 0xFFFF_FFFF
  {
    QuartersAreWeight(text);
    var quarters := 0;
    for i := 0 to |text|
      invariant quarters == Quarters(text[..i])
    {
      assert text[..i + 1][..i] == text[..i];
      quarters := quarters + CharTokenQuarters(text[i]);
    }
    assert text[..|text|] == text;
    var ceil := (quarters + 3) / 4;
    tokens := if ceil > U32_MAX then U32_MAX else ceil;
  }

  /** The conservative estimate is never below the plain one, whose 32-bit cast only lowers it. */
  lemma ConservativeAtLeastApprox(text: string)
    ensures ApproxTokenCount(text) <= Estimate(Quarters(text))
  {
    var chars := |text| % (U32_MAX + 1);
    assert chars <= |text| <= Quarters(text);
    assert (chars + 3) / 4 <= (Quarters(text) + 3) / 4;
  }

  lemma {:induction false} QuartersOfPrefix(text: string, i: nat, j: nat)
    requires i <= j <= |text|
    ensures Quarters(text[..i]) + (j - i) <= Quarters(text[..j])
  {
    if i < j {
      assert text[..j][..j - 1] == text[..j - 1];
      QuartersOfPrefix(text, i, j - 1);
    }
  }

  /** Below the ceiling, a prefix fits the budget exactly when its weight is within four times
      the budget. */
  lemma FitsBudget(quarters: nat, budget: nat)
    requires budget < U32_MAX
    ensures Estimate(quarters) <= budget <==> quarters <= 4 * budget
  {
  }

  predicate Fits(text: string, budget: nat) {
    Estimate(Quarters(text)) <= budget
  }

  /** `cut` is the longest prefix of `text` that fits the budget. */
  predicate IsLongestFit(text: string, cut: string, budget: nat) {
    && cut <= text && Fits(cut, budget)
    && forall n: nat | |cut| < n <= |text| :: !Fits(text[..n], budget)
  }

  lemma LongerDoesNotFit(text: string, i: nat, budget: nat)
    requires i < |text| && budget < U32_MAX && Quarters(text[..i + 1]) > 4 * budget
    ensures forall n: nat | i < n <= |text| :: !Fits(text[..n], budget)
  {
    forall n: nat | i < n <= |text| ensures !Fits(text[..n], budget) {
      QuartersOfPrefix(text, i + 1, n);
      FitsBudget(Quarters(text[..n]), budget);
    }
  }

  /** The longest prefix within the budget; the whole text when it fits, which at the saturated
      ceiling it always does. */
  method TruncateToConservativeTokens(text: string, budget: nat) returns (cut: string)
    requires budget <= U32_MAX
    ensures IsLongestFit(text, cut, budget)
    ensures budget == U32_MAX ==> cut == text
    ensures budget < 0xFFFF_FFFF ==> Weight(cut) <= 4 * budget
                                     && (cut != text ==> |cut| < |text| && Weight(text[..|cut| + 1]) > 4 * budget)
  {
    cut := LongestFit(text, budget);
    if budget < U32_MAX {
      WeightFits(cut, budget);
      if |cut| < |text| {
        WeightFits(text[..|cut| + 1], budget);
      }
    }
  }

  lemma WeightFits(text: string, budget: nat)
    requires budget < U32_MAX
    ensures Fits(text, budget) <==> Weight(text) <= 4 * budget
  {
    QuartersAreWeight(text);
    FitsBudget(Quarters(text), budget);
  }

  method LongestFit(text: string, budget: nat) returns (cut: string)
    requires budget <= U32_MAX
    ensures IsLongestFit(text, cut, budget)
    ensures budget == U32_MAX ==> cut == text
  {
    assert text[..|text|] == text;
    var whole := ConservativeTokenEstimate(text);
    if whole <= budget {
      return text;
    }
    FitsBudget(Quarters(text), budget);
    var cap := budget * 4;
    var acc := 0;
    for i := 0 to |text|
      invariant acc == Quarters(text[..i]) <= cap
    {
      assert text[..i + 1][..i] == text[..i];
      var q := CharTokenQuarters(text[i]);
      if acc + q > cap {
        FitsBudget(acc, budget);
        LongerDoesNotFit(text, i, budget);
        return text[..i];
      }
      acc := acc + q;
    }
    return text;
  }

  /** Truncating twice, or to a larger budget first, changes nothing. */
  lemma LongestFitsAgree(text: string, a: string, b: string, low: nat, high: nat)
    requires low <= high && IsLongestFit(text, a, high)
    ensures IsLongestFit(a, b, low) <==> IsLongestFit(text, b, low)
  {
    if IsLongestFit(a, b, low) {
      forall n: nat | |b| < n <= |text| ensures !Fits(text[..n], low) {
        if n <= |a| {
          assert a[..n] == text[..n];
        }
      }
    }
    if IsLongestFit(text, b, low) {
      assert text[..|b|] == b;
      assert |b| <= |a|;
      forall n: nat | |b| < n <= |a| ensures !Fits(a[..n], low) {
        assert a[..n] == text[..n];
      }
    }
  }
}
