/**
  The four modes of comparing output with the expected output: the boolean verdict.
 */
module Verifier {
  import opened Models
  import opened Normalizer
  import opened NormalizerLaws

  datatype Mode = Strict | Normalized | Token | Epsilon

  /** What reading a token as a floating-point number gives; non-finite stands for the infinities and NaN. */
  datatype Parsed = NoNumber | Finite(value: real) | NonFinite

  function Abs(x: real): real {
    if x < 0.0 then -x else x
  }

  /**
    The difference is NaN, or infinite and then its quotient infinite or NaN, when a number is not finite;
    no test accepts that.
   */
  predicate Close(act: Parsed, exp: Parsed, epsilon: real)
    requires !act.NoNumber? && !exp.NoNumber?
  {
    && act.Finite? && exp.Finite?
    && var diff := Abs(act.value - exp.value);
       diff <= epsilon || diff / MaxReal(1.0, Abs(exp.value)) <= epsilon
  }

  predicate TokenMatches(act: string, exp: string, epsilon: real, parse: string -> Parsed) {
    if parse(act).NoNumber? || parse(exp).NoNumber? then act == exp
    else Close(parse(act), parse(exp), epsilon)
  }

  predicate TokensMatch(act: seq<string>, exp: seq<string>, epsilon: real, parse: string -> Parsed)
    requires |act| == |exp|
  {
    act == [] || (TokenMatches(act[0], exp[0], epsilon, parse) && TokensMatch(act[1..], exp[1..], epsilon, parse))
  }

  predicate Verify(actual: string, expected: string, mode: Mode, epsilon: real, parse: string -> Parsed) {
    match mode
    case Strict => actual == expected
    case Normalized => Normalize(actual) == Normalize(expected)
    case Token => Tokenize(actual) == Tokenize(expected)
    case Epsilon =>
      var (act, exp) := (Tokenize(actual), Tokenize(expected));
      |act| == |exp| && TokensMatch(act, exp, epsilon, parse)
  }

  /** A stricter mode implies the next one, on all texts. */
  lemma StricterModesImply(actual: string, expected: string, epsilon: real, parse: string -> Parsed)
    ensures Verify(actual, expected, Strict, epsilon, parse) ==> Verify(actual, expected, Normalized, epsilon, parse)
    ensures Verify(actual, expected, Normalized, epsilon, parse) ==> Verify(actual, expected, Token, epsilon, parse)
  {
    TokensSurviveNormalization(actual);
    TokensSurviveNormalization(expected);
  }

  lemma {:induction false} MatchIsPointwise(act: seq<string>, exp: seq<string>, epsilon: real, parse: string -> Parsed)
    requires |act| == |exp|
    ensures TokensMatch(act, exp, epsilon, parse)
            <==> forall i :: 0 <= i < |act| ==> TokenMatches(act[i], exp[i], epsilon, parse)
  {
    if act != [] {
      MatchIsPointwise(act[1..], exp[1..], epsilon, parse);
      assert forall i :: 0 < i < |act| ==> act[i] == act[1..][i - 1] && exp[i] == exp[1..][i - 1];
    }
  }

  /**
    Texts with equal tokens also match within a tolerance exactly when no token is an infinity or NaN,
    provided that the tolerance is not negative; with a negative one, when no token is a number.
   */
  lemma TokenImpliesEpsilonIff(actual: string, expected: string, epsilon: real, parse: string -> Parsed)
    requires Verify(actual, expected, Token, epsilon, parse)
    ensures Verify(actual, expected, Epsilon, epsilon, parse)
            <==> forall w :: w in Tokenize(expected) ==> parse(w).NoNumber? || (parse(w).Finite? && epsilon >= 0.0)
  {
    var tokens := Tokenize(expected);
    MatchIsPointwise(tokens, tokens, epsilon, parse);
    forall w | w in tokens
      ensures TokenMatches(w, w, epsilon, parse) <==> parse(w).NoNumber? || (parse(w).Finite? && epsilon >= 0.0)
    {
      if parse(w).Finite? {
        CloseIsRelative(parse(w).value, parse(w).value, epsilon);
      }
    }
  }

  /**
    Two numbers are close exactly when they differ by at most the tolerance times the larger of 1 and the
    expected size.
   */
  lemma CloseIsRelative(a: real, e: real, epsilon: real)
    ensures Close(Finite(a), Finite(e), epsilon) <==> Abs(a - e) <= epsilon * MaxReal(1.0, Abs(e))
  {
    var (diff, scale) := (Abs(a - e), MaxReal(1.0, Abs(e)));
    var q := diff / scale;
    assert q * scale == diff;
    assert q <= epsilon <==> q * scale <= epsilon * scale by {
      if q <= epsilon {
        ScaleUp(q, epsilon, scale);
      } else {
        ScaleUpStrictly(epsilon, q, scale);
      }
    }
    if diff <= epsilon {
      ScaleUp(1.0, scale, epsilon);
    }
  }

  lemma ScaleUp(x: real, y: real, k: real)
    requires x <= y && k >= 0.0
    ensures x * k <= y * k && k * x <= k * y
  {
  }

  lemma ScaleUpStrictly(x: real, y: real, k: real)
    requires x < y && k > 0.0
    ensures x * k < y * k
  {
  }

  /** The largest difference that is close to the expected value `e`. */
  function Allowance(e: real, epsilon: real): real {
    epsilon * MaxReal(1.0, Abs(e))
  }

  lemma CloseWithinAllowance(a: real, e: real, epsilon: real)
    ensures Close(Finite(a), Finite(e), epsilon) <==> Abs(a - e) <= Allowance(e, epsilon)
  {
    CloseIsRelative(a, e, epsilon);
  }

  /**
    Closeness looks at the expected value only, so swapping the two numbers changes the verdict exactly
    when their difference lies between the allowances of the two.
   */
  lemma SwappingMattersIff(a: real, b: real, epsilon: real)
    ensures var (x, y) := (Allowance(a, epsilon), Allowance(b, epsilon));
            (Close(Finite(a), Finite(b), epsilon) <==> !Close(Finite(b), Finite(a), epsilon))
            <==> Smaller(x, y) < Abs(a - b) <= MaxReal(x, y)
  {
    hide Close, Allowance;
    CloseWithinAllowance(a, b, epsilon);
    CloseWithinAllowance(b, a, epsilon);
  }

  function Smaller(a: real, b: real): real {
    if a < b then a else b
  }

  /** One pair of numbers and a tolerance where it does. */
  lemma CloseIsNotSymmetric()
    ensures Close(Finite(2.0), Finite(4.0), 0.5) && !Close(Finite(4.0), Finite(2.0), 0.5)
  {
    CloseIsRelative(2.0, 4.0, 0.5);
    CloseIsRelative(4.0, 2.0, 0.5);
  }

  /** The smallest failing text: an infinity equals itself as a token but not within any tolerance. */
  lemma InfinityIsNotClose(epsilon: real, parse: string -> Parsed)
    requires parse("inf").NonFinite?
    ensures Verify("inf", "inf", Token, epsilon, parse) && !Verify("inf", "inf", Epsilon, epsilon, parse)
  {
    WordIsOneToken("inf");
    TokenImpliesEpsilonIff("inf", "inf", epsilon, parse);
  }

  // ---------- What the four modes mean ----------

  /** The two tokens are the same word, not both numbers; or both are numbers within the tolerance. */
  predicate SameWordOrNear(act: string, exp: string, epsilon: real, parse: string -> Parsed) {
    match (parse(act), parse(exp))
    case (Finite(a), Finite(e)) => Abs(a - e) <= epsilon * MaxReal(1.0, Abs(e))
    case (NoNumber, _) => act == exp
    case (_, NoNumber) => act == exp
    case _ => false
  }

  lemma TokenMatchMeans(act: string, exp: string, epsilon: real, parse: string -> Parsed)
    ensures TokenMatches(act, exp, epsilon, parse) <==> SameWordOrNear(act, exp, epsilon, parse)
  {
    if parse(act).Finite? && parse(exp).Finite? {
      CloseIsRelative(parse(act).value, parse(exp).value, epsilon);
    }
  }

  /**
    Exactly when two texts match: strictly if they are equal; normalised if their lines agree up to
    trailing whitespace and trailing blank lines; by tokens if they agree up to the amount and kind of
    whitespace; within a tolerance if they have equally many tokens that pairwise are the same word or
    near enough as numbers.
   */
  lemma ModesMean(actual: string, expected: string, epsilon: real, parse: string -> Parsed)
    ensures Verify(actual, expected, Strict, epsilon, parse) <==> actual == expected
    ensures Verify(actual, expected, Normalized, epsilon, parse)
            <==> forall i: nat :: LineAt(actual, i) == LineAt(expected, i)
    ensures Verify(actual, expected, Token, epsilon, parse) <==> Squeezed(actual, true) == Squeezed(expected, true)
    ensures var (act, exp) := (Tokenize(actual), Tokenize(expected));
            Verify(actual, expected, Epsilon, epsilon, parse)
            <==> |act| == |exp| && forall i :: 0 <= i < |act| ==> SameWordOrNear(act[i], exp[i], epsilon, parse)
  {
    hide LineAt, Squeezed, Words, Normalize, TokenMatches, SameWordOrNear;
    NormalizeEquallyIffLinesAgree(actual, expected);
    EqualTokensIff(actual, expected);
    var (act, exp) := (Tokenize(actual), Tokenize(expected));
    if |act| == |exp| {
      MatchIsPointwise(act, exp, epsilon, parse);
      forall i | 0 <= i < |act|
        ensures TokenMatches(act[i], exp[i], epsilon, parse) <==> SameWordOrNear(act[i], exp[i], epsilon, parse)
      {
        TokenMatchMeans(act[i], exp[i], epsilon, parse);
      }
    }
  }

  /** Two words that are no numbers match within a tolerance only if they are equal. */
  lemma DifferentWordsDiffer(act: string, exp: string, epsilon: real, parse: string -> Parsed)
    requires IsWord(act) && IsWord(exp) && act != exp && parse(exp).NoNumber?
    ensures !Verify(act, exp, Epsilon, epsilon, parse)
  {
    WordIsOneToken(act);
    WordIsOneToken(exp);
    ModesMean(act, exp, epsilon, parse);
  }
}
