/** The linear error model shared by the linear, RMS and bucketed variants: the
    score a person should have received given the outcome, the signed error of a
    (possibly shifted) score, and the sums a group's statistics are built from. */
module Risk {
  import opened Table

  /** CSVReaderConst.HIGHEST_RISK and CSVReaderConst.LOWEST_RISK. */
  const HighestRisk: int := 10
  const LowestRisk: int := 1

  /** The expected score: the highest risk when two_year_recid is 1, the lowest
      risk for any other outcome value. */
  function Expected(recid: int): int {
    if recid == 1 then HighestRisk else LowestRisk
  }

  /** The signed error of a person's score after subtracting `shift` from it:
      positive when the score over-predicts, negative when it under-predicts. The
      baseline error is the one with shift 0. */
  function LinearError(p: Person, shift: real): real {
    (p.score as real - shift) - Expected(p.recid) as real
  }

  function Abs(x: real): real {
    if x < 0.0 then -x else x
  }

  function Square(x: real): real {
    x * x
  }

  function SignedSum(g: seq<Person>, shift: real): real {
    if g == [] then 0.0 else SignedSum(g[..|g| - 1], shift) + LinearError(g[|g| - 1], shift)
  }

  function AbsSum(g: seq<Person>, shift: real): real {
    if g == [] then 0.0 else AbsSum(g[..|g| - 1], shift) + Abs(LinearError(g[|g| - 1], shift))
  }

  function SqSum(g: seq<Person>, shift: real): real {
    if g == [] then 0.0
    else SqSum(g[..|g| - 1], shift) + LinearError(g[|g| - 1], shift) * LinearError(g[|g| - 1], shift)
  }

  lemma SumsSnoc(g: seq<Person>, p: Person, shift: real)
    ensures SignedSum(g + [p], shift) == SignedSum(g, shift) + LinearError(p, shift)
    ensures AbsSum(g + [p], shift) == AbsSum(g, shift) + Abs(LinearError(p, shift))
    ensures SqSum(g + [p], shift) == SqSum(g, shift) + LinearError(p, shift) * LinearError(p, shift)
  {
    assert (g + [p])[..|g|] == g;
  }

  /** The group's mean signed error: its bias. */
  function Bias(g: seq<Person>): real
    requires g != []
  {
    SignedSum(g, 0.0) / |g| as real
  }

  /** With a score inside [LowestRisk, HighestRisk], a person who reoffended is
      never over-scored, anyone else is never under-scored, and the error is 0
      exactly when the score is the expected one. */
  lemma LinearErrorSign(p: Person)
    requires LowestRisk <= p.score <= HighestRisk
    ensures p.recid == 1 ==> LinearError(p, 0.0) <= 0.0
    ensures p.recid != 1 ==> LinearError(p, 0.0) >= 0.0
    ensures LinearError(p, 0.0) == 0.0 <==> p.score == Expected(p.recid)
  {
  }

  /** Shifting every score by the same amount moves the signed total by that
      amount once per member. */
  lemma {:induction false} SignedSumShift(g: seq<Person>, shift: real)
    ensures SignedSum(g, shift) == SignedSum(g, 0.0) - |g| as real * shift
  {
    if g != [] {
      SignedSumShift(g[..|g| - 1], shift);
    }
  }

  /** Subtracting the group's bias from every score leaves a signed error that
      sums, and so averages, to exactly 0. */
  lemma CorrectedBiasIsZero(g: seq<Person>)
    requires g != []
    ensures SignedSum(g, Bias(g)) == 0.0
  {
    SignedSumShift(g, Bias(g));
    var n := |g| as real;
    assert n * (SignedSum(g, 0.0) / n) == SignedSum(g, 0.0);
  }

  lemma {:induction false} SignedWithinAbs(g: seq<Person>, shift: real)
    ensures -AbsSum(g, shift) <= SignedSum(g, shift) <= AbsSum(g, shift)
  {
    if g != [] {
      SignedWithinAbs(g[..|g| - 1], shift);
    }
  }

  lemma {:induction false} CrossTermBound(g: seq<Person>, shift: real, x: real)
    ensures 2.0 * x * AbsSum(g, shift) <= SqSum(g, shift) + |g| as real * x * x
  {
    if g != [] {
      var init, p := g[..|g| - 1], g[|g| - 1];
      CrossTermBound(init, shift, x);
      var e := LinearError(p, shift);
      var a := Abs(e);
      assert a * a == e * e;
      assert 0.0 <= (a - x) * (a - x) == a * a - 2.0 * a * x + x * x;
      var n := |init| as real;
      assert 2.0 * x * (AbsSum(init, shift) + a) == 2.0 * x * AbsSum(init, shift) + 2.0 * x * a;
      assert (n + 1.0) * x * x == n * x * x + x * x;
    }
  }

  /** The squared absolute total is at most the group size times the squared
      total (Cauchy-Schwarz), so the mean absolute error never exceeds the root
      of the mean squared error. */
  lemma {:induction false} AbsSumSquaredBound(g: seq<Person>, shift: real)
    ensures AbsSum(g, shift) * AbsSum(g, shift) <= |g| as real * SqSum(g, shift)
  {
    if g != [] {
      var init, p := g[..|g| - 1], g[|g| - 1];
      var e := LinearError(p, shift);
      var a := Abs(e);
      var n := |init| as real;
      var A, Q := AbsSum(init, shift), SqSum(init, shift);
      AbsSumSquaredBound(init, shift);
      CrossTermBound(init, shift, a);
      assert a * a == e * e;
      assert (A + a) * (A + a) == A * A + 2.0 * a * A + a * a;
      assert (n + 1.0) * (Q + a * a) == n * Q + Q + n * a * a + a * a;
    }
  }

  /** For a non-empty group, the magnitude of the mean signed error is at most
      the mean absolute error. */
  lemma MeanSignedWithinMeanAbs(g: seq<Person>, shift: real)
    requires g != []
    ensures Abs(SignedSum(g, shift) / |g| as real) <= AbsSum(g, shift) / |g| as real
  {
    var n, s, a := |g| as real, SignedSum(g, shift), AbsSum(g, shift);
    SignedWithinAbs(g, shift);
    MeanOfBounded(s, a, n);
  }

  lemma MeanOfBounded(s: real, a: real, n: real)
    requires n > 0.0 && -a <= s <= a
    ensures Abs(s / n) <= a / n
  {
    assert -a / n <= s / n <= a / n;
  }

  /** When every member has the same score s, shifting the scores by
      s - HighestRisk leaves no member under-scored, and shifting them by
      s - LowestRisk leaves no member over-scored. */
  lemma {:induction false} SameScoreShiftedSigns(g: seq<Person>, s: int)
    requires forall p :: p in g ==> p.score == s
    ensures SignedSum(g, (s - HighestRisk) as real) >= 0.0
    ensures SignedSum(g, (s - LowestRisk) as real) <= 0.0
  {
    if g != [] {
      var init := g[..|g| - 1];
      assert g == init + [g[|g| - 1]];
      SameScoreShiftedSigns(init, s);
    }
  }

  lemma MeanBetween(total: real, n: real, lo: real, hi: real)
    requires n > 0.0 && n * lo <= total <= n * hi
    ensures lo <= total / n <= hi
  {
    assert total == n * (total / n);
  }

  /** When every member has the same score s, the group's bias lies between
      s - HighestRisk and s - LowestRisk. */
  lemma SameScoreBiasBounds(g: seq<Person>, s: int)
    requires g != []
    requires forall p :: p in g ==> p.score == s
    ensures (s - HighestRisk) as real <= Bias(g) <= (s - LowestRisk) as real
  {
    var lo, hi := (s - HighestRisk) as real, (s - LowestRisk) as real;
    SameScoreShiftedSigns(g, s);
    SignedSumShift(g, lo);
    SignedSumShift(g, hi);
    MeanBetween(SignedSum(g, 0.0), |g| as real, (s - HighestRisk) as real, (s - LowestRisk) as real);
  }

  /** A group scored exactly as the outcome says (HighestRisk for every
      reoffender, LowestRisk for everyone else) has no bias and no error. */
  lemma {:induction false} PerfectScoresHaveNoError(g: seq<Person>)
    requires forall p :: p in g ==> p.score == Expected(p.recid)
    ensures SignedSum(g, 0.0) == 0.0 && AbsSum(g, 0.0) == 0.0
  {
    if g != [] {
      var init := g[..|g| - 1];
      assert g == init + [g[|g| - 1]];
      PerfectScoresHaveNoError(init);
    }
  }
}
