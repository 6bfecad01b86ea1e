/** The linear/RMS variant of the engine (plot_by_attr.py): per trait, the mean
    absolute error, the mean squared error and the mean signed error (the bias)
    of the outcome-based linear error; then every member's score is shifted by
    its group's bias and the errors are measured again. Also the median helper
    of the same class. */
module PlotByAttr {
  import opened Table
  import opened Risk

  // ---------------------------------------------------------------------------
  // _get_median

  /** What _get_median produces: None for an empty list, a value, or the
      IndexError its even-length branch raises for a two-element list. */
  datatype Median = NoMedian | MedianValue(value: real) | IndexOutOfRange

  predicate Sorted(xs: seq<real>) {
    forall i, j :: 0 <= i <= j < |xs| ==> xs[i] <= xs[j]
  }

  function AtMost(m: real): real -> bool { x => x <= m }

  function AtLeast(m: real): real -> bool { x => x >= m }

  /** m is a median of xs: at least half of the elements are at most m and at
      least half are at least m. */
  predicate IsMedian(xs: seq<real>, m: real) {
    2 * |Filter(xs, AtMost(m), true)| >= |xs| && 2 * |Filter(xs, AtLeast(m), true)| >= |xs|
  }

  /** _get_median as written: the middle element for an odd length, and for an
      even length n the average of the elements at n/2 and n/2 + 1 (integer
      division). The list is not sorted first. */
  function GetMedian(xs: seq<real>): (m: Median)
    ensures m.NoMedian? <==> xs == []
    ensures m.IndexOutOfRange? <==> |xs| == 2
    ensures |xs| % 2 == 1 ==> m.MedianValue? && m.value in xs
  {
    var n := |xs|;
    if n == 0 then NoMedian
    else if n % 2 == 1 then MedianValue(xs[n / 2])
    else if n / 2 + 1 >= n then IndexOutOfRange
    else MedianValue((xs[n / 2] + xs[n / 2 + 1]) / 2.0)
  }

  /** The median with the even-length case averaging the two middle elements,
      at n/2 - 1 and n/2. */
  function GetMedianFixed(xs: seq<real>): (m: Median)
    ensures m.NoMedian? <==> xs == []
    ensures !m.IndexOutOfRange?
  {
    var n := |xs|;
    if n == 0 then NoMedian
    else if n % 2 == 1 then MedianValue(xs[n / 2])
    else MedianValue((xs[n / 2 - 1] + xs[n / 2]) / 2.0)
  }

  /** For an odd-length sorted list, the element _get_median returns is a median. */
  lemma GetMedianOddIsMedian(xs: seq<real>)
    requires Sorted(xs) && |xs| % 2 == 1
    ensures GetMedian(xs).MedianValue? && IsMedian(xs, GetMedian(xs).value)
  {
    var n, m := |xs|, xs[|xs| / 2];
    var h := n / 2;
    forall i | 0 <= i < h + 1 ensures AtMost(m)(xs[i]) {
      assert xs[i] <= xs[h];
    }
    forall i | h <= i < n ensures AtLeast(m)(xs[i]) {
      assert xs[h] <= xs[i];
    }
    FilterRun(xs, AtMost(m), true, 0, h + 1);
    FilterRun(xs, AtLeast(m), true, h, n);
  }

  /** On a sorted list the corrected median is a median of the list. */
  lemma GetMedianFixedIsMedian(xs: seq<real>)
    requires Sorted(xs) && xs != []
    ensures GetMedianFixed(xs).MedianValue? && IsMedian(xs, GetMedianFixed(xs).value)
  {
    var n := |xs|;
    if n % 2 == 1 {
      GetMedianOddIsMedian(xs);
    } else {
      var h := n / 2;
      var lo, hi := xs[h - 1], xs[h];
      var m := (lo + hi) / 2.0;
      assert GetMedianFixed(xs) == MedianValue(m);
      assert lo <= hi;
      forall i | 0 <= i < h ensures AtMost(m)(xs[i]) {
        assert xs[i] <= lo;
      }
      forall i | h <= i < n ensures AtLeast(m)(xs[i]) {
        assert hi <= xs[i];
      }
      FilterRun(xs, AtMost(m), true, 0, h);
      FilterRun(xs, AtLeast(m), true, h, n);
    }
  }

  /** The even-length branch as written is wrong: on [1, 2, 3, 4] it returns 3.5,
      which only one element reaches, and on [1, 2] it indexes past the end. */
  lemma GetMedianEvenCaseIsOffByOne()
    ensures GetMedian([1.0, 2.0, 3.0, 4.0]) == MedianValue(3.5)
    ensures Sorted([1.0, 2.0, 3.0, 4.0]) && !IsMedian([1.0, 2.0, 3.0, 4.0], 3.5)
    ensures GetMedian([1.0, 2.0]) == IndexOutOfRange
    ensures GetMedianFixed([1.0, 2.0, 3.0, 4.0]) == MedianValue(2.5)
  {
    OnlyOneReachesAverage();
  }

  /** Of [1, 2, 3, 4], only the last element is at least 3.5. */
  lemma OnlyOneReachesAverage()
    ensures |Filter([1.0, 2.0, 3.0, 4.0], AtLeast(3.5), true)| == 1
  {
    var f := AtLeast(3.5);
    var front := [1.0, 2.0, 3.0];
    assert forall x :: x in front ==> f(x) != true;
    FilterNone(front, f, true);
    FilterSnoc(front, 4.0, f, true);
    assert front + [4.0] == [1.0, 2.0, 3.0, 4.0];
  }

  // ---------------------------------------------------------------------------
  // correct_for

  /** The five dictionaries correct_for returns, keyed by trait. The two RMS
      dictionaries hold the mean squared error; the square root is not part of
      this model. */
  datatype LinearReport = LinearReport(
    baselineError: map<string, real>,
    rmsError: map<string, real>,
    baselineBias: map<string, real>,
    newError: map<string, real>,
    newRmsError: map<string, real>)

  /** Mean absolute error of a group whose scores are shifted by `shift`. */
  function MeanAbs(g: seq<Person>, shift: real): real
    requires g != []
  {
    AbsSum(g, shift) / |g| as real
  }

  /** Mean squared error of a group whose scores are shifted by `shift`. */
  function MeanSq(g: seq<Person>, shift: real): real
    requires g != []
  {
    SqSum(g, shift) / |g| as real
  }

  /** The per-group statistics correct_for keeps, one dictionary each. */
  datatype Stat = BaselineError | RmsError | BaselineBias | NewError | NewRmsError | NewBias

  /** A statistic of one non-empty group. The New* statistics are measured after
      shifting every member's score by the group's bias. */
  function GroupStat(g: seq<Person>, which: Stat): real
    requires g != []
  {
    match which
    case BaselineError => MeanAbs(g, 0.0)
    case RmsError => MeanSq(g, 0.0)
    case BaselineBias => Bias(g)
    case NewError => MeanAbs(g, Bias(g))
    case NewRmsError => MeanSq(g, Bias(g))
    case NewBias => SignedSum(g, Bias(g)) / |g| as real
  }

  /** The dictionary of one statistic over every trait in ts. */
  function StatMap(df: seq<Person>, ts: seq<string>, which: Stat): (m: map<string, real>)
    requires forall t :: t in ts ==> GroupOf(df, t) != []
    ensures m.Keys == set t | t in ts
  {
    map t | t in ts :: GroupStat(GroupOf(df, t), which)
  }

  /** What correct_for computes: the error for the first requested trait, in
      list order, that has no rows; otherwise the baseline statistics of every
      trait's group and the statistics after shifting each member's score by the
      group's bias. */
  function Analyze(df: seq<Person>, traits: seq<string>): (r: Result<LinearReport>)
    ensures r.Err? <==> exists t :: t in ResolveTraits(df, traits) && GroupOf(df, t) == []
    ensures r.Err? ==> r.error.NoMembers? && r.error.name in traits && GroupOf(df, r.error.name) == []
    ensures traits == [] ==> r.Ok?
    ensures r.Ok? ==>
      var keys := set t | t in ResolveTraits(df, traits);
      r.value.baselineError.Keys == keys && r.value.rmsError.Keys == keys &&
      r.value.baselineBias.Keys == keys && r.value.newError.Keys == keys &&
      r.value.newRmsError.Keys == keys
  {
    DerivedTraitsAreNonEmpty(df);
    var ts := ResolveTraits(df, traits);
    match FirstEmpty(df, ts)
    case Some(t) => Err(NoMembers(t))
    case None =>
      Ok(LinearReport(
        StatMap(df, ts, BaselineError),
        StatMap(df, ts, RmsError),
        StatMap(df, ts, BaselineBias),
        StatMap(df, ts, NewError),
        StatMap(df, ts, NewRmsError)))
  }

  /** One pass of the inner row loop: the signed, absolute and squared error
      totals of a group whose scores are shifted by `shift`. */
  method Accumulate(group: seq<Person>, shift: real) returns (totalError: real, totalAbsError: real, totalSquared: real)
    ensures totalError == SignedSum(group, shift)
    ensures totalAbsError == AbsSum(group, shift)
    ensures totalSquared == SqSum(group, shift)
  {
    totalError, totalAbsError, totalSquared := 0.0, 0.0, 0.0;
    for i := 0 to |group|
      invariant totalError == SignedSum(group[..i], shift)
      invariant totalAbsError == AbsSum(group[..i], shift)
      invariant totalSquared == SqSum(group[..i], shift)
    {
      var person := group[i];
      var correctedDecile := person.score as real - shift;
      var personError: real;
      if person.recid == 1 {
        personError := correctedDecile - HighestRisk as real;
      } else {
        personError := correctedDecile - LowestRisk as real;
      }
      assert group[..i + 1] == group[..i] + [person];
      SumsSnoc(group[..i], person, shift);
      totalError := totalError + personError;
      totalSquared := totalSquared + personError * personError;
      totalAbsError := totalAbsError + Abs(personError);
    }
    assert group[..|group|] == group;
  }

  /** Adding one more trait to the list adds its entry to a statistic's
      dictionary. */
  lemma StatMapSnoc(df: seq<Person>, ts: seq<string>, k: int, which: Stat)
    requires 0 <= k < |ts|
    requires forall t :: t in ts[..k + 1] ==> GroupOf(df, t) != []
    ensures forall t :: t in ts[..k] ==> GroupOf(df, t) != []
    ensures StatMap(df, ts[..k + 1], which) == StatMap(df, ts[..k], which)[ts[k] := GroupStat(GroupOf(df, ts[k]), which)]
  {
    TakeSnoc(ts, k);
  }

  /** The first loop of correct_for: the baseline statistics of each trait's
      group, or the first trait without rows. */
  method MeasureBaseline(df: seq<Person>, ts: seq<string>)
    returns (missing: Option<string>, baselineError: map<string, real>, rmsError: map<string, real>, baselineBias: map<string, real>)
    ensures missing == FirstEmpty(df, ts)
    ensures missing.None? ==>
      baselineError == StatMap(df, ts, BaselineError) &&
      rmsError == StatMap(df, ts, RmsError) &&
      baselineBias == StatMap(df, ts, BaselineBias)
  {
    baselineError, rmsError, baselineBias := map[], map[], map[];
    for k := 0 to |ts|
      invariant forall t :: t in ts[..k] ==> GroupOf(df, t) != []
      invariant baselineError == StatMap(df, ts[..k], BaselineError)
      invariant rmsError == StatMap(df, ts[..k], RmsError)
      invariant baselineBias == StatMap(df, ts[..k], BaselineBias)
    {
      var t := ts[k];
      var group := GroupOf(df, t);
      var numMembers := |group|;
      var totalError, totalAbsError, totalSquared := Accumulate(group, 0.0);
      if numMembers == 0 {
        FirstEmptyAt(df, ts, k);
        return Some(t), baselineError, rmsError, baselineBias;
      }
      TakeSnoc(ts, k);
      BaselineMeans(group, totalError, totalAbsError, totalSquared);
      StatMapSnoc(df, ts, k, BaselineBias);
      StatMapSnoc(df, ts, k, BaselineError);
      StatMapSnoc(df, ts, k, RmsError);
      baselineBias := baselineBias[t := totalError / numMembers as real];
      baselineError := baselineError[t := totalAbsError / numMembers as real];
      rmsError := rmsError[t := totalSquared / numMembers as real];
    }
    assert ts[..|ts|] == ts;
    missing := None;
  }

  lemma BaselineMeans(g: seq<Person>, signed: real, abs: real, sq: real)
    requires g != []
    requires signed == SignedSum(g, 0.0) && abs == AbsSum(g, 0.0) && sq == SqSum(g, 0.0)
    ensures signed / |g| as real == GroupStat(g, BaselineBias)
    ensures abs / |g| as real == GroupStat(g, BaselineError)
    ensures sq / |g| as real == GroupStat(g, RmsError)
  {
  }

  lemma CorrectedMeans(g: seq<Person>, shift: real, signed: real, abs: real, sq: real)
    requires g != [] && shift == Bias(g)
    requires signed == SignedSum(g, shift) && abs == AbsSum(g, shift) && sq == SqSum(g, shift)
    ensures signed / |g| as real == GroupStat(g, NewBias)
    ensures abs / |g| as real == GroupStat(g, NewError)
    ensures sq / |g| as real == GroupStat(g, NewRmsError)
  {
  }

  /** The second loop of correct_for: each group's statistics after shifting
      every member's score by the group's bias. */
  method MeasureCorrected(df: seq<Person>, ts: seq<string>, baselineBias: map<string, real>)
    returns (newError: map<string, real>, newRmsError: map<string, real>, newBias: map<string, real>)
    requires forall t :: t in ts ==> GroupOf(df, t) != []
    requires baselineBias == StatMap(df, ts, BaselineBias)
    ensures newError == StatMap(df, ts, NewError)
    ensures newRmsError == StatMap(df, ts, NewRmsError)
    ensures newBias == StatMap(df, ts, NewBias)
  {
    newError, newRmsError, newBias := map[], map[], map[];
    for k := 0 to |ts|
      invariant forall t :: t in ts[..k] ==> GroupOf(df, t) != []
      invariant newError == StatMap(df, ts[..k], NewError)
      invariant newRmsError == StatMap(df, ts[..k], NewRmsError)
      invariant newBias == StatMap(df, ts[..k], NewBias)
    {
      var t := ts[k];
      var group := GroupOf(df, t);
      var numMembers := |group|;
      var newTotalError, totalAbsError, totalSquared := Accumulate(group, baselineBias[t]);
      // The source checks for an empty group a second time here; the first
      // loop has already rejected every trait without rows, so it cannot fire.
      TakeSnoc(ts, k);
      CorrectedMeans(group, baselineBias[t], newTotalError, totalAbsError, totalSquared);
      StatMapSnoc(df, ts, k, NewBias);
      StatMapSnoc(df, ts, k, NewError);
      StatMapSnoc(df, ts, k, NewRmsError);
      newBias := newBias[t := newTotalError / numMembers as real];
      newError := newError[t := totalAbsError / numMembers as real];
      newRmsError := newRmsError[t := totalSquared / numMembers as real];
    }
    assert ts[..|ts|] == ts;
  }

  /** DataAnalyzer.correct_for. `rms` only chooses what would be printed, so the
      result does not depend on it. `newBias` is the new_baseline_dict the
      source computes and does not return: every group's bias after the
      correction, which is 0. */
  method CorrectFor(df: seq<Person>, traits: seq<string>, rms: bool) returns (r: Result<LinearReport>, newBias: map<string, real>)
    ensures r == Analyze(df, traits)
    ensures r.Ok? ==> newBias.Keys == r.value.baselineBias.Keys && forall t :: t in newBias ==> newBias[t] == 0.0
  {
    var ts := ResolveTraits(df, traits);
    var missing, baselineError, rmsError, baselineBias := MeasureBaseline(df, ts);
    if missing.Some? {
      return Err(NoMembers(missing.value)), map[];
    }
    var newError, newRmsError;
    newError, newRmsError, newBias := MeasureCorrected(df, ts, baselineBias);
    CorrectedBiasIsZeroEverywhere(df, ts);
    r := Ok(LinearReport(baselineError, rmsError, baselineBias, newError, newRmsError));
  }

  /** After the correction every group's bias is exactly 0. */
  lemma CorrectedBiasIsZeroEverywhere(df: seq<Person>, ts: seq<string>)
    requires forall t :: t in ts ==> GroupOf(df, t) != []
    ensures forall t :: t in ts ==> StatMap(df, ts, NewBias)[t] == 0.0
  {
    forall t | t in ts ensures StatMap(df, ts, NewBias)[t] == 0.0 {
      CorrectedBiasIsZero(GroupOf(df, t));
    }
  }

  /** After the correction, every group's signed error sums to 0: the corrected
      bias of every trait is exactly 0. */
  lemma AnalyzeCorrectionRemovesBias(df: seq<Person>, traits: seq<string>)
    requires Analyze(df, traits).Ok?
    ensures forall t :: t in Analyze(df, traits).value.baselineBias ==>
      GroupOf(df, t) != [] && SignedSum(GroupOf(df, t), Analyze(df, traits).value.baselineBias[t]) == 0.0
  {
    AnalyzeOk(df, traits);
    ShiftByBiasZeroes(df, ResolveTraits(df, traits));
  }

  lemma ShiftByBiasZeroes(df: seq<Person>, ts: seq<string>)
    requires forall t :: t in ts ==> GroupOf(df, t) != []
    ensures forall t :: t in StatMap(df, ts, BaselineBias) ==>
      GroupOf(df, t) != [] && SignedSum(GroupOf(df, t), StatMap(df, ts, BaselineBias)[t]) == 0.0
  {
    var bias := StatMap(df, ts, BaselineBias);
    forall t | t in bias ensures GroupOf(df, t) != [] && SignedSum(GroupOf(df, t), bias[t]) == 0.0 {
      CorrectedBiasIsZero(GroupOf(df, t));
    }
  }

  /** A successful analysis holds the StatMap of every statistic over the
      resolved traits, all of whose groups have rows. */
  lemma AnalyzeOk(df: seq<Person>, traits: seq<string>)
    requires Analyze(df, traits).Ok?
    ensures forall t :: t in ResolveTraits(df, traits) ==> GroupOf(df, t) != []
    ensures var ts := ResolveTraits(df, traits);
      Analyze(df, traits).value == LinearReport(
        StatMap(df, ts, BaselineError), StatMap(df, ts, RmsError), StatMap(df, ts, BaselineBias),
        StatMap(df, ts, NewError), StatMap(df, ts, NewRmsError))
  {
  }

  /** For a non-empty group, the squared mean absolute error is at most the mean
      squared error: the RMS error is never below the mean absolute error. */
  lemma MeanAbsSquaredWithinMeanSq(g: seq<Person>, shift: real)
    requires g != []
    ensures Square(MeanAbs(g, shift)) <= MeanSq(g, shift)
  {
    AbsSumSquaredBound(g, shift);
    SquaredMeanBound(AbsSum(g, shift), SqSum(g, shift), |g| as real);
  }

  lemma SquaredMeanBound(a: real, q: real, n: real)
    requires n > 0.0 && a * a <= n * q
    ensures (a / n) * (a / n) <= q / n
  {
    var m := a / n;
    assert a == m * n;
    assert (m * m) * n * n <= q * n;
    assert (m * m) * n <= q;
    assert q == (q / n) * n;
  }

  /** Within one non-empty group, before and after the correction, the
      magnitude of the bias is at most the mean absolute error and the squared
      mean absolute error is at most the mean squared error. */
  lemma GroupBounds(g: seq<Person>)
    requires g != []
    ensures Abs(GroupStat(g, BaselineBias)) <= GroupStat(g, BaselineError)
    ensures Square(GroupStat(g, BaselineError)) <= GroupStat(g, RmsError)
    ensures Square(GroupStat(g, NewError)) <= GroupStat(g, NewRmsError)
  {
    MeanSignedWithinMeanAbs(g, 0.0);
    MeanAbsSquaredWithinMeanSq(g, 0.0);
    MeanAbsSquaredWithinMeanSq(g, Bias(g));
  }

  /** The bounds of GroupBounds hold for every trait in ts. */
  lemma StatMapBounds(df: seq<Person>, ts: seq<string>)
    requires forall t :: t in ts ==> GroupOf(df, t) != []
    ensures forall t :: t in ts ==> Abs(StatMap(df, ts, BaselineBias)[t]) <= StatMap(df, ts, BaselineError)[t]
    ensures forall t :: t in ts ==> Square(StatMap(df, ts, BaselineError)[t]) <= StatMap(df, ts, RmsError)[t]
    ensures forall t :: t in ts ==> Square(StatMap(df, ts, NewError)[t]) <= StatMap(df, ts, NewRmsError)[t]
  {
    forall t | t in ts ensures Abs(StatMap(df, ts, BaselineBias)[t]) <= StatMap(df, ts, BaselineError)[t] {
      GroupBounds(GroupOf(df, t));
    }
    forall t | t in ts ensures Square(StatMap(df, ts, BaselineError)[t]) <= StatMap(df, ts, RmsError)[t] {
      GroupBounds(GroupOf(df, t));
    }
    forall t | t in ts ensures Square(StatMap(df, ts, NewError)[t]) <= StatMap(df, ts, NewRmsError)[t] {
      GroupBounds(GroupOf(df, t));
    }
  }

  /** In a successful report, for every trait, before and after the correction,
      the magnitude of the bias is at most the mean absolute error and the
      squared mean absolute error is at most the mean squared error. */
  lemma AnalyzeBounds(df: seq<Person>, traits: seq<string>)
    requires Analyze(df, traits).Ok?
    ensures var rep := Analyze(df, traits).value;
      forall t :: t in rep.baselineBias ==>
        Abs(rep.baselineBias[t]) <= rep.baselineError[t] &&
        Square(rep.baselineError[t]) <= rep.rmsError[t] &&
        Square(rep.newError[t]) <= rep.newRmsError[t]
  {
    var ts := ResolveTraits(df, traits);
    assert FirstEmpty(df, ts).None?;
    StatMapBounds(df, ts);
  }
}
