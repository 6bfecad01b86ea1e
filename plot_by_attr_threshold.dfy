/** The fixed-threshold variant of the engine (plot_by_attr_threshold.py): a
    record's error is 1 when its score misclassifies its outcome at threshold
    THRESHOLD_RISK and 0 otherwise; a group's bias is its misclassified fraction
    minus the fraction over the whole table; the correction subtracts
    bias * HIGHEST_RISK from every member's score and classifies again. */
module PlotByAttrThreshold {
  import opened Table
  import opened Risk

  /** CSVReaderConst.THRESHOLD_RISK. */
  const ThresholdRisk: int := 4

  /** int(score <= THRESHOLD_RISK) for a reoffender (a false negative) and
      int(score > THRESHOLD_RISK) for anyone else (a false positive). */
  function Misclassified(recid: int, score: real): (e: int)
    ensures e == 0 || e == 1
    ensures e == 1 <==> (recid == 1 && score <= ThresholdRisk as real) || (recid != 1 && score > ThresholdRisk as real)
  {
    if recid == 1 then (if score <= ThresholdRisk as real then 1 else 0)
    else (if score > ThresholdRisk as real then 1 else 0)
  }

  /** The error of a row whose score is lowered by `shift` before it is
      classified; the baseline error is the one with shift 0. */
  function ErrorAt(shift: real): Person -> real {
    (p: Person) => Misclassified(p.recid, p.score as real - shift) as real
  }

  /** The misclassified fraction of a non-empty set of rows. */
  function Rate(g: seq<Person>, shift: real): real
    requires g != []
  {
    Sum(g, ErrorAt(shift)) / |g| as real
  }

  /** overall_normalized_error: the misclassified fraction of the whole table,
      whichever traits are requested. */
  function OverallRate(df: seq<Person>): real
    requires df != []
  {
    Rate(df, 0.0)
  }

  /** The amount every member's score is lowered by: bias * HIGHEST_RISK,
      subtracted whatever the direction of the member's misclassification. */
  function Shift(bias: real): real {
    bias * HighestRisk as real
  }

  /** The three dictionaries correct_for returns, keyed by trait. */
  datatype ThresholdReport = ThresholdReport(
    baselineError: map<string, real>,
    baselineBias: map<string, real>,
    newError: map<string, real>)

  /** The per-group statistics correct_for keeps, one dictionary each. */
  datatype Stat = BaselineError | BaselineBias | NewError | NewBias

  /** A statistic of one non-empty group of a non-empty table. Both biases are
      measured against the overall rate of the uncorrected table. */
  function GroupStat(df: seq<Person>, g: seq<Person>, which: Stat): real
    requires df != [] && g != []
  {
    var bias := Rate(g, 0.0) - OverallRate(df);
    match which
    case BaselineError => Rate(g, 0.0)
    case BaselineBias => bias
    case NewError => Rate(g, Shift(bias))
    case NewBias => Rate(g, Shift(bias)) - OverallRate(df)
  }

  /** The dictionary of one statistic over every trait in ts. */
  function StatMap(df: seq<Person>, ts: seq<string>, which: Stat): (m: map<string, real>)
    requires df != [] && forall t :: t in ts ==> GroupOf(df, t) != []
    ensures m.Keys == set t | t in ts
  {
    map t | t in ts :: GroupStat(df, GroupOf(df, t), which)
  }

  /** Adding one more trait to the list adds its entry to a statistic's
      dictionary. */
  lemma StatMapSnoc(df: seq<Person>, ts: seq<string>, k: int, which: Stat)
    requires df != [] && 0 <= k < |ts|
    requires forall t :: t in ts[..k + 1] ==> GroupOf(df, t) != []
    ensures forall t :: t in ts[..k] ==> GroupOf(df, t) != []
    ensures StatMap(df, ts[..k + 1], which) == StatMap(df, ts[..k], which)[ts[k] := GroupStat(df, GroupOf(df, ts[k]), which)]
  {
    TakeSnoc(ts, k);
  }

  /** What correct_for computes: a division by zero for an empty table (the
      overall rate comes first), else the error for the first requested trait,
      in list order, without rows, else the baseline and corrected statistics
      of every trait. */
  function Analyze(df: seq<Person>, traits: seq<string>): (r: Result<ThresholdReport>)
    ensures r == Err(ZeroDivision) <==> df == []
    ensures df != [] ==> (r.Err? <==> exists t :: t in ResolveTraits(df, traits) && GroupOf(df, t) == [])
    ensures df != [] && r.Err? ==> r.error.NoMembers? && r.error.name in traits && GroupOf(df, r.error.name) == []
    ensures df != [] && traits == [] ==> r.Ok?
    ensures r.Ok? ==>
      var keys := set t | t in ResolveTraits(df, traits);
      r.value.baselineError.Keys == keys && r.value.baselineBias.Keys == keys && r.value.newError.Keys == keys
  {
    DerivedTraitsAreNonEmpty(df);
    if df == [] then Err(ZeroDivision)
    else
      var ts := ResolveTraits(df, traits);
      match FirstEmpty(df, ts)
      case Some(t) => Err(NoMembers(t))
      case None =>
        Ok(ThresholdReport(StatMap(df, ts, BaselineError), StatMap(df, ts, BaselineBias), StatMap(df, ts, NewError)))
  }

  /** The row loop of correct_for: the number of rows of g misclassified once
      their scores are lowered by `shift`. */
  method CountErrors(g: seq<Person>, shift: real) returns (count: int)
    ensures count as real == Sum(g, ErrorAt(shift))
  {
    count := 0;
    for i := 0 to |g|
      invariant count as real == Sum(g[..i], ErrorAt(shift))
    {
      var person := g[i];
      var correctedDecile := person.score as real - shift;
      var personError: int;
      if person.recid == 1 {
        personError := if correctedDecile <= ThresholdRisk as real then 1 else 0;
      } else {
        personError := if correctedDecile > ThresholdRisk as real then 1 else 0;
      }
      assert g[..i + 1] == g[..i] + [person];
      SumSnoc(g[..i], person, ErrorAt(shift));
      count := count + personError;
    }
    assert g[..|g|] == g;
  }

  /** The first per-trait loop: each group's misclassified fraction and its bias
      against the overall rate, or the first trait without rows. */
  method MeasureBaseline(df: seq<Person>, ts: seq<string>, overall: real)
    returns (missing: Option<string>, baselineError: map<string, real>, baselineBias: map<string, real>)
    requires df != [] && overall == OverallRate(df)
    ensures missing == FirstEmpty(df, ts)
    ensures missing.None? ==>
      baselineError == StatMap(df, ts, BaselineError) && baselineBias == StatMap(df, ts, BaselineBias)
  {
    baselineError, baselineBias := map[], map[];
    for k := 0 to |ts|
      invariant forall t :: t in ts[..k] ==> GroupOf(df, t) != []
      invariant baselineError == StatMap(df, ts[..k], BaselineError)
      invariant baselineBias == StatMap(df, ts[..k], BaselineBias)
    {
      var t := ts[k];
      var group := GroupOf(df, t);
      var numMembers := |group|;
      var totalError := CountErrors(group, 0.0);
      if numMembers == 0 {
        FirstEmptyAt(df, ts, k);
        return Some(t), baselineError, baselineBias;
      }
      TakeSnoc(ts, k);
      var groupError, groupBias := BaselineGroup(df, group, overall, totalError);
      StatMapSnoc(df, ts, k, BaselineError);
      StatMapSnoc(df, ts, k, BaselineBias);
      baselineError := baselineError[t := groupError];
      baselineBias := baselineBias[t := groupBias];
    }
    assert ts[..|ts|] == ts;
    missing := None;
  }

  /** The second per-trait loop: each group's misclassified fraction after
      lowering every member's score by bias * HIGHEST_RISK, and its new bias
      against the uncorrected overall rate. */
  method MeasureCorrected(df: seq<Person>, ts: seq<string>, overall: real, baselineBias: map<string, real>)
    returns (newError: map<string, real>, newBias: map<string, real>)
    requires df != [] && overall == OverallRate(df)
    requires forall t :: t in ts ==> GroupOf(df, t) != []
    requires baselineBias == StatMap(df, ts, BaselineBias)
    ensures newError == StatMap(df, ts, NewError)
    ensures newBias == StatMap(df, ts, NewBias)
  {
    newError, newBias := map[], map[];
    for k := 0 to |ts|
      invariant forall t :: t in ts[..k] ==> GroupOf(df, t) != []
      invariant newError == StatMap(df, ts[..k], NewError)
      invariant newBias == StatMap(df, ts[..k], NewBias)
    {
      var t := ts[k];
      TakeSnoc(ts, k);
      var groupError, groupBias := MeasureCorrectedGroup(df, GroupOf(df, t), overall, baselineBias[t]);
      StatMapSnoc(df, ts, k, NewError);
      StatMapSnoc(df, ts, k, NewBias);
      newError := newError[t := groupError];
      newBias := newBias[t := groupBias];
    }
    assert ts[..|ts|] == ts;
  }

  /** The body of the first per-trait loop for one group with rows: its
      misclassified fraction and that fraction's distance from the overall
      rate. */
  method BaselineGroup(df: seq<Person>, group: seq<Person>, overall: real, totalError: int)
    returns (groupError: real, groupBias: real)
    requires df != [] && group != [] && overall == OverallRate(df)
    requires totalError as real == Sum(group, ErrorAt(0.0))
    ensures groupError == GroupStat(df, group, BaselineError)
    ensures groupBias == GroupStat(df, group, BaselineBias)
  {
    var numMembers := |group|;
    groupError := totalError as real / numMembers as real;
    groupBias := groupError - overall;
  }

  /** The body of the second per-trait loop for one group: its misclassified
      fraction once every score is lowered by bias * HIGHEST_RISK, and that
      fraction's distance from the uncorrected overall rate. */
  method MeasureCorrectedGroup(df: seq<Person>, group: seq<Person>, overall: real, bias: real)
    returns (newError: real, newBias: real)
    requires df != [] && group != [] && overall == OverallRate(df) && bias == GroupStat(df, group, BaselineBias)
    ensures newError == GroupStat(df, group, NewError)
    ensures newBias == GroupStat(df, group, NewBias)
  {
    var numMembers := |group|;
    var newTotalError := CountErrors(group, bias * HighestRisk as real);
    // The source checks for an empty group a second time here; the first
    // loop has already rejected every trait without rows, so it cannot fire.
    newError := newTotalError as real / numMembers as real;
    newBias := newError - overall;
  }

  /** DataAnalyzer.correct_for of the threshold variant. `newBias` is the
      new_baseline_dict the source computes and does not return. */
  method CorrectFor(df: seq<Person>, traits: seq<string>) returns (r: Result<ThresholdReport>, newBias: map<string, real>)
    ensures r == Analyze(df, traits)
    ensures r.Ok? ==> newBias == StatMap(df, ResolveTraits(df, traits), NewBias)
  {
    var ts := ResolveTraits(df, traits);
    var overallError := CountErrors(df, 0.0);
    if |df| == 0 {
      return Err(ZeroDivision), map[];
    }
    var overall := overallError as real / |df| as real;
    var missing, baselineError, baselineBias := MeasureBaseline(df, ts, overall);
    if missing.Some? {
      return Err(NoMembers(missing.value)), map[];
    }
    var newError;
    newError, newBias := MeasureCorrected(df, ts, overall, baselineBias);
    r := Ok(ThresholdReport(baselineError, baselineBias, newError));
  }

  /** A misclassified fraction lies in [0, 1]. */
  lemma RateBounds(g: seq<Person>, shift: real)
    requires g != []
    ensures 0.0 <= Rate(g, shift) <= 1.0
  {
    SumOfUnitTerms(g, ErrorAt(shift));
    var n, s := |g| as real, Sum(g, ErrorAt(shift));
    assert s / n <= n / n;
  }

  /** Within one group of a non-empty table, the baseline and corrected errors
      are fractions in [0, 1] and the baseline bias lies in [-1, 1]. */
  lemma GroupBounds(df: seq<Person>, g: seq<Person>)
    requires df != [] && g != []
    ensures 0.0 <= GroupStat(df, g, BaselineError) <= 1.0
    ensures -1.0 <= GroupStat(df, g, BaselineBias) <= 1.0
    ensures 0.0 <= GroupStat(df, g, NewError) <= 1.0
  {
    RateBounds(df, 0.0);
    RateBounds(g, 0.0);
    RateBounds(g, Shift(GroupStat(df, g, BaselineBias)));
  }

  /** In a successful report the overall rate and every error are fractions in
      [0, 1] and every bias lies in [-1, 1]. */
  lemma AnalyzeBounds(df: seq<Person>, traits: seq<string>)
    requires Analyze(df, traits).Ok?
    ensures 0.0 <= OverallRate(df) <= 1.0
    ensures var rep := Analyze(df, traits).value;
      forall t :: t in rep.baselineBias ==>
        0.0 <= rep.baselineError[t] <= 1.0 && -1.0 <= rep.baselineBias[t] <= 1.0 && 0.0 <= rep.newError[t] <= 1.0
  {
    var ts := ResolveTraits(df, traits);
    assert FirstEmpty(df, ts).None?;
    RateBounds(df, 0.0);
    var rep := Analyze(df, traits).value;
    assert rep == ThresholdReport(StatMap(df, ts, BaselineError), StatMap(df, ts, BaselineBias), StatMap(df, ts, NewError));
    forall t | t in rep.baselineBias
      ensures 0.0 <= rep.baselineError[t] <= 1.0 && -1.0 <= rep.baselineBias[t] <= 1.0 && 0.0 <= rep.newError[t] <= 1.0
    {
      GroupBounds(df, GroupOf(df, t));
    }
  }

  /** The sum over the traits of ts of group size times bias, each product
      written as the bias added once per row of the group (see
      WeightedTermIsProduct). */
  function WeightedSum(df: seq<Person>, ts: seq<string>, bias: map<string, real>): real
    requires forall t :: t in ts ==> t in bias
  {
    if ts == [] then 0.0
    else WeightedSum(df, ts[..|ts| - 1], bias) + Sum(GroupOf(df, ts[|ts| - 1]), Const(bias[ts[|ts| - 1]]))
  }

  /** Each term of WeightedSum is the group's size times its bias. */
  lemma WeightedTermIsProduct(df: seq<Person>, t: string, b: real)
    ensures Sum(GroupOf(df, t), Const(b)) == |GroupOf(df, t)| as real * b
  {
    SumConst(GroupOf(df, t), b);
  }

  /** A group's size times its bias is its misclassified rows minus the overall
      rate once per row. */
  lemma GroupWeightedBias(df: seq<Person>, g: seq<Person>)
    requires df != [] && g != []
    ensures Sum(g, Const(GroupStat(df, g, BaselineBias))) == Sum(g, ErrorAt(0.0)) - Sum(g, Const(OverallRate(df)))
  {
    var n, e, o, b := |g| as real, Sum(g, ErrorAt(0.0)), OverallRate(df), GroupStat(df, g, BaselineBias);
    SumConst(g, o);
    SumConst(g, b);
    assert b == e / n - o;
    assert n * (e / n) == e;
    assert b * n == e - o * n;
  }

  /** Weighting each bias by its group's size gives the misclassified rows of
      ts's groups minus the overall rate once per row of those groups. */
  lemma {:induction false} WeightedSumOfBiases(df: seq<Person>, ts: seq<string>, bias: map<string, real>)
    requires df != []
    requires forall t :: t in ts ==> t in bias && GroupOf(df, t) != [] && bias[t] == GroupStat(df, GroupOf(df, t), BaselineBias)
    ensures WeightedSum(df, ts, bias) == SumByTrait(df, ErrorAt(0.0), ts) - SumByTrait(df, Const(OverallRate(df)), ts)
  {
    if ts != [] {
      var init, t := ts[..|ts| - 1], ts[|ts| - 1];
      assert forall u :: u in init ==> u in ts;
      WeightedSumOfBiases(df, init, bias);
      GroupWeightedBias(df, GroupOf(df, t));
    }
  }

  /** When the traits are distinct and every row has one of them, the biases
      weighted by group size cancel out: the groups' misclassified rows add up
      to the table's. */
  lemma WeightedBiasesCancel(df: seq<Person>, traits: seq<string>)
    requires Analyze(df, traits).Ok?
    requires NoDuplicates(ResolveTraits(df, traits))
    requires forall p :: p in df ==> p.attr.Some? && p.attr.value in ResolveTraits(df, traits)
    ensures WeightedSum(df, ResolveTraits(df, traits), Analyze(df, traits).value.baselineBias) == 0.0
  {
    var ts := ResolveTraits(df, traits);
    assert FirstEmpty(df, ts).None?;
    var bias := Analyze(df, traits).value.baselineBias;
    var o := OverallRate(df);
    WeightedSumOfBiases(df, ts, bias);
    SumByTraitPartition(df, ErrorAt(0.0), ts);
    SumByTraitPartition(df, Const(o), ts);
    OverallRateOncePerRow(df);
  }

  /** The overall rate added once per row of the table gives the table's
      misclassified rows. */
  lemma OverallRateOncePerRow(df: seq<Person>)
    requires df != []
    ensures Sum(df, Const(OverallRate(df))) == Sum(df, ErrorAt(0.0))
  {
    var o, n, s := OverallRate(df), |df| as real, Sum(df, ErrorAt(0.0));
    SumConst(df, o);
    assert o * n == s;
  }

  /** Lowering a score never turns a correct low-risk call on a non-reoffender
      wrong and never fixes a missed reoffender; raising it does the mirror. So
      a group with positive bias can only lose false positives and gain false
      negatives, and a group with negative bias the reverse. */
  lemma CorrectionDirection(recid: int, score: real, bias: real)
    ensures bias >= 0.0 && recid != 1 && Misclassified(recid, score) == 0 ==> Misclassified(recid, score - Shift(bias)) == 0
    ensures bias >= 0.0 && recid == 1 && Misclassified(recid, score) == 1 ==> Misclassified(recid, score - Shift(bias)) == 1
    ensures bias <= 0.0 && recid == 1 && Misclassified(recid, score) == 0 ==> Misclassified(recid, score - Shift(bias)) == 0
    ensures bias <= 0.0 && recid != 1 && Misclassified(recid, score) == 1 ==> Misclassified(recid, score - Shift(bias)) == 1
  {
  }

  /** A group whose bias is 0 is left as it was: its corrected error equals its
      baseline error and its corrected bias its baseline bias. */
  lemma ZeroBiasKeepsError(df: seq<Person>, g: seq<Person>)
    requires df != [] && g != []
    requires GroupStat(df, g, BaselineBias) == 0.0
    ensures GroupStat(df, g, NewError) == GroupStat(df, g, BaselineError)
    ensures GroupStat(df, g, NewBias) == GroupStat(df, g, BaselineBias)
  {
    assert Shift(0.0) == 0.0;
  }

  /** At threshold 4: outcome 1 with score 3 is a false negative, outcome 0 with
      score 7 a false positive, and outcome 1 with score 5 and outcome 0 with
      score 2 are both correct. */
  lemma ThresholdScenario()
    ensures Misclassified(1, 3.0) == 1 && Misclassified(0, 7.0) == 1
    ensures Misclassified(1, 5.0) == 0 && Misclassified(0, 2.0) == 0
  {
  }
}
