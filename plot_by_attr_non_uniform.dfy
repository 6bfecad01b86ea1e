/** The bucketed variant (plot_by_attr_non_uniform.py): the linear error model
    again, but the bias is measured and removed per bucket, a bucket being one
    trait together with one score value, named by the key "<trait>_<score>". */
module PlotByAttrNonUniform {
  import opened Table
  import opened Risk
  import opened Decimal

  // ---------------------------------------------------------------------------
  // get_trait_key

  /** The bucket key: the trait's text, an underscore, then the score's decimal
      text. The score's text never contains an underscore, so the last
      underscore of a key is the one that separates the two parts. */
  function TraitKey(t: string, s: int): string {
    t + "_" + IntToDecimal(s)
  }

  /** The position of the last occurrence of c in s, or -1 when there is none. */
  function LastIndexOf(s: string, c: char): (r: int)
    ensures -1 <= r < |s|
    ensures r >= 0 ==> s[r] == c
    ensures forall j :: r < j < |s| ==> s[j] != c
  {
    if s == [] then -1
    else if s[|s| - 1] == c then |s| - 1
    else LastIndexOf(s[..|s| - 1], c)
  }

  /** Splits a key at its last underscore and reads the score back: the inverse
      of TraitKey. */
  function ParseTraitKey(k: string): Option<(string, int)> {
    var i := LastIndexOf(k, '_');
    if i < 0 then None
    else
      match ParseInt(k[i + 1..])
      case None => None
      case Some(s) => Some((k[..i], s))
  }

  /** Every key reads back as the trait and the score it was made from. */
  lemma TraitKeyRoundTrip(t: string, s: int)
    ensures ParseTraitKey(TraitKey(t, s)) == Some((t, s))
  {
    var k := TraitKey(t, s);
    assert k[|t|] == '_';
    assert forall i :: |t| < i < |k| ==> k[i] == IntToDecimal(s)[i - |t| - 1];
    assert LastIndexOf(k, '_') == |t|;
    assert k[..|t|] == t;
    IntToDecimalRoundTrip(s);
    assert k[|t| + 1..] == IntToDecimal(s);
  }

  /** Two buckets share a key exactly when they have the same trait and the same
      score, even when trait names themselves contain underscores. */
  lemma TraitKeyInjective(t1: string, s1: int, t2: string, s2: int)
    ensures TraitKey(t1, s1) == TraitKey(t2, s2) <==> t1 == t2 && s1 == s2
  {
    TraitKeyRoundTrip(t1, s1);
    TraitKeyRoundTrip(t2, s2);
  }

  // ---------------------------------------------------------------------------
  // The buckets

  /** The key a row of a trait's group is tallied under: the trait (the row's
      own value, which is the trait of the group it was found in) and its score.
      Rows without a value are never tallied; they get "", which is no key. */
  function PersonKey(p: Person): (k: string)
    ensures p.attr.Some? ==> k == TraitKey(p.attr.value, p.score)
    ensures p.attr.None? ==> k == ""
  {
    match p.attr
    case Some(t) => TraitKey(t, p.score)
    case None => ""
  }

  /** The rows both passes of correct_for visit, in visiting order: the group of
      each trait of ts in turn. */
  function Entries(df: seq<Person>, ts: seq<string>): (es: seq<Person>)
    ensures forall p :: p in es <==> p in df && p.attr.Some? && p.attr.value in ts
  {
    if ts == [] then []
    else
      var init := ts[..|ts| - 1];
      assert ts == init + [ts[|ts| - 1]];
      Entries(df, init) + GroupOf(df, ts[|ts| - 1])
  }

  lemma EntriesSnoc(df: seq<Person>, ts: seq<string>, k: nat)
    requires k < |ts|
    ensures Entries(df, ts[..k + 1]) == Entries(df, ts[..k]) + GroupOf(df, ts[k])
  {
    assert ts[..k + 1][..k] == ts[..k];
  }

  /** The rows of es tallied under key k, in order. */
  function Bucket(es: seq<Person>, k: string): seq<Person> {
    Filter(es, PersonKey, k)
  }

  /** The keys the dictionaries hold once es has been visited. */
  function Keys(es: seq<Person>): set<string> {
    set p | p in es :: PersonKey(p)
  }

  lemma KeysSnoc(es: seq<Person>, p: Person)
    ensures Keys(es + [p]) == Keys(es) + {PersonKey(p)}
  {
    assert p in es + [p];
    assert forall q :: q in es + [p] <==> q in es || q == p;
  }

  /** The shift a pass subtracts from the scores of bucket k: its entry in the
      bias dictionary, or nothing for the baseline pass. */
  function ShiftOf(bias: map<string, real>, k: string): real {
    if k in bias then bias[k] else 0.0
  }

  /** Every key's signed error total, each score shifted by its bucket's shift. */
  function ErrorTotals(es: seq<Person>, bias: map<string, real>): (m: map<string, real>)
    ensures m.Keys == Keys(es)
  {
    map k | k in Keys(es) :: SignedSum(Bucket(es, k), ShiftOf(bias, k))
  }

  /** Every key's absolute error total, each score shifted by its bucket's shift. */
  function AbsTotals(es: seq<Person>, bias: map<string, real>): (m: map<string, real>)
    ensures m.Keys == Keys(es)
  {
    map k | k in Keys(es) :: AbsSum(Bucket(es, k), ShiftOf(bias, k))
  }

  /** people_per_trait: how many visited rows fall in each bucket, at least one
      for every key. */
  function Counts(es: seq<Person>): (m: map<string, int>)
    ensures m.Keys == Keys(es)
    ensures forall k :: k in m ==> m[k] >= 1
  {
    map k | k in Keys(es) :: |Bucket(es, k)|
  }

  /** baseline_bias_dict: every bucket's mean signed error. */
  function Biases(es: seq<Person>): (m: map<string, real>)
    ensures m.Keys == Keys(es)
  {
    map k | k in Keys(es) :: Bias(Bucket(es, k))
  }

  /** new_bias_dict: every bucket's mean signed error after its scores are
      shifted by the bucket's bias. */
  function NewBiases(es: seq<Person>): (m: map<string, real>)
    ensures m.Keys == Keys(es)
  {
    var bias := Biases(es);
    map k | k in Keys(es) :: SignedSum(Bucket(es, k), ShiftOf(bias, k)) / |Bucket(es, k)| as real
  }

  /** The error of one row in a pass that shifts each bucket by `bias`. */
  function CorrectedError(bias: map<string, real>): Person -> real {
    (p: Person) => LinearError(p, ShiftOf(bias, PersonKey(p)))
  }

  /** The dictionaries correct_for returns. */
  datatype BucketReport = BucketReport(
    baselineError: map<string, real>,
    baselineBias: map<string, real>,
    newError: map<string, real>)

  /** What correct_for computes besides its result: the absolute totals it
      plots, the bucket sizes, the corrected biases it prints and t_err. */
  datatype BucketTables = BucketTables(
    baselineAbsError: map<string, real>,
    peoplePerTrait: map<string, int>,
    newAbsError: map<string, real>,
    newBias: map<string, real>,
    totalError: real)

  /** The internal dictionaries once the rows es have been visited. */
  function Tables(es: seq<Person>): BucketTables {
    var bias := Biases(es);
    BucketTables(AbsTotals(es, map[]), Counts(es), AbsTotals(es, bias), NewBiases(es), Sum(es, CorrectedError(bias)))
  }

  /** What correct_for returns: the error for the first requested trait, in list
      order, without rows; the IndexError of the chart legend when no bucket was
      tallied; otherwise every bucket's signed error total, its bias, and its
      signed error total once its scores are shifted by that bias. */
  function Analyze(df: seq<Person>, traits: seq<string>): (r: Result<BucketReport>)
    ensures r.Err? ==> r.error.NoMembers? || r.error.EmptyChart?
    ensures (r.Err? && r.error.NoMembers?) <==> exists t :: t in ResolveTraits(df, traits) && GroupOf(df, t) == []
    ensures r.Err? && r.error.NoMembers? ==> r.error.name in traits && GroupOf(df, r.error.name) == []
    ensures r == Err(EmptyChart) <==> ResolveTraits(df, traits) == []
    ensures traits == [] ==> (r.Ok? <==> exists p :: p in df && p.attr.Some?)
    ensures r.Ok? ==>
      var keys := Keys(Entries(df, ResolveTraits(df, traits)));
      r.value.baselineError.Keys == keys && r.value.baselineBias.Keys == keys && r.value.newError.Keys == keys
  {
    DerivedTraitsAreNonEmpty(df);
    NoDerivedTraits(df);
    var ts := ResolveTraits(df, traits);
    match FirstEmpty(df, ts)
    case Some(t) => Err(NoMembers(t))
    case None =>
      var es := Entries(df, ts);
      NoBucketsIffNoTraits(df, ts);
      if es == [] then Err(EmptyChart)
      else
        var bias := Biases(es);
        Ok(BucketReport(ErrorTotals(es, map[]), bias, ErrorTotals(es, bias)))
  }

  /** A successful run has at least one bucket, so its chart has a bar. */
  lemma AnalyzeOkHasBuckets(df: seq<Person>, traits: seq<string>)
    requires Analyze(df, traits).Ok?
    ensures Keys(Entries(df, ResolveTraits(df, traits))) != {}
  {
    var ts := ResolveTraits(df, traits);
    DerivedTraitsAreNonEmpty(df);
    NoBucketsIffNoTraits(df, ts);
  }

  /** When every trait's group has rows, no bucket is tallied exactly when there
      is no trait. */
  lemma NoBucketsIffNoTraits(df: seq<Person>, ts: seq<string>)
    requires forall t :: t in ts ==> GroupOf(df, t) != []
    ensures Keys(Entries(df, ts)) == {} <==> ts == []
    ensures Entries(df, ts) == [] <==> ts == []
  {
    var es := Entries(df, ts);
    if ts != [] {
      var g := GroupOf(df, ts[0]);
      assert g[0] in g;
      assert g[0] in es;
      assert PersonKey(g[0]) in Keys(es);
    }
  }

  // ---------------------------------------------------------------------------
  // The two passes

  /** The signed error dictionary after visiting the rows es one by one, each
      score shifted by its bucket's shift. */
  function ErrorTally(es: seq<Person>, bias: map<string, real>): map<string, real> {
    if es == [] then map[]
    else
      var p := es[|es| - 1];
      Accumulated(ErrorTally(es[..|es| - 1], bias), PersonKey(p), LinearError(p, ShiftOf(bias, PersonKey(p))))
  }

  /** The absolute error dictionary after visiting the rows es one by one. */
  function AbsTally(es: seq<Person>, bias: map<string, real>): map<string, real> {
    if es == [] then map[]
    else
      var p := es[|es| - 1];
      Accumulated(AbsTally(es[..|es| - 1], bias), PersonKey(p), Abs(LinearError(p, ShiftOf(bias, PersonKey(p)))))
  }

  /** people_per_trait after visiting the rows es one by one. */
  function CountTally(es: seq<Person>): map<string, int> {
    if es == [] then map[]
    else Incremented(CountTally(es[..|es| - 1]), PersonKey(es[|es| - 1]))
  }

  /** Appending a row changes the totals of its own bucket only, by its error. */
  lemma BucketSumsSnoc(es: seq<Person>, p: Person, k: string, shift: real)
    ensures SignedSum(Bucket(es + [p], k), shift) ==
      SignedSum(Bucket(es, k), shift) + (if PersonKey(p) == k then LinearError(p, shift) else 0.0)
    ensures AbsSum(Bucket(es + [p], k), shift) ==
      AbsSum(Bucket(es, k), shift) + (if PersonKey(p) == k then Abs(LinearError(p, shift)) else 0.0)
    ensures |Bucket(es + [p], k)| == |Bucket(es, k)| + (if PersonKey(p) == k then 1 else 0)
  {
    FilterSnoc(es, p, PersonKey, k);
    SumsSnoc(Bucket(es, k), p, shift);
  }

  /** A key is not in the dictionaries before its first row, and its bucket is
      still empty then. */
  lemma UnseenBucketIsEmpty(es: seq<Person>, k: string)
    requires k !in Keys(es)
    ensures Bucket(es, k) == []
  {
    FilterNone(es, PersonKey, k);
  }

  /** Visiting the rows one by one, starting each key at its first row's error
      and adding later rows' errors to it, leaves every key's entry equal to
      the signed total over its bucket. */
  lemma {:induction false} ErrorTallyAt(es: seq<Person>, bias: map<string, real>, k: string)
    ensures k in ErrorTally(es, bias) <==> k in Keys(es)
    ensures k in Keys(es) ==> ErrorTally(es, bias)[k] == SignedSum(Bucket(es, k), ShiftOf(bias, k))
  {
    if es != [] {
      var init, p := es[..|es| - 1], es[|es| - 1];
      assert es == init + [p];
      ErrorTallyAt(init, bias, k);
      KeysSnoc(init, p);
      BucketSumsSnoc(init, p, k, ShiftOf(bias, k));
      if k !in Keys(init) {
        UnseenBucketIsEmpty(init, k);
      }
    }
  }

  /** The same for the absolute errors. */
  lemma {:induction false} AbsTallyAt(es: seq<Person>, bias: map<string, real>, k: string)
    ensures k in AbsTally(es, bias) <==> k in Keys(es)
    ensures k in Keys(es) ==> AbsTally(es, bias)[k] == AbsSum(Bucket(es, k), ShiftOf(bias, k))
  {
    if es != [] {
      var init, p := es[..|es| - 1], es[|es| - 1];
      assert es == init + [p];
      AbsTallyAt(init, bias, k);
      KeysSnoc(init, p);
      BucketSumsSnoc(init, p, k, ShiftOf(bias, k));
      if k !in Keys(init) {
        UnseenBucketIsEmpty(init, k);
      }
    }
  }

  /** Counting the rows one by one leaves every key's entry equal to the size
      of its bucket. */
  lemma {:induction false} CountTallyAt(es: seq<Person>, k: string)
    ensures k in CountTally(es) <==> k in Keys(es)
    ensures k in Keys(es) ==> CountTally(es)[k] == |Bucket(es, k)|
  {
    if es != [] {
      var init, p := es[..|es| - 1], es[|es| - 1];
      assert es == init + [p];
      CountTallyAt(init, k);
      KeysSnoc(init, p);
      BucketSumsSnoc(init, p, k, 0.0);
      if k !in Keys(init) {
        UnseenBucketIsEmpty(init, k);
      }
    }
  }

  /** The dictionaries the loops build are the per-bucket totals. */
  lemma TallyIsTotals(es: seq<Person>, bias: map<string, real>)
    ensures ErrorTally(es, bias) == ErrorTotals(es, bias)
    ensures AbsTally(es, bias) == AbsTotals(es, bias)
    ensures CountTally(es) == Counts(es)
  {
    ErrorTallyIsTotals(es, bias);
    AbsTallyIsTotals(es, bias);
    CountTallyIsCounts(es);
  }

  lemma ErrorTallyKeys(es: seq<Person>, bias: map<string, real>)
    ensures ErrorTally(es, bias).Keys == Keys(es)
  {
    forall k ensures k in ErrorTally(es, bias) <==> k in Keys(es) {
      ErrorTallyAt(es, bias, k);
    }
  }

  lemma ErrorTallyIsTotals(es: seq<Person>, bias: map<string, real>)
    ensures ErrorTally(es, bias) == ErrorTotals(es, bias)
  {
    ErrorTallyKeys(es, bias);
    forall k | k in Keys(es) ensures ErrorTally(es, bias)[k] == ErrorTotals(es, bias)[k] {
      ErrorTallyAt(es, bias, k);
    }
  }

  lemma AbsTallyKeys(es: seq<Person>, bias: map<string, real>)
    ensures AbsTally(es, bias).Keys == Keys(es)
  {
    forall k ensures k in AbsTally(es, bias) <==> k in Keys(es) {
      AbsTallyAt(es, bias, k);
    }
  }

  lemma AbsTallyIsTotals(es: seq<Person>, bias: map<string, real>)
    ensures AbsTally(es, bias) == AbsTotals(es, bias)
  {
    AbsTallyKeys(es, bias);
    forall k | k in Keys(es) ensures AbsTally(es, bias)[k] == AbsTotals(es, bias)[k] {
      AbsTallyAt(es, bias, k);
    }
  }

  lemma CountTallyKeys(es: seq<Person>)
    ensures CountTally(es).Keys == Keys(es)
  {
    forall k ensures k in CountTally(es) <==> k in Keys(es) {
      CountTallyAt(es, k);
    }
  }

  lemma CountTallyIsCounts(es: seq<Person>)
    ensures CountTally(es) == Counts(es)
  {
    CountTallyKeys(es);
    forall k | k in Keys(es) ensures CountTally(es)[k] == Counts(es)[k] {
      CountTallyAt(es, k);
    }
  }

  lemma TallySnoc(es: seq<Person>, p: Person, bias: map<string, real>)
    ensures var key := PersonKey(p); var e := LinearError(p, ShiftOf(bias, key));
      ErrorTally(es + [p], bias) == Accumulated(ErrorTally(es, bias), key, e) &&
      AbsTally(es + [p], bias) == Accumulated(AbsTally(es, bias), key, Abs(e)) &&
      CountTally(es + [p]) == Incremented(CountTally(es), key)
  {
    assert (es + [p])[..|es|] == es;
  }

  /** The inner row loop of the first pass over one trait's group: each row's
      error is added to its bucket's totals and the row is counted. */
  method TallyBaseline(df: seq<Person>, ts: seq<string>, k: nat,
                       err: map<string, real>, abs: map<string, real>, cnt: map<string, int>)
    returns (err': map<string, real>, abs': map<string, real>, cnt': map<string, int>)
    requires k < |ts|
    requires var es := Entries(df, ts[..k]);
      err == ErrorTally(es, map[]) && abs == AbsTally(es, map[]) && cnt == CountTally(es)
    ensures var es := Entries(df, ts[..k + 1]);
      err' == ErrorTally(es, map[]) && abs' == AbsTally(es, map[]) && cnt' == CountTally(es)
  {
    var t, group := ts[k], GroupOf(df, ts[k]);
    ghost var es := Entries(df, ts[..k]);
    EntriesSnoc(df, ts, k);
    err', abs', cnt' := err, abs, cnt;
    AppendTakeAll(es, group);
    for i := 0 to |group|
      invariant err' == ErrorTally(es + group[..i], map[]) && abs' == AbsTally(es + group[..i], map[])
      invariant cnt' == CountTally(es + group[..i])
    {
      var person := group[i];
      AppendTakeSnoc(es, group, i);
      assert person in group;
      var traitKey := TraitKey(t, person.score);
      var personError: real;
      if person.recid == 1 {
        personError := person.score as real - HighestRisk as real;
      } else {
        personError := person.score as real - LowestRisk as real;
      }
      assert traitKey == PersonKey(person) && personError == LinearError(person, ShiftOf(map[], traitKey));
      TallySnoc(es + group[..i], person, map[]);
      err' := Accumulated(err', traitKey, personError);
      abs' := Accumulated(abs', traitKey, Abs(personError));
      cnt' := Incremented(cnt', traitKey);
    }
  }

  /** The first pass of correct_for: the signed and absolute error totals and
      the size of every bucket, or the first trait without rows. */
  method MeasureBaseline(df: seq<Person>, ts: seq<string>)
    returns (missing: Option<string>, baselineError: map<string, real>, baselineAbsError: map<string, real>,
             peoplePerTrait: map<string, int>)
    ensures missing == FirstEmpty(df, ts)
    ensures missing.None? ==>
      baselineError == ErrorTotals(Entries(df, ts), map[]) &&
      baselineAbsError == AbsTotals(Entries(df, ts), map[]) &&
      peoplePerTrait == Counts(Entries(df, ts))
  {
    baselineError, baselineAbsError, peoplePerTrait := map[], map[], map[];
    for k := 0 to |ts|
      invariant forall t :: t in ts[..k] ==> GroupOf(df, t) != []
      invariant baselineError == ErrorTally(Entries(df, ts[..k]), map[])
      invariant baselineAbsError == AbsTally(Entries(df, ts[..k]), map[])
      invariant peoplePerTrait == CountTally(Entries(df, ts[..k]))
    {
      var t := ts[k];
      TakeSnoc(ts, k);
      var group := GroupOf(df, t);
      var numMembers := |group|;
      baselineError, baselineAbsError, peoplePerTrait :=
        TallyBaseline(df, ts, k, baselineError, baselineAbsError, peoplePerTrait);
      if numMembers == 0 {
        FirstEmptyAt(df, ts, k);
        return Some(t), baselineError, baselineAbsError, peoplePerTrait;
      }
    }
    assert ts[..|ts|] == ts;
    TallyIsTotals(Entries(df, ts), map[]);
    missing := None;
  }

  /** The inner row loop of the second pass over one trait's group: each row's
      score is shifted by its bucket's bias, and its error is added to its
      bucket's totals and to t_err. */
  method TallyCorrected(df: seq<Person>, ts: seq<string>, k: nat, baselineBias: map<string, real>,
                        err: map<string, real>, abs: map<string, real>, tErr: real)
    returns (err': map<string, real>, abs': map<string, real>, tErr': real)
    requires k < |ts| && baselineBias.Keys == Keys(Entries(df, ts))
    requires var es := Entries(df, ts[..k]);
      err == ErrorTally(es, baselineBias) && abs == AbsTally(es, baselineBias) &&
      tErr == Sum(es, CorrectedError(baselineBias))
    ensures var es := Entries(df, ts[..k + 1]);
      err' == ErrorTally(es, baselineBias) && abs' == AbsTally(es, baselineBias) &&
      tErr' == Sum(es, CorrectedError(baselineBias))
  {
    var t, group := ts[k], GroupOf(df, ts[k]);
    EntriesSnoc(df, ts, k);
    forall p | p in group ensures p.attr == Some(t) && PersonKey(p) in baselineBias {
      assert p in Entries(df, ts);
    }
    err', abs', tErr' := TallyCorrectedRows(t, group, Entries(df, ts[..k]), baselineBias, err, abs, tErr);
  }

  method TallyCorrectedRows(t: string, group: seq<Person>, ghost es: seq<Person>, baselineBias: map<string, real>,
                            err: map<string, real>, abs: map<string, real>, tErr: real)
    returns (err': map<string, real>, abs': map<string, real>, tErr': real)
    requires forall p :: p in group ==> p.attr == Some(t) && PersonKey(p) in baselineBias
    requires err == ErrorTally(es, baselineBias) && abs == AbsTally(es, baselineBias)
    requires tErr == Sum(es, CorrectedError(baselineBias))
    ensures err' == ErrorTally(es + group, baselineBias) && abs' == AbsTally(es + group, baselineBias)
    ensures tErr' == Sum(es + group, CorrectedError(baselineBias))
  {
    err', abs', tErr' := err, abs, tErr;
    AppendTakeAll(es, group);
    for i := 0 to |group|
      invariant err' == ErrorTally(es + group[..i], baselineBias) && abs' == AbsTally(es + group[..i], baselineBias)
      invariant tErr' == Sum(es + group[..i], CorrectedError(baselineBias))
    {
      var person := group[i];
      AppendTakeSnoc(es, group, i);
      assert person in group;
      var traitKey := TraitKey(t, person.score);
      assert traitKey == PersonKey(person);
      var correctedDecile := person.score as real - baselineBias[traitKey];
      var personError: real;
      if person.recid == 1 {
        personError := correctedDecile - HighestRisk as real;
      } else {
        personError := correctedDecile - LowestRisk as real;
      }
      assert personError == CorrectedError(baselineBias)(person);
      SumSnoc(es + group[..i], person, CorrectedError(baselineBias));
      TallySnoc(es + group[..i], person, baselineBias);
      tErr' := tErr' + personError;
      err' := Accumulated(err', traitKey, personError);
      abs' := Accumulated(abs', traitKey, Abs(personError));
    }
  }

  /** The second pass of correct_for: every bucket's signed and absolute error
      totals once each score is shifted by its bucket's bias, and t_err, the
      signed error total over every visited row. */
  method MeasureCorrected(df: seq<Person>, ts: seq<string>, baselineBias: map<string, real>)
    returns (newError: map<string, real>, newAbsError: map<string, real>, tErr: real)
    requires baselineBias.Keys == Keys(Entries(df, ts))
    ensures newError == ErrorTotals(Entries(df, ts), baselineBias)
    ensures newAbsError == AbsTotals(Entries(df, ts), baselineBias)
    ensures tErr == Sum(Entries(df, ts), CorrectedError(baselineBias))
  {
    newError, newAbsError, tErr := map[], map[], 0.0;
    for k := 0 to |ts|
      invariant newError == ErrorTally(Entries(df, ts[..k]), baselineBias)
      invariant newAbsError == AbsTally(Entries(df, ts[..k]), baselineBias)
      invariant tErr == Sum(Entries(df, ts[..k]), CorrectedError(baselineBias))
    {
      newError, newAbsError, tErr := TallyCorrected(df, ts, k, baselineBias, newError, newAbsError, tErr);
      // The source checks for an empty group a second time here; the first
      // pass has already rejected every trait without rows, so it cannot fire.
    }
    assert ts[..|ts|] == ts;
    TallyIsTotals(Entries(df, ts), baselineBias);
  }

  /** The loops over a total dictionary's items that divide each total by its
      bucket's size. */
  method PerPerson(totals: map<string, real>, peoplePerTrait: map<string, int>) returns (means: map<string, real>)
    requires totals.Keys == peoplePerTrait.Keys && forall k :: k in peoplePerTrait ==> peoplePerTrait[k] >= 1
    ensures means.Keys == totals.Keys
    ensures forall k :: k in means ==> means[k] == totals[k] / peoplePerTrait[k] as real
  {
    means := map traitKey | traitKey in totals :: totals[traitKey] / peoplePerTrait[traitKey] as real;
  }

  /** Dividing every bucket's signed error total by its size gives its bias. */
  lemma BiasesFromTotals(es: seq<Person>, err: map<string, real>, cnt: map<string, int>, m: map<string, real>)
    requires err == ErrorTotals(es, map[]) && cnt == Counts(es)
    requires m.Keys == err.Keys && forall k :: k in m ==> m[k] == err[k] / cnt[k] as real
    ensures m == Biases(es)
  {
    var b := Biases(es);
    forall k | k in m ensures m[k] == b[k] {
    }
  }

  /** Dividing every bucket's corrected signed error total by its size gives
      its corrected bias. */
  lemma NewBiasesFromTotals(es: seq<Person>, err: map<string, real>, cnt: map<string, int>, m: map<string, real>)
    requires err == ErrorTotals(es, Biases(es)) && cnt == Counts(es)
    requires m.Keys == err.Keys && forall k :: k in m ==> m[k] == err[k] / cnt[k] as real
    ensures m == NewBiases(es)
  {
    var b := NewBiases(es);
    forall k | k in m ensures m[k] == b[k] {
    }
  }

  /** CSVReader.correct_for of the bucketed variant. `tables` holds what the
      source keeps besides its result (printed or plotted). */
  method CorrectFor(df: seq<Person>, traits: seq<string>) returns (r: Result<BucketReport>, tables: BucketTables)
    ensures r == Analyze(df, traits)
    ensures r.Ok? ==> tables == Tables(Entries(df, ResolveTraits(df, traits)))
  {
    var ts := ResolveTraits(df, traits);
    var missing, baselineError, baselineAbsError, peoplePerTrait := MeasureBaseline(df, ts);
    if missing.Some? {
      return Err(NoMembers(missing.value)), BucketTables(map[], map[], map[], map[], 0.0);
    }
    ghost var es := Entries(df, ts);
    var baselineBias := PerPerson(baselineError, peoplePerTrait);
    BiasesFromTotals(es, baselineError, peoplePerTrait, baselineBias);
    var newError, newAbsError, tErr := MeasureCorrected(df, ts, baselineBias);
    var newBias := PerPerson(newError, peoplePerTrait);
    NewBiasesFromTotals(es, newError, peoplePerTrait, newBias);
    tables := BucketTables(baselineAbsError, peoplePerTrait, newAbsError, newBias, tErr);
    // the chart's legend reads the first bar of each series
    if baselineError == map[] {
      return Err(EmptyChart), tables;
    }
    r := Ok(BucketReport(baselineError, baselineBias, newError));
  }

  // ---------------------------------------------------------------------------
  // Properties

  /** A key "<t>_<s>" is in the dictionaries exactly when t is one of the traits
      and some row of t's group has score s. */
  lemma BucketKeys(df: seq<Person>, ts: seq<string>, t: string, s: int)
    ensures TraitKey(t, s) in Keys(Entries(df, ts)) <==> t in ts && exists p :: p in GroupOf(df, t) && p.score == s
  {
    var es := Entries(df, ts);
    if TraitKey(t, s) in Keys(es) {
      var p :| p in es && PersonKey(p) == TraitKey(t, s);
      TraitKeyInjective(p.attr.value, p.score, t, s);
      assert p in GroupOf(df, t);
    }
    if t in ts && exists p :: p in GroupOf(df, t) && p.score == s {
      var p :| p in GroupOf(df, t) && p.score == s;
      assert p in es;
    }
  }

  /** Every row of a bucket has the bucket's trait and score. */
  lemma BucketMembers(es: seq<Person>, t: string, s: int)
    ensures forall p :: p in Bucket(es, TraitKey(t, s)) ==> p.attr == Some(t) && p.score == s
  {
    forall p | p in Bucket(es, TraitKey(t, s)) ensures p.attr == Some(t) && p.score == s {
      TraitKeyInjective(p.attr.value, p.score, t, s);
    }
  }

  /** With distinct traits, the bucket "<t>_<s>" holds exactly the rows of t's
      group whose score is s, in table order. */
  lemma {:induction false} BucketOfTrait(df: seq<Person>, ts: seq<string>, t: string, s: int)
    requires NoDuplicates(ts) && t in ts
    ensures Bucket(Entries(df, ts), TraitKey(t, s)) == Filter(GroupOf(df, t), ScoreOf, s)
  {
    var key := TraitKey(t, s);
    var init, last := ts[..|ts| - 1], ts[|ts| - 1];
    assert ts == init + [last];
    assert NoDuplicates(init);
    var prev, g := Entries(df, init), GroupOf(df, last);
    FilterAppend(prev, g, PersonKey, key);
    if last == t {
      assert t !in init by {
        forall i | 0 <= i < |init| ensures init[i] != t {
          assert ts[i] == init[i];
        }
      }
      NoBucketForOtherTraits(prev, t, s);
      GroupBucket(df, t, s);
    } else {
      BucketOfTrait(df, init, t, s);
      NoBucketForOtherTraits(g, t, s);
    }
  }

  /** Rows of other traits put nothing in the buckets of t. */
  lemma NoBucketForOtherTraits(es: seq<Person>, t: string, s: int)
    requires forall p :: p in es ==> p.attr.Some? && p.attr.value != t
    ensures Bucket(es, TraitKey(t, s)) == []
  {
    forall p | p in es ensures PersonKey(p) != TraitKey(t, s) {
      TraitKeyInjective(p.attr.value, p.score, t, s);
    }
    FilterNone(es, PersonKey, TraitKey(t, s));
  }

  /** Within t's group, the bucket of score s holds the rows with score s. */
  lemma GroupBucket(df: seq<Person>, t: string, s: int)
    ensures Bucket(GroupOf(df, t), TraitKey(t, s)) == Filter(GroupOf(df, t), ScoreOf, s)
  {
    var g := GroupOf(df, t);
    forall p | p in g ensures PersonKey(p) == TraitKey(t, s) <==> ScoreOf(p) == s {
      TraitKeyInjective(t, p.score, t, s);
    }
    FilterSame(g, PersonKey, TraitKey(t, s), ScoreOf, s);
  }

  /** With distinct traits, the bucket sizes of one trait's scores add up to
      the size of that trait's group: bucketing by score splits the group. */
  lemma BucketSizesCoverGroup(df: seq<Person>, ts: seq<string>, t: string)
    requires NoDuplicates(ts) && t in ts
    ensures BucketSizes(Counts(Entries(df, ts)), t, Distinct(Scores(GroupOf(df, t)))) == |GroupOf(df, t)|
  {
    var g := GroupOf(df, t);
    var ss := Distinct(Scores(g));
    forall p | p in g ensures ScoreOf(p) in ss {
      var i :| 0 <= i < |g| && g[i] == p;
      assert Scores(g)[i] == p.score;
    }
    SumPartition(g, ScoreOf, One, ss);
    SumOne(g);
    BucketSizesAreGroupSums(df, ts, t, ss);
  }

  /** The scores of a group's rows, in order. */
  function Scores(g: seq<Person>): (ss: seq<int>)
    ensures |ss| == |g| && forall i :: 0 <= i < |g| ==> ss[i] == g[i].score
  {
    seq(|g|, i requires 0 <= i < |g| => g[i].score)
  }

  /** The total of people_per_trait over the keys of trait t and the scores ss. */
  function BucketSizes(cnt: map<string, int>, t: string, ss: seq<int>): int {
    if ss == [] then 0
    else
      var key := TraitKey(t, ss[|ss| - 1]);
      BucketSizes(cnt, t, ss[..|ss| - 1]) + (if key in cnt then cnt[key] else 0)
  }

  lemma {:induction false} BucketSizesAreGroupSums(df: seq<Person>, ts: seq<string>, t: string, ss: seq<int>)
    requires NoDuplicates(ts) && t in ts
    ensures BucketSizes(Counts(Entries(df, ts)), t, ss) as real == SumGroups(GroupOf(df, t), ScoreOf, One, ss)
  {
    if ss != [] {
      var es, g, s := Entries(df, ts), GroupOf(df, t), ss[|ss| - 1];
      BucketSizesAreGroupSums(df, ts, t, ss[..|ss| - 1]);
      BucketOfTrait(df, ts, t, s);
      SumOne(Filter(g, ScoreOf, s));
      BucketKeys(df, ts, t, s);
      if TraitKey(t, s) !in Keys(es) {
        FilterNone(g, ScoreOf, s);
      }
    }
  }

  /** Every bucket's baseline bias lies between its score minus HighestRisk and
      its score minus LowestRisk. */
  lemma BucketBiasBounds(df: seq<Person>, traits: seq<string>)
    requires Analyze(df, traits).Ok?
    ensures var bias := Analyze(df, traits).value.baselineBias;
      forall t, s :: TraitKey(t, s) in bias ==>
        (s - HighestRisk) as real <= bias[TraitKey(t, s)] <= (s - LowestRisk) as real
  {
    AnalyzeOk(df, traits);
    BiasesWithinScoreBounds(Entries(df, ResolveTraits(df, traits)));
  }

  lemma BiasesWithinScoreBounds(es: seq<Person>)
    ensures var bias := Biases(es);
      forall t, s :: TraitKey(t, s) in bias ==>
        (s - HighestRisk) as real <= bias[TraitKey(t, s)] <= (s - LowestRisk) as real
  {
    var bias := Biases(es);
    forall t, s | TraitKey(t, s) in bias
      ensures (s - HighestRisk) as real <= bias[TraitKey(t, s)] <= (s - LowestRisk) as real
    {
      BucketMembers(es, t, s);
      SameScoreBiasBounds(Bucket(es, TraitKey(t, s)), s);
    }
  }

  /** A successful analysis holds the totals and biases of the buckets of the
      resolved traits' rows. */
  lemma AnalyzeOk(df: seq<Person>, traits: seq<string>)
    requires Analyze(df, traits).Ok?
    ensures var es := Entries(df, ResolveTraits(df, traits));
      Analyze(df, traits).value == BucketReport(ErrorTotals(es, map[]), Biases(es), ErrorTotals(es, Biases(es)))
  {
  }

  /** The magnitude of every bucket's signed error total is at most its
      absolute error total. */
  lemma BaselineWithinAbs(df: seq<Person>, traits: seq<string>)
    requires Analyze(df, traits).Ok?
    ensures var es := Entries(df, ResolveTraits(df, traits));
      var err, abs := Analyze(df, traits).value.baselineError, Tables(es).baselineAbsError;
      forall k :: k in err ==> k in abs && Abs(err[k]) <= abs[k]
  {
    AnalyzeOk(df, traits);
    TotalsWithinAbs(Entries(df, ResolveTraits(df, traits)));
  }

  lemma TotalsWithinAbs(es: seq<Person>)
    ensures forall k :: k in ErrorTotals(es, map[]) ==>
      k in AbsTotals(es, map[]) && Abs(ErrorTotals(es, map[])[k]) <= AbsTotals(es, map[])[k]
  {
    forall k | k in Keys(es) ensures Abs(SignedSum(Bucket(es, k), 0.0)) <= AbsSum(Bucket(es, k), 0.0) {
      SignedWithinAbs(Bucket(es, k), 0.0);
    }
  }

  /** Within one bucket every row is shifted by the same amount. */
  lemma {:induction false} BucketCorrectedSum(g: seq<Person>, bias: map<string, real>, k: string)
    requires forall p :: p in g ==> PersonKey(p) == k
    ensures Sum(g, CorrectedError(bias)) == SignedSum(g, ShiftOf(bias, k))
  {
    if g != [] {
      var init := g[..|g| - 1];
      assert forall p :: p in init ==> p in g;
      BucketCorrectedSum(init, bias, k);
    }
  }

  /** Summing bucket by bucket, every corrected bucket contributes 0. */
  lemma {:induction false} CorrectedBucketsSumToZero(es: seq<Person>, ks: seq<string>)
    ensures SumGroups(es, PersonKey, CorrectedError(Biases(es)), ks) == 0.0
  {
    if ks != [] {
      var k := ks[|ks| - 1];
      var g := Bucket(es, k);
      CorrectedBucketsSumToZero(es, ks[..|ks| - 1]);
      BucketCorrectedSum(g, Biases(es), k);
      if g != [] {
        assert k in Keys(es);
        CorrectedBiasIsZero(g);
      }
    }
  }

  /** The keys of the visited rows, in visiting order. */
  function KeyList(es: seq<Person>): (ks: seq<string>)
    ensures forall p :: p in es ==> PersonKey(p) in ks
  {
    var ks := seq(|es|, i requires 0 <= i < |es| => PersonKey(es[i]));
    assert forall i :: 0 <= i < |es| ==> ks[i] == PersonKey(es[i]);
    ks
  }

  /** t_err, the signed error over every visited row after the correction, is 0. */
  lemma CorrectedTotalIsZero(es: seq<Person>)
    ensures Tables(es).totalError == 0.0
  {
    var ks := Distinct(KeyList(es));
    SumPartition(es, PersonKey, CorrectedError(Biases(es)), ks);
    CorrectedBucketsSumToZero(es, ks);
  }

  /** After the correction every bucket's signed error total is 0. */
  lemma CorrectedTotalsAreZero(es: seq<Person>)
    ensures forall k :: k in ErrorTotals(es, Biases(es)) ==> ErrorTotals(es, Biases(es))[k] == 0.0
  {
    var bias := Biases(es);
    forall k | k in Keys(es) ensures SignedSum(Bucket(es, k), ShiftOf(bias, k)) == 0.0 {
      CorrectedBiasIsZero(Bucket(es, k));
    }
  }

  /** After the correction every bucket's bias is 0. */
  lemma NewBiasesAreZero(es: seq<Person>)
    ensures forall k :: k in NewBiases(es) ==> NewBiases(es)[k] == 0.0
  {
    var bias, nb := Biases(es), NewBiases(es);
    forall k | k in nb ensures nb[k] == 0.0 {
      CorrectedBiasIsZero(Bucket(es, k));
      assert nb[k] == SignedSum(Bucket(es, k), ShiftOf(bias, k)) / |Bucket(es, k)| as real;
    }
  }

  /** The new_error_dict correct_for returns is 0 for every bucket, and so are
      every bucket's new bias and t_err. */
  lemma CorrectionZeroesEveryBucket(df: seq<Person>, traits: seq<string>)
    requires Analyze(df, traits).Ok?
    ensures forall k :: k in Analyze(df, traits).value.newError ==> Analyze(df, traits).value.newError[k] == 0.0
    ensures var tables := Tables(Entries(df, ResolveTraits(df, traits)));
      (forall k :: k in tables.newBias ==> tables.newBias[k] == 0.0) && tables.totalError == 0.0
  {
    var es := Entries(df, ResolveTraits(df, traits));
    CorrectedTotalsAreZero(es);
    NewBiasesAreZero(es);
    CorrectedTotalIsZero(es);
  }
}
