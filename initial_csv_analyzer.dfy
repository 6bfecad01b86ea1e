/** The deprecated prototype (deprecated/initial_csv_analyzer.py): a reader that
    keeps the file's rows in a list, counts how often each value of a column
    occurs, splits the rows by requested value, and measures and removes each
    group's linear bias. Unlike the pandas variants it stores each group's total
    (not mean) absolute error, and it visits its groups in dictionary order. */
module InitialCsvAnalyzer {
  import opened Table
  import opened Risk

  // ---------------------------------------------------------------------------
  // trait_breakdown

  /** A row whose column is present and non-empty: the rows trait_breakdown
      counts. */
  predicate IsDefined(p: Person) {
    p.attr.Some? && p.attr.value != ""
  }

  /** The defined rows, in order. */
  function Defined(rows: seq<Person>): seq<Person> {
    Filter(rows, IsDefined, true)
  }

  /** The values of the defined rows. */
  function DefinedTraits(rows: seq<Person>): set<string> {
    set p | p in rows && IsDefined(p) :: p.attr.value
  }

  lemma DefinedTraitsHaveRows(rows: seq<Person>, t: string)
    requires t in DefinedTraits(rows)
    ensures t != "" && GroupOf(rows, t) != [] && Defined(rows) != []
  {
    var p :| p in rows && IsDefined(p) && p.attr.value == t;
    assert p in GroupOf(rows, t) && p in Defined(rows);
  }

  /** What trait_breakdown returns: for every defined value, its number of rows
      over the number of defined rows. */
  function Breakdown(rows: seq<Person>): (m: map<string, real>)
    ensures m.Keys == DefinedTraits(rows)
  {
    map t | t in DefinedTraits(rows) ::
      DefinedTraitsHaveRows(rows, t);
      |GroupOf(rows, t)| as real / |Defined(rows)| as real
  }

  /** trait_dict after visiting rows one by one: every defined value's count. */
  function TraitTally(rows: seq<Person>): map<string, int> {
    if rows == [] then map[]
    else
      var p := rows[|rows| - 1];
      if IsDefined(p) then Incremented(TraitTally(rows[..|rows| - 1]), p.attr.value)
      else TraitTally(rows[..|rows| - 1])
  }

  /** Counting row by row leaves every defined value with the size of its group. */
  lemma {:induction false} TraitTallyAt(rows: seq<Person>, t: string)
    ensures t in TraitTally(rows) <==> t in DefinedTraits(rows)
    ensures t in TraitTally(rows) ==> TraitTally(rows)[t] == |GroupOf(rows, t)|
  {
    if rows != [] {
      var init, p := rows[..|rows| - 1], rows[|rows| - 1];
      assert rows == init + [p];
      TraitTallyAt(init, t);
      GroupOfSnoc(init, p, t);
      assert DefinedTraits(rows) == DefinedTraits(init) + (if IsDefined(p) then {p.attr.value} else {});
      if t !in DefinedTraits(init) && p.attr == Some(t) && t != "" {
        assert GroupOf(init, t) == [] by {
          assert forall x :: x in init ==> AttrOf(x) != Some(t);
          FilterNone(init, AttrOf, Some(t));
        }
      }
    }
  }

  lemma CountSnoc(rows: seq<Person>, i: int)
    requires 0 <= i < |rows|
    ensures |Defined(rows[..i + 1])| == |Defined(rows[..i])| + if IsDefined(rows[i]) then 1 else 0
    ensures TraitTally(rows[..i + 1]) ==
      if IsDefined(rows[i]) then Incremented(TraitTally(rows[..i]), rows[i].attr.value) else TraitTally(rows[..i])
  {
    TakeSnoc(rows, i);
    FilterSnoc(rows[..i], rows[i], IsDefined, true);
    assert rows[..i + 1][..i] == rows[..i];
  }

  /** The row loop of trait_breakdown: the number of defined rows and the
      count of every defined value. */
  method CountTraits(rows: seq<Person>) returns (totalDefRows: int, traitDict: map<string, int>)
    ensures totalDefRows == |Defined(rows)|
    ensures traitDict == TraitTally(rows)
  {
    totalDefRows, traitDict := 0, map[];
    for i := 0 to |rows|
      invariant totalDefRows == |Defined(rows[..i])|
      invariant traitDict == TraitTally(rows[..i])
    {
      var rowDict := rows[i];
      CountSnoc(rows, i);
      if rowDict.attr.Some? && rowDict.attr.value != "" {
        var tr := rowDict.attr.value;
        if tr in traitDict {
          traitDict := traitDict[tr := traitDict[tr] + 1];
        } else {
          traitDict := traitDict[tr := 1];
        }
        totalDefRows := totalDefRows + 1;
      }
    }
    assert rows[..|rows|] == rows;
  }

  /** The counts hold exactly the defined values, each with its group's size,
      which is at least 1 and at most the number of defined rows. */
  lemma TallyCounts(rows: seq<Person>)
    ensures TraitTally(rows).Keys == DefinedTraits(rows)
    ensures forall t :: t in TraitTally(rows) ==> TraitTally(rows)[t] == |GroupOf(rows, t)|
    ensures forall t :: t in TraitTally(rows) ==> 1 <= TraitTally(rows)[t] <= |Defined(rows)|
  {
    forall t ensures t in TraitTally(rows) <==> t in DefinedTraits(rows) {
      TraitTallyAt(rows, t);
    }
    forall t | t in TraitTally(rows)
      ensures TraitTally(rows)[t] == |GroupOf(rows, t)| && 1 <= TraitTally(rows)[t] <= |Defined(rows)|
    {
      TraitTallyAt(rows, t);
      DefinedTraitsHaveRows(rows, t);
      DefinedGroup(rows, t);
    }
  }

  lemma BreakdownIntro(rows: seq<Person>, fractions: map<string, real>)
    requires fractions.Keys == TraitTally(rows).Keys
    requires forall t :: t in fractions ==> |Defined(rows)| > 0 && fractions[t] == TraitTally(rows)[t] as real / |Defined(rows)| as real
    requires forall t :: t in TraitTally(rows) ==> TraitTally(rows)[t] == |GroupOf(rows, t)|
    requires TraitTally(rows).Keys == DefinedTraits(rows)
    ensures fractions == Breakdown(rows)
  {
  }

  /** The loop over trait_dict that turns the counting loop's tallies of rows
      into fractions: the breakdown of the column. */
  method Fractions(ghost rows: seq<Person>, traitDict: map<string, int>, totalDefRows: int)
    returns (fractions: map<string, real>)
    requires traitDict == TraitTally(rows) && totalDefRows == |Defined(rows)|
    ensures fractions == Breakdown(rows)
  {
    assert traitDict != map[] ==> totalDefRows > 0 by {
      TallyCounts(rows);
    }
    fractions := map[];
    var pending := traitDict.Keys;
    while pending != {}
      invariant traitDict != map[] ==> totalDefRows > 0
      invariant pending <= traitDict.Keys
      invariant fractions.Keys == traitDict.Keys - pending
      invariant forall t :: t in fractions ==> fractions[t] == traitDict[t] as real / totalDefRows as real
      decreases |pending|
    {
      var t :| t in pending;
      var abundance := traitDict[t] as real / totalDefRows as real;
      fractions := fractions[t := abundance];
      pending := pending - {t};
    }
    TallyCounts(rows);
    BreakdownIntro(rows, fractions);
  }

  /** The dictionary of the rows of every requested trait. */
  function RowsByTrait(rows: seq<Person>, keys: set<string>): (m: map<string, seq<Person>>)
    ensures m.Keys == keys
  {
    map t | t in keys :: GroupOf(rows, t)
  }

  // ---------------------------------------------------------------------------
  // correct_for

  /** The dictionaries correct_for returns: each group's total absolute error,
      its bias (mean signed error), and its total absolute error once every
      member's score is shifted by the bias. */
  datatype PrototypeReport = PrototypeReport(
    baselineError: map<string, real>,
    baselineBias: map<string, real>,
    newError: map<string, real>)

  /** The report over the groups of a rows_with dictionary whose groups are all
      non-empty. */
  function Report(groups: map<string, seq<Person>>): (r: PrototypeReport)
    requires forall t :: t in groups ==> groups[t] != []
    ensures r.baselineError.Keys == r.baselineBias.Keys == r.newError.Keys == groups.Keys
  {
    PrototypeReport(
      map t | t in groups :: AbsSum(groups[t], 0.0),
      map t | t in groups :: Bias(groups[t]),
      map t | t in groups :: AbsSum(groups[t], Bias(groups[t])))
  }

  /** The traits correct_for works on: the requested ones, or every defined
      value of the column when none are requested. */
  function RequestedTraits(rows: seq<Person>, traits: seq<string>): set<string> {
    if traits == [] then DefinedTraits(rows) else set t | t in traits
  }

  /** The inner row loop: a group's signed and absolute error totals with every
      score shifted by `shift`. */
  method SumErrors(group: seq<Person>, shift: real) returns (totalError: real, totalAbsError: real)
    ensures totalError == SignedSum(group, shift)
    ensures totalAbsError == AbsSum(group, shift)
  {
    totalError, totalAbsError := 0.0, 0.0;
    for i := 0 to |group|
      invariant totalError == SignedSum(group[..i], shift)
      invariant totalAbsError == AbsSum(group[..i], shift)
    {
      var person := group[i];
      var correctedDecile := person.score as real - shift;
      var personError: real;
      if person.recid == 1 {
        personError := correctedDecile - HighestRisk as real;
      } else {
        personError := correctedDecile - LowestRisk as real;
      }
      assert group[..i + 1] == group[..i] + [person];
      SumsSnoc(group[..i], person, shift);
      totalError := totalError + personError;
      totalAbsError := totalAbsError + Abs(personError);
    }
    assert group[..|group|] == group;
  }

  /** The first loop of correct_for, over the groups in dictionary order: each
      group's total absolute error and bias, or a group without rows. */
  method BaselinePass(groups: map<string, seq<Person>>)
    returns (missing: Option<string>, baselineError: map<string, real>, baselineBias: map<string, real>)
    ensures missing.None? <==> forall t :: t in groups ==> groups[t] != []
    ensures missing.Some? ==> missing.value in groups && groups[missing.value] == []
    ensures missing.None? ==>
      baselineError == Report(groups).baselineError && baselineBias == Report(groups).baselineBias
  {
    baselineError, baselineBias := map[], map[];
    var pending := groups.Keys;
    while pending != {}
      invariant pending <= groups.Keys
      invariant baselineError.Keys == baselineBias.Keys == groups.Keys - pending
      invariant forall t :: t in baselineBias ==> groups[t] != [] && baselineError[t] == AbsSum(groups[t], 0.0)
      invariant forall t :: t in baselineBias ==> groups[t] != [] && baselineBias[t] == Bias(groups[t])
      decreases |pending|
    {
      var tr :| tr in pending;
      var group := groups[tr];
      var numMembers := |group|;
      var totalError, totalAbsError := SumErrors(group, 0.0);
      if numMembers == 0 {
        return Some(tr), baselineError, baselineBias;
      }
      baselineBias := baselineBias[tr := totalError / numMembers as real];
      baselineError := baselineError[tr := totalAbsError];
      pending := pending - {tr};
    }
    ReportIntro(groups, baselineError, baselineBias);
    missing := None;
  }

  lemma ReportIntro(groups: map<string, seq<Person>>, baselineError: map<string, real>, baselineBias: map<string, real>)
    requires baselineError.Keys == baselineBias.Keys == groups.Keys
    requires forall t :: t in baselineBias ==> groups[t] != [] && baselineError[t] == AbsSum(groups[t], 0.0)
    requires forall t :: t in baselineBias ==> groups[t] != [] && baselineBias[t] == Bias(groups[t])
    ensures forall t :: t in groups ==> groups[t] != []
    ensures baselineError == Report(groups).baselineError && baselineBias == Report(groups).baselineBias
  {
  }

  /** The second loop of correct_for, over the same groups in dictionary order:
      each group's total absolute error and bias once every member's score is
      shifted by the group's bias. */
  method CorrectedPass(groups: map<string, seq<Person>>, baselineBias: map<string, real>)
    returns (newError: map<string, real>, newBaseline: map<string, real>)
    requires forall t :: t in groups ==> groups[t] != [] && t in baselineBias
    ensures newError.Keys == newBaseline.Keys == groups.Keys
    ensures forall t :: t in newError ==> newError[t] == AbsSum(groups[t], baselineBias[t])
    ensures forall t :: t in newBaseline ==> newBaseline[t] == SignedSum(groups[t], baselineBias[t]) / |groups[t]| as real
  {
    newError, newBaseline := map[], map[];
    var pending := groups.Keys;
    while pending != {}
      invariant pending <= groups.Keys
      invariant newError.Keys == newBaseline.Keys == groups.Keys - pending
      invariant forall t :: t in newError ==> newError[t] == AbsSum(groups[t], baselineBias[t])
      invariant forall t :: t in newBaseline ==> newBaseline[t] == SignedSum(groups[t], baselineBias[t]) / |groups[t]| as real
      decreases |pending|
    {
      var tr :| tr in pending;
      var group := groups[tr];
      var numMembers := |group|;
      var newTotalError, totalAbsError := SumErrors(group, baselineBias[tr]);
      // The source checks for an empty group a second time here; the first
      // loop has already rejected every group without rows, so it cannot fire.
      newBaseline := newBaseline[tr := newTotalError / numMembers as real];
      newError := newError[tr := totalAbsError];
      pending := pending - {tr};
    }
  }

  /** Shifting by the baseline bias leaves every group's new bias at 0. */
  lemma NewBiasesAreZero(groups: map<string, seq<Person>>, baselineBias: map<string, real>, newBaseline: map<string, real>)
    requires forall t :: t in groups ==> groups[t] != []
    requires baselineBias == Report(groups).baselineBias
    requires newBaseline.Keys == groups.Keys
    requires forall t :: t in newBaseline ==> newBaseline[t] == SignedSum(groups[t], baselineBias[t]) / |groups[t]| as real
    ensures forall t :: t in newBaseline ==> newBaseline[t] == 0.0
  {
    forall t | t in newBaseline ensures newBaseline[t] == 0.0 {
      var g := groups[t];
      assert baselineBias[t] == Bias(g);
      CorrectedBiasIsZero(g);
      assert SignedSum(g, baselineBias[t]) == 0.0;
    }
  }

  lemma NewErrorIntro(groups: map<string, seq<Person>>, baselineBias: map<string, real>, newError: map<string, real>)
    requires forall t :: t in groups ==> groups[t] != []
    requires baselineBias == Report(groups).baselineBias
    requires newError.Keys == groups.Keys
    requires forall t :: t in newError ==> newError[t] == AbsSum(groups[t], baselineBias[t])
    ensures newError == Report(groups).newError
  {
  }

  /** The keys of a dictionary, listed in dictionary order, each once. */
  method DictKeys<V>(m: map<string, V>) returns (ks: seq<string>)
    ensures (set t | t in ks) == m.Keys
    ensures NoDuplicates(ks)
  {
    ks := [];
    var keys := m.Keys;
    while keys != {}
      invariant keys <= m.Keys
      invariant (set t | t in ks) + keys == m.Keys
      invariant NoDuplicates(ks) && forall t :: t in ks ==> t !in keys
      decreases |keys|
    {
      var k :| k in keys;
      ks := ks + [k];
      keys := keys - {k};
    }
  }

  /** Every defined value has at least one row. */
  lemma DefinedTraitsAreNonEmpty(rows: seq<Person>)
    ensures forall t :: t in DefinedTraits(rows) ==> GroupOf(rows, t) != []
  {
    forall t | t in DefinedTraits(rows) ensures GroupOf(rows, t) != [] {
      DefinedTraitsHaveRows(rows, t);
    }
  }

  /** CSVReader: the rows read so far, kept as object state. */
  class CsvReader {
    var csvList: seq<Person>

    constructor ()
      ensures csvList == []
    {
      csvList := [];
    }

    /** read_file: appends the rows of a file, in file order. */
    method ReadFile(fileRows: seq<Person>)
      modifies this
      ensures csvList == old(csvList) + fileRows
    {
      for i := 0 to |fileRows|
        invariant csvList == old(csvList) + fileRows[..i]
      {
        TakeSnoc(fileRows, i);
        csvList := csvList + [fileRows[i]];
      }
      assert fileRows[..|fileRows|] == fileRows;
    }

    /** trait_breakdown: for every present, non-empty value, the fraction of the
        defined rows that have it. With no defined rows it divides by nothing
        and returns an empty dictionary. */
    method TraitBreakdown() returns (fractions: map<string, real>)
      ensures fractions == Breakdown(csvList)
    {
      var totalDefRows, traitDict := CountTraits(csvList);
      fractions := Fractions(csvList, traitDict, totalDefRows);
    }

    /** rows_with: one entry per requested trait, holding that trait's rows in
        file order (an empty list when nothing matches); other rows are
        dropped. */
    method RowsWith(traits: seq<string>) returns (retDict: map<string, seq<Person>>)
      ensures retDict == RowsByTrait(csvList, set t | t in traits)
    {
      retDict := map[];
      for k := 0 to |traits|
        invariant retDict.Keys == set t | t in traits[..k]
        invariant forall t :: t in retDict ==> retDict[t] == []
      {
        TakeSnoc(traits, k);
        retDict := retDict[traits[k] := []];
      }
      assert traits[..|traits|] == traits;
      for i := 0 to |csvList|
        invariant retDict.Keys == set t | t in traits
        invariant forall t :: t in retDict ==> retDict[t] == GroupOf(csvList[..i], t)
      {
        var rowDict := csvList[i];
        TakeSnoc(csvList, i);
        forall t ensures GroupOf(csvList[..i + 1], t) == if rowDict.attr == Some(t) then GroupOf(csvList[..i], t) + [rowDict] else GroupOf(csvList[..i], t) {
          GroupOfSnoc(csvList[..i], rowDict, t);
        }
        if rowDict.attr.Some? && rowDict.attr.value in traits {
          retDict := retDict[rowDict.attr.value := retDict[rowDict.attr.value] + [rowDict]];
        }
      }
      assert csvList[..|csvList|] == csvList;
    }

    /** CSVReader.correct_for. `newBaseline` is the new_baseline_dict the
        source computes and does not return: every group's bias after the
        correction. */
    method CorrectFor(traits: seq<string>) returns (r: Result<PrototypeReport>, newBaseline: map<string, real>)
      ensures r.Err? <==> exists t :: t in RequestedTraits(csvList, traits) && GroupOf(csvList, t) == []
      ensures r.Err? ==>
        r.error.NoMembers? && r.error.name in RequestedTraits(csvList, traits) && GroupOf(csvList, r.error.name) == []
      ensures traits == [] ==> r.Ok?
      ensures r.Ok? ==> r.value == Report(RowsByTrait(csvList, RequestedTraits(csvList, traits)))
      ensures r.Ok? ==> newBaseline.Keys == RequestedTraits(csvList, traits) && forall t :: t in newBaseline ==> newBaseline[t] == 0.0
    {
      var ts := traits;
      if traits == [] {
        var traitPercentageDict := TraitBreakdown();
        ts := DictKeys(traitPercentageDict);
        DefinedTraitsAreNonEmpty(csvList);
      }
      var rowsByTrait := RowsWith(ts);
      var missing, baselineError, baselineBias := BaselinePass(rowsByTrait);
      if missing.Some? {
        return Err(NoMembers(missing.value)), map[];
      }
      var altRowsByTrait := rowsByTrait;
      var newError;
      newError, newBaseline := CorrectedPass(altRowsByTrait, baselineBias);
      NewErrorIntro(rowsByTrait, baselineBias, newError);
      NewBiasesAreZero(rowsByTrait, baselineBias, newBaseline);
      r := Ok(PrototypeReport(baselineError, baselineBias, newError));
    }
  }

  // ---------------------------------------------------------------------------
  // Properties

  /** For a non-empty value, the rows holding it are all defined, so its group
      among the defined rows is its whole group. */
  lemma {:induction false} DefinedGroup(rows: seq<Person>, t: string)
    requires t != ""
    ensures GroupOf(Defined(rows), t) == GroupOf(rows, t)
    ensures |GroupOf(rows, t)| <= |Defined(rows)|
  {
    if rows != [] {
      var init, p := rows[..|rows| - 1], rows[|rows| - 1];
      assert rows == init + [p];
      DefinedGroup(init, t);
      FilterSnoc(init, p, IsDefined, true);
      GroupOfSnoc(init, p, t);
      GroupOfSnoc(Defined(init), p, t);
    }
  }

  /** With no defined rows, trait_breakdown returns an empty dictionary. */
  lemma NoDefinedRowsNoBreakdown(rows: seq<Person>)
    ensures Defined(rows) == [] <==> Breakdown(rows) == map[]
  {
    if Defined(rows) != [] {
      var p := Defined(rows)[0];
      assert p in Defined(rows);
      assert p.attr.value in DefinedTraits(rows);
    }
  }

  /** The fraction trait_breakdown returns for one defined value. */
  lemma BreakdownAt(rows: seq<Person>, t: string)
    requires t in DefinedTraits(rows)
    ensures Defined(rows) != []
    ensures Breakdown(rows)[t] == |GroupOf(rows, t)| as real / |Defined(rows)| as real
  {
    DefinedTraitsHaveRows(rows, t);
  }

  lemma FractionBounds(a: int, n: int)
    requires 0 < a <= n
    ensures 0.0 < a as real / n as real <= 1.0
  {
  }

  /** Every fraction trait_breakdown returns lies in (0, 1]. */
  lemma FractionsInUnitInterval(rows: seq<Person>)
    ensures forall t :: t in Breakdown(rows) ==> 0.0 < Breakdown(rows)[t] <= 1.0
  {
    forall t | t in Breakdown(rows) ensures 0.0 < Breakdown(rows)[t] <= 1.0 {
      BreakdownAt(rows, t);
      DefinedTraitsHaveRows(rows, t);
      DefinedGroup(rows, t);
      FractionBounds(|GroupOf(rows, t)|, |Defined(rows)|);
    }
  }

  /** The sum of the fractions of the traits in ts. */
  function FractionSum(fractions: map<string, real>, ts: seq<string>): real {
    if ts == [] then 0.0
    else FractionSum(fractions, ts[..|ts| - 1]) + (if ts[|ts| - 1] in fractions then fractions[ts[|ts| - 1]] else 0.0)
  }

  lemma DivSelf(n: real)
    requires n != 0.0
    ensures n / n == 1.0
  {
  }

  lemma DivAdd(a: real, b: real, n: real)
    requires n != 0.0
    ensures a / n + b / n == (a + b) / n
  {
  }

  lemma {:induction false} FractionSumIsGroupSum(rows: seq<Person>, ts: seq<string>)
    requires Defined(rows) != []
    requires forall t :: t in ts ==> t in DefinedTraits(rows)
    ensures FractionSum(Breakdown(rows), ts) == SumByTrait(Defined(rows), One, ts) / |Defined(rows)| as real
  {
    if ts != [] {
      var init, t := ts[..|ts| - 1], ts[|ts| - 1];
      assert forall u :: u in init ==> u in ts;
      FractionSumIsGroupSum(rows, init);
      DefinedTraitsHaveRows(rows, t);
      DefinedGroup(rows, t);
      SumOne(GroupOf(Defined(rows), t));
      DivAdd(SumByTrait(Defined(rows), One, init), |GroupOf(rows, t)| as real, |Defined(rows)| as real);
    }
  }

  /** Listed once each, in any order, the fractions trait_breakdown returns
      sum to 1 whenever some row is defined. */
  lemma FractionsSumToOne(rows: seq<Person>, ts: seq<string>)
    requires Defined(rows) != []
    requires NoDuplicates(ts) && forall t :: t in ts <==> t in DefinedTraits(rows)
    ensures FractionSum(Breakdown(rows), ts) == 1.0
  {
    var d := Defined(rows);
    DefinedCovered(rows, ts);
    SumByTraitPartition(d, One, ts);
    SumOne(d);
    FractionSumIsGroupSum(rows, ts);
    DivSelf(|d| as real);
  }

  lemma DefinedCovered(rows: seq<Person>, ts: seq<string>)
    requires forall t :: t in DefinedTraits(rows) ==> t in ts
    ensures forall p :: p in Defined(rows) ==> p.attr.Some? && p.attr.value in ts
  {
    forall p | p in Defined(rows) ensures p.attr.Some? && p.attr.value in ts {
      assert IsDefined(p) && p in rows;
      assert p.attr.value in DefinedTraits(rows);
    }
  }

  /** Every row appears in rows_with's result exactly when its value was
      requested, and then only in the list of that value. */
  lemma RowsWithPartition(rows: seq<Person>, keys: set<string>, p: Person)
    requires p in rows
    ensures (exists t :: t in keys && p in RowsByTrait(rows, keys)[t]) <==> p.attr.Some? && p.attr.value in keys
    ensures forall t :: t in keys && p in RowsByTrait(rows, keys)[t] ==> p.attr == Some(t)
  {
    if p.attr.Some? && p.attr.value in keys {
      assert p in RowsByTrait(rows, keys)[p.attr.value];
    }
  }

  /** For every group, the magnitude of its bias is at most its total absolute
      error divided by its size: the stored error is a total, the bias a mean. */
  lemma BiasWithinMeanTotal(groups: map<string, seq<Person>>)
    requires forall t :: t in groups ==> groups[t] != []
    ensures var rep := Report(groups);
      forall t :: t in groups ==> Abs(rep.baselineBias[t]) <= rep.baselineError[t] / |groups[t]| as real
  {
    var rep := Report(groups);
    forall t | t in groups ensures Abs(rep.baselineBias[t]) <= rep.baselineError[t] / |groups[t]| as real {
      MeanSignedWithinMeanAbs(groups[t], 0.0);
    }
  }
}
