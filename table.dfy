/** The in-memory table every variant of the engine works on: rows projected onto
    the grouping column, the two_year_recid outcome and the score column, the
    filter that stands for a pandas boolean mask, sums over rows, and the fact that
    summing group by group over an exact cover of the rows sums every row once. */
module Table {

  datatype Option<T> = None | Some(value: T)

  /** One row: the grouping attribute (None when the cell is missing),
      the two_year_recid outcome and the integer risk score. */
  datatype Person = Person(attr: Option<string>, recid: int, score: int)

  /** The failures the engine raises: the ValueError for a requested trait with no
      rows, the ZeroDivisionError of an empty table, and the IndexError of a bar
      chart legend drawn with no bars. */
  datatype AnalysisError = NoMembers(name: string) | ZeroDivision | EmptyChart

  datatype Result<T> = Ok(value: T) | Err(error: AnalysisError)

  function AttrOf(p: Person): Option<string> { p.attr }

  function ScoreOf(p: Person): int { p.score }

  function One<T>(x: T): real { 1.0 }

  predicate NoDuplicates<T(==)>(xs: seq<T>) {
    forall i, j :: 0 <= i < j < |xs| ==> xs[i] != xs[j]
  }

  /** The elements of xs whose key is k, in their original order. */
  function Filter<T(!new), K(==)>(xs: seq<T>, key: T -> K, k: K): (r: seq<T>)
    ensures |r| <= |xs|
    ensures forall x :: x in r <==> x in xs && key(x) == k
  {
    if xs == [] then []
    else
      var init := Filter(xs[..|xs| - 1], key, k);
      assert xs == xs[..|xs| - 1] + [xs[|xs| - 1]];
      if key(xs[|xs| - 1]) == k then init + [xs[|xs| - 1]] else init
  }

  lemma FilterSnoc<T(!new), K>(xs: seq<T>, x: T, key: T -> K, k: K)
    ensures Filter(xs + [x], key, k) == if key(x) == k then Filter(xs, key, k) + [x] else Filter(xs, key, k)
  {
    assert (xs + [x])[..|xs|] == xs;
  }

  lemma FilterNone<T(!new), K>(xs: seq<T>, key: T -> K, k: K)
    requires forall x :: x in xs ==> key(x) != k
    ensures Filter(xs, key, k) == []
  {
    var r := Filter(xs, key, k);
    assert forall i :: 0 <= i < |r| ==> r[i] in r;
  }

  lemma {:induction false} FilterAppend<T(!new), K>(xs: seq<T>, ys: seq<T>, key: T -> K, k: K)
    ensures Filter(xs + ys, key, k) == Filter(xs, key, k) + Filter(ys, key, k)
  {
    if ys == [] {
      assert xs + ys == xs;
    } else {
      var init, y := ys[..|ys| - 1], ys[|ys| - 1];
      assert ys == init + [y];
      assert xs + ys == (xs + init) + [y];
      FilterAppend(xs, init, key, k);
      FilterSnoc(xs + init, y, key, k);
      FilterSnoc(init, y, key, k);
    }
  }

  /** A filter that every element passes keeps the whole sequence. */
  lemma {:induction false} FilterAll<T(!new), K>(xs: seq<T>, key: T -> K, k: K)
    requires forall x :: x in xs ==> key(x) == k
    ensures Filter(xs, key, k) == xs
  {
    if xs != [] {
      var init := xs[..|xs| - 1];
      assert xs == init + [xs[|xs| - 1]];
      FilterAll(init, key, k);
    }
  }

  /** A run xs[lo..hi] of elements that all pass the filter puts at least hi - lo
      elements in its result. */
  lemma FilterRun<T(!new), K>(xs: seq<T>, key: T -> K, k: K, lo: int, hi: int)
    requires 0 <= lo <= hi <= |xs|
    requires forall i :: lo <= i < hi ==> key(xs[i]) == k
    ensures |Filter(xs, key, k)| >= hi - lo
  {
    assert xs == xs[..lo] + xs[lo..hi] + xs[hi..];
    FilterAppend(xs[..lo] + xs[lo..hi], xs[hi..], key, k);
    FilterAppend(xs[..lo], xs[lo..hi], key, k);
    FilterAll(xs[lo..hi], key, k);
  }

  /** Two filters that keep the same elements of xs give the same sequence. */
  lemma {:induction false} FilterSame<T(!new), K, L>(xs: seq<T>, key: T -> K, k: K, key': T -> L, k': L)
    requires forall x :: x in xs ==> (key(x) == k <==> key'(x) == k')
    ensures Filter(xs, key, k) == Filter(xs, key', k')
  {
    if xs != [] {
      var init, x := xs[..|xs| - 1], xs[|xs| - 1];
      assert xs == init + [x];
      FilterSame(init, key, k, key', k');
      FilterSnoc(init, x, key, k);
      FilterSnoc(init, x, key', k');
    }
  }

  lemma TakeSnoc<T>(xs: seq<T>, i: nat)
    requires i < |xs|
    ensures xs[..i + 1] == xs[..i] + [xs[i]]
  {
  }

  lemma AppendTakeSnoc<T>(ys: seq<T>, xs: seq<T>, i: nat)
    requires i < |xs|
    ensures ys + xs[..i + 1] == (ys + xs[..i]) + [xs[i]]
  {
    assert xs[..i + 1] == xs[..i] + [xs[i]];
  }

  lemma AppendTakeAll<T>(ys: seq<T>, xs: seq<T>)
    ensures ys + xs[..0] == ys && ys + xs[..|xs|] == ys + xs
  {
    assert xs[..|xs|] == xs;
  }

  /** The rows the pandas mask `df[df[col] == trait]` keeps. */
  function GroupOf(df: seq<Person>, t: string): (g: seq<Person>)
    ensures forall p :: p in g <==> p in df && p.attr == Some(t)
  {
    Filter(df, AttrOf, Some(t))
  }

  lemma GroupOfSnoc(df: seq<Person>, p: Person, t: string)
    ensures GroupOf(df + [p], t) == if p.attr == Some(t) then GroupOf(df, t) + [p] else GroupOf(df, t)
  {
    FilterSnoc(df, p, AttrOf, Some(t));
  }

  function Sum<T>(xs: seq<T>, f: T -> real): real {
    if xs == [] then 0.0 else Sum(xs[..|xs| - 1], f) + f(xs[|xs| - 1])
  }

  lemma SumSnoc<T>(xs: seq<T>, x: T, f: T -> real)
    ensures Sum(xs + [x], f) == Sum(xs, f) + f(x)
  {
    assert (xs + [x])[..|xs|] == xs;
  }

  lemma {:induction false} SumOne<T>(xs: seq<T>)
    ensures Sum(xs, One) == |xs| as real
  {
    if xs != [] {
      SumOne(xs[..|xs| - 1]);
    }
  }

  /** A sum of terms that each lie in [0, 1] lies in [0, |xs|]. */
  lemma {:induction false} SumOfUnitTerms<T>(xs: seq<T>, f: T -> real)
    requires forall x :: x in xs ==> 0.0 <= f(x) <= 1.0
    ensures 0.0 <= Sum(xs, f) <= |xs| as real
  {
    if xs != [] {
      var init := xs[..|xs| - 1];
      assert forall x :: x in init ==> x in xs;
      SumOfUnitTerms(init, f);
    }
  }

  function Const<T>(c: real): T -> real {
    x => c
  }

  lemma {:induction false} SumConst<T>(xs: seq<T>, c: real)
    ensures Sum(xs, Const(c)) == c * |xs| as real
  {
    if xs != [] {
      SumConst(xs[..|xs| - 1], c);
      assert c * (|xs| - 1) as real + c == c * |xs| as real;
    }
  }

  /** Sums f over the group of each key in ks, one group after the other. */
  function SumGroups<T(!new), K(==)>(xs: seq<T>, key: T -> K, f: T -> real, ks: seq<K>): real {
    if ks == [] then 0.0
    else SumGroups(xs, key, f, ks[..|ks| - 1]) + Sum(Filter(xs, key, ks[|ks| - 1]), f)
  }

  lemma {:induction false} SumGroupsOfEmpty<T(!new), K>(key: T -> K, f: T -> real, ks: seq<K>)
    ensures SumGroups([], key, f, ks) == 0.0
  {
    if ks != [] {
      SumGroupsOfEmpty(key, f, ks[..|ks| - 1]);
    }
  }

  lemma {:induction false} SumGroupsSnoc<T(!new), K>(xs: seq<T>, x: T, key: T -> K, f: T -> real, ks: seq<K>)
    requires NoDuplicates(ks)
    ensures SumGroups(xs + [x], key, f, ks) == SumGroups(xs, key, f, ks) + (if key(x) in ks then f(x) else 0.0)
  {
    if ks != [] {
      var init, k := ks[..|ks| - 1], ks[|ks| - 1];
      assert ks == init + [k];
      assert NoDuplicates(init);
      assert forall i :: 0 <= i < |init| ==> init[i] != k;
      SumGroupsSnoc(xs, x, key, f, init);
      FilterSnoc(xs, x, key, k);
      if key(x) == k {
        SumSnoc(Filter(xs, key, k), x, f);
      }
    }
  }

  /** When the keys are distinct and every element's key is among them, summing
      group by group sums every element exactly once. */
  lemma {:induction false} SumPartition<T(!new), K>(xs: seq<T>, key: T -> K, f: T -> real, ks: seq<K>)
    requires NoDuplicates(ks)
    requires forall x :: x in xs ==> key(x) in ks
    ensures SumGroups(xs, key, f, ks) == Sum(xs, f)
  {
    if xs == [] {
      SumGroupsOfEmpty(key, f, ks);
    } else {
      var init, x := xs[..|xs| - 1], xs[|xs| - 1];
      assert xs == init + [x];
      SumPartition(init, key, f, ks);
      SumGroupsSnoc(init, x, key, f, ks);
    }
  }

  /** Sums f over the rows of each trait in ts, one group after the other. */
  function SumByTrait(df: seq<Person>, f: Person -> real, ts: seq<string>): real {
    if ts == [] then 0.0
    else SumByTrait(df, f, ts[..|ts| - 1]) + Sum(GroupOf(df, ts[|ts| - 1]), f)
  }

  function Somes<K>(ks: seq<K>): (r: seq<Option<K>>)
    ensures |r| == |ks| && forall i :: 0 <= i < |ks| ==> r[i] == Some(ks[i])
  {
    seq(|ks|, i requires 0 <= i < |ks| => Some(ks[i]))
  }

  lemma {:induction false} SumByTraitIsSumGroups(df: seq<Person>, f: Person -> real, ts: seq<string>)
    ensures SumByTrait(df, f, ts) == SumGroups(df, AttrOf, f, Somes(ts))
  {
    if ts != [] {
      var init := ts[..|ts| - 1];
      assert Somes(ts)[..|ts| - 1] == Somes(init);
      SumByTraitIsSumGroups(df, f, init);
    }
  }

  /** When the traits are distinct and cover every row, summing trait by trait
      sums every row of the table exactly once. */
  lemma SumByTraitPartition(df: seq<Person>, f: Person -> real, ts: seq<string>)
    requires NoDuplicates(ts)
    requires forall p :: p in df ==> p.attr.Some? && p.attr.value in ts
    ensures SumByTrait(df, f, ts) == Sum(df, f)
  {
    var ks := Somes(ts);
    forall p | p in df ensures AttrOf(p) in ks {
      var i :| 0 <= i < |ts| && ts[i] == p.attr.value;
      assert ks[i] == AttrOf(p);
    }
    SumByTraitIsSumGroups(df, f, ts);
    SumPartition(df, AttrOf, f, ks);
  }

  /** A dictionary after adding v under key k the way the engine's loops do:
      the first value seen for a key starts its entry, later ones are added to it. */
  function Accumulated(m: map<string, real>, k: string, v: real): (m': map<string, real>)
    ensures m'.Keys == m.Keys + {k}
    ensures m'[k] == (if k in m then m[k] else 0.0) + v
    ensures forall j :: j in m && j != k ==> m'[j] == m[j]
  {
    if k in m then m[k := m[k] + v] else m[k := v]
  }

  /** A count dictionary after counting one more item under key k. */
  function Incremented(m: map<string, int>, k: string): (m': map<string, int>)
    ensures m'.Keys == m.Keys + {k}
    ensures m'[k] == (if k in m then m[k] else 0) + 1
    ensures forall j :: j in m && j != k ==> m'[j] == m[j]
  {
    if k in m then m[k := m[k] + 1] else m[k := 1]
  }

  /** The distinct elements of xs, in order of first appearance. */
  function Distinct<T(==,!new)>(xs: seq<T>): (r: seq<T>)
    ensures NoDuplicates(r)
    ensures forall x :: x in r <==> x in xs
  {
    if xs == [] then []
    else
      var init := Distinct(xs[..|xs| - 1]);
      var x := xs[|xs| - 1];
      assert xs == xs[..|xs| - 1] + [x];
      if x in init then init else init + [x]
  }

  /** The distinct values present in the grouping column (what value_counts
      lists), in order of first appearance. */
  function DistinctValues(df: seq<Person>): (ts: seq<string>)
    ensures NoDuplicates(ts)
    ensures forall t :: t in ts <==> Some(t) in PresentAttrs(df)
  {
    Distinct(PresentValues(df))
  }

  function PresentAttrs(df: seq<Person>): set<Option<string>> {
    set p | p in df && p.attr.Some? :: p.attr
  }

  function PresentValues(df: seq<Person>): (vs: seq<string>)
    ensures forall v :: v in vs <==> Some(v) in PresentAttrs(df)
  {
    if df == [] then []
    else
      var init := PresentValues(df[..|df| - 1]);
      var p := df[|df| - 1];
      assert df == df[..|df| - 1] + [p];
      assert PresentAttrs(df) == PresentAttrs(df[..|df| - 1]) + (if p.attr.Some? then {p.attr} else {});
      if p.attr.Some? then init + [p.attr.value] else init
  }

  /** The trait list the engine works on: the requested traits, or every
      distinct value of the column when none are requested. */
  function ResolveTraits(df: seq<Person>, traits: seq<string>): seq<string> {
    if traits == [] then DistinctValues(df) else traits
  }

  /** The first trait in list order whose group is empty: the one the engine's
      ValueError names. */
  function FirstEmpty(df: seq<Person>, ts: seq<string>): (r: Option<string>)
    ensures r.None? <==> forall t :: t in ts ==> GroupOf(df, t) != []
    ensures r.Some? ==> r.value in ts && GroupOf(df, r.value) == []
  {
    if ts == [] then None
    else if GroupOf(df, ts[0]) == [] then Some(ts[0])
    else
      var rest := FirstEmpty(df, ts[1..]);
      assert ts == [ts[0]] + ts[1..];
      rest
  }

  lemma {:induction false} FirstEmptyAt(df: seq<Person>, ts: seq<string>, k: nat)
    requires k < |ts|
    requires forall t :: t in ts[..k] ==> GroupOf(df, t) != []
    requires GroupOf(df, ts[k]) == []
    ensures FirstEmpty(df, ts) == Some(ts[k])
  {
    if k > 0 {
      assert ts[0] in ts[..k];
      assert ts[1..][..k - 1] == ts[1..k];
      assert forall t :: t in ts[1..k] ==> t in ts[..k];
      FirstEmptyAt(df, ts[1..], k - 1);
    }
  }

  /** Every derived trait has at least one row, so deriving the traits never
      leads to the empty-group error. */
  lemma DerivedTraitsAreNonEmpty(df: seq<Person>)
    ensures forall t :: t in DistinctValues(df) ==> GroupOf(df, t) != []
  {
    forall t | t in DistinctValues(df) ensures GroupOf(df, t) != [] {
      var p :| p in df && p.attr.Some? && p.attr == Some(t);
      assert p in GroupOf(df, t);
    }
  }

  /** No trait is derived exactly when no row has a value in the column. */
  lemma NoDerivedTraits(df: seq<Person>)
    ensures DistinctValues(df) == [] <==> forall p :: p in df ==> p.attr.None?
  {
    var ts := DistinctValues(df);
    if ts != [] {
      assert ts[0] in ts;
    }
    forall p | p in df && p.attr.Some? ensures ts != [] {
      assert p.attr.value in ts;
    }
  }
}
