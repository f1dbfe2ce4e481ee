/** The pipeline stages over the combined passenger table: feature
    engineering (which drives the shared `FeatureEngineering` object),
    filling missing fares and ports of embarkation, and the log transform of
    fares. Every stage works on a copy: the table is a value here, so the
    caller's table cannot change. Row labels are positions (the table is
    re-indexed before these stages run). */
module Pipeline {
  import opened Wrappers
  import opened Table
  import opened Features

  /** The age threshold `engineer_features` passes to `isMinor`. */
  const MinorThreshold: int := 14

  // ---------------------------------------------------------------------
  // engineer_features

  /** Adds the four derived columns, in the source's order, and prints the
      summary (the printing is not modelled). */
  method EngineerFeatures(fe: FeatureEngineering, df: seq<Passenger>) returns (ndf: seq<Passenger>)
    modifies fe
    ensures fe.Report() == SummaryReport(true, true, true, true, MinorThreshold)
    ensures |ndf| == |df|
    ensures forall i :: 0 <= i < |df| ==> ndf[i].(features := df[i].features) == df[i]
    ensures forall i :: 0 <= i < |df| ==>
              ndf[i].features == Some(Derived(
                df[i].cabin.Some?,
                NormaliseTitle(ExtractTitle(df[i].name)),
                FamilyCategorise(df[i].parch + df[i].sibSp),
                MinorBin(df[i].age, MinorThreshold)))
  {
    var cabin := fe.CabinKnown(df);
    var titles := fe.Title(df);
    var family := fe.FamilySize(df);
    var minor := fe.IsMinor(df, MinorThreshold);
    var summary := fe.GetSummary();
    ndf := seq(|df|, i requires 0 <= i < |df| =>
      df[i].(features := Some(Derived(cabin[i], titles[i], family[i], minor[i]))));
  }

  // ---------------------------------------------------------------------
  // Positions of missing cells

  /** `df[mask].index.tolist()`: the positions where `mask` holds, ascending. */
  function TrueIndices(mask: seq<bool>): (r: seq<nat>)
    ensures forall i: nat :: i in r <==> i < |mask| && mask[i]
    ensures forall k :: 0 <= k < |r| ==> r[k] < |mask| && mask[r[k]]
    ensures forall a, b :: 0 <= a < b < |r| ==> r[a] < r[b]
  {
    if |mask| == 0 then []
    else TrueIndices(mask[..|mask| - 1]) + (if mask[|mask| - 1] then [|mask| - 1] else [])
  }

  function MissingFares(t: seq<Passenger>): (r: seq<nat>)
    ensures forall i: nat :: i in r <==> i < |t| && t[i].fare.None?
    ensures forall k :: 0 <= k < |r| ==> r[k] < |t| && t[r[k]].fare.None?
    ensures forall a, b :: 0 <= a < b < |r| ==> r[a] < r[b]
  {
    TrueIndices(seq(|t|, i requires 0 <= i < |t| => t[i].fare.None?))
  }

  function MissingEmbarks(t: seq<Passenger>): (r: seq<nat>)
    ensures forall i: nat :: i in r <==> i < |t| && t[i].embarked.None?
    ensures forall k :: 0 <= k < |r| ==> r[k] < |t| && t[r[k]].embarked.None?
    ensures forall a, b :: 0 <= a < b < |r| ==> r[a] < r[b]
  {
    TrueIndices(seq(|t|, i requires 0 <= i < |t| => t[i].embarked.None?))
  }

  // ---------------------------------------------------------------------
  // Fare: mean of the passenger's class

  /** The present fares of the rows of class `c`, in row order. */
  function ClassFares(t: seq<Passenger>, c: int): seq<real> {
    if |t| == 0 then []
    else (if t[0].pclass == c && t[0].fare.Some? then [t[0].fare.value] else []) + ClassFares(t[1..], c)
  }

  function Sum(xs: seq<real>): real {
    if |xs| == 0 then 0.0 else xs[0] + Sum(xs[1..])
  }

  /** pandas' `mean`, which skips missing cells: NaN (here None) when no
      value is present. */
  function Mean(xs: seq<real>): Option<real> {
    if |xs| == 0 then None else Some(Sum(xs) / (|xs| as real))
  }

  /** `ndf[ndf['Pclass'] == c]['Fare'].mean()`. */
  function ClassMeanFare(t: seq<Passenger>, c: int): Option<real> {
    Mean(ClassFares(t, c))
  }

  /** One step of the fare loop: the row at `i` takes the mean fare of its
      class in the table as it stands. */
  function FillFareAt(t: seq<Passenger>, i: nat): seq<Passenger>
    requires i < |t|
  {
    t[i := t[i].(fare := ClassMeanFare(t, t[i].pclass))]
  }

  /** The fare loop over the positions `idxs`, in order; each mean is taken
      after the earlier fills. */
  function FillFares(t: seq<Passenger>, idxs: seq<nat>): (r: seq<Passenger>)
    requires forall k :: 0 <= k < |idxs| ==> idxs[k] < |t|
    ensures |r| == |t|
    ensures forall i :: 0 <= i < |t| ==> r[i].(fare := t[i].fare) == t[i]
    ensures forall i: nat :: i < |t| && i !in idxs ==> r[i] == t[i]
    decreases |idxs|
  {
    if |idxs| == 0 then t
    else
      var pre := idxs[..|idxs| - 1];
      assert forall i: nat :: i in pre ==> i in idxs;
      FillFareAt(FillFares(t, pre), idxs[|idxs| - 1])
  }

  /** The rows of class `c` of two tables have the same present fares. */
  ghost predicate SameClassFares(t: seq<Passenger>, u: seq<Passenger>, c: int) {
    && |t| == |u|
    && (forall i :: 0 <= i < |t| ==> (t[i].pclass == c <==> u[i].pclass == c))
    && (forall i :: 0 <= i < |t| && t[i].pclass == c ==> t[i].fare == u[i].fare)
  }

  /** The mean a row receives depends only on the rows of its own class. */
  lemma {:induction false} ClassMeanOnlySameClass(t: seq<Passenger>, u: seq<Passenger>, c: int)
    requires SameClassFares(t, u, c)
    ensures ClassFares(t, c) == ClassFares(u, c)
    ensures ClassMeanFare(t, c) == ClassMeanFare(u, c)
  {
    if |t| > 0 {
      assert SameClassFares(t[1..], u[1..], c) by {
        forall i | 0 <= i < |t| - 1 ensures (t[1..][i].pclass == c <==> u[1..][i].pclass == c) {
          assert t[1..][i] == t[i + 1] && u[1..][i] == u[i + 1];
        }
      }
      ClassMeanOnlySameClass(t[1..], u[1..], c);
    }
  }

  /** Every present fare of class `c` lies in `[lo, hi]`. */
  ghost predicate FaresWithin(t: seq<Passenger>, c: int, lo: real, hi: real) {
    forall i :: 0 <= i < |t| && t[i].pclass == c && t[i].fare.Some? ==>
      lo <= t[i].fare.value <= hi
  }

  lemma {:induction false} ClassFaresWithin(t: seq<Passenger>, c: int, lo: real, hi: real)
    requires FaresWithin(t, c, lo, hi)
    ensures forall k :: 0 <= k < |ClassFares(t, c)| ==> lo <= ClassFares(t, c)[k] <= hi
  {
    if |t| > 0 {
      assert FaresWithin(t[1..], c, lo, hi) by {
        forall i | 0 <= i < |t| - 1 ensures t[1..][i] == t[i + 1] { }
      }
      ClassFaresWithin(t[1..], c, lo, hi);
    }
  }

  lemma {:induction false} SumWithin(xs: seq<real>, lo: real, hi: real)
    requires forall k :: 0 <= k < |xs| ==> lo <= xs[k] <= hi
    ensures (|xs| as real) * lo <= Sum(xs) <= (|xs| as real) * hi
  {
    if |xs| > 0 {
      SumWithin(xs[1..], lo, hi);
      assert (|xs| as real) * lo == lo + ((|xs| - 1) as real) * lo;
      assert (|xs| as real) * hi == hi + ((|xs| - 1) as real) * hi;
    }
  }

  lemma QuotientWithin(a: real, n: real, lo: real, hi: real)
    requires n > 0.0 && n * lo <= a <= n * hi
    ensures lo <= a / n <= hi
  {
    var q := a / n;
    assert q * n == a;
  }

  /** The mean of values in `[lo, hi]` is in `[lo, hi]`. */
  lemma MeanWithin(xs: seq<real>, lo: real, hi: real)
    requires forall k :: 0 <= k < |xs| ==> lo <= xs[k] <= hi
    ensures Mean(xs).Some? ==> lo <= Mean(xs).value <= hi
  {
    if |xs| > 0 {
      SumWithin(xs, lo, hi);
      QuotientWithin(Sum(xs), |xs| as real, lo, hi);
    }
  }

  /** Filling fares never takes a class's fares outside the range of the
      fares that class had: every fill is a mean over that class alone. */
  lemma {:induction false} FillFaresWithin(t: seq<Passenger>, idxs: seq<nat>, c: int, lo: real, hi: real)
    requires forall k :: 0 <= k < |idxs| ==> idxs[k] < |t|
    requires FaresWithin(t, c, lo, hi)
    ensures FaresWithin(FillFares(t, idxs), c, lo, hi)
    decreases |idxs|
  {
    if |idxs| > 0 {
      var pre := idxs[..|idxs| - 1];
      var x := idxs[|idxs| - 1];
      FillFaresWithin(t, pre, c, lo, hi);
      var t1 := FillFares(t, pre);
      if t1[x].pclass == c {
        ClassFaresWithin(t1, c, lo, hi);
        MeanWithin(ClassFares(t1, c), lo, hi);
      }
    }
  }

  /** Class `c` has a present fare somewhere in the table. */
  ghost predicate HasFare(t: seq<Passenger>, c: int) {
    exists i :: 0 <= i < |t| && t[i].pclass == c && t[i].fare.Some?
  }

  lemma {:induction false} HasFareMean(t: seq<Passenger>, c: int)
    requires HasFare(t, c)
    ensures ClassMeanFare(t, c).Some?
  {
    var i :| 0 <= i < |t| && t[i].pclass == c && t[i].fare.Some?;
    if i > 0 {
      assert t[1..][i - 1] == t[i];
      HasFareMean(t[1..], c);
    }
  }

  /** Filling distinct missing positions gives a fare to every filled row
      whose class has a present fare. */
  lemma {:induction false} FillFaresCompletes(t: seq<Passenger>, idxs: seq<nat>, c: int)
    requires forall k :: 0 <= k < |idxs| ==> idxs[k] < |t| && t[idxs[k]].fare.None?
    requires forall a, b :: 0 <= a < b < |idxs| ==> idxs[a] != idxs[b]
    requires HasFare(t, c)
    ensures HasFare(FillFares(t, idxs), c)
    ensures forall k :: 0 <= k < |idxs| && t[idxs[k]].pclass == c ==>
              FillFares(t, idxs)[idxs[k]].fare.Some?
    decreases |idxs|
  {
    if |idxs| > 0 {
      var n := |idxs| - 1;
      var pre := idxs[..n];
      var x := idxs[n];
      FillFaresCompletes(t, pre, c);
      var t1 := FillFares(t, pre);
      var t2 := FillFares(t, idxs);
      assert t2 == FillFareAt(t1, x);
      assert x !in pre;
      assert t1[x] == t[x];
      var j :| 0 <= j < |t1| && t1[j].pclass == c && t1[j].fare.Some?;
      assert t2[j] == t1[j];
      if t[x].pclass == c {
        HasFareMean(t1, c);
      }
      forall k | 0 <= k < n && t[idxs[k]].pclass == c
        ensures t2[idxs[k]].fare.Some?
      {
        assert idxs[k] == pre[k];
      }
    }
  }

  /** After the fare loop, every row whose class had a present fare has one. */
  lemma FaresFilled(df: seq<Passenger>)
    ensures forall i :: 0 <= i < |df| && HasFare(df, df[i].pclass) ==>
              FillFares(df, MissingFares(df))[i].fare.Some?
  {
    var idxs := MissingFares(df);
    forall i | 0 <= i < |df| && HasFare(df, df[i].pclass)
      ensures FillFares(df, idxs)[i].fare.Some?
    {
      FillFaresCompletes(df, idxs, df[i].pclass);
      if df[i].fare.None? {
        var k :| 0 <= k < |idxs| && idxs[k] == i;
      }
    }
  }

  /** A class with no present fare has no mean (pandas' NaN). */
  lemma {:induction false} NoFareNoMean(t: seq<Passenger>, c: int)
    requires !HasFare(t, c)
    ensures ClassFares(t, c) == []
    ensures ClassMeanFare(t, c).None?
  {
    if |t| > 0 {
      assert forall i :: 0 <= i < |t| - 1 ==> t[1..][i] == t[i + 1];
      NoFareNoMean(t[1..], c);
    }
  }

  /** Giving a missing fare of class `c` the value `v` adds `v` to that
      class's fares. */
  lemma {:induction false} ClassFaresInsert(t: seq<Passenger>, x: nat, v: real, c: int)
    requires x < |t| && t[x].fare.None? && t[x].pclass == c
    ensures |ClassFares(t[x := t[x].(fare := Some(v))], c)| == |ClassFares(t, c)| + 1
    ensures Sum(ClassFares(t[x := t[x].(fare := Some(v))], c)) == Sum(ClassFares(t, c)) + v
  {
    var u := t[x := t[x].(fare := Some(v))];
    if x == 0 {
      assert u[1..] == t[1..];
      var ys := ClassFares(t[1..], c);
      assert ClassFares(u, c) == [v] + ys;
      assert ([v] + ys)[1..] == ys;
      assert ClassFares(t, c) == [] + ys == ys;
      assert Sum([v] + ys) == v + Sum(ys);
    } else {
      assert u[1..] == t[1..][x - 1 := t[x].(fare := Some(v))];
      ClassFaresInsert(t[1..], x - 1, v, c);
      var ys := ClassFares(u[1..], c);
      var zs := ClassFares(t[1..], c);
      assert u[0] == t[0];
      if t[0].pclass == c && t[0].fare.Some? {
        var a := t[0].fare.value;
        assert ClassFares(u, c) == [a] + ys && ClassFares(t, c) == [a] + zs;
        assert ([a] + ys)[1..] == ys;
        assert ([a] + zs)[1..] == zs;
        assert Sum([a] + ys) == a + Sum(ys);
        assert Sum([a] + zs) == a + Sum(zs);
      } else {
        assert ClassFares(u, c) == [] + ys == ys;
        assert ClassFares(t, c) == [] + zs == zs;
      }
    }
  }

  /** Adding the mean to a list of values keeps the mean. */
  lemma MeanOfMeanAdded(s: real, n: nat, m: real)
    requires n > 0 && m == s / (n as real)
    ensures (s + m) / ((n + 1) as real) == m
  {
    assert s == m * (n as real);
    assert s + m == m * ((n + 1) as real);
  }

  /** One step of the fare loop changes no class's mean: the row takes its
      own class's mean, and every other class is untouched. */
  lemma FillFareAtKeepsMeans(t: seq<Passenger>, x: nat, c: int)
    requires x < |t| && t[x].fare.None?
    ensures ClassMeanFare(FillFareAt(t, x), c) == ClassMeanFare(t, c)
  {
    var c0 := t[x].pclass;
    var m := ClassMeanFare(t, c0);
    var u := FillFareAt(t, x);
    if m.None? {
      assert u == t;
    } else if c != c0 {
      ClassMeanOnlySameClass(u, t, c);
    } else {
      ClassFaresInsert(t, x, m.value, c);
      MeanOfMeanAdded(Sum(ClassFares(t, c)), |ClassFares(t, c)|, m.value);
    }
  }

  /** Filling distinct missing positions keeps every class mean, so each
      filled row receives the mean of its class in the table before any fill. */
  lemma {:induction false} FillFaresMeans(t: seq<Passenger>, idxs: seq<nat>)
    requires forall k :: 0 <= k < |idxs| ==> idxs[k] < |t| && t[idxs[k]].fare.None?
    requires forall a, b :: 0 <= a < b < |idxs| ==> idxs[a] != idxs[b]
    ensures forall c :: ClassMeanFare(FillFares(t, idxs), c) == ClassMeanFare(t, c)
    ensures forall k :: 0 <= k < |idxs| ==>
              FillFares(t, idxs)[idxs[k]].fare == ClassMeanFare(t, t[idxs[k]].pclass)
    decreases |idxs|
  {
    if |idxs| > 0 {
      var n := |idxs| - 1;
      var pre := idxs[..n];
      var x := idxs[n];
      FillFaresMeans(t, pre);
      var t1 := FillFares(t, pre);
      var t2 := FillFares(t, idxs);
      assert t2 == FillFareAt(t1, x);
      assert x !in pre;
      assert t1[x] == t[x];
      forall c ensures ClassMeanFare(t2, c) == ClassMeanFare(t, c) {
        FillFareAtKeepsMeans(t1, x, c);
      }
      forall k | 0 <= k < n
        ensures t2[idxs[k]].fare == ClassMeanFare(t, t[idxs[k]].pclass)
      {
        assert idxs[k] == pre[k];
      }
    }
  }

  /** After the fare loop, every row whose fare was missing holds the mean
      fare of its class in the input table, and stays missing exactly when
      its class had no present fare. */
  lemma FaresAreClassMeans(df: seq<Passenger>)
    ensures forall i :: 0 <= i < |df| && df[i].fare.None? ==>
              FillFares(df, MissingFares(df))[i].fare == ClassMeanFare(df, df[i].pclass)
    ensures forall i :: 0 <= i < |df| && df[i].fare.None? ==>
              (FillFares(df, MissingFares(df))[i].fare.None? <==> !HasFare(df, df[i].pclass))
  {
    var idxs := MissingFares(df);
    FillFaresMeans(df, idxs);
    forall i | 0 <= i < |df| && df[i].fare.None?
      ensures FillFares(df, idxs)[i].fare == ClassMeanFare(df, df[i].pclass)
      ensures FillFares(df, idxs)[i].fare.None? <==> !HasFare(df, df[i].pclass)
    {
      var k :| 0 <= k < |idxs| && idxs[k] == i;
      if HasFare(df, df[i].pclass) {
        HasFareMean(df, df[i].pclass);
      } else {
        NoFareNoMean(df, df[i].pclass);
      }
    }
  }

  // ---------------------------------------------------------------------
  // Embarked: the table-wide mode

  /** The present ports of embarkation, in row order. */
  function PresentEmbarked(t: seq<Passenger>): seq<string> {
    if |t| == 0 then []
    else (if t[0].embarked.Some? then [t[0].embarked.value] else []) + PresentEmbarked(t[1..])
  }

  /** The present ports depend only on the Embarked column. */
  lemma {:induction false} PresentEmbarkedOnlyEmbarked(t: seq<Passenger>, u: seq<Passenger>)
    requires |t| == |u| && forall i :: 0 <= i < |t| ==> t[i].embarked == u[i].embarked
    ensures PresentEmbarked(t) == PresentEmbarked(u)
  {
    if |t| > 0 {
      assert forall i :: 0 <= i < |t| - 1 ==> t[1..][i] == t[i + 1] && u[1..][i] == u[i + 1];
      PresentEmbarkedOnlyEmbarked(t[1..], u[1..]);
    }
  }

  lemma {:induction false} PresentEmbarkedEmpty(t: seq<Passenger>)
    ensures |PresentEmbarked(t)| == 0 <==> forall i :: 0 <= i < |t| ==> t[i].embarked.None?
  {
    if |t| > 0 {
      PresentEmbarkedEmpty(t[1..]);
      assert forall i :: 0 <= i < |t| - 1 ==> t[1..][i] == t[i + 1];
    }
  }

  function Count(xs: seq<string>, v: string): nat {
    if |xs| == 0 then 0 else (if xs[0] == v then 1 else 0) + Count(xs[1..], v)
  }

  lemma {:induction false} CountAbsent(xs: seq<string>, v: string)
    requires v !in xs
    ensures Count(xs, v) == 0
  {
    if |xs| > 0 {
      CountAbsent(xs[1..], v);
    }
  }

  /** The most frequent value among `xs[k..]` by its count in `xs`; of equally
      frequent values, the one that appears first. */
  function ModeFrom(xs: seq<string>, k: nat): (r: string)
    requires k < |xs|
    ensures r in xs[k..]
    ensures forall j :: k <= j < |xs| ==> Count(xs, xs[j]) <= Count(xs, r)
    decreases |xs| - k
  {
    if k == |xs| - 1 then xs[k]
    else
      var m := ModeFrom(xs, k + 1);
      assert forall v :: v in xs[k + 1..] ==> v in xs[k..];
      if Count(xs, xs[k]) >= Count(xs, m) then xs[k] else m
  }

  /** `value_counts().idxmax()`: a value of maximal count, or none when no
      value is present (where pandas raises). */
  function Mode(xs: seq<string>): (r: Option<string>)
    ensures r.None? <==> |xs| == 0
    ensures r.Some? ==> r.value in xs && forall v :: Count(xs, v) <= Count(xs, r.value)
  {
    if |xs| == 0 then None
    else
      var m := ModeFrom(xs, 0);
      assert xs[0..] == xs;
      assert forall v :: Count(xs, v) <= Count(xs, m) by {
        forall v ensures Count(xs, v) <= Count(xs, m) {
          if v in xs {
            var j :| 0 <= j < |xs| && xs[j] == v;
          } else {
            CountAbsent(xs, v);
          }
        }
      }
      Some(m)
  }

  // ---------------------------------------------------------------------
  // fill_missing

  /** `idxmax` of an empty `value_counts` raises: no row has a port. */
  datatype FillError = NoEmbarkedValue

  /** The fare loop of `fill_missing`: the positions with a missing fare are
      listed first, then filled one after another. */
  method FillMissingFares(df: seq<Passenger>) returns (ndf: seq<Passenger>)
    ensures ndf == FillFares(df, MissingFares(df))
  {
    ndf := df;
    var missingFares := MissingFares(ndf);
    for k := 0 to |missingFares|
      invariant ndf == FillFares(df, missingFares[..k])
    {
      var i := missingFares[k];
      var pclass := ndf[i].pclass;
      assert missingFares[..k + 1][..k] == missingFares[..k];
      ndf := ndf[i := ndf[i].(fare := ClassMeanFare(ndf, pclass))];
    }
    assert missingFares[..|missingFares|] == missingFares;
  }

  /** The port loop of `fill_missing`: the mode is taken once, before the
      loop, and written into every row whose port is missing. */
  method FillMissingEmbarked(t: seq<Passenger>) returns (r: Result<seq<Passenger>, FillError>)
    ensures r.Failure? <==> |PresentEmbarked(t)| == 0
    ensures r.Success? ==> |r.value| == |t| && forall i :: 0 <= i < |t| ==>
              r.value[i] == if t[i].embarked.None? then t[i].(embarked := Mode(PresentEmbarked(t))) else t[i]
  {
    var ndf := t;
    var missingEmbarks := MissingEmbarks(ndf);
    var mcl := Mode(PresentEmbarked(ndf));
    if mcl.None? {
      return Failure(NoEmbarkedValue);
    }
    for k := 0 to |missingEmbarks|
      invariant |ndf| == |t|
      invariant forall i :: 0 <= i < |t| ==>
                  ndf[i] == t[i] || (t[i].embarked.None? && ndf[i] == t[i].(embarked := mcl))
      invariant forall j :: 0 <= j < k ==> ndf[missingEmbarks[j]] == t[missingEmbarks[j]].(embarked := mcl)
    {
      var eb := missingEmbarks[k];
      ndf := ndf[eb := ndf[eb].(embarked := mcl)];
    }
    forall i | 0 <= i < |t| && t[i].embarked.None?
      ensures ndf[i] == t[i].(embarked := mcl)
    {
      var j :| 0 <= j < |missingEmbarks| && missingEmbarks[j] == i;
    }
    r := Success(ndf);
  }

  /** `fill_missing`: fares first, then ports, on a copy of the table. */
  method FillMissing(df: seq<Passenger>) returns (r: Result<seq<Passenger>, FillError>)
    ensures r.Failure? <==> forall i :: 0 <= i < |df| ==> df[i].embarked.None?
    ensures r.Success? ==> |r.value| == |df|
    ensures r.Success? ==> forall i :: 0 <= i < |df| ==>
              r.value[i].(fare := df[i].fare, embarked := df[i].embarked) == df[i]
    ensures r.Success? ==> forall i :: 0 <= i < |df| ==>
              r.value[i].fare == FillFares(df, MissingFares(df))[i].fare
    ensures r.Success? ==> forall i :: 0 <= i < |df| && df[i].fare.Some? ==>
              r.value[i].fare == df[i].fare
    ensures r.Success? ==> forall i :: 0 <= i < |df| && df[i].fare.None? ==>
              r.value[i].fare == ClassMeanFare(df, df[i].pclass)
    ensures r.Success? ==> forall i :: 0 <= i < |df| && df[i].embarked.Some? ==>
              r.value[i].embarked == df[i].embarked
    ensures r.Success? ==> forall i :: 0 <= i < |df| && df[i].embarked.None? ==>
              r.value[i].embarked == Mode(PresentEmbarked(df))
    ensures r.Success? ==> forall i :: 0 <= i < |df| ==> r.value[i].embarked.Some?
  {
    var filled := FillMissingFares(df);
    ghost var idxs := MissingFares(df);
    FaresAreClassMeans(df);
    assert forall i :: 0 <= i < |df| ==> filled[i].(fare := df[i].fare) == df[i];
    PresentEmbarkedOnlyEmbarked(filled, df);
    PresentEmbarkedEmpty(df);
    r := FillMissingEmbarked(filled);
    if r.Success? {
      forall i | 0 <= i < |df|
        ensures r.value[i].(fare := df[i].fare, embarked := df[i].embarked) == df[i]
        ensures r.value[i].fare == filled[i].fare
        ensures df[i].fare.Some? ==> r.value[i].fare == df[i].fare
        ensures df[i].fare.None? ==> r.value[i].fare == ClassMeanFare(df, df[i].pclass)
        ensures r.value[i].embarked == if df[i].embarked.None? then Mode(PresentEmbarked(df)) else df[i].embarked
      {
        if df[i].fare.Some? {
          assert i !in idxs;
        }
      }
    }
  }

  // ---------------------------------------------------------------------
  // transform_features

  /** `np.log(i) if i > 0 else 0`, with the logarithm as a parameter. A
      missing fare (NaN) fails `i > 0` and also becomes 0. */
  function LogFare(f: Option<real>, ln: real -> real): real {
    if f.Some? && f.value > 0.0 then ln(f.value) else 0.0
  }

  function TransformFeatures(df: seq<Passenger>, ln: real -> real): (r: seq<Passenger>)
    ensures |r| == |df|
    ensures forall i :: 0 <= i < |df| ==> r[i].(fare := df[i].fare) == df[i]
    ensures forall i :: 0 <= i < |df| && (df[i].fare.None? || df[i].fare.value <= 0.0) ==>
              r[i].fare == Some(0.0)
    ensures forall i :: 0 <= i < |df| && df[i].fare.Some? && df[i].fare.value > 0.0 ==>
              r[i].fare == Some(ln(df[i].fare.value))
  {
    seq(|df|, i requires 0 <= i < |df| => df[i].(fare := Some(LogFare(df[i].fare, ln))))
  }
}
