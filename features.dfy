/** The passenger feature derivations (cabin known, honorific title, family
    size bucket, minor flag) and the `FeatureEngineering` object that records
    which of them were run and reports it. */
module Features {
  import opened Wrappers
  import opened Text
  import opened Table

  // ---------------------------------------------------------------------
  // Family size

  /** `_familyCategorise`: the bucket of a family size. A negative size passes
      none of its three tests, and the Python function then returns None. */
  function FamilyCategorise(s: int): (r: Option<FamilyBucket>)
    ensures r == Some(Alone) <==> s == 0
    ensures r == Some(Normal) <==> 0 < s < 4
    ensures r == Some(Large) <==> s >= 4
    ensures r == None <==> s < 0
  {
    if s >= 4 then Some(Large)
    else if s == 0 then Some(Alone)
    else if s > 0 && s < 4 then Some(Normal)
    else None
  }

  /** Position of a bucket in the intended order alone < normal < large. */
  function Rank(b: FamilyBucket): nat {
    match b
    case Alone => 0
    case Normal => 1
    case Large => 2
  }

  /** The intended order of the ordered FamilySize categorical. */
  predicate FamilyLess(a: FamilyBucket, b: FamilyBucket) {
    Rank(a) < Rank(b)
  }

  /** Bucketing is monotone in the family size under alone < normal < large,
      and sizes in different bands get strictly ordered buckets. */
  lemma FamilyOrderMonotone(s1: int, s2: int)
    requires 0 <= s1 <= s2
    ensures FamilyCategorise(s1).Some? && FamilyCategorise(s2).Some?
    ensures !FamilyLess(FamilyCategorise(s2).value, FamilyCategorise(s1).value)
    ensures (s1 == 0 < s2 || s1 < 4 <= s2) ==>
              FamilyLess(FamilyCategorise(s1).value, FamilyCategorise(s2).value)
  {
  }

  /** The label pandas sees for each bucket. */
  function CategoryLabel(b: FamilyBucket): string {
    match b
    case Alone => "alone"
    case Normal => "normal"
    case Large => "large"
  }

  /** The order the source's `pd.Categorical(labels, ordered=True)` actually
      gives: with no explicit categories pandas sorts the labels it finds,
      so categories compare as their labels do. */
  predicate AsWrittenFamilyLess(a: FamilyBucket, b: FamilyBucket) {
    LexLess(CategoryLabel(a), CategoryLabel(b))
  }

  /** A family of 2 ('normal') ranks above a family of 4 ('large') in the
      categorical as written: 'large' < 'normal' as strings. */
  lemma AsWrittenFamilyOrderInverted()
    ensures FamilyCategorise(2) == Some(Normal) && FamilyCategorise(4) == Some(Large)
    ensures AsWrittenFamilyLess(Large, Normal) && !AsWrittenFamilyLess(Normal, Large)
    ensures FamilyLess(Normal, Large)
  {
    assert CategoryLabel(Large)[0] == 'l' && CategoryLabel(Normal)[0] == 'n';
  }

  /** The FamilySize column: one bucket per row, in row order. */
  function FamilySizeColumn(df: seq<Passenger>): (r: seq<Option<FamilyBucket>>)
    ensures |r| == |df|
  {
    seq(|df|, i requires 0 <= i < |df| => FamilyCategorise(df[i].parch + df[i].sibSp))
  }

  // ---------------------------------------------------------------------
  // Cabin known

  /** The CabinKnown column: `Cabin.isnull() == False`. */
  function CabinKnownColumn(df: seq<Passenger>): (r: seq<bool>)
    ensures |r| == |df|
  {
    seq(|df|, i requires 0 <= i < |df| => df[i].cabin.Some?)
  }

  // ---------------------------------------------------------------------
  // Title

  /** `t` stands in `name` at position `p`, contains neither `.` nor `, `,
      and is followed by the end of the name, a `.` or a `, `. */
  ghost predicate TitleAt(name: string, p: nat, t: string) {
    && p + |t| <= |name|
    && name[p..p + |t|] == t
    && (forall j: nat :: !OccursAt(t, ".", j))
    && (forall j: nat :: !OccursAt(t, ", ", j))
    && (p + |t| == |name| || name[p + |t|] == '.' || OccursAt(name, ", ", p + |t|))
  }

  /** `i` is the first position of `, ` in `name`. */
  ghost predicate FirstSeparator(name: string, i: nat) {
    OccursAt(name, ", ", i) && forall j: nat :: j < i ==> !OccursAt(name, ", ", j)
  }

  /** The reference reading of `"Surname, Title. Given"`: the honorific is the
      text after the first `, ` up to the next `.` or `, `. */
  ghost predicate IsTitleOf(name: string, t: string) {
    exists i: nat :: FirstSeparator(name, i) && TitleAt(name, i + 2, t)
  }

  /** `Name.str.split(", ")[1].str.split(".")[0]`: the piece after the first
      `, ` (up to the second, if any), cut at its first `.`. A name without
      `, ` has no second piece, and pandas gives a missing cell. */
  function ExtractTitle(name: string): Option<string> {
    match Find(name, ", ")
    case None => None
    case Some(i) => Some(Before(Before(name[i + 2..], ", "), "."))
  }

  lemma ExtractedTitleIsTitle(name: string, i: nat)
    requires Find(name, ", ") == Some(i)
    ensures FirstSeparator(name, i)
    ensures TitleAt(name, i + 2, ExtractTitle(name).value)
  {
    var rest := name[i + 2..];
    var seg := Before(rest, ", ");
    var t := Before(seg, ".");
    assert ExtractTitle(name) == Some(t);
    assert name[i + 2..i + 2 + |t|] == t by {
      assert t <= rest;
      assert rest[..|t|] == name[i + 2..i + 2 + |t|];
    }
    forall j: nat ensures !OccursAt(t, ".", j) {
      if OccursAt(t, ".", j) {
        PrefixOccurrence(t, seg, ".", j);
      }
    }
    forall j: nat ensures !OccursAt(t, ", ", j) {
      if OccursAt(t, ", ", j) {
        PrefixOccurrence(t, seg, ", ", j);
        PrefixOccurrence(seg, rest, ", ", j);
      }
    }
    if |t| < |seg| {
      assert OccursAt(seg, ".", |t|);
      assert name[i + 2 + |t|] == '.' by {
        assert seg[|t|..|t| + 1] == ".";
        assert seg[|t|] == rest[|t|];
      }
    } else if |seg| < |rest| {
      assert OccursAt(rest, ", ", |seg|);
      SuffixOccurrence(name, i + 2, ", ", |seg|);
    }
  }

  /** At most one string satisfies `TitleAt` at a given position. */
  lemma TitleAtUnique(name: string, p: nat, t1: string, t2: string)
    requires TitleAt(name, p, t1) && TitleAt(name, p, t2)
    ensures t1 == t2
  {
    TitleAtNotShorter(name, p, t1, t2);
    TitleAtNotShorter(name, p, t2, t1);
  }

  lemma CharOccurs(t: string, j: nat, c: char)
    requires j < |t| && t[j] == c
    ensures OccursAt(t, [c], j)
  {
    assert t[j..j + 1] == [c];
  }

  lemma SeparatorAt(s: string, i: nat)
    requires OccursAt(s, ", ", i)
    ensures s[i] == ',' && s[i + 1] == ' '
  {
    assert s[i..i + 2] == ", ";
  }

  lemma SeparatorFrom(s: string, i: nat)
    requires i + 1 < |s| && s[i] == ',' && s[i + 1] == ' '
    ensures OccursAt(s, ", ", i)
  {
    assert s[i..i + 2] == ", ";
  }

  /** A title cannot be a proper prefix of another one at the same place:
      its delimiter would lie inside the longer one. */
  lemma TitleAtNotShorter(name: string, p: nat, t1: string, t2: string)
    requires TitleAt(name, p, t1) && TitleAt(name, p, t2)
    ensures |t2| <= |t1|
  {
    if |t1| < |t2| {
      var e := p + |t1|;
      assert t2[|t1|] == name[e];
      if name[e] == '.' {
        CharOccurs(t2, |t1|, '.');
      } else {
        SeparatorAt(name, e);
        if e + 2 <= p + |t2| {
          SeparatorFrom(t2, |t1|);
        }
      }
    }
  }

  /** `ExtractTitle` agrees with the reference reading in both directions,
      and has no title exactly when the name has no `, `. */
  lemma ExtractTitleCorrect(name: string, t: string)
    ensures ExtractTitle(name) == Some(t) <==> IsTitleOf(name, t)
    ensures ExtractTitle(name).None? <==> forall j: nat :: !OccursAt(name, ", ", j)
  {
    match Find(name, ", ")
    case None =>
      assert !IsTitleOf(name, t);
    case Some(i) =>
      ExtractedTitleIsTitle(name, i);
      if IsTitleOf(name, t) {
        var i': nat :| FirstSeparator(name, i') && TitleAt(name, i' + 2, t);
        assert i' == i;
        TitleAtUnique(name, i + 2, t, ExtractTitle(name).value);
      }
  }

  lemma ExtractTitleExample()
    ensures ExtractTitle("Smith, Mr. John") == Some("Mr")
  {
    var name := "Smith, Mr. John";
    assert OccursAt(name, ", ", 5);
    assert FirstSeparator(name, 5) by {
      forall j: nat | j < 5 ensures !OccursAt(name, ", ", j) {
        assert name[j] != ',';
      }
    }
    assert TitleAt(name, 7, "Mr") by {
      assert name[7..9] == "Mr";
      assert name[9] == '.';
      forall j: nat ensures !OccursAt("Mr", ".", j) && !OccursAt("Mr", ", ", j) {
        if j < 2 { assert "Mr"[j] != '.' && "Mr"[j] != ','; }
      }
    }
    ExtractTitleCorrect(name, "Mr");
  }

  const MrAliases: seq<string> := ["Don", "Rev", "Dr", "Major", "Sir", "Col", "Capt", "Jonkheer"]
  const MissAliases: seq<string> := ["Mlle", "Ms"]
  const MrsAliases: seq<string> := ["Mme", "Lady", "the Countess"]

  /** `titles[titles.isin(aliases)] = canonical` on one cell; a missing cell
      is in no list. */
  function ApplyAlias(t: Option<string>, aliases: seq<string>, canonical: string): Option<string> {
    if t.Some? && t.value in aliases then Some(canonical) else t
  }

  /** The three masked assignments, in the order the source performs them. */
  function NormaliseTitle(t: Option<string>): (r: Option<string>)
    ensures t.Some? && t.value in MrAliases ==> r == Some("Mr")
    ensures t.Some? && t.value in MissAliases ==> r == Some("Miss")
    ensures t.Some? && t.value in MrsAliases ==> r == Some("Mrs")
    ensures (t.None? || (t.value !in MrAliases && t.value !in MissAliases && t.value !in MrsAliases))
              ==> r == t
  {
    ApplyAlias(ApplyAlias(ApplyAlias(t, MrAliases, "Mr"), MissAliases, "Miss"), MrsAliases, "Mrs")
  }

  lemma AliasListsDisjoint()
    ensures forall a :: a in MrAliases ==> a !in MissAliases && a !in MrsAliases
    ensures forall a :: a in MissAliases ==> a !in MrsAliases
    ensures "Mr" !in MrAliases + MissAliases + MrsAliases
    ensures "Miss" !in MrAliases + MissAliases + MrsAliases
    ensures "Mrs" !in MrAliases + MissAliases + MrsAliases
  {
  }

  /** Two masked assignments over disjoint lists, neither of which contains
      the other's canonical title, commute. */
  lemma ApplyAliasCommutes(t: Option<string>, xs: seq<string>, x: string, ys: seq<string>, y: string)
    requires forall a :: a in xs ==> a !in ys
    requires x !in ys && y !in xs
    ensures ApplyAlias(ApplyAlias(t, xs, x), ys, y) == ApplyAlias(ApplyAlias(t, ys, y), xs, x)
  {
  }

  /** The order of the three masked assignments does not matter. */
  lemma AliasOrderIrrelevant(t: Option<string>)
    ensures NormaliseTitle(t)
         == ApplyAlias(ApplyAlias(ApplyAlias(t, MrsAliases, "Mrs"), MissAliases, "Miss"), MrAliases, "Mr")
    ensures NormaliseTitle(t)
         == ApplyAlias(ApplyAlias(ApplyAlias(t, MissAliases, "Miss"), MrAliases, "Mr"), MrsAliases, "Mrs")
  {
    AliasListsDisjoint();
  }

  /** Normalised titles are left alone by a second normalisation. */
  lemma NormaliseTitleIdempotent(t: Option<string>)
    ensures NormaliseTitle(NormaliseTitle(t)) == NormaliseTitle(t)
  {
    AliasListsDisjoint();
  }

  /** One masked assignment, cell by cell, on the title column in place. */
  method ReplaceWhere(a: array<Option<string>>, aliases: seq<string>, canonical: string)
    modifies a
    ensures forall i :: 0 <= i < a.Length ==> a[i] == ApplyAlias(old(a[i]), aliases, canonical)
  {
    for i := 0 to a.Length
      invariant forall j :: 0 <= j < i ==> a[j] == ApplyAlias(old(a[j]), aliases, canonical)
      invariant forall j :: i <= j < a.Length ==> a[j] == old(a[j])
    {
      if a[i].Some? && a[i].value in aliases {
        a[i] := Some(canonical);
      }
    }
  }

  // ---------------------------------------------------------------------
  // Minor flag

  /** `np.searchsorted(bins, x, side='right')` on sorted bins: how many bins
      are at most `x`. */
  function CountAtMost(bins: seq<real>, x: real): (r: nat)
    ensures r <= |bins|
  {
    if |bins| == 0 then 0
    else (if bins[0] <= x then 1 else 0) + CountAtMost(bins[1..], x)
  }

  lemma CountAtMostPair(a: real, b: real, x: real)
    ensures CountAtMost([a, b], x) == (if a <= x then 1 else 0) + (if b <= x then 1 else 0)
  {
    assert [a, b][1..] == [b];
    assert [b][1..] == [];
  }

  /** `np.digitize(x, [b0, b1])` with `right=False`. numpy calls two equal bins
      increasing; decreasing bins are reversed and the index inverted. */
  function Digitize2(x: real, b0: real, b1: real): (r: int)
    ensures b0 <= b1 ==> (r == 0 <==> x < b0) && (r == 1 <==> b0 <= x < b1) && (r == 2 <==> b1 <= x)
    ensures b0 > b1 ==> (r == 0 <==> x >= b0) && (r == 1 <==> b1 <= x < b0) && (r == 2 <==> x < b1)
  {
    CountAtMostPair(b0, b1, x);
    CountAtMostPair(b1, b0, x);
    if b0 <= b1 then CountAtMost([b0, b1], x)
    else 2 - CountAtMost([b1, b0], x)
  }

  /** The IsMinor cell: `np.digitize(age, [threshold, 0])`. For a positive
      threshold the bins decrease, and code 1 marks a minor. */
  function MinorBin(age: real, threshold: int): (r: int)
    ensures 0 <= r <= 2
    ensures threshold > 0 ==>
      (r == 0 <==> age >= threshold as real) &&
      (r == 1 <==> 0.0 <= age < threshold as real) &&
      (r == 2 <==> age < 0.0)
    ensures threshold <= 0 ==>
      (r == 0 <==> age < threshold as real) &&
      (r == 1 <==> threshold as real <= age < 0.0) &&
      (r == 2 <==> age >= 0.0)
  {
    Digitize2(age, threshold as real, 0.0)
  }

  /** The IsMinor column. */
  function MinorColumn(df: seq<Passenger>, threshold: int): (r: seq<int>)
    ensures |r| == |df|
  {
    seq(|df|, i requires 0 <= i < |df| => MinorBin(df[i].age, threshold))
  }

  // ---------------------------------------------------------------------
  // The summary report

  /** What `getSummary` reports. */
  datatype SummaryReport = SummaryReport(
    cabinKnown: bool,
    title: bool,
    familySize: bool,
    isMinor: bool,
    isMinorThresh: int)

  /** Python's `str(b)` for a bool. */
  function BoolText(b: bool): string {
    if b then "True" else "False"
  }

  function ParseBool(s: string): Option<(bool, string)> {
    match Consume(s, "True")
    case Some(rest) => Some((true, rest))
    case None =>
      var rest :- Consume(s, "False");
      Some((false, rest))
  }

  lemma BoolTextRoundTrip(b: bool, rest: string)
    ensures ParseBool(BoolText(b) + rest) == Some((b, rest))
  {
    ConsumePrefix(BoolText(b), rest);
    if !b {
      assert (BoolText(b) + rest)[0] == 'F';
    }
  }

  /** The text of `getSummary`: one line per derivation, tab-aligned. */
  function SummaryText(r: SummaryReport): string {
    "cabinKnown:\t\t" + (BoolText(r.cabinKnown) +
    ("\ntitle:\t\t\t" + (BoolText(r.title) +
    ("\nfamilySize:\t\t" + (BoolText(r.familySize) +
    ("\nisMinor (age < " + (IntText(r.isMinorThresh) +
    ("):\t" + BoolText(r.isMinor)))))))))
  }

  /** Reads a report back from its text. */
  function ParseSummary(s: string): Option<SummaryReport> {
    var s1 :- Consume(s, "cabinKnown:\t\t");
    var (c, s2) :- ParseBool(s1);
    var s3 :- Consume(s2, "\ntitle:\t\t\t");
    var (t, s4) :- ParseBool(s3);
    var s5 :- Consume(s4, "\nfamilySize:\t\t");
    var (f, s6) :- ParseBool(s5);
    var s7 :- Consume(s6, "\nisMinor (age < ");
    var (th, s8) :- ParseInt(s7);
    var s9 :- Consume(s8, "):\t");
    var (m, s10) :- ParseBool(s9);
    if s10 == [] then Some(SummaryReport(c, t, f, m, th)) else None
  }

  /** The summary text states every recorded value recoverably. */
  lemma SummaryRoundTrip(r: SummaryReport)
    ensures ParseSummary(SummaryText(r)) == Some(r)
  {
    var tail5 := "):\t" + BoolText(r.isMinor);
    var tail4 := "\nisMinor (age < " + (IntText(r.isMinorThresh) + tail5);
    var tail3 := "\nfamilySize:\t\t" + (BoolText(r.familySize) + tail4);
    var tail2 := "\ntitle:\t\t\t" + (BoolText(r.title) + tail3);
    ConsumePrefix("cabinKnown:\t\t", BoolText(r.cabinKnown) + tail2);
    BoolTextRoundTrip(r.cabinKnown, tail2);
    ConsumePrefix("\ntitle:\t\t\t", BoolText(r.title) + tail3);
    BoolTextRoundTrip(r.title, tail3);
    ConsumePrefix("\nfamilySize:\t\t", BoolText(r.familySize) + tail4);
    BoolTextRoundTrip(r.familySize, tail4);
    ConsumePrefix("\nisMinor (age < ", IntText(r.isMinorThresh) + tail5);
    IntTextRoundTrip(r.isMinorThresh, tail5);
    ConsumePrefix("):\t", BoolText(r.isMinor));
    BoolTextRoundTrip(r.isMinor, []);
    assert BoolText(r.isMinor) + [] == BoolText(r.isMinor);
  }

  // ---------------------------------------------------------------------
  // The object that records which derivations were run

  class FeatureEngineering {
    var cabinKnown: bool
    var title: bool
    var familySize: bool
    var isMinor: bool
    var isMinorThresh: int

    constructor ()
      ensures !cabinKnown && !title && !familySize && !isMinor && isMinorThresh == 0
    {
      cabinKnown, title, familySize, isMinor := false, false, false, false;
      isMinorThresh := 0;
    }

    /** The recorded state, as `getSummary` reports it. */
    function Report(): SummaryReport
      reads this
    {
      SummaryReport(cabinKnown, title, familySize, isMinor, isMinorThresh)
    }

    method CabinKnown(df: seq<Passenger>) returns (r: seq<bool>)
      modifies this
      ensures Report() == old(Report()).(cabinKnown := true)
      ensures |r| == |df| && forall i :: 0 <= i < |df| ==> (r[i] <==> df[i].cabin.Some?)
    {
      cabinKnown := true;
      r := CabinKnownColumn(df);
    }

    /** Splits every name, then overwrites the alias entries in place, list
        by list. */
    method Title(df: seq<Passenger>) returns (r: seq<Option<string>>)
      modifies this
      ensures Report() == old(Report()).(title := true)
      ensures |r| == |df|
      ensures forall i :: 0 <= i < |df| ==> r[i] == NormaliseTitle(ExtractTitle(df[i].name))
    {
      title := true;
      var titles := new Option<string>[|df|](i requires 0 <= i < |df| => ExtractTitle(df[i].name));
      ReplaceWhere(titles, MrAliases, "Mr");
      ReplaceWhere(titles, MissAliases, "Miss");
      ReplaceWhere(titles, MrsAliases, "Mrs");
      r := titles[..];
    }

    method FamilySize(df: seq<Passenger>) returns (r: seq<Option<FamilyBucket>>)
      modifies this
      ensures Report() == old(Report()).(familySize := true)
      ensures |r| == |df|
      ensures forall i :: 0 <= i < |df| ==> r[i] == FamilyCategorise(df[i].parch + df[i].sibSp)
    {
      familySize := true;
      r := FamilySizeColumn(df);
    }

    method IsMinor(df: seq<Passenger>, threshold: int) returns (r: seq<int>)
      modifies this
      ensures Report() == old(Report()).(isMinor := true, isMinorThresh := threshold)
      ensures |r| == |df|
      ensures forall i :: 0 <= i < |df| ==> r[i] == MinorBin(df[i].age, threshold)
    {
      isMinor := true;
      isMinorThresh := threshold;
      r := MinorColumn(df, threshold);
    }

    method GetSummary() returns (s: string)
      ensures s == SummaryText(Report())
      ensures ParseSummary(s) == Some(Report())
    {
      s := SummaryText(Report());
      SummaryRoundTrip(Report());
    }
  }
}
