/** The fuzzy age imputation: every passenger whose age cell is empty takes
    the age of the reference record whose name scores highest against theirs.
    Records are the dictionaries `csv.DictReader` yields, column to cell text.
    The similarity scorer (`fuzz.ratio`) is a parameter `ratio`; nothing here
    depends on what it computes. */
module FixAges {
  import opened Wrappers

  type Row = map<string, string>

  /** A record has the columns the script reads. */
  predicate HasNameAndAge(r: Row) {
    "Name" in r && "Age" in r
  }

  // ---------------------------------------------------------------------
  // Name sanitisation

  predicate IsUpper(c: char) {
    'A' <= c <= 'Z'
  }

  /** `str.lower` on the ASCII letters. */
  function Lower(s: string): (r: string)
    ensures |r| == |s|
    ensures forall i :: 0 <= i < |s| ==>
              r[i] == if IsUpper(s[i]) then (s[i] as int + 32) as char else s[i]
  {
    if |s| == 0 then []
    else [if IsUpper(s[0]) then (s[0] as int + 32) as char else s[0]] + Lower(s[1..])
  }

  /** `str.replace(c, "")`. */
  function Remove(s: string, c: char): (r: string)
    ensures forall i :: 0 <= i < |r| ==> r[i] != c
    ensures forall d :: d != c ==> (d in r <==> d in s)
  {
    if |s| == 0 then []
    else (if s[0] == c then [] else [s[0]]) + Remove(s[1..], c)
  }

  /** `name.lower().replace(".", "").replace(",", "")`. */
  function SanitizeName(name: string): (r: string)
    ensures '.' !in r && ',' !in r
    ensures forall c :: c in r ==> !IsUpper(c)
    ensures forall d :: d != '.' && d != ',' ==> (d in r <==> d in Lower(name))
  {
    Remove(Remove(Lower(name), '.'), ',')
  }

  lemma {:induction false} LowerOfLower(s: string)
    requires forall c :: c in s ==> !IsUpper(c)
    ensures Lower(s) == s
  {
    if |s| > 0 {
      assert s[0] in s;
      assert forall c :: c in s[1..] ==> c in s;
      LowerOfLower(s[1..]);
    }
  }

  lemma {:induction false} RemoveAbsent(s: string, c: char)
    requires c !in s
    ensures Remove(s, c) == s
  {
    if |s| > 0 {
      assert forall d :: d in s[1..] ==> d in s;
      RemoveAbsent(s[1..], c);
    }
  }

  /** A name that is already lower case and has no `.` or `,` is kept as it is. */
  lemma SanitizeNameOfClean(name: string)
    requires '.' !in name && ',' !in name
    requires forall c :: c in name ==> !IsUpper(c)
    ensures SanitizeName(name) == name
  {
    LowerOfLower(name);
    RemoveAbsent(name, '.');
    RemoveAbsent(name, ',');
  }

  /** Sanitising a sanitised name changes nothing. */
  lemma SanitizeNameIdempotent(name: string)
    ensures SanitizeName(SanitizeName(name)) == SanitizeName(name)
  {
    var s := SanitizeName(name);
    LowerOfLower(s);
    RemoveAbsent(s, '.');
    RemoveAbsent(s, ',');
  }

  // ---------------------------------------------------------------------
  // Age suffix

  /** `sanitizeAge`: an age given in months (a trailing `m`) becomes "1";
      any other age is kept. `age[-1]` fails on the empty string. */
  function SanitizeAge(age: string): (r: string)
    requires |age| > 0
    ensures age[|age| - 1] == 'm' ==> r == "1"
    ensures age[|age| - 1] != 'm' ==> r == age
  {
    if age[|age| - 1] == 'm' then "1" else age
  }

  /** A sanitised age is never empty, never ends in `m`, and is left alone
      by a second sanitisation. */
  lemma SanitizeAgeIdempotent(age: string)
    requires |age| > 0
    ensures |SanitizeAge(age)| > 0
    ensures SanitizeAge(age)[|SanitizeAge(age)| - 1] != 'm'
    ensures SanitizeAge(SanitizeAge(age)) == SanitizeAge(age)
  {
  }

  // ---------------------------------------------------------------------
  // Best match

  /** The score list of `getBestMatch`, one score per reference record. */
  function Scores(name: string, db: seq<Row>, ratio: (string, string) -> int): (r: seq<int>)
    requires forall k :: 0 <= k < |db| ==> HasNameAndAge(db[k])
    ensures |r| == |db|
  {
    seq(|db|, k requires 0 <= k < |db| && HasNameAndAge(db[k]) =>
      ratio(SanitizeName(name), SanitizeName(db[k]["Name"])))
  }

  /** Python's `max` of a non-empty list. */
  function MaxOf(s: seq<int>): (m: int)
    requires |s| > 0
    ensures m in s
    ensures forall k :: 0 <= k < |s| ==> s[k] <= m
  {
    if |s| == 1 then s[0]
    else
      var rest := MaxOf(s[1..]);
      if s[0] >= rest then s[0] else rest
  }

  /** Python's `list.index`: the first position holding `v`. */
  function IndexOf(s: seq<int>, v: int): (k: nat)
    requires v in s
    ensures k < |s| && s[k] == v
    ensures forall j :: 0 <= j < k ==> s[j] != v
  {
    if s[0] == v then 0 else 1 + IndexOf(s[1..], v)
  }

  /** `k` holds a maximal score and no earlier position does. */
  predicate IsFirstArgmax(s: seq<int>, k: nat) {
    && k < |s|
    && (forall j :: 0 <= j < |s| ==> s[j] <= s[k])
    && (forall j :: 0 <= j < k ==> s[j] < s[k])
  }

  /** `fuzz_scores.index(max(fuzz_scores))`. */
  function BestIndex(name: string, db: seq<Row>, ratio: (string, string) -> int): (k: nat)
    requires |db| > 0
    requires forall j :: 0 <= j < |db| ==> HasNameAndAge(db[j])
    ensures IsFirstArgmax(Scores(name, db, ratio), k)
  {
    var scores := Scores(name, db, ratio);
    IndexOf(scores, MaxOf(scores))
  }

  /** There is only one first maximal position. */
  lemma FirstArgmaxUnique(s: seq<int>, k1: nat, k2: nat)
    requires IsFirstArgmax(s, k1) && IsFirstArgmax(s, k2)
    ensures k1 == k2
  {
    assert s[k1] == s[k2];
  }

  /** `getBestMatch`: the reference record whose sanitised name scores
      highest against the sanitised `name`; on a tie, the first such record. */
  function GetBestMatch(name: string, db: seq<Row>, ratio: (string, string) -> int): (r: Row)
    requires |db| > 0
    requires forall j :: 0 <= j < |db| ==> HasNameAndAge(db[j])
    ensures exists k: nat :: IsFirstArgmax(Scores(name, db, ratio), k) && r == db[k]
    ensures HasNameAndAge(r)
  {
    db[BestIndex(name, db, ratio)]
  }

  // ---------------------------------------------------------------------
  // Imputation

  /** `missingAge`. */
  predicate MissingAge(p: Row)
    requires "Age" in p
    ensures MissingAge(p) <==> |p["Age"]| == 0
  {
    p["Age"] == ""
  }

  /** Why the script stops: `max` of an empty score list (no reference
      records) raises, and so does `age[-1]` on an empty matched age. */
  datatype ImputeError = NoReferenceRecords | EmptyReferenceAge

  /** The loop body for one passenger. */
  function ImputeOne(p: Row, db: seq<Row>, ratio: (string, string) -> int): (r: Result<Row, ImputeError>)
    requires HasNameAndAge(p)
    requires forall j :: 0 <= j < |db| ==> HasNameAndAge(db[j])
    ensures !MissingAge(p) ==> r == Success(p)
    ensures MissingAge(p) && |db| == 0 ==> r == Failure(NoReferenceRecords)
    ensures MissingAge(p) && |db| > 0 ==>
              var age := GetBestMatch(p["Name"], db, ratio)["Age"];
              r == if age == "" then Failure(EmptyReferenceAge)
                   else Success(p["Age" := SanitizeAge(age)])
    ensures r.Success? ==> r.value.Keys == p.Keys
    ensures r.Success? ==> forall c :: c in p && c != "Age" ==> r.value[c] == p[c]
  {
    if !MissingAge(p) then Success(p)
    else if |db| == 0 then Failure(NoReferenceRecords)
    else
      var age := GetBestMatch(p["Name"], db, ratio)["Age"];
      if age == "" then Failure(EmptyReferenceAge)
      else Success(p["Age" := SanitizeAge(age)])
  }

  /** When the reference table is non-empty and has no empty age, every
      passenger comes out with a non-empty age. */
  lemma ImputeOneFills(p: Row, db: seq<Row>, ratio: (string, string) -> int)
    requires HasNameAndAge(p)
    requires |db| > 0
    requires forall j :: 0 <= j < |db| ==> HasNameAndAge(db[j]) && db[j]["Age"] != ""
    ensures ImputeOne(p, db, ratio).Success?
    ensures ImputeOne(p, db, ratio).value["Age"] != ""
  {
    if MissingAge(p) {
      var m := GetBestMatch(p["Name"], db, ratio);
      assert m["Age"] != "";
    }
  }

  /** The loop body changes a record exactly when its age is missing: a
      filled age is never empty again. */
  lemma ImputeChangesExactlyMissing(p: Row, db: seq<Row>, ratio: (string, string) -> int)
    requires HasNameAndAge(p)
    requires forall j :: 0 <= j < |db| ==> HasNameAndAge(db[j])
    ensures ImputeOne(p, db, ratio).Success? ==> (ImputeOne(p, db, ratio).value != p <==> MissingAge(p))
  {
    var r := ImputeOne(p, db, ratio);
    if r.Success? && MissingAge(p) {
      var age := GetBestMatch(p["Name"], db, ratio)["Age"];
      SanitizeAgeIdempotent(age);
      assert r.value["Age"] != p["Age"];
    }
  }

  /** The loop over one passenger file: each record in turn, filled when its
      age is empty, appended to the output. The first failure stops the run. */
  method ImputeAges(passengers: seq<Row>, db: seq<Row>, ratio: (string, string) -> int)
    returns (r: Result<seq<Row>, ImputeError>)
    requires forall i :: 0 <= i < |passengers| ==> HasNameAndAge(passengers[i])
    requires forall j :: 0 <= j < |db| ==> HasNameAndAge(db[j])
    ensures r.Success? <==> forall i :: 0 <= i < |passengers| ==> ImputeOne(passengers[i], db, ratio).Success?
    ensures r.Success? ==> |r.value| == |passengers|
    ensures r.Success? ==> forall i :: 0 <= i < |passengers| ==>
              Success(r.value[i]) == ImputeOne(passengers[i], db, ratio)
    ensures r.Failure? ==>
              exists i :: (0 <= i < |passengers| &&
                (forall j :: 0 <= j < i ==> ImputeOne(passengers[j], db, ratio).Success?) &&
                ImputeOne(passengers[i], db, ratio) == Failure(r.error))
    ensures r.Success? ==> forall i :: 0 <= i < |r.value| ==> r.value[i].Keys == passengers[i].Keys
    ensures |db| > 0 && (forall j :: 0 <= j < |db| ==> "Age" in db[j] && db[j]["Age"] != "") ==>
              r.Success? && forall i :: 0 <= i < |r.value| ==> "Age" in r.value[i] && r.value[i]["Age"] != ""
  {
    var out: seq<Row> := [];
    for i := 0 to |passengers|
      invariant |out| == i
      invariant forall k :: 0 <= k < i ==> Success(out[k]) == ImputeOne(passengers[k], db, ratio)
    {
      var passenger := passengers[i];
      if MissingAge(passenger) {
        if |db| == 0 {
          return Failure(NoReferenceRecords);
        }
        var age := GetBestMatch(passenger["Name"], db, ratio)["Age"];
        if age == "" {
          return Failure(EmptyReferenceAge);
        }
        passenger := passenger["Age" := SanitizeAge(age)];
      }
      out := out + [passenger];
    }
    r := Success(out);
    if |db| > 0 && forall j :: 0 <= j < |db| ==> "Age" in db[j] && db[j]["Age"] != "" {
      forall i | 0 <= i < |out| ensures out[i]["Age"] != "" {
        ImputeOneFills(passengers[i], db, ratio);
      }
    }
  }

  /** The script's two runs: the training file, then the test file, both
      against the same reference table. A failure in the first stops the
      script before the second is read. */
  method ImputeTrainAndTest(train: seq<Row>, test: seq<Row>, db: seq<Row>, ratio: (string, string) -> int)
    returns (r: Result<(seq<Row>, seq<Row>), ImputeError>)
    requires forall i :: 0 <= i < |train| ==> HasNameAndAge(train[i])
    requires forall i :: 0 <= i < |test| ==> HasNameAndAge(test[i])
    requires forall j :: 0 <= j < |db| ==> HasNameAndAge(db[j])
    ensures r.Success? <==>
              (forall i :: 0 <= i < |train| ==> ImputeOne(train[i], db, ratio).Success?) &&
              (forall i :: 0 <= i < |test| ==> ImputeOne(test[i], db, ratio).Success?)
    ensures r.Success? ==> |r.value.0| == |train| && |r.value.1| == |test|
    ensures r.Success? ==> forall i :: 0 <= i < |train| ==>
              Success(r.value.0[i]) == ImputeOne(train[i], db, ratio)
    ensures r.Success? ==> forall i :: 0 <= i < |test| ==>
              Success(r.value.1[i]) == ImputeOne(test[i], db, ratio)
  {
    var newTrain := ImputeAges(train, db, ratio);
    if newTrain.Failure? {
      return Failure(newTrain.error);
    }
    var newTest := ImputeAges(test, db, ratio);
    if newTest.Failure? {
      return Failure(newTest.error);
    }
    r := Success((newTrain.value, newTest.value));
  }
}
