# Titanic feature pipeline — a Dafny model

This project models the data-preparation core of a Titanic survival
competition entry. It covers three pieces.

- **Feature derivations** (`competition/features.py`). Each passenger row
  gets four derived columns:
  - whether the cabin is known;
  - the honorific out of `"Surname, Title. Given"` names, with rare titles
    folded into Mr, Miss and Mrs;
  - a family-size bucket (alone / normal / large) from `Parch + SibSp`;
  - a minor flag from `np.digitize(age, [threshold, 0])`.

  A `FeatureEngineering` object records which derivations ran and the minor
  threshold, and renders them as a summary text.
- **Fuzzy age imputation** (`scraping/fix_ages.py`). Every passenger record
  whose age cell is empty takes the age of the reference record whose
  sanitised name scores highest under a fuzzy ratio. A trailing `m`
  (an age in months) becomes `"1"`. This is done for the training file, then
  for the test file.
- **Pipeline steps** (`competition/pipeline.py`):
  - `engineer_features` runs the four derivations with threshold 14;
  - `fill_missing` fills each missing fare with the mean fare of the
    passenger's class and each missing port with the most common port;
  - `transform_features` takes the log of positive fares and sets every
    other fare to 0.

## Files

- `wrappers.dfy`: `Option` and `Result`.
- `text.dfy`: the string operations the model needs:
  - substring search, as `str.split` uses it;
  - decimal text and parsing of integers;
  - Python's string order.
- `table.dfy`: the passenger row, with `Option` cells for the nullable
  columns.
- `features.dfy`: `features.py`. The derivations are functions. The
  `FeatureEngineering` class holds the five recorded fields. Its methods set
  them and return the derived columns. `Title` rewrites its title array in
  place.
- `fix_ages.dfy`: `fix_ages.py`. Records are maps from column to cell text.
  The two script loops are methods.
- `pipeline.dfy`: `pipeline.py`. The `fill_missing` loops are methods proved
  against the fold `FillFares` and the function `Mode`.

## How external parts are handled

- **The fuzzy ratio** (`fuzz.ratio`) is a function parameter `ratio`. No
  property depends on what it computes.
- **The natural log** (`np.log`) is a function parameter `ln` on reals.
- **Fares and ages** are `real`. There is no floating-point rounding.
- **CSV reading and writing** are left out. Operations take and return
  in-memory sequences.

## Where the code and its comments disagree

- **`fill_missing`** has a comment that says "median". The code takes
  `mean()` (competition/pipeline.py:24, 29), and the model takes the mean.

## Model

| member | source | states |
|---|---|---|
| Features.FamilyCategorise | competition/features.py:12-18 | size 0 is alone, sizes 1 to 3 are normal, sizes of 4 or more are large; a negative size gets no bucket (Python's None), and each size gets at most one bucket |
| Features.FamilyOrderMonotone | competition/features.py:12-18 | every pair of non-negative sizes gets buckets; a larger size never gets a smaller bucket under alone < normal < large, and sizes in different bands get strictly ordered buckets |
| Features.AsWrittenFamilyOrderInverted | competition/features.py:43 | the ordered categorical as written sorts its labels as strings, so size 2 ('normal') ranks above size 4 ('large') |
| Features.FeatureEngineering.FamilySize | competition/features.py:40-43 | sets only the familySize flag; returns one bucket per row, in row order, of that row's Parch + SibSp |
| Features.FeatureEngineering.CabinKnown | competition/features.py:21-23 | sets only the cabinKnown flag; a row's cell is true exactly when its cabin is present |
| Features.ExtractTitleCorrect | competition/features.py:28 | the extracted title is t exactly when t is the text after the first ", " and before the next "." (or ", "); there is no title exactly when the name has no ", " |
| Features.ExtractTitleExample | competition/features.py:28 | "Smith, Mr. John" gives "Mr" |
| Features.NormaliseTitle | competition/features.py:30-36 | titles in the Mr, Miss and Mrs alias lists become Mr, Miss and Mrs; every other title, and a missing one, passes through unchanged |
| Features.AliasListsDisjoint | competition/features.py:30-32 | the three alias lists are pairwise disjoint and contain none of Mr, Miss and Mrs |
| Features.AliasOrderIrrelevant | competition/features.py:34-36 | performing the three masked assignments in another order gives the same title |
| Features.NormaliseTitleIdempotent | competition/features.py:30-36 | normalising a normalised title changes nothing |
| Features.ReplaceWhere | competition/features.py:34-36 | in place, every cell in the alias list becomes the canonical title and every other cell keeps its value |
| Features.FeatureEngineering.Title | competition/features.py:26-37 | sets only the title flag; returns, per row in order, the normalised title extracted from that row's name |
| Features.Digitize2 | competition/features.py:52 | np.digitize with two bins: for increasing bins, 0 below the first, 1 between, 2 from the second on; for decreasing bins, 0 from the first on, 1 between, 2 below the second |
| Features.MinorBin | competition/features.py:46-52 | for a positive threshold t: age >= t gives 0, 0 <= age < t gives 1 (minor), age < 0 gives 2; the bands for t <= 0 are also stated |
| Features.FeatureEngineering.IsMinor | competition/features.py:46-52 | sets only the isMinor flag and records the threshold; returns the minor code for each row |
| Features.FeatureEngineering.constructor | competition/features.py:5-10 | a fresh object has all four flags false and threshold 0 |
| Features.SummaryRoundTrip | competition/features.py:55-59 | the summary text determines all four flags and the threshold: parsing it gives back the recorded state |
| Features.FeatureEngineering.GetSummary | competition/features.py:55-59 | the returned text is the summary layout filled with the recorded state, and it reads back as exactly the object's recorded flags and threshold |
| Text.IntTextRoundTrip | competition/features.py:56-57 | the decimal text of the threshold reads back as the threshold |
| FixAges.SanitizeName | scraping/fix_ages.py:15-16 | the result has no '.', no ',' and no upper-case letter; every other character is in the result exactly when it is in the lower-cased name |
| FixAges.SanitizeNameOfClean | scraping/fix_ages.py:15-16 | a name that is already lower case and has no '.' or ',' is returned as it is |
| FixAges.SanitizeNameIdempotent | scraping/fix_ages.py:15-16 | sanitising a sanitised name changes nothing |
| FixAges.SanitizeAge | scraping/fix_ages.py:19-23 | needs a non-empty age; an age ending in 'm' becomes "1", any other age is kept |
| FixAges.SanitizeAgeIdempotent | scraping/fix_ages.py:19-23 | a sanitised age is non-empty, does not end in 'm' and is kept by a second sanitisation |
| FixAges.MaxOf | scraping/fix_ages.py:28 | the maximum of a non-empty score list is one of its scores and no score exceeds it |
| FixAges.IndexOf | scraping/fix_ages.py:28 | the position found holds the value and no earlier position does |
| FixAges.BestIndex | scraping/fix_ages.py:27-28 | the chosen position holds a maximal score and every earlier position scores strictly less |
| FixAges.FirstArgmaxUnique | scraping/fix_ages.py:28 | only one position is the first maximal one, so the choice is determined |
| FixAges.GetBestMatch | scraping/fix_ages.py:26-28 | needs a non-empty reference table; returns the reference record at the first position of maximal score |
| FixAges.ImputeOne | scraping/fix_ages.py:42-43 | a record whose age is non-empty comes back unchanged; an empty age takes the sanitised age of the best match; no reference records, or an empty matched age, is an error; no column other than Age changes and none is added |
| FixAges.MissingAge | scraping/fix_ages.py:31-35 | a record's age is missing exactly when its Age cell is the empty text |
| FixAges.ImputeChangesExactlyMissing | scraping/fix_ages.py:41-43 | when the loop body succeeds, it changes a record exactly when that record's age is missing |
| FixAges.ImputeOneFills | scraping/fix_ages.py:42-43 | when every reference age is non-empty, every record comes out with a non-empty age |
| FixAges.ImputeAges | scraping/fix_ages.py:41-45 | the output has one record per input record, in order, each the loop body's result; the run fails exactly when some record fails, with the first failure's error; columns are kept; with non-empty reference ages every output age is non-empty |
| FixAges.ImputeTrainAndTest | scraping/fix_ages.py:37-63 | the training file and then the test file are imputed against the same reference table; success exactly when every record of both succeeds, each record as the loop body gives it |
| Pipeline.EngineerFeatures | competition/pipeline.py:10-18 | all four flags end true and the threshold ends 14; every row keeps its columns and gains the four derived cells of its own values |
| Pipeline.MissingFares | competition/pipeline.py:25 | the listed positions are exactly those with a missing fare, in increasing order |
| Pipeline.MissingEmbarks | competition/pipeline.py:34 | the listed positions are exactly those with a missing port, in increasing order |
| Pipeline.FillFares | competition/pipeline.py:27-29 | filling keeps the row count, changes no column but Fare, and leaves rows not listed unchanged |
| Pipeline.ClassMeanOnlySameClass | competition/pipeline.py:29 | the fare filled for a class depends only on the fares of rows in that class |
| Pipeline.FillFaresWithin | competition/pipeline.py:27-29 | if every present fare of a class lies in [lo, hi], it still does after filling, since each fill is a mean of such fares |
| Pipeline.FillFaresCompletes | competition/pipeline.py:27-29 | if a class has a present fare, every listed row of that class gets a fare |
| Pipeline.FaresFilled | competition/pipeline.py:25-29 | after fill_missing's fare loop, every row whose class has a present fare has a fare |
| Pipeline.NoFareNoMean | competition/pipeline.py:29 | a class with no present fare has no mean (NaN) |
| Pipeline.FillFareAtKeepsMeans | competition/pipeline.py:28-29 | writing a class's mean into one of its missing fares changes no class's mean |
| Pipeline.FillFaresMeans | competition/pipeline.py:27-29 | filling distinct missing positions keeps every class mean, and each filled row holds the mean of its class in the table before filling |
| Pipeline.FaresAreClassMeans | competition/pipeline.py:25-29 | after the fare loop, every missing fare holds the mean fare of its class in the input table, and stays missing exactly when its class had no present fare |
| Pipeline.PresentEmbarkedEmpty | competition/pipeline.py:35 | there are no present ports exactly when every port is missing |
| Pipeline.Mode | competition/pipeline.py:35 | none exactly for no values; otherwise a value that occurs and has maximal count |
| Pipeline.FillMissingFares | competition/pipeline.py:25-29 | the fare loop gives the fold of per-row fills over the missing positions, with each mean taken over the table as filled so far |
| Pipeline.FillMissingEmbarked | competition/pipeline.py:34-37 | the mode is computed once, before the loop; every missing port becomes that mode and every other row is unchanged; no present port is an error |
| Pipeline.FillMissing | competition/pipeline.py:21-40 | fails exactly when every port is missing; otherwise keeps the row count and changes only Fare and Embarked; present fares and present ports are kept; each missing fare takes the mean fare of its class in the input table; missing ports take the mode; no port is missing afterwards |
| Pipeline.TransformFeatures | competition/pipeline.py:43-48 | the row count and every column but Fare are kept; a fare that is missing or at most 0 becomes 0; a positive fare x becomes ln(x) |

## Left out

- `scraping/titanica_scrape.py` is not part of this model. It does HTTP requests, HTML table parsing and a CSV write.
- CSV reading and writing in `fix_ages.py`, and `pd.read_csv` in `pipeline.py`, are left out.
  - The operations take and return in-memory sequences.
  - So the `newTrain[0]` / `newTest[0]` IndexError on an empty output file is not modelled.
  - Nor are `DictReader`'s short-row cells (None instead of text).
  - Rows are assumed to carry Name and Age.
- The internals of `fuzz.ratio` are left out. It is the function parameter `ratio`. The 0 to 100 range is not assumed, because no property needs it.
- Floating-point arithmetic is left out.
  - Fares, ages and means are `real`.
  - `np.log` is the function parameter `ln`.
  - A missing age is a NaN in pandas. NaN ages reaching `isMinor` are not modelled: every age is a real number.
- pandas' mean of a class with no present fare is NaN, and `set_value` writes that NaN back. The model keeps such a fare missing (Pipeline.FaresAreClassMeans), so NaN and a missing cell are not told apart.
- Pipeline.Mode: ties go to the first value to appear. `value_counts().idxmax()` picks some value of maximal count, and the model does not pin which one pandas takes.
- `fill_missing` uses row labels. The model treats labels and positions as the same, which holds because the main block resets the index.
- The pandas wrappers are left out. `pd.Categorical` and `astype('category')` are modelled as the plain sequences of their values.
  - The exception is the order the ordered FamilySize categorical gets, which is under Findings.
  - In the same way, `Title` returns option cells. The KeyError that `split(", ", expand=True)[1]` raises when no name in the whole frame contains ", " is not modelled. The model gives each such row a missing title.
- `coerce_types`, `prep_data_for_tree_model`, `prep_data_for_sv_model`, `naSummary` and the `__main__` block are left out. They are pandas/sklearn encoding and driver code, and the main block calls the undefined `prep_data_for_model`.
- The progress messages printed by `engineer_features`, `fill_missing` and `transform_features` are left out. `getSummary`'s text is modelled, but the tab-indenting print of it is not.
- FixAges.SanitizeName: `str.lower` is modelled on ASCII letters only. Non-ASCII upper case is out of scope.
- Pclass is an integer cell. A missing Pclass is not modelled.

## Findings

| source | as written | input that shows it | evidently intended | confidence | as-written member | corrected member |
|---|---|---|---|---|---|---|
| competition/features.py:43 | `pd.Categorical(labels, ordered=True)` with no explicit categories orders the categories by sorted label: alone < large < normal | Parch + SibSp of 2 gives 'normal', and 4 gives 'large'; as written, 'large' < 'normal' | the order alone < normal < large, which follows family size | not executed | Features.AsWrittenFamilyOrderInverted | Features.FamilyOrderMonotone |
