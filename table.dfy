/** One row of the passenger table as the feature pipeline holds it (a pandas
    DataFrame row after `pd.read_csv`). Nullable cells are `Option`s; the four
    columns that feature engineering adds are `features`, absent until then. */
module Table {
  import opened Wrappers

  /** The family-size categories, named by their labels 'alone', 'normal'
      and 'large'. */
  datatype FamilyBucket = Alone | Normal | Large

  /** The columns CabinKnown, Title, FamilySize and IsMinor. A title or a
      family bucket the derivation cannot produce is a missing cell. */
  datatype Derived = Derived(
    cabinKnown: bool,
    title: Option<string>,
    familySize: Option<FamilyBucket>,
    isMinor: int)

  datatype Passenger = Passenger(
    passengerId: int,
    pclass: int,
    name: string,
    sex: string,
    age: real,
    sibSp: int,
    parch: int,
    ticket: string,
    fare: Option<real>,
    cabin: Option<string>,
    embarked: Option<string>,
    features: Option<Derived>)
}
