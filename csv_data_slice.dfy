/**
 * The store slice that holds the uploaded dataset: the records, whether a
 * dataset is loaded, its file name and when it was stored.
 */
module CsvDataSlice {
  import opened Wrappers
  import opened Records

  /** The text `new Date().toISOString()` gives; the clock is a parameter of the model. */
  type Timestamp = string

  /** The four fields of the slice, as a value. */
  datatype CsvDataState = CsvDataState(
    csvData: seq<Row>,
    isDataLoaded: bool,
    fileName: Option<string>,
    uploadedAt: Option<Timestamp>)

  const InitialState: CsvDataState := CsvDataState([], false, None, None)

  /** Not loaded means nothing stored; loaded means a time of storing is known. */
  predicate Consistent(s: CsvDataState) {
    && (!s.isDataLoaded ==> s.csvData == [] && s.fileName == None && s.uploadedAt == None)
    && (s.isDataLoaded <==> s.uploadedAt.Some?)
  }

  /** The state `setCsvData` leaves; it keeps nothing of the state before. */
  function AfterSet(s: CsvDataState, data: seq<Row>, fileName: Option<string>, now: Timestamp): (r: CsvDataState)
    ensures Consistent(r)
    ensures r.isDataLoaded && r.csvData == data && r.fileName == fileName && r.uploadedAt == Some(now)
  {
    CsvDataState(data, true, fileName, Some(now))
  }

  /** The state `clearCsvData` leaves. */
  function AfterClear(s: CsvDataState): (r: CsvDataState)
    ensures Consistent(r)
  {
    InitialState
  }

  /** Two stores in a row keep only the second payload: there is no merging. */
  lemma SetForgetsEarlier(s: CsvDataState, d1: seq<Row>, n1: Option<string>, t1: Timestamp,
                          d2: seq<Row>, n2: Option<string>, t2: Timestamp)
    ensures AfterSet(AfterSet(s, d1, n1, t1), d2, n2, t2) == AfterSet(InitialState, d2, n2, t2)
  {
  }

  /** Clearing returns to the initial state, so clearing twice is clearing once. */
  lemma ClearIdempotent(s: CsvDataState)
    ensures AfterClear(s) == InitialState
    ensures AfterClear(AfterClear(s)) == AfterClear(s)
  {
  }

  /** Storing an empty dataset still marks the slice loaded. */
  lemma EmptySetIsLoaded(s: CsvDataState, fileName: Option<string>, now: Timestamp)
    ensures AfterSet(s, [], fileName, now).isDataLoaded && AfterSet(s, [], fileName, now).csvData == []
  {
  }

  /** The slice as the store holds it, with the two reducers updating its fields in place. */
  class CsvDataStore {
    var csvData: seq<Row>
    var isDataLoaded: bool
    var fileName: Option<string>
    var uploadedAt: Option<Timestamp>

    function State(): CsvDataState
      reads this
    {
      CsvDataState(csvData, isDataLoaded, fileName, uploadedAt)
    }

    ghost predicate Valid()
      reads this
    {
      Consistent(State())
    }

    /** `initialState` */
    constructor()
      ensures State() == InitialState
      ensures Valid()
    {
      csvData := [];
      isDataLoaded := false;
      fileName := None;
      uploadedAt := None;
    }

    /** `setCsvData({data, fileName})`, stored at time `now`. */
    method SetCsvData(data: seq<Row>, name: Option<string>, now: Timestamp)
      modifies this
      ensures csvData == data && fileName == name && isDataLoaded && uploadedAt == Some(now)
      ensures State() == AfterSet(old(State()), data, name, now)
      ensures Valid()
    {
      csvData := data;
      fileName := name;
      isDataLoaded := true;
      uploadedAt := Some(now);
    }

    /** `clearCsvData()` */
    method ClearCsvData()
      modifies this
      ensures csvData == [] && !isDataLoaded && fileName == None && uploadedAt == None
      ensures State() == AfterClear(old(State()))
      ensures Valid()
    {
      csvData := [];
      isDataLoaded := false;
      fileName := None;
      uploadedAt := None;
    }
  }
}
