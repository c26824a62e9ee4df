/**
 * The upload pipeline of the file upload component: choose a parser by
 * file extension, turn an Excel sheet into header-keyed records, check the
 * required columns, clean the six numeric fields and the product name of
 * every row, and step the upload status.
 */
module FileUpload {
  import opened Wrappers
  import opened JsText
  import opened JsNumber
  import opened Records
  import opened Seqs

  /** The columns a file must have, in the order they are reported when missing. */
  const RequiredColumns: seq<string> :=
    ["Product Name", "Sales", "Profit", "TE", "Credit", "Amazon Fee", "Profit Percentage"]

  /** The fields cleaning turns into numbers, in the order they are checked. */
  const NumericFields: seq<string> :=
    ["Sales", "Profit", "TE", "Credit", "Amazon Fee", "Profit Percentage"]

  // ---------------------------------------------------------------- errors

  /** The errors that end an upload; Message gives the text shown to the user. */
  datatype UploadError =
    | UnsupportedFormat
    | CsvParseFailed(reason: string)
    | ExcelTooShort
    | ExcelParseFailed(reason: string)
    | ExcelReadFailed
    | EmptyFile
    | MissingColumns(columns: seq<string>)
    | InvalidNumericValue(row: nat, column: string, raw: string)
    | ProductNameRequired(row: nat)

  function Message(e: UploadError): (m: string)
    ensures m != ""
  {
    match e
    case UnsupportedFormat => "Unsupported file format. Please upload CSV or Excel files."
    case CsvParseFailed(reason) => "CSV parsing failed: " + reason
    case ExcelTooShort => "Excel file must have at least a header row and one data row"
    case ExcelParseFailed(reason) => "Excel parsing failed: " + reason
    case ExcelReadFailed => "Failed to read Excel file"
    case EmptyFile => "File is empty or contains no valid data"
    case MissingColumns(columns) => "Missing required columns: " + Join(columns, ", ")
    case InvalidNumericValue(row, column, raw) =>
      "Invalid numeric value in row " + NatText(row) + ", column '" + column + "': " + raw
    case ProductNameRequired(row) => "Product Name is required in row " + NatText(row)
  }

  // ------------------------------------------------------ extension dispatch

  datatype Format = Csv | Excel | Unsupported

  /** The parser a file name selects: `.csv`, else `.xlsx`/`.xls`, compared in lower case. */
  function FormatOf(name: string): Format {
    var lower := ToLower(name);
    if EndsWith(lower, ".csv") then Csv
    else if EndsWith(lower, ".xlsx") || EndsWith(lower, ".xls") then Excel
    else Unsupported
  }

  lemma EndsWithAppend(stem: string, ext: string, suffix: string)
    requires |suffix| <= |ext|
    ensures EndsWith(stem + ext, suffix) <==> EndsWith(ext, suffix)
  {
    assert (stem + ext)[|stem + ext| - |suffix|..] == ext[|ext| - |suffix|..];
  }

  /** Lower-casing a name lower-cases its extension. */
  lemma LowerNameEndsWith(stem: string, ext: string)
    ensures EndsWith(ToLower(stem + ext), ToLower(ext))
  {
    ToLowerAppend(stem, ext);
    assert (ToLower(stem) + ToLower(ext))[|ToLower(stem)|..] == ToLower(ext);
  }

  lemma EndsWithLast(s: string, suffix: string)
    requires EndsWith(s, suffix) && |suffix| > 0
    ensures s[|s| - 1] == suffix[|suffix| - 1]
  {
    assert s[|s| - |suffix|..][|suffix| - 1] == s[|s| - 1];
  }

  /** Any stem followed by `.csv`, in any case, is read as CSV. */
  lemma FormatCsvExtension(stem: string, ext: string)
    requires ToLower(ext) == ".csv"
    ensures FormatOf(stem + ext) == Csv
  {
    LowerNameEndsWith(stem, ext);
  }

  /** Any stem followed by `.xlsx` or `.xls`, in any case, is read as Excel. */
  lemma FormatExcelExtension(stem: string, ext: string)
    requires ToLower(ext) == ".xlsx" || ToLower(ext) == ".xls"
    ensures FormatOf(stem + ext) == Excel
  {
    var lower := ToLower(stem + ext);
    LowerNameEndsWith(stem, ext);
    EndsWithLast(lower, ToLower(ext));
    if EndsWith(lower, ".csv") {
      EndsWithLast(lower, ".csv");
    }
  }

  /** Other extensions, such as `.txt` or the macro workbook `.xlsm`, are rejected. */
  lemma FormatOtherExtension(stem: string, ext: string)
    requires ToLower(ext) in [".txt", ".json", ".pdf", ".xlsm"]
    ensures FormatOf(stem + ext) == Unsupported
  {
    var lower := ToLower(stem + ext);
    LowerNameEndsWith(stem, ext);
    EndsWithLast(lower, ToLower(ext));
    if EndsWith(lower, ".csv") {
      EndsWithLast(lower, ".csv");
    }
    if EndsWith(lower, ".xlsx") {
      EndsWithLast(lower, ".xlsx");
    }
    if EndsWith(lower, ".xls") {
      EndsWithLast(lower, ".xls");
    }
  }

  /** Lower-casing the name first changes nothing. */
  lemma FormatIgnoresCase(name: string)
    ensures FormatOf(ToLower(name)) == FormatOf(name)
  {
    ToLowerIdempotent(name);
  }

  // ------------------------------------------------------- validateColumns

  /** Header and column name agree after lower-casing and trimming. */
  predicate HeaderMatches(header: string, column: string) {
    Trim(ToLower(header)) == Trim(ToLower(column))
  }

  predicate HasHeader(headers: seq<string>, column: string) {
    exists h :: h in headers && HeaderMatches(h, column)
  }

  /** `columns.filter(c => !headers.some(h => HeaderMatches(h, c)))` */
  function MissingOf(columns: seq<string>, headers: seq<string>): seq<string> {
    if columns == [] then []
    else (if HasHeader(headers, columns[0]) then [] else [columns[0]]) + MissingOf(columns[1..], headers)
  }

  /** A column is reported missing exactly when it is one of the columns and no header matches it. */
  lemma {:induction false} MissingOfMembers(columns: seq<string>, headers: seq<string>, c: string)
    ensures c in MissingOf(columns, headers) <==> c in columns && !HasHeader(headers, c)
  {
    if columns != [] {
      MissingOfMembers(columns[1..], headers, c);
      assert columns == [columns[0]] + columns[1..];
    }
  }

  /** The missing columns come in the order the columns are declared. */
  lemma {:induction false} MissingOfOrder(columns: seq<string>, headers: seq<string>)
    ensures IsSubsequence(MissingOf(columns, headers), columns)
  {
    if columns != [] {
      var rest := MissingOf(columns[1..], headers);
      MissingOfOrder(columns[1..], headers);
      assert columns == [columns[0]] + columns[1..];
      if HasHeader(headers, columns[0]) {
        assert MissingOf(columns, headers) == rest;
        SubsequenceSkip(columns[0], rest, columns[1..]);
      } else {
        assert MissingOf(columns, headers) == [columns[0]] + rest;
        SubsequenceCons(columns[0], rest, columns[1..]);
      }
    }
  }

  /** `validateColumns(headers)` */
  function ValidateColumns(headers: seq<string>): seq<string> {
    MissingOf(RequiredColumns, headers)
  }

  /** Nothing is reported missing exactly when every required column has a header. */
  lemma ValidateColumnsEmpty(headers: seq<string>)
    ensures ValidateColumns(headers) == [] <==> forall c :: c in RequiredColumns ==> HasHeader(headers, c)
  {
    var missing := ValidateColumns(headers);
    forall c ensures c in missing <==> c in RequiredColumns && !HasHeader(headers, c) {
      MissingOfMembers(RequiredColumns, headers, c);
    }
    if missing != [] {
      assert missing[0] in missing;
    }
  }

  /** A lower-case `sales` header satisfies the `Sales` column. */
  lemma LowerCaseHeaderMatches()
    ensures HeaderMatches("sales", "Sales")
  {
    assert ToLower("Sales") == "sales";
    assert ToLower("sales") == "sales";
  }

  // ------------------------------------------------- Excel rows to records

  /** `row[i]`, which is `undefined` past the end of the row or at a hole. */
  function CellAt(row: seq<Cell>, i: nat): Cell {
    if i < |row| then row[i] else Absent
  }

  /** `row[index] || ""` */
  function ExcelValue(row: seq<Cell>, i: nat): Cell {
    Or(CellAt(row, i), Str(""))
  }

  /**
   * The object after the first `n` steps of `headers.forEach`: each header
   * cell, as a key, gets the data cell below it. A hole in the header row
   * (`Absent`) is skipped by `forEach`.
   */
  function RecordPrefix(headers: seq<Cell>, row: seq<Cell>, n: nat): Row
    requires n <= |headers|
  {
    if n == 0 then []
    else
      var obj := RecordPrefix(headers, row, n - 1);
      if headers[n - 1] == Absent then obj
      else Set(obj, CellText(headers[n - 1]), ExcelValue(row, n - 1))
  }

  function RecordOf(headers: seq<Cell>, row: seq<Cell>): Row {
    RecordPrefix(headers, row, |headers|)
  }

  /** Header `i` names a key that no later header names again: its cell is the one that stays. */
  predicate LastWithKey(headers: seq<Cell>, i: nat, n: nat)
    requires i < n <= |headers|
  {
    headers[i] != Absent &&
    forall j :: i < j < n && headers[j] != Absent ==> CellText(headers[j]) != CellText(headers[i])
  }

  predicate KeyedBy(headers: seq<Cell>, k: string, n: nat)
    requires n <= |headers|
  {
    exists i :: 0 <= i < n && headers[i] != Absent && CellText(headers[i]) == k
  }

  lemma RecordPrefixStep(headers: seq<Cell>, row: seq<Cell>, n: nat)
    requires 0 < n <= |headers|
    ensures RecordPrefix(headers, row, n) ==
      if headers[n - 1] == Absent then RecordPrefix(headers, row, n - 1)
      else Set(RecordPrefix(headers, row, n - 1), CellText(headers[n - 1]), ExcelValue(row, n - 1))
  {
  }

  /** The object has no key twice. */
  lemma {:induction false} RecordPrefixUnique(headers: seq<Cell>, row: seq<Cell>, n: nat)
    requires n <= |headers|
    ensures UniqueKeys(RecordPrefix(headers, row, n))
  {
    if n > 0 {
      RecordPrefixUnique(headers, row, n - 1);
      RecordPrefixUniqueStep(headers, row, n);
    }
  }

  lemma RecordPrefixUniqueStep(headers: seq<Cell>, row: seq<Cell>, n: nat)
    requires 0 < n <= |headers| && UniqueKeys(RecordPrefix(headers, row, n - 1))
    ensures UniqueKeys(RecordPrefix(headers, row, n))
  {
    if headers[n - 1] != Absent {
      SetUnique(RecordPrefix(headers, row, n - 1), CellText(headers[n - 1]), ExcelValue(row, n - 1));
    }
  }

  /** Its keys are exactly the texts of the header cells that are not holes. */
  lemma {:induction false} RecordPrefixKeys(headers: seq<Cell>, row: seq<Cell>, n: nat)
    requires n <= |headers|
    ensures forall k :: k in Keys(RecordPrefix(headers, row, n)) <==> KeyedBy(headers, k, n)
  {
    if n > 0 {
      RecordPrefixKeys(headers, row, n - 1);
      forall k ensures k in Keys(RecordPrefix(headers, row, n)) <==> KeyedBy(headers, k, n) {
        RecordPrefixKeyStep(headers, row, n, k);
      }
    }
  }

  lemma RecordPrefixKeyStep(headers: seq<Cell>, row: seq<Cell>, n: nat, k: string)
    requires 0 < n <= |headers|
    requires k in Keys(RecordPrefix(headers, row, n - 1)) <==> KeyedBy(headers, k, n - 1)
    ensures k in Keys(RecordPrefix(headers, row, n)) <==> KeyedBy(headers, k, n)
  {
    RecordPrefixStep(headers, row, n);
    KeyedByStep(headers, k, n);
    if headers[n - 1] != Absent {
      SetKeys(RecordPrefix(headers, row, n - 1), CellText(headers[n - 1]), ExcelValue(row, n - 1));
    }
  }

  lemma KeyedByStep(headers: seq<Cell>, k: string, n: nat)
    requires 0 < n <= |headers|
    ensures KeyedBy(headers, k, n) <==>
              KeyedBy(headers, k, n - 1) || (headers[n - 1] != Absent && CellText(headers[n - 1]) == k)
  {
    if KeyedBy(headers, k, n) && !(headers[n - 1] != Absent && CellText(headers[n - 1]) == k) {
      var i :| 0 <= i < n && headers[i] != Absent && CellText(headers[i]) == k;
      assert i < n - 1;
    }
  }

  /**
   * The key of the last header with a given text holds the cell below that
   * header, or `""` in place of a falsy or missing cell.
   */
  lemma {:induction false} RecordPrefixValues(headers: seq<Cell>, row: seq<Cell>, n: nat)
    requires n <= |headers|
    ensures forall i :: 0 <= i < n && LastWithKey(headers, i, n) ==>
              Get(RecordPrefix(headers, row, n), CellText(headers[i])) == ExcelValue(row, i)
  {
    if n > 0 {
      RecordPrefixValues(headers, row, n - 1);
      forall i | 0 <= i < n && LastWithKey(headers, i, n)
        ensures Get(RecordPrefix(headers, row, n), CellText(headers[i])) == ExcelValue(row, i)
      {
        if i < n - 1 {
          assert LastWithKey(headers, i, n - 1);
        }
        RecordPrefixValueStep(headers, row, n, i);
      }
    }
  }

  lemma RecordPrefixValueStep(headers: seq<Cell>, row: seq<Cell>, n: nat, i: nat)
    requires 0 <= i < n <= |headers| && LastWithKey(headers, i, n)
    requires i < n - 1 ==> Get(RecordPrefix(headers, row, n - 1), CellText(headers[i])) == ExcelValue(row, i)
    ensures Get(RecordPrefix(headers, row, n), CellText(headers[i])) == ExcelValue(row, i)
  {
    RecordPrefixStep(headers, row, n);
    if i < n - 1 {
      assert LastWithKey(headers, i, n - 1);
    }
  }

  /** No converted value is `undefined`: a cell that is falsy or missing becomes `""`. */
  lemma ExcelValueDefined(row: seq<Cell>, i: nat)
    ensures ExcelValue(row, i) != Absent
    ensures i >= |row| ==> ExcelValue(row, i) == Str("")
    ensures i < |row| && Truthy(row[i]) ==> ExcelValue(row, i) == row[i]
  {
  }

  /** One record, built as the source builds it: a loop assigning one key per header. */
  method BuildRecord(headers: seq<Cell>, row: seq<Cell>) returns (obj: Row)
    ensures obj == RecordOf(headers, row)
    ensures UniqueKeys(obj)
    ensures forall k :: k in Keys(obj) <==> KeyedBy(headers, k, |headers|)
    ensures forall i :: 0 <= i < |headers| && LastWithKey(headers, i, |headers|) ==>
              Get(obj, CellText(headers[i])) == ExcelValue(row, i)
  {
    obj := [];
    for i := 0 to |headers|
      invariant obj == RecordPrefix(headers, row, i)
    {
      if headers[i] != Absent {
        obj := Set(obj, CellText(headers[i]), Or(CellAt(row, i), Str("")));
      }
    }
    RecordPrefixUnique(headers, row, |headers|);
    RecordPrefixKeys(headers, row, |headers|);
    RecordPrefixValues(headers, row, |headers|);
  }

  /** The Excel part of `parseExcel`: a header row and at least one data row, one record per data row. */
  function ExcelRecords(jsonData: seq<seq<Cell>>): Result<seq<Row>, UploadError> {
    if |jsonData| < 2 then Err(ExcelTooShort)
    else Ok(seq(|jsonData| - 1, i requires 0 <= i < |jsonData| - 1 => RecordOf(jsonData[0], jsonData[i + 1])))
  }

  method ParseExcel(jsonData: seq<seq<Cell>>) returns (r: Result<seq<Row>, UploadError>)
    ensures r == ExcelRecords(jsonData)
    ensures r.Err? <==> |jsonData| < 2
    ensures r.Err? ==> r.error == ExcelTooShort
    ensures r.Ok? ==> |r.value| == |jsonData| - 1
    ensures r.Ok? ==> forall i :: 0 <= i < |r.value| ==> r.value[i] == RecordOf(jsonData[0], jsonData[i + 1])
  {
    if |jsonData| < 2 {
      return Err(ExcelTooShort);
    }
    var headers := jsonData[0];
    var records: seq<Row> := [];
    for i := 1 to |jsonData|
      invariant |records| == i - 1
      invariant forall j :: 0 <= j < i - 1 ==> records[j] == RecordOf(headers, jsonData[j + 1])
    {
      var obj := BuildRecord(headers, jsonData[i]);
      records := records + [obj];
    }
    assert records == ExcelRecords(jsonData).value;
    r := Ok(records);
  }

  // -------------------------------------------------------------- cleaning

  /** The number a numeric field is cleaned to: `""`, `null` and `undefined` give 0; anything else must parse. */
  function Coerce(c: Cell): Option<real> {
    if c == Str("") || c == Absent then Some(0.0) else ParseFloat(c)
  }

  /** The check of one numeric field of the row being cleaned. */
  function CleanField(row: Row, field: string, index: nat): Result<Row, UploadError> {
    var value := Get(row, field);
    match Coerce(value)
    case None => Err(InvalidNumericValue(index + 1, field, CellText(value)))
    case Some(x) => Ok(Set(row, field, Num(x)))
  }

  /** The checks of `fields`, in order, stopping at the first that fails. */
  function CleanFields(row: Row, fields: seq<string>, index: nat): Result<Row, UploadError> {
    if fields == [] then Ok(row)
    else
      match CleanFields(row, fields[..|fields| - 1], index)
      case Err(e) => Err(e)
      case Ok(r) => CleanField(r, fields[|fields| - 1], index)
  }

  /**
   * A product name passes unless it is falsy or blank once trimmed; a text
   * is blank after trimming exactly when it is all white space
   * (`JsText.TrimEmptyIffAllSpace`).
   */
  predicate NameGiven(c: Cell) {
    Truthy(c) && !AllSpace(CellText(c))
  }

  /** The cleaning of one row: the checks of `fields`, then the name held under `nameKey`. */
  function CleanedRowBy(row: Row, fields: seq<string>, nameKey: string, index: nat): Result<Row, UploadError> {
    match CleanFields(row, fields, index)
    case Err(e) => Err(e)
    case Ok(r) => if NameGiven(Get(r, nameKey)) then Ok(r) else Err(ProductNameRequired(index + 1))
  }

  /** The cleaning of the row at `index`: the six numeric fields, then the product name. */
  function CleanedRow(row: Row, index: nat): Result<Row, UploadError> {
    CleanedRowBy(row, NumericFields, "Product Name", index)
  }

  /** `xs.map(f)` where `f` may throw: the results in order, or the first error. */
  function Collect<T, E>(rs: seq<Result<T, E>>): Result<seq<T>, E> {
    if rs == [] then Ok([])
    else
      match Collect(rs[..|rs| - 1])
      case Err(e) => Err(e)
      case Ok(xs) =>
        match rs[|rs| - 1]
        case Err(e) => Err(e)
        case Ok(x) => Ok(xs + [x])
  }

  /** The cleaning of every row, stopping at the first row that fails. */
  function CleanedData(data: seq<Row>): Result<seq<Row>, UploadError> {
    Collect(seq(|data|, i requires 0 <= i < |data| => CleanedRow(data[i], i)))
  }

  ghost predicate NumbersValid(row: Row, fields: seq<string>) {
    forall f :: f in fields ==> Coerce(Get(row, f)).Some?
  }

  /**
   * `r` is `row` with each of `fields` holding its coerced number and every
   * other key as it was; the old keys keep their order at the front, and
   * the only keys added are among `fields`.
   */
  ghost predicate CleanedFrom(r: Row, row: Row, fields: seq<string>) {
    && (forall f :: f in fields ==> Coerce(Get(row, f)).Some? && Get(r, f) == Num(Coerce(Get(row, f)).value))
    && (forall k :: k !in fields ==> Get(r, k) == Get(row, k))
    && |r| >= |row| && Keys(r)[..|row|] == Keys(row)
    && (forall k :: k in Keys(r) ==> k in Keys(row) || k in fields)
    && (UniqueKeys(row) ==> UniqueKeys(r))
  }

  lemma CleanFieldStep(r: Row, row: Row, init: seq<string>, last: string, index: nat)
    requires CleanedFrom(r, row, init)
    requires last !in init && Coerce(Get(row, last)).Some?
    ensures CleanField(r, last, index).Ok?
    ensures CleanedFrom(CleanField(r, last, index).value, row, init + [last])
  {
    var x := Coerce(Get(row, last)).value;
    var r' := Set(r, last, Num(x));
    SetKeepsKeyOrder(r, last, Num(x));
    SetKeys(r, last, Num(x));
    assert Keys(r')[..|row|] == Keys(r')[..|r|][..|row|];
    if UniqueKeys(row) {
      SetUnique(r, last, Num(x));
    }
  }

  lemma DistinctPrefix(fields: seq<string>, n: nat)
    requires Distinct(fields) && 0 < n <= |fields|
    ensures Distinct(fields[..n - 1]) && fields[n - 1] !in fields[..n - 1]
    ensures fields[..n] == fields[..n - 1] + [fields[n - 1]]
  {
  }

  /** When every one of `fields` holds a number or nothing, all checks pass and set exactly those fields. */
  lemma {:induction false} CleanFieldsOk(row: Row, fields: seq<string>, index: nat)
    requires Distinct(fields) && NumbersValid(row, fields)
    ensures CleanFields(row, fields, index).Ok?
    ensures CleanedFrom(CleanFields(row, fields, index).value, row, fields)
  {
    if fields != [] {
      var n := |fields|;
      DistinctPrefix(fields, n);
      assert fields[..n] == fields;
      CleanFieldsOk(row, fields[..n - 1], index);
      CleanFieldStep(CleanFields(row, fields[..n - 1], index).value, row, fields[..n - 1], fields[n - 1], index);
    } else {
      assert Keys(row)[..|row|] == Keys(row);
    }
  }

  /** The first field of `fields` that holds a non-numeric value is the one reported, with its row and text. */
  lemma {:induction false} CleanFieldsError(row: Row, fields: seq<string>, index: nat, j: nat)
    requires Distinct(fields) && j < |fields|
    requires forall i :: 0 <= i < j ==> Coerce(Get(row, fields[i])).Some?
    requires Coerce(Get(row, fields[j])).None?
    ensures CleanFields(row, fields, index) ==
              Err(InvalidNumericValue(index + 1, fields[j], CellText(Get(row, fields[j]))))
  {
    var n := |fields|;
    DistinctPrefix(fields, n);
    assert fields[..n] == fields;
    if n == j + 1 {
      assert NumbersValid(row, fields[..j]) by {
        forall f | f in fields[..j] ensures Coerce(Get(row, f)).Some? {
          var i :| 0 <= i < j && fields[..j][i] == f;
        }
      }
      CleanFieldsOk(row, fields[..j], index);
    } else {
      assert fields[..n - 1][j] == fields[j];
      CleanFieldsError(row, fields[..n - 1], index, j);
    }
  }

  /** Once a check has failed, the later ones change nothing. */
  lemma {:induction false} CleanFieldsErrorPersists(row: Row, fields: seq<string>, index: nat, m: nat)
    requires m <= |fields| && CleanFields(row, fields[..m], index).Err?
    ensures CleanFields(row, fields, index) == CleanFields(row, fields[..m], index)
  {
    if m < |fields| {
      var n := |fields|;
      assert fields[..n - 1][..m] == fields[..m];
      CleanFieldsErrorPersists(row, fields[..n - 1], index, m);
    } else {
      assert fields[..m] == fields;
    }
  }

  lemma NumericFieldsFacts()
    ensures Distinct(NumericFields)
    ensures "Product Name" !in NumericFields
  {
  }

  /** Some entry is `None`, so there is a first one that is. */
  lemma {:induction false} FirstNone<T>(xs: seq<Option<T>>) returns (j: nat)
    requires exists i :: 0 <= i < |xs| && xs[i].None?
    ensures j < |xs| && xs[j].None?
    ensures forall i :: 0 <= i < j ==> xs[i].Some?
  {
    if xs[0].None? {
      j := 0;
    } else {
      var j' := FirstNone(xs[1..]);
      j := j' + 1;
    }
  }

  lemma CleanedRowValid(row: Row, index: nat)
    requires NumbersValid(row, NumericFields) && NameGiven(Get(row, "Product Name"))
    ensures CleanedRow(row, index).Ok?
    ensures CleanedFrom(CleanedRow(row, index).value, row, NumericFields)
  {
    NumericFieldsFacts();
    CleanedRowByValid(row, NumericFields, "Product Name", index);
  }

  lemma CleanedRowByValid(row: Row, fields: seq<string>, nameKey: string, index: nat)
    requires Distinct(fields) && nameKey !in fields
    requires NumbersValid(row, fields) && NameGiven(Get(row, nameKey))
    ensures CleanedRowBy(row, fields, nameKey, index).Ok?
    ensures CleanedFrom(CleanedRowBy(row, fields, nameKey, index).value, row, fields)
  {
    CleanFieldsOk(row, fields, index);
  }

  lemma CleanedRowByNameError(row: Row, fields: seq<string>, nameKey: string, index: nat)
    requires Distinct(fields) && nameKey !in fields
    requires NumbersValid(row, fields) && !NameGiven(Get(row, nameKey))
    ensures CleanedRowBy(row, fields, nameKey, index) == Err(ProductNameRequired(index + 1))
  {
    CleanFieldsOk(row, fields, index);
  }

  /** Some field holds a non-numeric value, so the checks fail. */
  lemma CleanFieldsInvalid(row: Row, fields: seq<string>, index: nat)
    requires Distinct(fields) && !NumbersValid(row, fields)
    ensures CleanFields(row, fields, index).Err?
  {
    var coerced := seq(|fields|, i requires 0 <= i < |fields| => Coerce(Get(row, fields[i])));
    var f :| f in fields && Coerce(Get(row, f)).None?;
    var k :| 0 <= k < |fields| && fields[k] == f;
    assert coerced[k].None?;
    var j := FirstNone(coerced);
    assert forall i :: 0 <= i < j ==> coerced[i] == Coerce(Get(row, fields[i]));
    CleanFieldsError(row, fields, index, j);
  }

  lemma CleanedRowInvalid(row: Row, index: nat)
    requires !NumbersValid(row, NumericFields)
    ensures CleanedRow(row, index).Err?
  {
    NumericFieldsFacts();
    CleanFieldsInvalid(row, NumericFields, index);
  }

  /**
   * A row cleans exactly when each numeric field holds a number or nothing
   * and the product name is given; the cleaned row then holds the six
   * numbers and leaves every other key as it was.
   */
  lemma CleanedRowOk(row: Row, index: nat)
    ensures CleanedRow(row, index).Ok? <==>
              NumbersValid(row, NumericFields) && NameGiven(Get(row, "Product Name"))
    ensures CleanedRow(row, index).Ok? ==> CleanedFrom(CleanedRow(row, index).value, row, NumericFields)
  {
    if !NumbersValid(row, NumericFields) {
      CleanedRowInvalid(row, index);
    } else if NameGiven(Get(row, "Product Name")) {
      CleanedRowValid(row, index);
    } else {
      CleanedRowNameError(row, index);
    }
  }

  /** The numeric checks of a row run before its name check: the first bad field is what is reported. */
  lemma CleanedRowNumberError(row: Row, index: nat, j: nat)
    requires j < |NumericFields|
    requires forall i :: 0 <= i < j ==> Coerce(Get(row, NumericFields[i])).Some?
    requires Coerce(Get(row, NumericFields[j])).None?
    ensures CleanedRow(row, index) ==
              Err(InvalidNumericValue(index + 1, NumericFields[j], CellText(Get(row, NumericFields[j]))))
  {
    NumericFieldsFacts();
    CleanFieldsError(row, NumericFields, index, j);
  }

  /** A row whose numbers pass but whose product name is missing or blank is reported by its 1-based number. */
  lemma CleanedRowNameError(row: Row, index: nat)
    requires NumbersValid(row, NumericFields) && !NameGiven(Get(row, "Product Name"))
    ensures CleanedRow(row, index) == Err(ProductNameRequired(index + 1))
  {
    NumericFieldsFacts();
    CleanedRowByNameError(row, NumericFields, "Product Name", index);
  }

  /**
   * A `sales` header passes the column check, but cleaning reads the exact
   * key `Sales`: it is absent, so the cleaned row gets a new `Sales` of 0
   * and keeps the text under `sales`.
   */
  lemma ExactKeyQuirk(row: Row, index: nat)
    requires "Sales" !in Keys(row)
    requires CleanedRow(row, index).Ok?
    ensures Get(CleanedRow(row, index).value, "Sales") == Num(0.0)
    ensures Get(CleanedRow(row, index).value, "sales") == Get(row, "sales")
  {
    NumericFieldsFacts();
    assert "Sales" in NumericFields && "sales" !in NumericFields;
    MissingFieldBecomesZero(row, NumericFields, "Product Name", index, "Sales", "sales");
  }

  /** A cleaned field the row lacks becomes 0; a key outside the fields is untouched. */
  lemma MissingFieldBecomesZero(row: Row, fields: seq<string>, nameKey: string, index: nat,
                                missing: string, other: string)
    requires Distinct(fields) && nameKey !in fields
    requires missing in fields && missing !in Keys(row) && other !in fields
    requires CleanedRowBy(row, fields, nameKey, index).Ok?
    ensures Get(CleanedRowBy(row, fields, nameKey, index).value, missing) == Num(0.0)
    ensures Get(CleanedRowBy(row, fields, nameKey, index).value, other) == Get(row, other)
  {
    if !NumbersValid(row, fields) {
      CleanFieldsInvalid(row, fields, index);
    }
    CleanFieldsOk(row, fields, index);
    GetMissing(row, missing);
  }

  lemma {:induction false} CollectOk<T, E>(rs: seq<Result<T, E>>)
    ensures Collect(rs).Ok? <==> forall i :: 0 <= i < |rs| ==> rs[i].Ok?
    ensures Collect(rs).Ok? ==>
              |Collect(rs).value| == |rs| && forall i :: 0 <= i < |rs| ==> rs[i] == Ok(Collect(rs).value[i])
  {
    if rs != [] {
      CollectOk(rs[..|rs| - 1]);
    }
  }

  lemma {:induction false} CollectError<T, E>(rs: seq<Result<T, E>>, i: nat)
    requires i < |rs| && rs[i].Err?
    requires forall j :: 0 <= j < i ==> rs[j].Ok?
    ensures Collect(rs) == Err(rs[i].error)
  {
    var n := |rs|;
    if n == i + 1 {
      CollectOk(rs[..i]);
    } else {
      assert rs[..n - 1][i] == rs[i];
      CollectError(rs[..n - 1], i);
    }
  }

  lemma {:induction false} CollectErrorPersists<T, E>(rs: seq<Result<T, E>>, m: nat)
    requires m <= |rs| && Collect(rs[..m]).Err?
    ensures Collect(rs) == Collect(rs[..m])
  {
    var n := |rs|;
    if m < n {
      assert rs[..n - 1][..m] == rs[..m];
      CollectErrorPersists(rs[..n - 1], m);
    } else {
      assert rs[..m] == rs;
    }
  }

  /**
   * Cleaning succeeds exactly when every row cleans; it then gives one
   * cleaned row per input row, in the same order.
   */
  lemma CleanedDataOk(data: seq<Row>)
    ensures CleanedData(data).Ok? <==> forall i :: 0 <= i < |data| ==> CleanedRow(data[i], i).Ok?
    ensures CleanedData(data).Ok? ==>
              |CleanedData(data).value| == |data| &&
              forall i :: 0 <= i < |data| ==> CleanedRow(data[i], i) == Ok(CleanedData(data).value[i])
  {
    var rs := seq(|data|, i requires 0 <= i < |data| => CleanedRow(data[i], i));
    assert forall i :: 0 <= i < |data| ==> rs[i] == CleanedRow(data[i], i);
    CollectOk(rs);
  }

  /** The first row that fails ends the cleaning, with that row's error. */
  lemma CleanedDataFirstError(data: seq<Row>, i: nat)
    requires i < |data|
    requires forall j :: 0 <= j < i ==> CleanedRow(data[j], j).Ok?
    requires CleanedRow(data[i], i).Err?
    ensures CleanedData(data) == Err(CleanedRow(data[i], i).error)
  {
    var rs := seq(|data|, i requires 0 <= i < |data| => CleanedRow(data[i], i));
    CollectError(rs, i);
  }

  /** The `numericFields.forEach` loop: overwrite each field of a copy of the row, or stop at the first bad one. */
  method CleanFieldsLoop(row: Row, fields: seq<string>, index: nat) returns (r: Result<Row, UploadError>)
    ensures r == CleanFields(row, fields, index)
  {
    var cleanedRow := row;
    for j := 0 to |fields|
      invariant CleanFields(row, fields[..j], index) == Ok(cleanedRow)
    {
      var field := fields[j];
      var value := Get(cleanedRow, field);
      assert fields[..j + 1][..j] == fields[..j];
      if value != Str("") && value != Absent {
        var numValue := ParseFloat(value);
        if numValue.None? {
          CleanFieldsErrorPersists(row, fields, index, j + 1);
          return Err(InvalidNumericValue(index + 1, field, CellText(value)));
        }
        cleanedRow := Set(cleanedRow, field, Num(numValue.value));
      } else {
        cleanedRow := Set(cleanedRow, field, Num(0.0));
      }
    }
    assert fields[..|fields|] == fields;
    r := Ok(cleanedRow);
  }

  /** Cleaning one row as the source does: the field loop, then the product-name check. */
  method CleanRow(row: Row, index: nat) returns (r: Result<Row, UploadError>)
    ensures r == CleanedRow(row, index)
  {
    var fields := CleanFieldsLoop(row, NumericFields, index);
    if fields.Err? {
      return Err(fields.error);
    }
    var cleanedRow := fields.value;
    var name := Get(cleanedRow, "Product Name");
    TrimEmptyIffAllSpace(CellText(name));
    if !Truthy(name) || Trim(CellText(name)) == "" {
      return Err(ProductNameRequired(index + 1));
    }
    r := Ok(cleanedRow);
  }

  /** `data.map(...)` over the rows, ending at the first row that throws. */
  method CleanData(data: seq<Row>) returns (r: Result<seq<Row>, UploadError>)
    ensures r == CleanedData(data)
    ensures r.Ok? <==> forall i :: 0 <= i < |data| ==> CleanedRow(data[i], i).Ok?
    ensures r.Ok? ==> |r.value| == |data|
    ensures r.Ok? ==> forall i :: 0 <= i < |data| ==> CleanedFrom(r.value[i], data[i], NumericFields)
  {
    ghost var rs := seq(|data|, i requires 0 <= i < |data| => CleanedRow(data[i], i));
    var cleaned: seq<Row> := [];
    for i := 0 to |data|
      invariant Collect(rs[..i]) == Ok(cleaned)
    {
      var row := CleanRow(data[i], i);
      assert rs[..i + 1][..i] == rs[..i];
      if row.Err? {
        CollectErrorPersists(rs, i + 1);
        CleanedDataOk(data);
        return Err(row.error);
      }
      cleaned := cleaned + [row.value];
    }
    assert rs[..|data|] == rs;
    r := Ok(cleaned);
    CleanedDataOk(data);
    forall i | 0 <= i < |data| ensures CleanedFrom(r.value[i], data[i], NumericFields) {
      CleanedRowOk(data[i], i);
    }
  }

  // ------------------------------------------------------------- ingestion

  /** What the CSV library reports: the rows read with the header line as keys and its row errors, or a failure. */
  datatype CsvOutcome = CsvComplete(data: seq<Row>, errors: seq<string>) | CsvFailure(message: string)

  /** What reading a workbook gives: its first sheet as arrays of cells, an error thrown while decoding it, or a failed read. */
  datatype SheetOutcome = SheetRows(rows: seq<seq<Cell>>) | SheetThrew(message: string) | ReadFailure

  /** A dropped file: its name and what each of the two parsing libraries makes of its content. */
  datatype SourceFile = SourceFile(name: string, asCsv: CsvOutcome, asSheet: SheetOutcome)

  /** `parseCSV`: the first reported row error, or the library's own failure, rejects. */
  function ParsedCsv(o: CsvOutcome): Result<seq<Row>, UploadError> {
    match o
    case CsvFailure(m) => Err(CsvParseFailed(m))
    case CsvComplete(data, errors) => if errors != [] then Err(CsvParseFailed(errors[0])) else Ok(data)
  }

  /** `parseExcel` */
  function ParsedSheet(o: SheetOutcome): Result<seq<Row>, UploadError> {
    match o
    case ReadFailure => Err(ExcelReadFailed)
    case SheetThrew(m) => Err(ExcelParseFailed(m))
    case SheetRows(rows) => ExcelRecords(rows)
  }

  /** The parser the file's extension selects, or the unsupported-format error. */
  function Parsed(file: SourceFile): Result<seq<Row>, UploadError> {
    match FormatOf(file.name)
    case Csv => ParsedCsv(file.asCsv)
    case Excel => ParsedSheet(file.asSheet)
    case Unsupported => Err(UnsupportedFormat)
  }

  /** The checks after parsing: some data, the required columns in the first row's keys, every row cleaned. */
  function Checked(data: seq<Row>): Result<seq<Row>, UploadError> {
    if |data| == 0 then Err(EmptyFile)
    else if ValidateColumns(Keys(data[0])) != [] then Err(MissingColumns(ValidateColumns(Keys(data[0]))))
    else CleanedData(data)
  }

  /** The whole `try` block of `processFile`: the cleaned data, or the error it throws. */
  function Ingested(file: SourceFile): Result<seq<Row>, UploadError> {
    match Parsed(file)
    case Err(e) => Err(e)
    case Ok(data) => Checked(data)
  }

  /**
   * A file is accepted exactly when its parser succeeds with at least one
   * row, the first row's keys cover every required column and every row
   * cleans; the accepted data then has one cleaned row per parsed row,
   * each with a product name.
   */
  lemma IngestedOk(file: SourceFile)
    ensures Ingested(file).Ok? <==>
              && Parsed(file).Ok?
              && |Parsed(file).value| > 0
              && (forall c :: c in RequiredColumns ==> HasHeader(Keys(Parsed(file).value[0]), c))
              && (forall i :: 0 <= i < |Parsed(file).value| ==> CleanedRow(Parsed(file).value[i], i).Ok?)
    ensures Ingested(file).Ok? ==>
              && |Ingested(file).value| == |Parsed(file).value| > 0
              && forall i :: 0 <= i < |Parsed(file).value| ==>
                   && CleanedFrom(Ingested(file).value[i], Parsed(file).value[i], NumericFields)
                   && NameGiven(Get(Ingested(file).value[i], "Product Name"))
  {
    if Parsed(file).Ok? && |Parsed(file).value| > 0 {
      var data := Parsed(file).value;
      ValidateColumnsEmpty(Keys(data[0]));
      CleanedDataOk(data);
      if Ingested(file).Ok? {
        forall i | 0 <= i < |data|
          ensures CleanedFrom(Ingested(file).value[i], data[i], NumericFields)
          ensures NameGiven(Get(Ingested(file).value[i], "Product Name"))
        {
          CleanedRowOk(data[i], i);
          NumericFieldsFacts();
        }
      }
    }
  }

  /** The missing columns are reported before any row is cleaned, all of them and in declaration order. */
  lemma IngestedMissingColumns(file: SourceFile)
    requires Parsed(file).Ok? && |Parsed(file).value| > 0
    requires exists c :: c in RequiredColumns && !HasHeader(Keys(Parsed(file).value[0]), c)
    ensures Ingested(file).Err? && Ingested(file).error.MissingColumns?
    ensures forall c :: c in Ingested(file).error.columns <==>
                         c in RequiredColumns && !HasHeader(Keys(Parsed(file).value[0]), c)
    ensures IsSubsequence(Ingested(file).error.columns, RequiredColumns)
  {
    var headers := Keys(Parsed(file).value[0]);
    ValidateColumnsEmpty(headers);
    forall c ensures c in ValidateColumns(headers) <==> c in RequiredColumns && !HasHeader(headers, c) {
      MissingOfMembers(RequiredColumns, headers, c);
    }
    MissingOfOrder(RequiredColumns, headers);
  }

  /**
   * A workbook that parses yields a record per data row and has at least
   * one, so the empty-file check only ever fires for CSV files.
   */
  lemma ExcelNeverEmpty(file: SourceFile)
    requires FormatOf(file.name) == Excel && Parsed(file).Ok?
    ensures |Parsed(file).value| == |file.asSheet.rows| - 1 > 0
  {
  }

  /** Accepted data is never empty. */
  lemma IngestedNonEmpty(file: SourceFile)
    requires Ingested(file).Ok?
    ensures |Ingested(file).value| > 0
  {
    IngestedOk(file);
  }

  /** A parse that yields no rows is refused as an empty file, with the message the upload shows. */
  lemma IngestedEmpty(file: SourceFile)
    requires Parsed(file) == Ok([])
    ensures Ingested(file) == Err(EmptyFile)
    ensures Message(EmptyFile) == "File is empty or contains no valid data"
  {
  }

  /** The dispatch on the lower-cased file name and the chosen parser. */
  method ParseFile(file: SourceFile) returns (r: Result<seq<Row>, UploadError>)
    ensures r == Parsed(file)
  {
    match FormatOf(file.name) {
      case Csv =>
        match file.asCsv {
          case CsvFailure(m) =>
            r := Err(CsvParseFailed(m));
          case CsvComplete(rows, errors) =>
            if |errors| > 0 {
              r := Err(CsvParseFailed(errors[0]));
            } else {
              r := Ok(rows);
            }
        }
      case Excel =>
        match file.asSheet {
          case ReadFailure =>
            r := Err(ExcelReadFailed);
          case SheetThrew(m) =>
            r := Err(ExcelParseFailed(m));
          case SheetRows(rows) =>
            r := ParseExcel(rows);
        }
      case Unsupported =>
        r := Err(UnsupportedFormat);
    }
  }

  /** The emptiness check, the column check and the cleaning, in that order. */
  method CheckData(data: seq<Row>) returns (r: Result<seq<Row>, UploadError>)
    ensures r == Checked(data)
  {
    if |data| == 0 {
      return Err(EmptyFile);
    }
    var headers := Keys(data[0]);
    var missingColumns := ValidateColumns(headers);
    if |missingColumns| > 0 {
      return Err(MissingColumns(missingColumns));
    }
    r := CleanData(data);
  }

  /** The `try` block of `processFile`, step by step. */
  method IngestFile(file: SourceFile) returns (r: Result<seq<Row>, UploadError>)
    ensures r == Ingested(file)
    ensures r.Ok? ==> |r.value| > 0
  {
    var data := ParseFile(file);
    if data.Err? {
      return Err(data.error);
    }
    r := CheckData(data.value);
    if r.Ok? {
      IngestedNonEmpty(file);
    }
  }

  // ------------------------------------------------------------ the component

  datatype UploadStatus = Idle | Uploading | Success | Error

  /** The four pieces of component state `processFile` sets. */
  class FileUploadState {
    var uploadStatus: UploadStatus
    var error: string
    var parsedData: Option<seq<Row>>
    var fileName: string

    /** What the status says: no message while uploading or after success, a message after an error, data after success. */
    ghost predicate Valid()
      reads this
    {
      && (uploadStatus == Idle ==> error == "" && parsedData == None && fileName == "")
      && (uploadStatus == Uploading ==> error == "")
      && (uploadStatus == Success ==> error == "" && parsedData.Some? && |parsedData.value| > 0)
      && (uploadStatus == Error ==> error != "")
    }

    constructor()
      ensures uploadStatus == Idle && error == "" && parsedData == None && fileName == ""
      ensures Valid()
    {
      uploadStatus := Idle;
      error := "";
      parsedData := None;
      fileName := "";
    }

    /** The first three statements of `processFile`. */
    method BeginUpload(name: string)
      modifies this
      ensures uploadStatus == Uploading && error == "" && fileName == name
      ensures parsedData == old(parsedData)
      ensures Valid()
    {
      uploadStatus := Uploading;
      error := "";
      fileName := name;
    }

    /** The end of `processFile`: store the data and succeed, or store the message and fail; earlier data stays on failure. */
    method FinishUpload(outcome: Result<seq<Row>, UploadError>)
      requires uploadStatus == Uploading && error == ""
      requires outcome.Ok? ==> |outcome.value| > 0
      modifies this
      ensures outcome.Ok? ==> uploadStatus == Success && parsedData == Some(outcome.value) && error == ""
      ensures outcome.Err? ==>
                uploadStatus == Error && error == Message(outcome.error) && parsedData == old(parsedData)
      ensures fileName == old(fileName)
      ensures Valid()
    {
      match outcome
      case Ok(cleanedData) =>
        parsedData := Some(cleanedData);
        uploadStatus := Success;
      case Err(e) =>
        error := Message(e);
        uploadStatus := Error;
    }

    /** `processFile(file)` */
    method ProcessFile(file: SourceFile)
      modifies this
      ensures fileName == file.name
      ensures Ingested(file).Ok? ==>
                uploadStatus == Success && parsedData == Some(Ingested(file).value) && error == ""
      ensures Ingested(file).Err? ==>
                uploadStatus == Error && error == Message(Ingested(file).error) && parsedData == old(parsedData)
      ensures Valid()
    {
      BeginUpload(file.name);
      var outcome := IngestFile(file);
      FinishUpload(outcome);
    }

    /** The drop handler: only the first accepted file is processed, and an empty drop changes nothing. */
    method OnDrop(acceptedFiles: seq<SourceFile>)
      requires Valid()
      modifies this
      ensures acceptedFiles == [] ==> unchanged(this)
      ensures acceptedFiles != [] ==>
                var file := acceptedFiles[0];
                && fileName == file.name
                && (Ingested(file).Ok? ==>
                      uploadStatus == Success && parsedData == Some(Ingested(file).value) && error == "")
                && (Ingested(file).Err? ==>
                      uploadStatus == Error && error == Message(Ingested(file).error) && parsedData == old(parsedData))
      ensures Valid()
    {
      if |acceptedFiles| > 0 {
        ProcessFile(acceptedFiles[0]);
      }
    }
  }
}
