/** `DataService` (ml-server/data_service.py): dataset upload with per-column
    statistics, the analysis operations, dataset metadata and column values,
    and dataset deletion. Files live in the `datasets` directory of a `Disk`.
    File parsing is done by the two readers passed in (pandas' `read_csv`
    and `read_excel`). A dataset file holds the table that was written; the
    operations that read it back see it through `CsvRoundTrip`, which drops
    category and datetime dtypes, reads missing markers as nulls, and fails
    on a table without columns. */
module DataService {
  import opened Common
  import opened Tables
  import opened Stats
  import opened Models
  import opened Artifacts

  type Bytes = seq<bv8>

  /** A file reader: the table it parses, or the exception it raises. */
  type Reader = Bytes -> Result<Table, Exception>

  // ---- Column statistics ----

  /** The figures of a numeric column that has at least one value. */
  function SummaryOf(xs: seq<real>): (s: NumericSummary)
    requires |xs| > 0
    ensures s.min in xs && s.max in xs
    ensures forall i :: 0 <= i < |xs| ==> s.min <= xs[i] <= s.max
    ensures s.min <= s.q25 <= s.q50 <= s.q75 <= s.max
    ensures s.min <= s.mean <= s.max
  {
    SortedEnds(xs);
    var sorted := Sort(xs);
    QuantileMonotone(sorted, 1, 2);
    QuantileMonotone(sorted, 2, 3);
    NumericSummary(Mean(xs), sorted[0], Quantile(sorted, 1), Quantile(sorted, 2), Quantile(sorted, 3),
                   sorted[|xs| - 1])
  }

  /** One entry of `column_stats`: numeric columns get the summary figures
      (absent when the column is entirely null), object and category columns
      their distinct values and five most frequent values, other columns
      only their counts. */
  function ColumnStatsOf(c: Column, rows: nat): (s: ColumnStats)
    requires FitsRows(c, rows)
    ensures s.dtype == c.dtype && s.count == CountPresent(c.cells) && s.missing == CountMissing(c.cells)
    ensures s.count + s.missing == rows
    ensures s.NumericStats? <==> c.dtype == NumberType
    ensures s.CategoricalStats? <==> c.dtype == ObjectType || c.dtype == CategoryType
    ensures s.NumericStats? ==> (s.summary.None? <==> forall k :: 0 <= k < |c.cells| ==> c.cells[k] == Null)
    ensures s.NumericStats? && s.summary.Some? ==>
              forall k :: 0 <= k < |c.cells| && c.cells[k] != Null ==>
                s.summary.value.min <= c.cells[k].v.x <= s.summary.value.max
    ensures s.CategoricalStats? ==>
              && s.unique == |Unique(Present(c.cells))|
              && s.topValues == TopCounts(Present(c.cells), 5)
              && |s.topValues| == Min(5, s.unique)
              && (s.top.None? <==> s.count == 0)
              && (s.freq.None? <==> s.count == 0)
    ensures s.CategoricalStats? && s.top.Some? ==>
              && Val(s.top.value) in c.cells
              && s.freq == Some(multiset(Present(c.cells))[s.top.value])
              && forall v :: Val(v) in c.cells ==> multiset(Present(c.cells))[v] <= s.freq.value
  {
    CountsCoverRows(c.cells);
    match c.dtype
    case NumberType =>
      NumbersOfNumericColumn(c, rows);
      var summary := if CountPresent(c.cells) == 0 then None else Some(SummaryOf(Numbers(c.cells)));
      NumericBounds(c, rows, summary);
      NumericStats(c.dtype, CountPresent(c.cells), summary, CountMissing(c.cells))
    case DatetimeType =>
      PlainStats(c.dtype, CountPresent(c.cells), CountMissing(c.cells))
    case _ =>
      var vs := Present(c.cells);
      var mode := Mode(vs);
      CategoricalStats(c.dtype, |vs|, |Unique(vs)|,
                       if mode.Some? then Some(mode.value.0) else None,
                       if mode.Some? then Some(mode.value.1) else None,
                       TopCounts(vs, 5), CountMissing(c.cells))
  }

  /** Every number of a numeric column lies between the summary's ends. */
  lemma NumericBounds(c: Column, rows: nat, summary: Option<NumericSummary>)
    requires FitsRows(c, rows) && c.dtype == NumberType
    requires summary.Some? ==> |Numbers(c.cells)| > 0 && summary.value == SummaryOf(Numbers(c.cells))
    ensures summary.Some? ==>
              forall k :: 0 <= k < |c.cells| && c.cells[k] != Null ==>
                summary.value.min <= c.cells[k].v.x <= summary.value.max
  {
    if summary.Some? {
      var xs := Numbers(c.cells);
      NumbersMembers(c.cells);
      forall k | 0 <= k < |c.cells| && c.cells[k] != Null
        ensures summary.value.min <= c.cells[k].v.x <= summary.value.max
      {
        assert Val(Num(c.cells[k].v.x)) in c.cells;
        var i :| 0 <= i < |xs| && xs[i] == c.cells[k].v.x;
      }
    }
  }

  /** The most frequent value and its count (`value_counts().iloc[0]`). On a
      tie pandas' `mode()[0]` takes the smallest tied value; here it is one
      of the tied values. */
  function Mode(vs: seq<Value>): (r: Option<(Value, nat)>)
    ensures r.None? <==> |vs| == 0
    ensures r.Some? ==> r.value.0 in vs && r.value.1 == multiset(vs)[r.value.0]
    ensures r.Some? ==> forall v :: v in vs ==> multiset(vs)[v] <= r.value.1
  {
    if |vs| == 0 then None
    else
      assert vs[0] in Unique(vs);
      var top := TopCounts(vs, 1);
      assert Keys(top)[0] == top[0].0;
      Some(top[0])
  }

  /** `column_stats` of a frame: one entry per column name; a later column of
      the same name overwrites an earlier one. */
  function StatsOf(cols: seq<Column>, rows: nat): (m: map<string, ColumnStats>)
    requires forall i :: 0 <= i < |cols| ==> FitsRows(cols[i], rows)
    ensures forall n :: n in m <==> n in Names(cols)
    ensures forall n :: n in m ==> m[n].count + m[n].missing == rows
  {
    if |cols| == 0 then map[]
    else
      var init := cols[..|cols| - 1];
      var last := cols[|cols| - 1];
      var m := StatsOf(init, rows);
      InitNames(cols);
      m[last.name := ColumnStatsOf(last, rows)]
  }

  /** With distinct column names, each column's entry is its own statistics. */
  lemma {:induction false} StatsOfColumn(cols: seq<Column>, rows: nat, i: nat)
    requires forall k :: 0 <= k < |cols| ==> FitsRows(cols[k], rows)
    requires Distinct(Names(cols)) && i < |cols|
    ensures cols[i].name in StatsOf(cols, rows)
    ensures StatsOf(cols, rows)[cols[i].name] == ColumnStatsOf(cols[i], rows)
  {
    var init := cols[..|cols| - 1];
    InitNames(cols);
    if i < |cols| - 1 {
      assert init[i] == cols[i];
      assert Names(cols)[i] != Names(cols)[|cols| - 1];
      StatsOfColumn(init, rows, i);
    }
  }

  /** The names of all columns but the last, and distinctness passing to them. */
  lemma InitNames(cols: seq<Column>)
    requires |cols| > 0
    ensures Names(cols) == Names(cols[..|cols| - 1]) + [cols[|cols| - 1].name]
    ensures forall i :: 0 <= i < |cols| - 1 ==> cols[..|cols| - 1][i] == cols[i]
    ensures Distinct(Names(cols)) ==> Distinct(Names(cols[..|cols| - 1]))
    ensures Distinct(Names(cols)) ==> cols[|cols| - 1].name !in Names(cols[..|cols| - 1])
  {
  }

  // ---- Upload ----

  /** The reader the file name selects: `.csv` first, then `.xls`/`.xlsx`. */
  function ReadUpload(filename: string, content: Bytes, readCsv: Reader, readExcel: Reader): (r: Result<Table, Exception>)
    ensures EndsWith(filename, ".csv") ==> r == readCsv(content)
    ensures !EndsWith(filename, ".csv") && (EndsWith(filename, ".xls") || EndsWith(filename, ".xlsx")) ==> r == readExcel(content)
    ensures !EndsWith(filename, ".csv") && !EndsWith(filename, ".xls") && !EndsWith(filename, ".xlsx") ==>
              r == Err(ValueError("Unsupported file format: " + filename))
  {
    if EndsWith(filename, ".csv") then readCsv(content)
    else if EndsWith(filename, ".xls") || EndsWith(filename, ".xlsx") then readExcel(content)
    else Err(ValueError("Unsupported file format: " + filename))
  }

  /** The files an upload leaves behind, and its response or exception. */
  datatype UploadOutcome = UploadOutcome(disk: Disk, response: Result<DatasetUploadResponse, Exception>)

  /** `process_uploaded_dataset`: parse, store the table and its metadata
      under `<tenant>_<id>`, answer with the shape, a five-row preview and
      the statistics. The tenant is rendered into the file names as is; a
      missing tenant fails the response's validation after both files are
      written. */
  function Upload(disk: Disk, tenant: Option<string>, filename: string, content: Bytes,
                  readCsv: Reader, readExcel: Reader, datasetId: string, uploadTime: string): (o: UploadOutcome)
    ensures o.disk.models == disk.models
    ensures ReadUpload(filename, content, readCsv, readExcel).Err? ==>
              o == UploadOutcome(disk, Err(ReadUpload(filename, content, readCsv, readExcel).error))
    ensures ReadUpload(filename, content, readCsv, readExcel).Ok? ==>
              var t := ReadUpload(filename, content, readCsv, readExcel).value;
              var dataName := DataFileName(Render(tenant), datasetId);
              var metaName := MetadataName(Render(tenant), datasetId);
              && dataName in o.disk.datasets && o.disk.datasets[dataName] == DataFile(t)
              && metaName in o.disk.datasets && o.disk.datasets[metaName].DatasetMetaFile?
              && var meta := o.disk.datasets[metaName].dataset;
                 && meta.datasetId == datasetId && meta.tenantId == tenant && meta.filename == filename
                 && meta.rows == t.rows && meta.columns == |t.columns| && meta.columnNames == Names(t.columns)
                 && meta.columnStats == StatsOf(t.columns, t.rows)
                 && (forall n :: n != dataName && n != metaName ==>
                       (n in o.disk.datasets <==> n in disk.datasets)
                       && (n in disk.datasets ==> o.disk.datasets[n] == disk.datasets[n]))
                 && (o.response.Ok? <==> tenant.Some?)
                 && (tenant.None? ==> o.response == Err(Invalid("tenant_id")))
                 && (o.response.Ok? ==>
                       && o.response.value.tenantId == tenant.value
                       && o.response.value.datasetId == datasetId
                       && o.response.value.rows == meta.rows
                       && o.response.value.columns == meta.columns
                       && o.response.value.columnStats == meta.columnStats
                       && o.response.value.preview == Head(t, 5))
  {
    match ReadUpload(filename, content, readCsv, readExcel)
    case Err(e) => UploadOutcome(disk, Err(e))
    case Ok(t) =>
      var owner := Render(tenant);
      var stats := StatsOf(t.columns, t.rows);
      var meta := DatasetMetadata(datasetId, tenant, filename, uploadTime, t.rows, |t.columns|, Names(t.columns), stats);
      var datasets := disk.datasets[DataFileName(owner, datasetId) := DataFile(t)]
                                   [MetadataName(owner, datasetId) := DatasetMetaFile(meta)];
      var response :=
        if tenant.Some? then Ok(DatasetUploadResponse(datasetId, tenant.value, filename, t.rows, |t.columns|, Head(t, 5), stats))
        else Err(Invalid("tenant_id"));
      UploadOutcome(disk.(datasets := datasets), response)
  }

  // ---- Analysis ----

  /** The numerics the analysis takes from pandas as they are: memory
      footprint, pairwise Pearson correlation (rounded, NaN as 0), skewness
      and kurtosis. */
  datatype Numerics = Numerics(
    memoryUsage: Table -> nat,
    correlation: (Table, string, string) -> real,
    skewness: seq<real> -> real,
    kurtosis: seq<real> -> real)

  function NumericNames(cols: seq<Column>): (r: seq<string>)
    ensures forall n :: n in r <==> exists i :: 0 <= i < |cols| && cols[i].dtype == NumberType && cols[i].name == n
  {
    if |cols| == 0 then []
    else
      InitNames(cols);
      NumericNames(cols[..|cols| - 1]) + (if cols[|cols| - 1].dtype == NumberType then [cols[|cols| - 1].name] else [])
  }

  /** The number of columns of one dtype class (`select_dtypes`). */
  function CountOfType(cols: seq<Column>, p: DType -> bool): (n: nat)
    ensures n <= |cols|
    ensures n == 0 <==> forall i :: 0 <= i < |cols| ==> !p(cols[i].dtype)
  {
    if |cols| == 0 then 0
    else
      InitNames(cols);
      CountOfType(cols[..|cols| - 1], p) + (if p(cols[|cols| - 1].dtype) then 1 else 0)
  }

  lemma {:induction false} CountsPartition(cols: seq<Column>)
    ensures CountOfType(cols, d => d == NumberType) + CountOfType(cols, d => d == ObjectType || d == CategoryType)
            + CountOfType(cols, d => d == DatetimeType) == |cols|
  {
    if |cols| > 0 {
      CountsPartition(cols[..|cols| - 1]);
    }
  }

  /** `df.isnull().sum().sum()` */
  function TotalMissing(cols: seq<Column>): (n: nat)
    ensures n == 0 <==> forall i, k :: 0 <= i < |cols| && 0 <= k < |cols[i].cells| ==> cols[i].cells[k] != Null
  {
    if |cols| == 0 then 0
    else
      var last := cols[|cols| - 1];
      CountsCoverRows(last.cells);
      NoneMissing(last.cells);
      InitNames(cols);
      TotalMissing(cols[..|cols| - 1]) + CountMissing(last.cells)
  }

  lemma NoneMissing(cells: seq<Cell>)
    ensures CountMissing(cells) == 0 <==> forall k :: 0 <= k < |cells| ==> cells[k] != Null
  {
    if CountMissing(cells) == 0 {
      forall k | 0 <= k < |cells| ensures cells[k] != Null {
        assert cells[k] in multiset(cells);
      }
    }
  }

  /** Rows among the first `n` that repeat an earlier row (`duplicated()`),
      missing cells comparing equal. */
  function Duplicates(t: Table, n: nat): (d: nat)
    requires n <= t.rows
    ensures d <= n && (n > 0 ==> d < n)
    ensures d == 0 <==> forall i, j :: 0 <= j < i < n ==> Row(t, j) != Row(t, i)
  {
    if n == 0 then 0
    else
      var repeats := exists j :: 0 <= j < n - 1 && Row(t, j) == Row(t, n - 1);
      Duplicates(t, n - 1) + (if repeats && n > 1 then 1 else 0)
  }

  /** The `summary` section. */
  function SummaryOfTable(t: Table, numerics: Numerics): (s: Summary)
    ensures s.rows == t.rows && s.columns == |t.columns|
    ensures s.numericColumns + s.categoricalColumns + s.datetimeColumns == s.columns
    ensures s.missingValues == 0 <==> forall i, k :: 0 <= i < |t.columns| && 0 <= k < |t.columns[i].cells| ==> t.columns[i].cells[k] != Null
    ensures s.duplicateRows == 0 <==> forall i, j :: 0 <= j < i < t.rows ==> Row(t, j) != Row(t, i)
    ensures t.rows > 0 ==> s.duplicateRows < t.rows
  {
    CountsPartition(t.columns);
    Summary(t.rows, |t.columns|, TotalMissing(t.columns), Duplicates(t, t.rows),
            CountOfType(t.columns, d => d == NumberType),
            CountOfType(t.columns, d => d == ObjectType || d == CategoryType),
            CountOfType(t.columns, d => d == DatetimeType),
            numerics.memoryUsage(t))
  }

  /** The `correlation` section: a matrix over the numeric columns, or empty
      when the numeric part of the frame is empty (no numeric column, or no
      row). */
  function CorrelationOf(t: Table, numerics: Numerics): (m: map<string, map<string, real>>)
    ensures t.rows == 0 ==> m == map[]
    ensures t.rows > 0 ==> forall a :: a in m <==> a in NumericNames(t.columns)
    ensures forall a :: a in m ==> forall b :: b in m[a] <==> b in NumericNames(t.columns)
  {
    var names := NumericNames(t.columns);
    if |names| == 0 || t.rows == 0 then map[]
    else map a | a in names :: map b | b in names :: numerics.correlation(t, a, b)
  }

  /** The `missing_values` section: the columns with a missing cell. */
  function MissingOf(cols: seq<Column>): (m: map<string, nat>)
    ensures forall n :: n in m <==> exists i :: 0 <= i < |cols| && cols[i].name == n && CountMissing(cols[i].cells) > 0
    ensures forall n :: n in m ==> m[n] > 0
    ensures Distinct(Names(cols)) ==>
              forall i :: 0 <= i < |cols| && CountMissing(cols[i].cells) > 0 ==> m[cols[i].name] == CountMissing(cols[i].cells)
  {
    if |cols| == 0 then map[]
    else
      var last := cols[|cols| - 1];
      var m := MissingOf(cols[..|cols| - 1]);
      InitNames(cols);
      if CountMissing(last.cells) > 0 then m[last.name := CountMissing(last.cells)] else m
  }

  /** The outlier rows of a numeric column; none when it has no value. */
  function OutlierRowsOf(c: Column, rows: nat): (r: seq<nat>)
    requires FitsRows(c, rows) && c.dtype == NumberType
    ensures Increasing(r)
  {
    match ColumnOutliers(c, rows)
    case None => []
    case Some(rs) => rs
  }

  /** The rows `OutlierRowsOf` reports are exactly those whose value lies
      outside the interquartile fences of the column's values. */
  lemma OutlierRowsSpec(c: Column, rows: nat)
    requires FitsRows(c, rows) && c.dtype == NumberType
    ensures CountPresent(c.cells) == 0 ==> OutlierRowsOf(c, rows) == []
    ensures CountPresent(c.cells) > 0 ==>
              |Numbers(c.cells)| > 0 &&
              var f := Fences(Numbers(c.cells));
              forall i: nat :: i in OutlierRowsOf(c, rows) <==> i < |c.cells| && Outside(c.cells[i], f.0, f.1)
  {
    NumbersOfNumericColumn(c, rows);
  }

  /** The `outliers` section: the numeric columns with a row outside the
      interquartile fences, and those rows. */
  function OutliersOf(cols: seq<Column>, rows: nat): (m: map<string, seq<nat>>)
    requires forall i :: 0 <= i < |cols| ==> FitsRows(cols[i], rows)
    ensures forall n :: n in m ==> m[n] != []
    ensures forall n :: n in m <==> exists i :: 0 <= i < |cols| && cols[i].name == n && FlaggedRows(cols[i], rows) != []
  {
    var flagged := seq(|cols|, i requires 0 <= i < |cols| => FlaggedRows(cols[i], rows));
    var m := NonEmptyEntries(Names(cols), flagged);
    assert forall i :: 0 <= i < |cols| ==> Names(cols)[i] == cols[i].name && flagged[i] == FlaggedRows(cols[i], rows);
    m
  }

  /** The names paired with their non-empty lists; a later name overwrites
      an earlier entry of the same name. */
  function NonEmptyEntries(names: seq<string>, lists: seq<seq<nat>>): (m: map<string, seq<nat>>)
    requires |names| == |lists|
    ensures forall n :: n in m ==> m[n] != []
    ensures forall n :: n in m <==> exists i :: 0 <= i < |names| && names[i] == n && lists[i] != []
    ensures Distinct(names) ==> forall i :: 0 <= i < |names| && lists[i] != [] ==> m[names[i]] == lists[i]
  {
    if |names| == 0 then map[]
    else
      var k := |names| - 1;
      var m := NonEmptyEntries(names[..k], lists[..k]);
      assert forall i :: 0 <= i < k ==> names[..k][i] == names[i] && lists[..k][i] == lists[i];
      assert Distinct(names) ==> Distinct(names[..k]) && names[k] !in names[..k];
      if lists[k] != [] then m[names[k] := lists[k]] else m
  }

  /** With distinct column names, a column is reported exactly when the
      rule flags a row of it, and then with its own rows. */
  lemma OutliersOfColumn(cols: seq<Column>, rows: nat, i: nat)
    requires forall k :: 0 <= k < |cols| ==> FitsRows(cols[k], rows)
    requires Distinct(Names(cols)) && i < |cols|
    ensures cols[i].name in OutliersOf(cols, rows) <==> FlaggedRows(cols[i], rows) != []
    ensures cols[i].name in OutliersOf(cols, rows) ==>
              OutliersOf(cols, rows)[cols[i].name] == FlaggedRows(cols[i], rows)
  {
    var names := Names(cols);
    var flagged := seq(|cols|, k requires 0 <= k < |cols| => FlaggedRows(cols[k], rows));
    var m := NonEmptyEntries(names, flagged);
    assert names[i] == cols[i].name && flagged[i] == FlaggedRows(cols[i], rows);
    assert OutliersOf(cols, rows) == m;
    if names[i] in m {
      var j :| 0 <= j < |names| && names[j] == names[i] && flagged[j] != [];
      assert j == i;
    }
  }

  /** The rows the outlier rule flags in a column: those of a numeric
      column, none for any other. */
  function FlaggedRows(c: Column, rows: nat): seq<nat>
    requires FitsRows(c, rows)
  {
    if c.dtype == NumberType then OutlierRowsOf(c, rows) else []
  }

  /** The distribution of one column that has a value. */
  function DistributionOf(c: Column, rows: nat, numerics: Numerics): (d: Distribution)
    requires FitsRows(c, rows) && c.dtype != DatetimeType && CountPresent(c.cells) > 0
    ensures d.NumericDistribution? <==> c.dtype == NumberType
    ensures d.NumericDistribution? ==>
              |d.counts| == 10 && SumCounts(d.counts) == CountPresent(c.cells) && |d.binEdges| == 11
    ensures d.CategoricalDistribution? ==>
              && d.uniqueCount == |Unique(Present(c.cells))|
              && d.valueCounts == TopCounts(Present(c.cells), 10)
              && |d.valueCounts| == Min(10, d.uniqueCount)
  {
    if c.dtype == NumberType then
      NumbersOfNumericColumn(c, rows);
      NumbersOfNumericCount(c, rows);
      var xs := Numbers(c.cells);
      var h := Histogram(xs);
      NumericDistribution(h.0, h.1, numerics.skewness(xs), numerics.kurtosis(xs))
    else
      var vs := Present(c.cells);
      CategoricalDistribution(TopCounts(vs, 10), |Unique(vs)|)
  }

  /** A numeric column holds as many numbers as it has values. */
  lemma {:induction false} NumbersOfNumericCount(c: Column, rows: nat)
    requires FitsRows(c, rows) && c.dtype == NumberType
    ensures |Numbers(c.cells)| == CountPresent(c.cells)
  {
    NumbersCount(c.cells);
  }

  lemma {:induction false} NumbersCount(cells: seq<Cell>)
    requires forall k :: 0 <= k < |cells| ==> cells[k] == Null || cells[k].v.Num?
    ensures |Numbers(cells)| == CountPresent(cells)
  {
    if |cells| > 0 {
      NumbersCount(cells[1..]);
      assert cells == [cells[0]] + cells[1..];
    }
  }

  /** The `distributions` section: every numeric, object or category column
      with a value. */
  function DistributionsOf(cols: seq<Column>, rows: nat, numerics: Numerics): (m: map<string, Distribution>)
    requires forall i :: 0 <= i < |cols| ==> FitsRows(cols[i], rows)
    ensures forall n :: n in m <==> exists i :: 0 <= i < |cols| && cols[i].name == n && Distributed(cols[i])
  {
    if |cols| == 0 then map[]
    else
      var last := cols[|cols| - 1];
      var m := DistributionsOf(cols[..|cols| - 1], rows, numerics);
      assert forall i :: 0 <= i < |cols| - 1 ==> cols[..|cols| - 1][i] == cols[i];
      if Distributed(last) then m[last.name := DistributionOf(last, rows, numerics)] else m
  }

  /** The columns the `distributions` section describes. */
  predicate Distributed(c: Column) {
    c.dtype != DatetimeType && CountPresent(c.cells) > 0
  }

  /** With distinct column names, each described column maps to its own
      distribution. */
  lemma {:induction false} DistributionsOfColumn(cols: seq<Column>, rows: nat, numerics: Numerics, i: nat)
    requires forall k :: 0 <= k < |cols| ==> FitsRows(cols[k], rows)
    requires Distinct(Names(cols)) && i < |cols| && Distributed(cols[i])
    ensures cols[i].name in DistributionsOf(cols, rows, numerics)
    ensures DistributionsOf(cols, rows, numerics)[cols[i].name] == DistributionOf(cols[i], rows, numerics)
  {
    var init := cols[..|cols| - 1];
    if i < |cols| - 1 {
      InitNames(cols);
      assert init[i] == cols[i];
      assert Names(cols)[i] != Names(cols)[|cols| - 1];
      DistributionsOfColumn(init, rows, numerics, i);
    }
  }

  /** The sections of `analyze_dataset`, each present exactly when its
      operation is requested. */
  function AnalyzeTable(t: Table, operations: seq<string>, numerics: Numerics): (r: AnalysisResult)
    ensures r.summary.Some? <==> "summary" in operations
    ensures r.correlation.Some? <==> "correlation" in operations
    ensures r.missingValues.Some? <==> "missing_values" in operations
    ensures r.outliers.Some? <==> "outliers" in operations
    ensures r.distributions.Some? <==> "distributions" in operations
    ensures r.custom.None?
    ensures r.summary.Some? ==> r.summary.value == SummaryOfTable(t, numerics)
    ensures r.correlation.Some? ==> r.correlation.value == CorrelationOf(t, numerics)
    ensures r.missingValues.Some? ==> r.missingValues.value == MissingOf(t.columns)
    ensures r.outliers.Some? ==> r.outliers.value == OutliersOf(t.columns, t.rows)
    ensures r.distributions.Some? ==> r.distributions.value == DistributionsOf(t.columns, t.rows, numerics)
  {
    AnalysisResult(
      Section(operations, "summary", SummaryOfTable(t, numerics)),
      Section(operations, "correlation", CorrelationOf(t, numerics)),
      Section(operations, "missing_values", MissingOf(t.columns)),
      Section(operations, "outliers", OutliersOf(t.columns, t.rows)),
      Section(operations, "distributions", DistributionsOf(t.columns, t.rows, numerics)),
      None)
  }

  /** One section of the result: filled in only when its operation is named. */
  function Section<T>(operations: seq<string>, name: string, value: T): (o: Option<T>)
    ensures o.Some? <==> name in operations
    ensures o.Some? ==> o.value == value
  {
    if name in operations then Some(value) else None
  }

  /** `analyze_dataset`: the table of `<tenant>_<dataset>.csv` as `read_csv`
      gives it back, analysed; a file `read_csv` refuses raises its error. */
  function Analyze(disk: Disk, request: DatasetAnalysisRequest, numerics: Numerics): (r: Result<AnalysisResult, Exception>)
    ensures var name := DataFileName(request.tenantId, request.datasetId);
            && (name !in disk.datasets ==> r == Err(FileNotFound("Dataset not found: datasets/" + name)))
            && (name in disk.datasets && disk.datasets[name].DataFile? && |disk.datasets[name].table.columns| == 0 ==>
                  r == Err(NoColumns))
            && (name in disk.datasets && disk.datasets[name].DataFile? && |disk.datasets[name].table.columns| > 0 ==>
                  r == Ok(AnalyzeTable(Reread(disk.datasets[name].table), request.operations, numerics)))
            && (name in disk.datasets && !disk.datasets[name].DataFile? ==> r == Err(Undecodable("datasets/" + name)))
  {
    var name := DataFileName(request.tenantId, request.datasetId);
    if name !in disk.datasets then Err(FileNotFound("Dataset not found: datasets/" + name))
    else match disk.datasets[name]
      case DataFile(t) =>
        (match CsvRoundTrip(t)
         case Err(e) => Err(e)
         case Ok(back) => Ok(AnalyzeTable(back, request.operations, numerics)))
      case _ => Err(Undecodable("datasets/" + name))
  }

  /** The summary of a dataset read back from its file counts no datetime
      column: every column is numeric or `object`. */
  lemma ReadBackSummary(t: Table, numerics: Numerics)
    ensures var s := SummaryOfTable(Reread(t), numerics);
            s.datetimeColumns == 0 && s.numericColumns + s.categoricalColumns == |t.columns|
  {
    var cols := Reread(t).columns;
    assert forall i :: 0 <= i < |cols| ==> cols[i].dtype != DatetimeType;
  }

  /** With no operation requested the result is the empty one. */
  lemma NoOperations(t: Table, numerics: Numerics)
    ensures AnalyzeTable(t, [], numerics) == EmptyAnalysis
  {
  }

  // ---- Metadata, column values, deletion ----

  /** `get_dataset_info`: the stored metadata of `<tenant>_<dataset>`. */
  function DatasetInfo(disk: Disk, datasetId: string, tenant: string): (r: Result<DatasetMetadata, Exception>)
    ensures var name := MetadataName(tenant, datasetId);
            && (name !in disk.datasets <==> r == Err(FileNotFound("Dataset not found: " + datasetId)))
            && (r.Ok? <==> name in disk.datasets && disk.datasets[name].DatasetMetaFile?)
            && (r.Ok? ==> r.value == disk.datasets[name].dataset)
  {
    var name := MetadataName(tenant, datasetId);
    if name !in disk.datasets then Err(FileNotFound("Dataset not found: " + datasetId))
    else match disk.datasets[name]
      case DatasetMetaFile(m) => Ok(m)
      case _ => Err(Undecodable("datasets/" + name))
  }

  datatype ColumnValues = ColumnValues(column: string, uniqueValues: seq<Value>, totalUnique: nat, truncated: bool)

  /** The distinct values of one column, at most `limit` of them (a negative
      limit drops that many from the end, as a Python slice does). */
  function ValuesOf(c: Column, limit: int): (r: ColumnValues)
    ensures r.column == c.name
    ensures r.totalUnique == |Unique(Present(c.cells))|
    ensures r.uniqueValues <= Unique(Present(c.cells))
    ensures Distinct(r.uniqueValues) && forall v :: v in r.uniqueValues ==> Val(v) in c.cells
    ensures 0 <= limit ==> |r.uniqueValues| == Min(limit, r.totalUnique)
    ensures r.truncated <==> |r.uniqueValues| < r.totalUnique
    ensures 0 <= limit ==> (r.truncated <==> r.totalUnique > limit)
  {
    var u := Unique(Present(c.cells));
    var shown := if |u| > limit then PyPrefix(u, limit) else u;
    assert forall i :: 0 <= i < |shown| ==> shown[i] == u[i];
    ColumnValues(c.name, shown, |u|, |shown| < |u|)
  }

  /** The first column of a name. */
  function ColumnNamed(cols: seq<Column>, name: string): (r: Option<nat>)
    ensures r.None? <==> name !in Names(cols)
    ensures r.Some? ==> r.value < |cols| && cols[r.value].name == name
  {
    if name in Names(cols) then Some(FirstIndex(Names(cols), name)) else None
  }

  /** `get_column_values`, on the first column of the name as `read_csv`
      gives it back; a file `read_csv` refuses raises its error. pandas
      rejects a missing column while reading (`usecols`), with a
      `ValueError` of its own wording; the message here is the code's. */
  function GetColumnValues(disk: Disk, datasetId: string, tenant: string, column: string, limit: int)
    : (r: Result<ColumnValues, Exception>)
    ensures var name := DataFileName(tenant, datasetId);
            && (name !in disk.datasets <==> r == Err(FileNotFound("Dataset not found: " + datasetId)))
            && (r.Ok? <==> name in disk.datasets && disk.datasets[name].DataFile?
                           && column in Names(disk.datasets[name].table.columns))
            && (r.Ok? ==> r.value.column == column)
            && (r.Ok? ==> var t := disk.datasets[name].table;
                          && ColumnNamed(t.columns, column).Some?
                          && r.value == ValuesOf(RereadColumn(t.columns[ColumnNamed(t.columns, column).value]), limit))
            && ((name in disk.datasets && disk.datasets[name].DataFile?
                 && |disk.datasets[name].table.columns| == 0) ==> r == Err(NoColumns))
            && ((name in disk.datasets && disk.datasets[name].DataFile? && |disk.datasets[name].table.columns| > 0
                 && column !in Names(disk.datasets[name].table.columns)) ==> r == Err(ValueError("Column not found: " + column)))
  {
    var name := DataFileName(tenant, datasetId);
    if name !in disk.datasets then Err(FileNotFound("Dataset not found: " + datasetId))
    else match disk.datasets[name]
      case DataFile(t) =>
        (match CsvRoundTrip(t)
         case Err(e) => Err(e)
         case Ok(back) =>
           match ColumnNamed(t.columns, column)
           case None => Err(ValueError("Column not found: " + column))
           case Some(i) => Ok(ValuesOf(back.columns[i], limit)))
      case _ => Err(Undecodable("datasets/" + name))
  }

  /** `delete_dataset`: both files or none; see `RemovePair`. */
  function DeleteDataset(disk: Disk, datasetId: string, tenant: string, fault: RemoveFault)
    : (r: Result<(bool, Disk), Exception>)
    ensures var dataName := DataFileName(tenant, datasetId);
            var metaName := MetadataName(tenant, datasetId);
            && (r.Err? <==> dataName !in disk.datasets || metaName !in disk.datasets)
            && (r.Err? ==> r.error == FileNotFound("Dataset not found: " + datasetId))
            && (r.Ok? ==> r.value.1.models == disk.models)
            && (r.Ok? && r.value.0 ==> r.value.1.datasets == disk.datasets - {dataName, metaName})
            && (r.Ok? ==> forall n :: n in r.value.1.datasets ==> n in disk.datasets && r.value.1.datasets[n] == disk.datasets[n])
  {
    var dataName := DataFileName(tenant, datasetId);
    var metaName := MetadataName(tenant, datasetId);
    match RemovePair(disk.datasets, dataName, metaName, FileNotFound("Dataset not found: " + datasetId), fault)
    case Err(e) => Err(e)
    case Ok((done, datasets)) =>
      assert done ==> datasets == disk.datasets - {dataName, metaName};
      Ok((done, disk.(datasets := datasets)))
  }

  /** Deleting a fresh upload gives back the directory as it was before. */
  lemma UploadThenDelete(disk: Disk, tenant: Option<string>, filename: string, content: Bytes,
                         readCsv: Reader, readExcel: Reader, datasetId: string, uploadTime: string)
    requires ReadUpload(filename, content, readCsv, readExcel).Ok?
    requires DataFileName(Render(tenant), datasetId) !in disk.datasets
    requires MetadataName(Render(tenant), datasetId) !in disk.datasets
    ensures var o := Upload(disk, tenant, filename, content, readCsv, readExcel, datasetId, uploadTime);
            DeleteDataset(o.disk, datasetId, Render(tenant), NoFault) == Ok((true, disk))
  {
    var o := Upload(disk, tenant, filename, content, readCsv, readExcel, datasetId, uploadTime);
    var dataName := DataFileName(Render(tenant), datasetId);
    var metaName := MetadataName(Render(tenant), datasetId);
    assert o.disk.datasets - {dataName, metaName} == disk.datasets;
  }

  /** After an upload that parses, `get_dataset_info` returns the metadata
      the upload wrote, which agrees with the upload's response. */
  lemma UploadThenInfo(disk: Disk, tenant: Option<string>, filename: string, content: Bytes,
                       readCsv: Reader, readExcel: Reader, datasetId: string, uploadTime: string)
    requires ReadUpload(filename, content, readCsv, readExcel).Ok?
    ensures var o := Upload(disk, tenant, filename, content, readCsv, readExcel, datasetId, uploadTime);
            var t := ReadUpload(filename, content, readCsv, readExcel).value;
            var info := DatasetInfo(o.disk, datasetId, Render(tenant));
            && info.Ok?
            && info.value.datasetId == datasetId && info.value.tenantId == tenant && info.value.filename == filename
            && info.value.uploadTime == uploadTime
            && info.value.rows == t.rows && info.value.columnNames == Names(t.columns)
            && info.value.columnStats == StatsOf(t.columns, t.rows)
            && (o.response.Ok? ==> info.value.rows == o.response.value.rows
                                   && info.value.columns == o.response.value.columns
                                   && info.value.columnStats == o.response.value.columnStats)
  {
  }

  /** An upload changes only files the uploading tenant owns. */
  lemma UploadOwned(disk: Disk, tenant: Option<string>, filename: string, content: Bytes,
                    readCsv: Reader, readExcel: Reader, datasetId: string, uploadTime: string)
    ensures var o := Upload(disk, tenant, filename, content, readCsv, readExcel, datasetId, uploadTime);
            && o.disk.models == disk.models
            && (forall n :: !Owned(Render(tenant), n) ==> (n in o.disk.datasets <==> n in disk.datasets))
            && (forall n :: !Owned(Render(tenant), n) && n in disk.datasets ==> o.disk.datasets[n] == disk.datasets[n])
  {
    NamesOwned(Render(tenant), datasetId);
  }

  /** The master key's uploads land under the literal tenant "None". */
  lemma MasterUpload(disk: Disk, filename: string, content: Bytes,
                     readCsv: Reader, readExcel: Reader, datasetId: string, uploadTime: string)
    requires ReadUpload(filename, content, readCsv, readExcel).Ok?
    ensures var o := Upload(disk, None, filename, content, readCsv, readExcel, datasetId, uploadTime);
            && DataFileName("None", datasetId) in o.disk.datasets
            && MetadataName("None", datasetId) in o.disk.datasets
            && o.response == Err(Invalid("tenant_id"))
  {
  }
}
