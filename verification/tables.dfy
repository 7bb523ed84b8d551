/** The slice of a pandas DataFrame that the services look at: named
    columns of one dtype class each, holding cells that are either null
    (NaN/None) or a value. Parsing, dtype inference and memory layout belong
    to pandas and are not modelled; a table is what a parser produced. */
module Tables {
  import opened Common

  datatype Value = Num(x: real) | Str(s: string) | Instant(t: int)

  /** A cell of a frame; `Null` is pandas' missing marker. */
  datatype Cell = Null | Val(v: Value)

  /** The dtype classes the code distinguishes: `is_numeric_dtype` /
      `select_dtypes('number')`, `object`, `category` and `datetime`. */
  datatype DType = NumberType | ObjectType | CategoryType | DatetimeType

  datatype Column = Column(name: string, dtype: DType, cells: seq<Cell>)

  /** A column fits a frame of `rows` rows, and a numeric column holds numbers. */
  predicate FitsRows(c: Column, rows: nat) {
    && |c.cells| == rows
    && (c.dtype == NumberType ==> forall k :: 0 <= k < |c.cells| ==> c.cells[k] == Null || c.cells[k].v.Num?)
  }

  datatype Frame = Frame(columns: seq<Column>, rows: nat) {
    predicate Valid() {
      forall i :: 0 <= i < |columns| ==> FitsRows(columns[i], rows)
    }
  }

  /** A DataFrame: every column has one cell per row. */
  type Table = f: Frame | f.Valid() witness Frame([], 0)

  function Names(cs: seq<Column>): (r: seq<string>)
    ensures |r| == |cs|
    ensures forall i :: 0 <= i < |cs| ==> r[i] == cs[i].name
  {
    seq(|cs|, i requires 0 <= i < |cs| => cs[i].name)
  }

  /** `df.head(k)`: the first `k` rows of every column. */
  function Head(t: Table, k: nat): (r: Table)
    ensures r.rows == Min(k, t.rows)
    ensures Names(r.columns) == Names(t.columns)
    ensures forall i :: 0 <= i < |t.columns| ==> r.columns[i].cells <= t.columns[i].cells
  {
    var n := Min(k, t.rows);
    Frame(seq(|t.columns|, i requires 0 <= i < |t.columns| =>
            t.columns[i].(cells := t.columns[i].cells[..n])), n)
  }

  /** The row `i` of a table, left to right. */
  function Row(t: Table, i: nat): (r: seq<Cell>)
    requires i < t.rows
    ensures |r| == |t.columns|
  {
    seq(|t.columns|, c requires 0 <= c < |t.columns| => t.columns[c].cells[i])
  }

  /** The non-null values of a column, in row order (`dropna()`). */
  function Present(cells: seq<Cell>): (r: seq<Value>)
    ensures |r| + multiset(cells)[Null] == |cells|
    ensures forall v :: v in r <==> Val(v) in cells
  {
    if |cells| == 0 then []
    else
      var rest := Present(cells[1..]);
      assert cells == [cells[0]] + cells[1..];
      match cells[0]
      case Null => rest
      case Val(v) => [v] + rest
  }

  /** `count()`: the number of non-null cells. */
  function CountPresent(cells: seq<Cell>): nat {
    |Present(cells)|
  }

  /** `isnull().sum()` */
  function CountMissing(cells: seq<Cell>): nat {
    multiset(cells)[Null]
  }

  lemma CountsCoverRows(cells: seq<Cell>)
    ensures CountPresent(cells) + CountMissing(cells) == |cells|
    ensures CountPresent(cells) == 0 <==> forall k :: 0 <= k < |cells| ==> cells[k] == Null
  {
    forall k | 0 <= k < |cells| && cells[k] != Null ensures cells[k].v in Present(cells) {
      assert Val(cells[k].v) in cells;
    }
    if CountPresent(cells) != 0 {
      assert Val(Present(cells)[0]) in cells;
    }
  }

  /** The numbers among a column's cells, in row order. */
  function Numbers(cells: seq<Cell>): (r: seq<real>)
    ensures |r| <= |cells|
  {
    if |cells| == 0 then []
    else if cells[0].Val? && cells[0].v.Num? then [cells[0].v.x] + Numbers(cells[1..])
    else Numbers(cells[1..])
  }

  lemma {:induction false} NumbersMembers(cells: seq<Cell>)
    ensures forall x :: x in Numbers(cells) <==> Val(Num(x)) in cells
  {
    if |cells| > 0 {
      NumbersMembers(cells[1..]);
      assert cells == [cells[0]] + cells[1..];
    }
  }

  /** In a numeric column, having no number is being entirely null. */
  lemma NumbersOfNumericColumn(c: Column, rows: nat)
    requires FitsRows(c, rows) && c.dtype == NumberType
    ensures |Numbers(c.cells)| == 0 <==> CountPresent(c.cells) == 0
  {
    CountsCoverRows(c.cells);
    NumbersMembers(c.cells);
    forall k | 0 <= k < |c.cells| && c.cells[k] != Null ensures c.cells[k].v.x in Numbers(c.cells) {
      assert Val(Num(c.cells[k].v.x)) in c.cells;
    }
    if |Numbers(c.cells)| != 0 {
      assert Val(Num(Numbers(c.cells)[0])) in c.cells;
    }
  }

  /** The position of the first occurrence of `v` in `vs`. */
  function FirstIndex<T(==)>(vs: seq<T>, v: T): (k: nat)
    requires v in vs
    ensures k < |vs| && vs[k] == v && v !in vs[..k]
  {
    if vs[0] == v then 0 else FirstIndex(vs[1..], v) + 1
  }

  lemma {:induction false} FirstIndexOfPrefix<T>(vs: seq<T>, n: nat, v: T)
    requires n <= |vs| && v in vs[..n]
    ensures FirstIndex(vs, v) == FirstIndex(vs[..n], v)
  {
    if vs[0] != v {
      assert vs[..n][1..] == vs[1..][..n - 1];
      FirstIndexOfPrefix(vs[1..], n - 1, v);
    }
  }

  predicate Distinct<T(==)>(xs: seq<T>) {
    forall i, j :: 0 <= i < j < |xs| ==> xs[i] != xs[j]
  }

  /** `unique()`: each distinct value once, in order of first appearance. */
  function Unique(vs: seq<Value>): (r: seq<Value>)
    ensures forall v :: v in r <==> v in vs
    ensures Distinct(r)
    ensures forall i, j :: 0 <= i < j < |r| ==> FirstIndex(vs, r[i]) < FirstIndex(vs, r[j])
    decreases |vs|
  {
    if |vs| == 0 then []
    else
      var init := vs[..|vs| - 1];
      var p := Unique(init);
      assert forall i :: 0 <= i < |p| ==> p[i] in p;
      FirstIndexKept(vs, p);
      if vs[|vs| - 1] in p then p
      else
        assert FirstIndex(vs, vs[|vs| - 1]) == |vs| - 1;
        p + [vs[|vs| - 1]]
  }

  /** Values already seen before the last position keep their first index. */
  lemma FirstIndexKept(vs: seq<Value>, p: seq<Value>)
    requires |vs| > 0 && forall i :: 0 <= i < |p| ==> p[i] in vs[..|vs| - 1]
    ensures forall i :: 0 <= i < |p| ==> p[i] in vs && FirstIndex(vs, p[i]) == FirstIndex(vs[..|vs| - 1], p[i])
  {
    assert vs == vs[..|vs| - 1] + [vs[|vs| - 1]];
    forall i | 0 <= i < |p| ensures p[i] in vs && FirstIndex(vs, p[i]) == FirstIndex(vs[..|vs| - 1], p[i]) {
      FirstIndexOfPrefix(vs, |vs| - 1, p[i]);
    }
  }

  // ---- A table written as CSV and read back ----

  /** The strings `read_csv` takes for a missing value by default. */
  const NaMarkers: set<string> :=
    {"", "#N/A", "#N/A N/A", "#NA", "-1.#IND", "-1.#QNAN", "-NaN", "-nan", "1.#IND", "1.#QNAN",
     "<NA>", "N/A", "NA", "NULL", "NaN", "None", "n/a", "nan", "null"}

  /** A cell after `to_csv` and `read_csv`: text that reads as a missing
      marker comes back null; anything else comes back as it was. */
  function RereadCell(c: Cell): (r: Cell)
    ensures r == Null <==> c == Null || (c.v.Str? && c.v.s in NaMarkers)
    ensures r != Null ==> r == c
  {
    if c.Val? && c.v.Str? && c.v.s in NaMarkers then Null else c
  }

  /** A column after the round trip. The file keeps no dtype: a column with
      rows comes back numeric when it was numeric or when every cell reads
      as missing, and `object` otherwise; with no rows every column comes
      back `object`. */
  function RereadColumn(c: Column): (r: Column)
    ensures r.name == c.name && |r.cells| == |c.cells|
    ensures r.dtype == NumberType || r.dtype == ObjectType
    ensures forall k :: 0 <= k < |c.cells| ==> r.cells[k] == RereadCell(c.cells[k])
    ensures r.dtype == NumberType <==>
              |c.cells| > 0 && (c.dtype == NumberType || forall k :: 0 <= k < |c.cells| ==> r.cells[k] == Null)
  {
    var cells := seq(|c.cells|, k requires 0 <= k < |c.cells| => RereadCell(c.cells[k]));
    if |cells| > 0 && (c.dtype == NumberType || forall k :: 0 <= k < |cells| ==> cells[k] == Null)
    then Column(c.name, NumberType, cells)
    else Column(c.name, ObjectType, cells)
  }

  /** The table `read_csv` parses back from the file `to_csv` wrote, when
      the file has a header: same rows and column names, no category or
      datetime column left, missing markers read as nulls, numeric columns
      with rows unchanged. */
  function Reread(t: Table): (r: Table)
    ensures r.rows == t.rows && Names(r.columns) == Names(t.columns)
    ensures forall i :: 0 <= i < |r.columns| ==> r.columns[i] == RereadColumn(t.columns[i])
    ensures forall i :: 0 <= i < |r.columns| ==>
              r.columns[i].dtype != CategoryType && r.columns[i].dtype != DatetimeType
    ensures forall i :: 0 <= i < |t.columns| && t.columns[i].dtype == NumberType && t.rows > 0 ==>
              r.columns[i] == t.columns[i]
  {
    var cols := seq(|t.columns|, i requires 0 <= i < |t.columns| => RereadColumn(t.columns[i]));
    forall i | 0 <= i < |t.columns| ensures FitsRows(cols[i], t.rows) {
      assert FitsRows(t.columns[i], t.rows);
    }
    forall i | 0 <= i < |t.columns| && t.columns[i].dtype == NumberType && t.rows > 0
      ensures cols[i] == t.columns[i]
    {
      assert FitsRows(t.columns[i], t.rows);
      assert cols[i].cells == t.columns[i].cells;
    }
    Frame(cols, t.rows)
  }

  /** `read_csv`'s `EmptyDataError` for a file without a header. */
  const NoColumns: Exception := Raised("No columns to parse from file")

  /** `df.to_csv(path, index=False)` followed by `pd.read_csv(path)`. A
      frame without columns is written with an empty header, which
      `read_csv` refuses; any other frame comes back as `Reread` gives it. */
  function CsvRoundTrip(t: Table): (r: Result<Table, Exception>)
    ensures r.Err? <==> |t.columns| == 0
    ensures r.Err? ==> r.error == NoColumns
    ensures r.Ok? ==> r.value.rows == t.rows && Names(r.value.columns) == Names(t.columns)
    ensures r.Ok? ==> forall i :: 0 <= i < |r.value.columns| ==> r.value.columns[i] == RereadColumn(t.columns[i])
  {
    if |t.columns| == 0 then Err(NoColumns) else Ok(Reread(t))
  }

  /** Writing a table that was read back and reading it again changes
      nothing. */
  lemma RoundTripStable(t: Table)
    requires CsvRoundTrip(t).Ok?
    ensures CsvRoundTrip(CsvRoundTrip(t).value) == CsvRoundTrip(t)
  {
    var once := Reread(t);
    var twice := Reread(once);
    forall i | 0 <= i < |once.columns| ensures twice.columns[i] == once.columns[i] {
      var c := once.columns[i];
      assert forall k :: 0 <= k < |c.cells| ==> RereadCell(c.cells[k]) == c.cells[k];
      assert RereadColumn(c).cells == c.cells;
    }
    assert twice == once;
    assert |once.columns| == |Names(once.columns)| == |t.columns|;
  }
}
