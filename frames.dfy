/** The pandas operations the dataset builder uses, as plain sequence and map
    operations. A frame is its ordered column index plus its rows; a row maps
    column labels to values, as `Series.to_dict()` gives it. Column labels are
    the thirteen fixed names of the dataset, as an enumeration. */
module Frames {
  import opened Wrappers

  datatype Column =
    | ApX | ApY | ApZ
    | UeX | UeY | UeZ
    | Phase | ToA | Gain | AoaAzimuth | AoaElevation | AodAzimuth | AodElevation

  /** The label pandas stores, and the CSV header writes, for each column. */
  function Label(c: Column): string {
    match c
    case ApX => "AP_x"
    case ApY => "AP_y"
    case ApZ => "AP_z"
    case UeX => "UE_x"
    case UeY => "UE_y"
    case UeZ => "UE_z"
    case Phase => "Channel_Phase_deg"
    case ToA => "ToA_s"
    case Gain => "Channel_Gain_dBm"
    case AoaAzimuth => "DL_Azimuth_AoA_deg"
    case AoaElevation => "DL_Elevation_AoA_deg"
    case AodAzimuth => "Azimuth_AoD_deg"
    case AodElevation => "Elevation_AoD_deg"
  }

  const ApColumns: seq<Column> := [ApX, ApY, ApZ]
  const UeColumns: seq<Column> := [UeX, UeY, UeZ]
  /** The seven channel-parameter columns, in the order of a channel-file line. */
  const ChannelColumns: seq<Column> :=
    [Phase, ToA, Gain, AoaAzimuth, AoaElevation, AodAzimuth, AodElevation]
  /** The column order of the finished dataset. */
  const FinalColumns: seq<Column> := ApColumns + UeColumns + ChannelColumns

  type Row<V> = map<Column, V>

  datatype Frame<V> = Frame(columns: seq<Column>, rows: seq<Row<V>>)

  predicate DistinctColumns(cols: seq<Column>) {
    forall i, j :: 0 <= i < j < |cols| ==> cols[i] != cols[j]
  }

  /** Every row has a value under every column of the index. */
  ghost predicate WellFormed<V>(f: Frame<V>) {
    forall i, c :: 0 <= i < |f.rows| && c in f.columns ==> c in f.rows[i]
  }

  /** A row from values listed in column order (`dict(zip(cols, vals))`). */
  function Labelled<V>(cols: seq<Column>, vals: seq<V>): (r: Row<V>)
    requires |cols| == |vals| && DistinctColumns(cols)
    ensures r.Keys == set c | c in cols
    ensures forall k :: 0 <= k < |cols| ==> r[cols[k]] == vals[k]
  {
    map k | 0 <= k < |cols| :: cols[k] := vals[k]
  }

  /** `pd.DataFrame(records, columns=cols)` for records of the right width. */
  function FromRecords<V>(cols: seq<Column>, records: seq<seq<V>>): (f: Frame<V>)
    requires DistinctColumns(cols)
    requires forall i :: 0 <= i < |records| ==> |records[i]| == |cols|
    ensures WellFormed(f) && f.columns == cols && |f.rows| == |records|
    ensures forall i, c :: 0 <= i < |records| ==> (c in f.rows[i] <==> c in cols)
    ensures forall i, k :: 0 <= i < |records| && 0 <= k < |cols| ==> cols[k] in f.rows[i] && f.rows[i][cols[k]] == records[i][k]
  {
    Frame(cols, seq(|records|, i requires 0 <= i < |records| => Labelled(cols, records[i])))
  }

  /** `pd.DataFrame(dicts)` for dicts that all have the keys `cols`: pandas
      takes the column index from the dicts' keys, so no dicts means no columns. */
  function FromRows<V>(cols: seq<Column>, rows: seq<Row<V>>): (f: Frame<V>)
    requires forall i :: 0 <= i < |rows| ==> rows[i].Keys == set c | c in cols
    ensures WellFormed(f) && f.rows == rows
    ensures f.columns == if rows == [] then [] else cols
  {
    Frame(if rows == [] then [] else cols, rows)
  }

  /** `f[c] = v`: a column holding `v` in every row, appended to the index
      unless it is already there. */
  function Broadcast<V>(f: Frame<V>, c: Column, v: V): (r: Frame<V>)
    requires WellFormed(f)
    ensures WellFormed(r) && c in r.columns && |r.rows| == |f.rows|
    ensures r.columns == if c in f.columns then f.columns else f.columns + [c]
    ensures forall i :: 0 <= i < |r.rows| ==> r.rows[i][c] == v
    ensures forall i, d :: 0 <= i < |r.rows| && d != c && d in f.rows[i] ==> d in r.rows[i] && r.rows[i][d] == f.rows[i][d]
  {
    Frame(if c in f.columns then f.columns else f.columns + [c],
          seq(|f.rows|, i requires 0 <= i < |f.rows| => f.rows[i][c := v]))
  }

  /** `pd.concat([a, b], axis=1)` of two frames of equal height with fresh
      indexes and no column in common: the columns side by side, rows paired
      by position. */
  function Concat<V>(a: Frame<V>, b: Frame<V>): (r: Frame<V>)
    requires WellFormed(a) && WellFormed(b) && |a.rows| == |b.rows|
    requires forall c :: c in a.columns ==> c !in b.columns
    ensures WellFormed(r) && r.columns == a.columns + b.columns && |r.rows| == |a.rows|
    ensures forall i, c :: 0 <= i < |r.rows| && c in b.rows[i] ==> c in r.rows[i] && r.rows[i][c] == b.rows[i][c]
    ensures forall i, c :: 0 <= i < |r.rows| && c in a.rows[i] && c !in b.rows[i] ==> c in r.rows[i] && r.rows[i][c] == a.rows[i][c]
  {
    Frame(a.columns + b.columns, seq(|a.rows|, i requires 0 <= i < |a.rows| => a.rows[i] + b.rows[i]))
  }

  /** `f[names]`: each row's values under `names`, in that order; None (a
      KeyError) when some name is not a column of `f`. */
  function Select<V>(f: Frame<V>, names: seq<Column>): (r: Option<seq<seq<V>>>)
    requires WellFormed(f)
    ensures r.Some? <==> forall k :: 0 <= k < |names| ==> names[k] in f.columns
    ensures r.Some? ==> |r.value| == |f.rows|
    ensures r.Some? ==> forall i :: 0 <= i < |f.rows| ==>
      |r.value[i]| == |names| && forall k :: 0 <= k < |names| ==> r.value[i][k] == f.rows[i][names[k]]
  {
    if forall k :: 0 <= k < |names| ==> names[k] in f.columns then
      Some(seq(|f.rows|, i requires 0 <= i < |f.rows| =>
        seq(|names|, k requires 0 <= k < |names| => f.rows[i][names[k]])))
    else None
  }

  /** Distinct columns carry distinct labels, so the enumeration stands
      faithfully for pandas' string labels. */
  lemma LabelInjective(c: Column, d: Column)
    requires Label(c) == Label(d)
    ensures c == d
  {
  }

  lemma ColumnGroupsDistinct()
    ensures DistinctColumns(ApColumns) && DistinctColumns(UeColumns) && DistinctColumns(ChannelColumns)
  {
  }

  lemma FinalColumnsDistinct()
    ensures DistinctColumns(FinalColumns) && |FinalColumns| == 13
  {
  }

  /** No UE or AP column is a channel column. */
  lemma ChannelColumnsApart()
    ensures forall c :: c in UeColumns + ApColumns ==> c !in ChannelColumns
    ensures forall c :: c in ApColumns ==> c !in ChannelColumns
  {
  }

  /** Every final column is a column of the joined UE, AP and channel frames. */
  lemma FinalColumnsPresent()
    ensures forall k :: 0 <= k < |FinalColumns| ==> FinalColumns[k] in UeColumns + ApColumns + ChannelColumns
  {
  }

  /** Without the UE frame's columns, UE_x is not a column. */
  lemma UeXAbsent()
    ensures FinalColumns[3] == UeX && UeX !in ApColumns + ChannelColumns
  {
  }

  /** Broadcasting the AP columns one by one, after the UE columns or after
      none, appends each of them once. */
  lemma ApColumnsAppended()
    ensures ApX !in UeColumns && ApY !in UeColumns + [ApX] && ApZ !in UeColumns + [ApX, ApY]
    ensures UeColumns + [ApX] + [ApY] + [ApZ] == UeColumns + ApColumns
    ensures ApY !in [ApX] && ApZ !in [ApX, ApY] && [ApX] + [ApY] + [ApZ] == ApColumns
  {
  }

  /** The header of the finished dataset, in order. */
  lemma FinalLabels()
    ensures seq(|FinalColumns|, k requires 0 <= k < |FinalColumns| => Label(FinalColumns[k])) ==
      ["AP_x", "AP_y", "AP_z", "UE_x", "UE_y", "UE_z",
       "Channel_Phase_deg", "ToA_s", "Channel_Gain_dBm",
       "DL_Azimuth_AoA_deg", "DL_Elevation_AoA_deg",
       "Azimuth_AoD_deg", "Elevation_AoD_deg"]
  {
  }
}
