/** create_combined_dataset_v2: check the 1:25 ratio between UE positions and
    channel records, repeat every UE position 25 times, broadcast the AP
    position, and join the three sources into one table with a fixed column
    order.

    The UE positions arrive as a sequence, as `pd.read_csv` gives them; the
    two text files arrive as their lines (see Readers). */
module DatabaseGen {
  import opened Wrappers
  import opened Frames
  import opened Readers
  import opened Text

  /** Channel records per UE position. */
  const RecordsPerUe: nat := 25

  /** The exceptions the function can raise on inputs the model covers. */
  datatype Exception =
    | MalformedApFile   // IndexError or ValueError reading the access point
    | MissingColumns    // KeyError selecting the final columns

  /** What a call ends in: the combined table, `None` after a count mismatch
      (with the two counts the warning prints), or a raised exception. */
  datatype Outcome<V> =
    | Dataset(rows: seq<seq<V>>)
    | NoDataset(expected: nat, actual: nat)
    | Raised(error: Exception)

  // -----------------------------------------------------------------------
  // UE expansion

  /** `row.to_dict()` for one UE position. */
  function UeRow<V>(p: Position<V>): (r: Row<V>)
    ensures r.Keys == set c | c in UeColumns
    ensures UeX in r && UeY in r && UeZ in r && r[UeX] == p.x && r[UeY] == p.y && r[UeZ] == p.z
  {
    ColumnGroupsDistinct();
    Labelled(UeColumns, [p.x, p.y, p.z])
  }

  /** The UE rows `ue_df.iterrows()` visits, as dicts, in order. */
  function UeRows<V>(ue: seq<Position<V>>): (rows: seq<Row<V>>)
    ensures |rows| == |ue|
  {
    seq(|ue|, i requires 0 <= i < |ue| => UeRow(ue[i]))
  }

  /** What the inner loop appends for one item: RecordsPerUe copies of it. */
  function Block<T>(x: T): seq<T> {
    seq(RecordsPerUe, _ => x)
  }

  /** The first n items, each repeated RecordsPerUe times, block after block. */
  function Repeated<T>(xs: seq<T>, n: nat): seq<T>
    requires n <= |xs|
  {
    if n == 0 then [] else Repeated(xs, n - 1) + Block(xs[n - 1])
  }

  /** The nested expansion loop over the rows `ue_df.iterrows()` gives, as
      dicts: 25 copies of each row, in row order. */
  method ExpandUe<T>(rows: seq<T>) returns (expanded: seq<T>)
    ensures expanded == Repeated(rows, |rows|)
  {
    expanded := [];
    var i := 0;
    while i < |rows|
      invariant 0 <= i <= |rows|
      invariant expanded == Repeated(rows, i)
    {
      var row := rows[i];
      var n := 0;
      while n < RecordsPerUe
        invariant 0 <= n <= RecordsPerUe
        invariant expanded == Repeated(rows, i) + seq(n, _ => row)
      {
        assert seq(n + 1, _ => row) == seq(n, _ => row) + [row];
        expanded := expanded + [row];
        n := n + 1;
      }
      assert seq(RecordsPerUe, _ => row) == Block(rows[i]);
      i := i + 1;
    }
  }

  /** Row j < 25 * b + 25 that lies past the first b blocks lies in block b. */
  lemma BlockOf(j: nat, b: nat)
    requires RecordsPerUe * b <= j < RecordsPerUe * b + RecordsPerUe
    ensures j / RecordsPerUe == b
  {
  }

  lemma {:induction false} RepeatedLength<T>(xs: seq<T>, n: nat)
    requires n <= |xs|
    ensures |Repeated(xs, n)| == RecordsPerUe * n
  {
    if n > 0 {
      RepeatedLength(xs, n - 1);
    }
  }

  lemma {:induction false} RepeatedItem<T>(xs: seq<T>, n: nat, j: nat)
    requires n <= |xs| && j < RecordsPerUe * n
    ensures |Repeated(xs, n)| == RecordsPerUe * n
    ensures Repeated(xs, n)[j] == xs[j / RecordsPerUe]
  {
    RepeatedLength(xs, n);
    RepeatedLength(xs, n - 1);
    var prev := Repeated(xs, n - 1);
    if j < |prev| {
      RepeatedItem(xs, n - 1, j);
    } else {
      BlockOf(j, n - 1);
    }
  }

  /** The expansion has 25 rows per item, and row j is item j / 25. */
  lemma RepeatedAt<T>(xs: seq<T>, n: nat)
    requires n <= |xs|
    ensures |Repeated(xs, n)| == RecordsPerUe * n
    ensures forall j :: 0 <= j < RecordsPerUe * n ==> Repeated(xs, n)[j] == xs[j / RecordsPerUe]
  {
    RepeatedLength(xs, n);
    forall j | 0 <= j < RecordsPerUe * n
      ensures Repeated(xs, n)[j] == xs[j / RecordsPerUe]
    {
      RepeatedItem(xs, n, j);
    }
  }

  /** The expansion of all UE positions: 25 rows per position, and row j
      is the dict of UE position j / 25. */
  lemma ExpandedRows<V>(ue: seq<Position<V>>)
    ensures |Repeated(UeRows(ue), |ue|)| == RecordsPerUe * |ue|
    ensures forall j :: 0 <= j < RecordsPerUe * |ue| ==>
      Repeated(UeRows(ue), |ue|)[j] == UeRow(ue[j / RecordsPerUe])
  {
    RepeatedAt(UeRows(ue), |ue|);
  }

  /** Every expanded row has exactly the three UE columns. */
  lemma ExpandedKeys<V>(ue: seq<Position<V>>)
    ensures |Repeated(UeRows(ue), |ue|)| == RecordsPerUe * |ue|
    ensures forall j :: 0 <= j < |Repeated(UeRows(ue), |ue|)| ==>
      Repeated(UeRows(ue), |ue|)[j].Keys == set c | c in UeColumns
  {
    ExpandedRows(ue);
  }

  // -----------------------------------------------------------------------
  // Assembly

  /** Every channel record has one value per channel column. */
  predicate RecordsFit<V>(records: seq<seq<V>>) {
    forall i :: 0 <= i < |records| ==> |records[i]| == |ChannelColumns|
  }

  /** The frame of expanded UE rows with the three AP columns broadcast:
      with no rows it has only the AP columns. */
  function UeAndApFrame<V>(ap: Position<V>, expanded: seq<Row<V>>): (f: Frame<V>)
    requires forall i :: 0 <= i < |expanded| ==> expanded[i].Keys == set c | c in UeColumns
    ensures WellFormed(f) && |f.rows| == |expanded|
    ensures f.columns == if expanded == [] then ApColumns else UeColumns + ApColumns
  {
    ApColumnsAppended();
    var ueFrame := FromRows(UeColumns, expanded);
    var withX := Broadcast(ueFrame, ApX, ap.x);
    var withY := Broadcast(withX, ApY, ap.y);
    Broadcast(withY, ApZ, ap.z)
  }

  /** Setting the three AP columns of a frame leaves every other value of
      row i in place and puts the AP position beside it. */
  lemma BroadcastApRow<V>(f: Frame<V>, ap: Position<V>, i: nat, d: Column)
    requires WellFormed(f) && i < |f.rows| && d in f.rows[i] && d !in ApColumns
    ensures var r := Broadcast(Broadcast(Broadcast(f, ApX, ap.x), ApY, ap.y), ApZ, ap.z).rows[i];
      ApX in r && ApY in r && ApZ in r && r[ApX] == ap.x && r[ApY] == ap.y && r[ApZ] == ap.z &&
      d in r && r[d] == f.rows[i][d]
  {
    var withX := Broadcast(f, ApX, ap.x);
    var withY := Broadcast(withX, ApY, ap.y);
    var r := Broadcast(withY, ApZ, ap.z).rows[i];
    assert ApX in withX.rows[i] && withX.rows[i][ApX] == ap.x;
    assert ApX in withY.rows[i] && withY.rows[i][ApX] == ap.x;
  }

  /** Row i of that frame keeps the UE values of expanded row i and holds
      the AP position. */
  lemma UeAndApRow<V>(ap: Position<V>, expanded: seq<Row<V>>, i: nat, d: Column)
    requires forall i :: 0 <= i < |expanded| ==> expanded[i].Keys == set c | c in UeColumns
    requires i < |expanded| && d in UeColumns
    ensures var r := UeAndApFrame(ap, expanded).rows[i];
      ApX in r && ApY in r && ApZ in r && r[ApX] == ap.x && r[ApY] == ap.y && r[ApZ] == ap.z &&
      d in r && r[d] == expanded[i][d]
  {
    var ueFrame := FromRows(UeColumns, expanded);
    BroadcastApRow(ueFrame, ap, i, d);
  }

  /** `info_df`: the channel records as a frame with the seven channel
      columns, record i as row i. */
  function ChannelFrame<V>(records: seq<seq<V>>): (f: Frame<V>)
    requires RecordsFit(records)
    ensures WellFormed(f) && f.columns == ChannelColumns && |f.rows| == |records|
    ensures forall i, c :: 0 <= i < |records| && c in f.rows[i] ==> c in ChannelColumns
    ensures forall i, k :: 0 <= i < |records| && 0 <= k < |ChannelColumns| ==>
      ChannelColumns[k] in f.rows[i] && f.rows[i][ChannelColumns[k]] == records[i][k]
  {
    ColumnGroupsDistinct();
    FromRecords(ChannelColumns, records)
  }

  /** A channel row has no AP or UE column, so the join cannot shadow those. */
  lemma ChannelRowColumns<V>(r: Row<V>)
    requires forall c :: c in r ==> c in ChannelColumns
    ensures ApX !in r && ApY !in r && ApZ !in r && UeX !in r && UeY !in r && UeZ !in r
  {
  }

  /** `pd.concat` of the UE and AP frame with the channel frame. */
  function Combined<V>(ap: Position<V>, ue: seq<Position<V>>, records: seq<seq<V>>): (f: Frame<V>)
    requires |records| == RecordsPerUe * |ue| && RecordsFit(records)
    ensures WellFormed(f) && |f.rows| == |records|
  {
    ExpandedKeys(ue);
    ChannelColumnsApart();
    Concat(UeAndApFrame(ap, Repeated(UeRows(ue), |ue|)), ChannelFrame(records))
  }

  /** The join once the counts agree: the final column selection of the
      combined frame. */
  function Assemble<V>(ap: Position<V>, ue: seq<Position<V>>, records: seq<seq<V>>): Outcome<V>
    requires |records| == RecordsPerUe * |ue| && RecordsFit(records)
  {
    match Select(Combined(ap, ue, records), FinalColumns)
    case Some(rows) => Dataset(rows)
    case None => Raised(MissingColumns)
  }

  /** One row of the finished dataset, in the final column order: the AP
      position, the UE position, then the seven channel values. */
  function DatasetRow<V>(ap: Position<V>, p: Position<V>, record: seq<V>): seq<V> {
    [ap.x, ap.y, ap.z, p.x, p.y, p.z] + record
  }

  /** The combined frame's columns: with no rows pandas knows only the AP
      columns it broadcast and the channel columns. */
  lemma CombinedColumns<V>(ap: Position<V>, ue: seq<Position<V>>, records: seq<seq<V>>)
    requires |records| == RecordsPerUe * |ue| && RecordsFit(records)
    ensures Combined(ap, ue, records).columns ==
      if ue == [] then ApColumns + ChannelColumns else UeColumns + ApColumns + ChannelColumns
  {
    ExpandedKeys(ue);
    assert ue == [] <==> Repeated(UeRows(ue), |ue|) == [];
  }

  /** Combined row j holds the AP position. */
  lemma CombinedAp<V>(ap: Position<V>, ue: seq<Position<V>>, records: seq<seq<V>>, j: nat)
    requires |records| == RecordsPerUe * |ue| && RecordsFit(records) && j < |records|
    ensures var r := Combined(ap, ue, records).rows[j];
      ApX in r && ApY in r && ApZ in r && r[ApX] == ap.x && r[ApY] == ap.y && r[ApZ] == ap.z
  {
    ExpandedKeys(ue);
    var expanded := Repeated(UeRows(ue), |ue|);
    var left := UeAndApFrame(ap, expanded);
    var info := ChannelFrame(records);
    ChannelColumnsApart();
    assert Combined(ap, ue, records) == Concat(left, info);
    ChannelRowColumns(info.rows[j]);
    UeAndApRow(ap, expanded, j, UeX);
  }

  /** Combined row j holds the position of UE j / 25. */
  lemma CombinedUe<V>(ap: Position<V>, ue: seq<Position<V>>, records: seq<seq<V>>, j: nat)
    requires |records| == RecordsPerUe * |ue| && RecordsFit(records) && j < |records|
    ensures var r := Combined(ap, ue, records).rows[j];
      var p := ue[j / RecordsPerUe];
      UeX in r && UeY in r && UeZ in r && r[UeX] == p.x && r[UeY] == p.y && r[UeZ] == p.z
  {
    ExpandedKeys(ue);
    var expanded := Repeated(UeRows(ue), |ue|);
    var left := UeAndApFrame(ap, expanded);
    var info := ChannelFrame(records);
    ChannelColumnsApart();
    assert Combined(ap, ue, records) == Concat(left, info);
    var p := ue[j / RecordsPerUe];
    assert UeX in left.rows[j] && UeY in left.rows[j] && UeZ in left.rows[j] &&
      left.rows[j][UeX] == p.x && left.rows[j][UeY] == p.y && left.rows[j][UeZ] == p.z by {
      UeAndApRow(ap, expanded, j, UeX);
      UeAndApRow(ap, expanded, j, UeY);
      UeAndApRow(ap, expanded, j, UeZ);
      ExpandedRows(ue);
      assert expanded[j] == UeRow(p);
    }
    ChannelRowColumns(info.rows[j]);
  }

  /** Combined row j holds channel record j under the channel columns. */
  lemma CombinedChannel<V>(ap: Position<V>, ue: seq<Position<V>>, records: seq<seq<V>>, j: nat, m: nat)
    requires |records| == RecordsPerUe * |ue| && RecordsFit(records) && j < |records|
    requires m < |ChannelColumns|
    ensures ChannelColumns[m] in Combined(ap, ue, records).rows[j]
    ensures Combined(ap, ue, records).rows[j][ChannelColumns[m]] == records[j][m]
  {
    ExpandedKeys(ue);
    var info := ChannelFrame(records);
    var left := UeAndApFrame(ap, Repeated(UeRows(ue), |ue|));
    ChannelColumnsApart();
    assert Combined(ap, ue, records) == Concat(left, info);
    assert ChannelColumns[m] in info.rows[j] && info.rows[j][ChannelColumns[m]] == records[j][m];
  }

  /** A row holding the AP position, a UE position and a channel record,
      read in the final column order, is their dataset row. */
  lemma LaidOut<V>(r: Row<V>, row: seq<V>, ap: Position<V>, p: Position<V>, record: seq<V>)
    requires |record| == |ChannelColumns| && |row| == |FinalColumns|
    requires forall k :: 0 <= k < |FinalColumns| ==> FinalColumns[k] in r && row[k] == r[FinalColumns[k]]
    requires ApX in r && ApY in r && ApZ in r && r[ApX] == ap.x && r[ApY] == ap.y && r[ApZ] == ap.z
    requires UeX in r && UeY in r && UeZ in r && r[UeX] == p.x && r[UeY] == p.y && r[UeZ] == p.z
    requires forall m :: 0 <= m < |ChannelColumns| ==> ChannelColumns[m] in r && r[ChannelColumns[m]] == record[m]
    ensures row == DatasetRow(ap, p, record)
  {
    var expected := DatasetRow(ap, p, record);
    forall k | 0 <= k < |FinalColumns|
      ensures row[k] == expected[k]
    {
      if k >= 6 {
        assert FinalColumns[k] == ChannelColumns[k - 6];
      }
    }
  }

  /** Combined row j, read in the final column order, is the AP position,
      the position of UE j / 25 and channel record j. */
  lemma SelectedRow<V>(f: Frame<V>, j: nat, ap: Position<V>, p: Position<V>, record: seq<V>)
    requires WellFormed(f) && j < |f.rows| && |record| == |ChannelColumns|
    requires Select(f, FinalColumns).Some?
    requires var r := f.rows[j];
      ApX in r && ApY in r && ApZ in r && r[ApX] == ap.x && r[ApY] == ap.y && r[ApZ] == ap.z
    requires var r := f.rows[j];
      UeX in r && UeY in r && UeZ in r && r[UeX] == p.x && r[UeY] == p.y && r[UeZ] == p.z
    requires forall m :: 0 <= m < |ChannelColumns| ==>
      ChannelColumns[m] in f.rows[j] && f.rows[j][ChannelColumns[m]] == record[m]
    ensures Select(f, FinalColumns).value[j] == DatasetRow(ap, p, record)
  {
    LaidOut(f.rows[j], Select(f, FinalColumns).value[j], ap, p, record);
  }

  /** Combined row j holds the AP position, the position of UE j / 25 and channel record j. */
  lemma CombinedRow<V>(ap: Position<V>, ue: seq<Position<V>>, records: seq<seq<V>>, j: nat)
    requires |records| == RecordsPerUe * |ue| && RecordsFit(records) && j < |records|
    ensures var r := Combined(ap, ue, records).rows[j];
      ApX in r && ApY in r && ApZ in r && r[ApX] == ap.x && r[ApY] == ap.y && r[ApZ] == ap.z
    ensures var r := Combined(ap, ue, records).rows[j];
      var p := ue[j / RecordsPerUe];
      UeX in r && UeY in r && UeZ in r && r[UeX] == p.x && r[UeY] == p.y && r[UeZ] == p.z
    ensures forall m :: 0 <= m < |ChannelColumns| ==>
      ChannelColumns[m] in Combined(ap, ue, records).rows[j] &&
      Combined(ap, ue, records).rows[j][ChannelColumns[m]] == records[j][m]
  {
    CombinedAp(ap, ue, records, j);
    CombinedUe(ap, ue, records, j);
    forall m | 0 <= m < |ChannelColumns|
      ensures ChannelColumns[m] in Combined(ap, ue, records).rows[j] &&
        Combined(ap, ue, records).rows[j][ChannelColumns[m]] == records[j][m]
    {
      CombinedChannel(ap, ue, records, j, m);
    }
  }

  /** Once the counts agree and there is a UE position, the join yields one
      row per channel record: row j is the AP position, the position of UE
      j / 25 and channel record j, in the final column order. */
  lemma AssembleRows<V>(ap: Position<V>, ue: seq<Position<V>>, records: seq<seq<V>>)
    requires |records| == RecordsPerUe * |ue| && RecordsFit(records) && ue != []
    ensures Assemble(ap, ue, records).Dataset?
    ensures |Assemble(ap, ue, records).rows| == |records| == RecordsPerUe * |ue|
    ensures forall j :: 0 <= j < |records| ==>
      Assemble(ap, ue, records).rows[j] == DatasetRow(ap, ue[j / RecordsPerUe], records[j])
  {
    var f := Combined(ap, ue, records);
    CombinedColumns(ap, ue, records);
    FinalColumnsPresent();
    forall j | 0 <= j < |records|
      ensures Select(f, FinalColumns).value[j] == DatasetRow(ap, ue[j / RecordsPerUe], records[j])
    {
      CombinedRow(ap, ue, records, j);
      SelectedRow(f, j, ap, ue[j / RecordsPerUe], records[j]);
    }
  }

  /** The whole function on the contents of the three files. */
  function CombinedDataset<V>(apLines: seq<string>, ue: seq<Position<V>>,
                              channelLines: seq<string>, parse: Parser<V>): Outcome<V>
    requires ReadAp(apLines, parse).Some? ==> RecordsFit(ChannelRecords(channelLines, parse))
  {
    match ReadAp(apLines, parse)
    case None => Raised(MalformedApFile)
    case Some(ap) =>
      var records := ChannelRecords(channelLines, parse);
      if |records| != RecordsPerUe * |ue| then NoDataset(RecordsPerUe * |ue|, |records|)
      else Assemble(ap, ue, records)
  }

  /** create_combined_dataset_v2, step by step. */
  method CreateCombinedDataset<V>(apLines: seq<string>, ue: seq<Position<V>>,
                                  channelLines: seq<string>, parse: Parser<V>)
    returns (out: Outcome<V>)
    requires ReadAp(apLines, parse).Some? ==> RecordsFit(ChannelRecords(channelLines, parse))
    ensures out == CombinedDataset(apLines, ue, channelLines, parse)
  {
    var ap := ReadAp(apLines, parse);
    if ap.None? {
      return Raised(MalformedApFile);
    }
    var records := ReadChannelRecords(channelLines, parse);
    var info := ChannelFrame(records);
    var expected := RecordsPerUe * |ue|;
    if |records| != expected {
      return NoDataset(expected, |records|);
    }
    var expanded := ExpandUe(UeRows(ue));
    ExpandedKeys(ue);
    ChannelColumnsApart();
    var combined := Concat(UeAndApFrame(ap.value, expanded), info);
    assert combined == Combined(ap.value, ue, records);
    var selected := Select(combined, FinalColumns);
    out := if selected.Some? then Dataset(selected.value) else Raised(MissingColumns);
  }

  // -----------------------------------------------------------------------
  // Properties of the whole function

  /** With no UE position and no channel record the count check passes, but
      the expanded frame has no columns, so selecting UE_x raises KeyError. */
  lemma EmptyInputsRaise<V>(ap: Position<V>)
    ensures Assemble(ap, [], []) == Raised(MissingColumns)
  {
    CombinedColumns(ap, [], []);
    UeXAbsent();
  }

  /** Which of the four outcomes a call ends in, each case in both directions. */
  lemma Outcomes<V>(apLines: seq<string>, ue: seq<Position<V>>, channelLines: seq<string>, parse: Parser<V>)
    requires ReadAp(apLines, parse).Some? ==> RecordsFit(ChannelRecords(channelLines, parse))
    ensures var out := CombinedDataset(apLines, ue, channelLines, parse);
      out == Raised(MalformedApFile) <==> ReadAp(apLines, parse).None?
    ensures var out := CombinedDataset(apLines, ue, channelLines, parse);
      var records := ChannelRecords(channelLines, parse);
      out.NoDataset? <==> ReadAp(apLines, parse).Some? && |records| != RecordsPerUe * |ue|
    ensures var out := CombinedDataset(apLines, ue, channelLines, parse);
      var records := ChannelRecords(channelLines, parse);
      out.NoDataset? ==> out.expected == RecordsPerUe * |ue| && out.actual == |records|
    ensures var out := CombinedDataset(apLines, ue, channelLines, parse);
      var records := ChannelRecords(channelLines, parse);
      out == Raised(MissingColumns) <==> ReadAp(apLines, parse).Some? && ue == [] && records == []
    ensures var out := CombinedDataset(apLines, ue, channelLines, parse);
      var records := ChannelRecords(channelLines, parse);
      out.Dataset? <==> ReadAp(apLines, parse).Some? && |records| == RecordsPerUe * |ue| && ue != []
  {
    var records := ChannelRecords(channelLines, parse);
    match ReadAp(apLines, parse)
    case None =>
    case Some(ap) =>
      if |records| == RecordsPerUe * |ue| {
        if ue == [] {
          assert records == [];
          EmptyInputsRaise<V>(ap);
        } else {
          AssembleRows(ap, ue, records);
        }
      }
  }

  /** On success the table has one row per kept channel record, 25 per UE
      position; row j holds the AP position of the AP file's second line,
      the position of UE j / 25 and the j-th kept channel record. */
  lemma DatasetRows<V>(apLines: seq<string>, ue: seq<Position<V>>, channelLines: seq<string>, parse: Parser<V>)
    requires ReadAp(apLines, parse).Some? ==> RecordsFit(ChannelRecords(channelLines, parse))
    requires CombinedDataset(apLines, ue, channelLines, parse).Dataset?
    ensures ReadAp(apLines, parse).Some?
    ensures var rows := CombinedDataset(apLines, ue, channelLines, parse).rows;
      var records := ChannelRecords(channelLines, parse);
      |rows| == |records| == RecordsPerUe * |ue| &&
      forall j :: 0 <= j < |rows| ==>
        rows[j] == DatasetRow(ReadAp(apLines, parse).value, ue[j / RecordsPerUe], records[j])
  {
    Outcomes(apLines, ue, channelLines, parse);
    AssembleRows(ReadAp(apLines, parse).value, ue, ChannelRecords(channelLines, parse));
  }

  /** The 25 rows of block i all carry UE position i. */
  lemma BlockSharesUe<V>(apLines: seq<string>, ue: seq<Position<V>>, channelLines: seq<string>,
                         parse: Parser<V>, i: nat, t: nat)
    requires ReadAp(apLines, parse).Some? ==> RecordsFit(ChannelRecords(channelLines, parse))
    requires CombinedDataset(apLines, ue, channelLines, parse).Dataset?
    requires i < |ue| && t < RecordsPerUe
    ensures ReadAp(apLines, parse).Some?
    ensures var rows := CombinedDataset(apLines, ue, channelLines, parse).rows;
      var records := ChannelRecords(channelLines, parse);
      var j := RecordsPerUe * i + t;
      j < |rows| == |records| &&
      rows[j] == DatasetRow(ReadAp(apLines, parse).value, ue[i], records[j])
  {
    DatasetRows(apLines, ue, channelLines, parse);
    BlockOf(RecordsPerUe * i + t, i);
  }

  // -----------------------------------------------------------------------
  // Files that give a table

  /** A channel file whose every record is the same line: a header, then
      25 * n copies of the line, then one separator. */
  function UniformChannelFile(header: string, line: string, n: nat): seq<string> {
    [header] + seq(RecordsPerUe * n, _ => line) + [Sentinel]
  }

  /** An AP file whose second line is three numbers written with single
      spaces gives their position. */
  lemma UniformApFile<V>(apHeader: string, apTokens: seq<string>, parse: Parser<V>)
    requires |apTokens| == 3 && forall k :: 0 <= k < 3 ==> IsWord(apTokens[k]) && parse(apTokens[k]).Some?
    ensures ReadAp([apHeader, JoinWith(apTokens, SingleSpaces(2))], parse) ==
      Some(Position(parse(apTokens[0]).value, parse(apTokens[1]).value, parse(apTokens[2]).value))
  {
    var apLine := JoinWith(apTokens, SingleSpaces(2));
    assert [] + apLine + [] == apLine;
    assert [apHeader, [] + apLine + []] + [] == [apHeader, apLine];
    ApRoundTrip(apHeader, [], apTokens, SingleSpaces(2), [], [], parse);
  }

  /** The separator line yields no record. */
  lemma SeparatorSkipped<V>(parse: Parser<V>)
    ensures !IsRecordLine(Sentinel, parse)
  {
    assert [] + Sentinel + [] == Sentinel;
    BlankAndSeparatorSkipped(Sentinel, [], [], parse);
    LineRecordMeaning(Sentinel, parse);
  }

  /** m copies of a record line: m copies of its record. */
  lemma CopiesKept<V>(line: string, m: nat, parse: Parser<V>)
    requires IsRecordLine(line, parse)
    ensures LineRecord(line, parse).Some?
    ensures var records := Filter(seq(m, _ => line), parse);
      |records| == m && forall j :: 0 <= j < m ==> records[j] == LineRecord(line, parse).value
  {
    LineRecordMeaning(line, parse);
    FilterAllRecords(seq(m, _ => line), parse);
  }

  /** A header, m copies of a record line, then the separator: m copies of
      the line's record. */
  lemma CopiesThenSeparator<V>(header: string, line: string, m: nat, parse: Parser<V>)
    requires IsRecordLine(line, parse)
    ensures LineRecord(line, parse).Some?
    ensures var records := ChannelRecords([header] + seq(m, _ => line) + [Sentinel], parse);
      |records| == m && forall j :: 0 <= j < m ==> records[j] == LineRecord(line, parse).value
  {
    var body := seq(m, _ => line);
    CopiesKept(line, m, parse);
    SeparatorSkipped(parse);
    SkippedLine(body, Sentinel, [], parse);
    assert body + [Sentinel] + [] == body + [Sentinel];
    assert Filter([], parse) == [];
    assert [header] + body + [Sentinel] == [header] + (body + [Sentinel]);
    ChannelRecordsSkipHeader(header, body + [Sentinel], parse);
  }

  /** A channel file of 25 * n copies of one line of seven numbers, written
      with single spaces, holds 25 * n copies of that line's record. */
  lemma UniformChannelRecords<V>(header: string, tokens: seq<string>, n: nat, parse: Parser<V>)
    requires |tokens| == |ChannelColumns|
    requires forall k :: 0 <= k < |tokens| ==> IsWord(tokens[k]) && parse(tokens[k]).Some?
    ensures var records := ChannelRecords(UniformChannelFile(header, JoinWith(tokens, SingleSpaces(6)), n), parse);
      |records| == RecordsPerUe * n && RecordsFit(records) &&
      forall j :: 0 <= j < |records| ==> ParseAll(tokens, parse) == Some(records[j])
  {
    var line := JoinWith(tokens, SingleSpaces(6));
    assert [] + line + [] == line;
    RecordRoundTrip([], tokens, SingleSpaces(6), [], parse);
    LineRecordMeaning(line, parse);
    CopiesThenSeparator(header, line, RecordsPerUe * n, parse);
  }

  /** An AP file whose second line holds three numbers, UE positions, and a
      channel file of 25 equal records per UE position give a table: row j
      is the AP position, UE position j / 25 and the record. */
  lemma UniformFiles<V>(apHeader: string, apTokens: seq<string>, ue: seq<Position<V>>,
                        header: string, tokens: seq<string>, parse: Parser<V>)
    requires |apTokens| == 3 && forall k :: 0 <= k < 3 ==> IsWord(apTokens[k]) && parse(apTokens[k]).Some?
    requires |tokens| == |ChannelColumns|
    requires forall k :: 0 <= k < |tokens| ==> IsWord(tokens[k]) && parse(tokens[k]).Some?
    requires ue != []
    ensures var channel := UniformChannelFile(header, JoinWith(tokens, SingleSpaces(6)), |ue|);
      RecordsFit(ChannelRecords(channel, parse))
    ensures var apLines := [apHeader, JoinWith(apTokens, SingleSpaces(2))];
      var channel := UniformChannelFile(header, JoinWith(tokens, SingleSpaces(6)), |ue|);
      var out := CombinedDataset(apLines, ue, channel, parse);
      var ap := Position(parse(apTokens[0]).value, parse(apTokens[1]).value, parse(apTokens[2]).value);
      out.Dataset? && |out.rows| == RecordsPerUe * |ue| &&
      forall j :: 0 <= j < |out.rows| ==>
        out.rows[j] == DatasetRow(ap, ue[j / RecordsPerUe], ParseAll(tokens, parse).value)
  {
    var apLines := [apHeader, JoinWith(apTokens, SingleSpaces(2))];
    var channel := UniformChannelFile(header, JoinWith(tokens, SingleSpaces(6)), |ue|);
    UniformApFile(apHeader, apTokens, parse);
    UniformChannelRecords(header, tokens, |ue|, parse);
    Outcomes(apLines, ue, channel, parse);
    DatasetRows(apLines, ue, channel, parse);
  }

  /** `float` on single decimal digits, for the example below. */
  function Digit(s: string): Option<int> {
    if |s| == 1 && '0' <= s[0] <= '9' then Some(s[0] as int - '0' as int) else None
  }

  /** Two UE positions and 50 channel records: rows 0 to 24 carry the first
      UE position, rows 25 to 49 the second. */
  lemma TwoBlockExample()
    ensures RecordsFit(ChannelRecords(UniformChannelFile("params", "0 0 0 0 0 0 0", 2), Digit))
    ensures var out := CombinedDataset(["AP", "1 2 3"], [Position(4, 5, 6), Position(7, 8, 9)],
                                       UniformChannelFile("params", "0 0 0 0 0 0 0", 2), Digit);
      out.Dataset? && |out.rows| == 50 &&
      out.rows[0] == out.rows[24] == [1, 2, 3, 4, 5, 6, 0, 0, 0, 0, 0, 0, 0] &&
      out.rows[25] == out.rows[49] == [1, 2, 3, 7, 8, 9, 0, 0, 0, 0, 0, 0, 0]
  {
    ExampleLines();
    var ue := [Position(4, 5, 6), Position(7, 8, 9)];
    UniformFiles("AP", ["1", "2", "3"], ue, "params", seq(7, _ => "0"), Digit);
    var out := CombinedDataset(["AP", "1 2 3"], ue, UniformChannelFile("params", "0 0 0 0 0 0 0", 2), Digit);
    ExampleRows(out.rows, ue);
  }

  /** The example's lines, written out, and the values they hold. */
  lemma ExampleLines()
    ensures JoinWith(["1", "2", "3"], SingleSpaces(2)) == "1 2 3"
    ensures JoinWith(seq(7, _ => "0"), SingleSpaces(6)) == "0 0 0 0 0 0 0"
    ensures Digit("1") == Some(1) && Digit("2") == Some(2) && Digit("3") == Some(3)
    ensures ParseAll(seq(7, _ => "0"), Digit) == Some([0, 0, 0, 0, 0, 0, 0])
  {
    var apTokens := ["1", "2", "3"];
    assert SingleSpaces(2) == [" ", " "];
    assert JoinWith(apTokens[2..], []) == "3";
    assert JoinWith(apTokens[1..], [" "]) == "2 3";
    ExampleChannelLine();
  }

  lemma ExampleChannelLine()
    ensures JoinWith(seq(7, _ => "0"), SingleSpaces(6)) == "0 0 0 0 0 0 0"
    ensures ParseAll(seq(7, _ => "0"), Digit) == Some([0, 0, 0, 0, 0, 0, 0])
  {
    var tokens := seq(7, _ => "0");
    assert SingleSpaces(6) == [" ", " ", " ", " ", " ", " "];
    assert tokens == ["0", "0", "0", "0", "0", "0", "0"];
    ExampleZeros(tokens);
    assert JoinWith(tokens[6..], []) == "0";
    assert JoinWith(tokens[5..], [" "]) == "0 0";
    assert JoinWith(tokens[4..], [" ", " "]) == "0 0 0";
    assert JoinWith(tokens[3..], [" ", " ", " "]) == "0 0 0 0";
    assert JoinWith(tokens[2..], [" ", " ", " ", " "]) == "0 0 0 0 0";
    assert JoinWith(tokens[1..], [" ", " ", " ", " ", " "]) == "0 0 0 0 0 0";
  }

  lemma ExampleZeros(tokens: seq<string>)
    requires tokens == ["0", "0", "0", "0", "0", "0", "0"]
    ensures ParseAll(tokens, Digit) == Some([0, 0, 0, 0, 0, 0, 0])
  {
    assert Digit("0") == Some(0);
    var zeros := ParseAll(tokens, Digit).value;
    assert |zeros| == 7 && forall k :: 0 <= k < 7 ==> zeros[k] == 0;
    assert zeros == [0, 0, 0, 0, 0, 0, 0];
  }

  /** Rows of the example's shape, read at the ends of the two blocks. */
  lemma ExampleRows(rows: seq<seq<int>>, ue: seq<Position<int>>)
    requires ue == [Position(4, 5, 6), Position(7, 8, 9)] && |rows| == 50
    requires forall j :: 0 <= j < |rows| ==>
      rows[j] == DatasetRow(Position(1, 2, 3), ue[j / RecordsPerUe], [0, 0, 0, 0, 0, 0, 0])
    ensures rows[0] == rows[24] == [1, 2, 3, 4, 5, 6, 0, 0, 0, 0, 0, 0, 0]
    ensures rows[25] == rows[49] == [1, 2, 3, 7, 8, 9, 0, 0, 0, 0, 0, 0, 0]
  {
    assert rows[0] == DatasetRow(Position(1, 2, 3), ue[0], [0, 0, 0, 0, 0, 0, 0]);
    assert rows[24] == DatasetRow(Position(1, 2, 3), ue[24 / RecordsPerUe], [0, 0, 0, 0, 0, 0, 0]);
    assert rows[25] == DatasetRow(Position(1, 2, 3), ue[25 / RecordsPerUe], [0, 0, 0, 0, 0, 0, 0]);
    assert rows[49] == DatasetRow(Position(1, 2, 3), ue[49 / RecordsPerUe], [0, 0, 0, 0, 0, 0, 0]);
  }
}
