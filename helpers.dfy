/** The pure helpers around the edge list: the csv-file filter, the BigQuery
    table schema, the two row transforms applied before an edge list leaves
    the parser and `save_edge_list`, which routes the transformed rows to
    BigQuery, a parquet upload or a local csv file and then empties the
    parser's edge list. */
module Helpers {
  import opened Common
  import Framing
  import TxParser
  import Uploader

  type Edge = TxParser.Edge

  // ---------------------------------------------------------------------
  // get_csv_files

  /** `get_csv_files(path)` on the directory listing `names`. */
  function GetCsvFiles(path: string, names: seq<string>): seq<string>
  {
    SelectFiles(path, names, "raw", ".csv")
  }

  /** The csv files are sorted and are exactly the listed names starting
      with `"raw"` and ending with `".csv"`, joined with the directory, each
      as often as it is listed. */
  lemma GetCsvFilesSpec(path: string, names: seq<string>)
    ensures SortedStrings(GetCsvFiles(path, names))
    ensures multiset(GetCsvFiles(path, names)) == multiset(JoinAll(path, KeepNames(names, "raw", ".csv")))
    ensures forall n :: n in names && StartsWith(n, "raw") && EndsWith(n, ".csv")
              ==> Join(path, n) in GetCsvFiles(path, names)
    ensures forall p :: p in GetCsvFiles(path, names)
              ==> exists n :: n in names && StartsWith(n, "raw") && EndsWith(n, ".csv") && p == Join(path, n)
  {
    SelectFilesSpec(path, names, "raw", ".csv");
  }

  // ---------------------------------------------------------------------
  // get_table_schema

  datatype FieldType = INTEGER | STRING

  datatype Column = Column(name: string, fieldType: FieldType)

  /** The types of the base columns: six for raw edges, four otherwise. */
  function BaseTypes(raw: bool): seq<FieldType>
  {
    if raw then [INTEGER, STRING, STRING, INTEGER, STRING, INTEGER]
    else [INTEGER, STRING, STRING, STRING]
  }

  function Flag(b: bool): nat { if b then 1 else 0 }

  /** `get_table_schema(cls, cblk, cvalue, raw)`; `None` where `cls` is too
      short for the base columns (IndexError). */
  function TableSchema(cls: seq<string>, cblk: bool, cvalue: bool, raw: bool): (r: Option<seq<Column>>)
    ensures r.None? <==> |cls| < |BaseTypes(raw)|
  {
    var types := BaseTypes(raw);
    if |cls| < |types| then None
    else
      var base := seq(|types|, k requires 0 <= k < |types| => Column(cls[k], types[k]));
      var withValue := if cvalue then base + [Column("value", INTEGER)] else base;
      Some(if cblk then withValue + [Column("blk_file_nr", INTEGER)] else withValue)
  }

  /** The schema's shape: the base columns take their names from `cls` and
      their types from the raw or non-raw list, then an INTEGER `"value"`
      column iff `cvalue` and an INTEGER `"blk_file_nr"` column iff `cblk`,
      in that order and as the last columns. */
  lemma TableSchemaShape(cls: seq<string>, cblk: bool, cvalue: bool, raw: bool)
    requires |cls| >= |BaseTypes(raw)|
    ensures var c := TableSchema(cls, cblk, cvalue, raw).value; var n := |BaseTypes(raw)|;
      |c| == n + Flag(cvalue) + Flag(cblk)
      && (forall k :: 0 <= k < n ==> c[k] == Column(cls[k], BaseTypes(raw)[k]))
      && (cvalue ==> c[n] == Column("value", INTEGER))
      && (cblk ==> c[|c| - 1] == Column("blk_file_nr", INTEGER))
      && (forall k :: n <= k < |c| ==> c[k].fieldType == INTEGER)
  {
  }

  /** Fed the uploader's own column names, the raw schema names its columns
      exactly as those names, so the schema and the names always agree. */
  lemma SchemaOfColumnNames(cvalue: bool, cblk: bool)
    ensures var names := Uploader.ColumnNames(cvalue, cblk);
      TableSchema(names, cblk, cvalue, true).Some?
      && |TableSchema(names, cblk, cvalue, true).value| == |names|
      && forall k :: 0 <= k < |names| ==> TableSchema(names, cblk, cvalue, true).value[k].name == names[k]
  {
    var names := Uploader.ColumnNames(cvalue, cblk);
    TableSchemaShape(names, cblk, cvalue, true);
  }

  // ---------------------------------------------------------------------
  // The row transforms of save_edge_list

  /** The `cblk` transform: `blkfilenr` appended to every row. */
  function AppendBlk(rows: seq<Edge>, n: int): (r: seq<Edge>)
    ensures |r| == |rows|
    ensures forall i :: 0 <= i < |r| ==> |r[i]| == |rows[i]| + 1
    ensures forall i :: 0 <= i < |r| ==> r[i][..|rows[i]|] == rows[i] && r[i][|rows[i]|] == Int(n)
  {
    if |rows| == 0 then []
    else AppendBlk(rows[..|rows| - 1], n) + [rows[|rows| - 1] + [Int(n)]]
  }

  /** The raw flattening of one row: a tuple third cell is spliced into its
      items, any other third cell is written twice. `None` where the row has
      no third cell (IndexError). */
  function FlattenRow(row: Edge): (r: Option<Edge>)
    ensures r.None? <==> |row| < 3
  {
    if |row| < 3 then None
    else if row[2].Tuple? then Some(row[..2] + row[2].items + row[3..])
    else Some(row[..3] + row[2..])
  }

  /** A row whose third cell is a `(hash, index)` pair or a plain cell gains
      exactly one cell: its first two cells and its cells after the third
      stay where they were, shifted by one, and the new third and fourth
      cells are the pair's items or the plain cell twice. */
  lemma FlattenGainsOne(row: Edge)
    requires |row| >= 3
    requires row[2].Tuple? ==> |row[2].items| == 2
    ensures var r := FlattenRow(row).value;
      |r| == |row| + 1
      && r[..2] == row[..2] && r[4..] == row[3..]
      && (row[2].Tuple? ==> r[2..4] == row[2].items)
      && (!row[2].Tuple? ==> r[2] == row[2] && r[3] == row[2])
  {
    var r := FlattenRow(row).value;
    if row[2].Tuple? {
      assert r == row[..2] + row[2].items + row[3..];
      assert r[4..] == row[3..];
    } else {
      assert r == row[..3] + row[2..];
      assert r[4..] == row[3..];
    }
  }

  /** Every row flattened, in order; `None` if one of them is too short. */
  function FlattenRows(rows: seq<Edge>): (r: Option<seq<Edge>>)
    ensures r.None? <==> exists i :: 0 <= i < |rows| && |rows[i]| < 3
    ensures r.Some? ==> |r.value| == |rows| && forall i :: 0 <= i < |rows| ==> FlattenRow(rows[i]) == Some(r.value[i])
  {
    if |rows| == 0 then Some([])
    else
      var init := FlattenRows(rows[..|rows| - 1]);
      var last := FlattenRow(rows[|rows| - 1]);
      assert forall i :: 0 <= i < |rows| - 1 ==> rows[..|rows| - 1][i] == rows[i];
      if init.None? || last.None? then None else Some(init.value + [last.value])
  }

  /** `rE` after the `cblk` and `raw` transforms; `None` where flattening
      raises. */
  function Transform(rows: seq<Edge>, fn: int, cblk: bool, raw: bool): Option<seq<Edge>>
  {
    var withBlk := if cblk then AppendBlk(rows, fn) else rows;
    if raw then FlattenRows(withBlk) else Some(withBlk)
  }

  /** The transforms keep the number and order of the rows; each row gains
      one cell per transform applied, the block number is the last cell
      under `cblk`, and flattening fails only on a row of fewer than three
      cells (two once the block number is appended). */
  lemma {:induction false} TransformShape(rows: seq<Edge>, fn: int, cblk: bool, raw: bool)
    requires forall i :: 0 <= i < |rows| ==> |rows[i]| >= 3 && (rows[i][2].Tuple? ==> |rows[i][2].items| == 2)
    ensures Transform(rows, fn, cblk, raw).Some?
    ensures var t := Transform(rows, fn, cblk, raw).value;
      |t| == |rows|
      && (forall i :: 0 <= i < |t| ==> |t[i]| == |rows[i]| + Flag(cblk) + Flag(raw))
      && (forall i :: 0 <= i < |t| ==> t[i][..2] == rows[i][..2])
      && (cblk ==> forall i :: 0 <= i < |t| ==> t[i][|t[i]| - 1] == Int(fn))
  {
    var withBlk: seq<Edge> := if cblk then AppendBlk(rows, fn) else rows;
    if raw {
      forall i | 0 <= i < |withBlk|
        ensures |withBlk[i]| >= 3 && (withBlk[i][2].Tuple? ==> |withBlk[i][2].items| == 2)
        ensures withBlk[i][..2] == rows[i][..2]
      {
        if cblk {
          assert withBlk[i][..|rows[i]|] == rows[i];
          assert withBlk[i][2] == rows[i][2];
          assert withBlk[i][..2] == withBlk[i][..|rows[i]|][..2];
        }
      }
      var t := FlattenRows(withBlk).value;
      forall i | 0 <= i < |t|
        ensures |t[i]| == |rows[i]| + Flag(cblk) + 1
        ensures t[i][..2] == rows[i][..2]
        ensures cblk ==> t[i][|t[i]| - 1] == Int(fn)
      {
        FlattenGainsOne(withBlk[i]);
        if cblk {
          var w := withBlk[i];
          assert w[|w| - 1] == Int(fn);
          assert t[i][4..] == w[3..];
          assert t[i][|t[i]| - 1] == t[i][4..][|t[i]| - 5];
        }
      }
    }
  }

  /** A cell fits a column type when it is an integer for INTEGER and a
      string for STRING. */
  predicate Fits(v: Value, t: FieldType)
  {
    (t == INTEGER && v.Int?) || (t == STRING && v.Str?)
  }

  lemma FlattenOne(w: Edge)
    requires |w| >= 3
    ensures FlattenRows([w]) == Some([FlattenRow(w).value])
  {
    var none: seq<Edge> := [];
    assert [w][..0] == none;
    assert FlattenRows([w][..0]) == Some(none);
    assert FlattenRows([w]) == Some(none + [FlattenRow(w).value]);
    assert none + [FlattenRow(w).value] == [FlattenRow(w).value];
  }

  lemma AppendBlkOne(e: Edge, fn: int)
    ensures AppendBlk([e], fn) == [e + [Int(fn)]]
  {
    assert [e][..0] == [];
  }

  lemma TransformOne(e: Edge, fn: int, cblk: bool)
    requires |e| >= 3
    ensures Transform([e], fn, cblk, true) == Some([FlattenRow(if cblk then e + [Int(fn)] else e).value])
  {
    var w := if cblk then e + [Int(fn)] else e;
    AppendBlkOne(e, fn);
    FlattenOne(w);
  }

  lemma RawTimestampedEdge(cvalue: bool, blS: int, txid: string, src: Value, v: seq<string>, index: nat, val: seq<int>)
    requires index < |v| && (cvalue ==> index < |val|)
    ensures TxParser.EdgeAt(TxParser.Flags(true, true, cvalue), Some(blS), Some(txid), src, v, index, val)
         == Some([Int(blS), Str(txid), src, Str(v[index]), Int(index)] + if cvalue then [Int(val[index])] else [])
  {
    var base := [Int(blS), Str(txid), src, Str(v[index]), Int(index)];
    if cvalue {
      assert base + [Int(val[index])] == [Int(blS), Str(txid), src, Str(v[index]), Int(index), Int(val[index])];
    } else {
      assert base + [] == base;
    }
  }

  lemma RawSchemaTypes(cvalue: bool, cblk: bool)
    ensures var names := Uploader.ColumnNames(cvalue, cblk);
      var schema := TableSchema(names, cblk, cvalue, true);
      schema.Some? && |schema.value| == |names|
      && (forall k :: 0 <= k < 6 ==> schema.value[k].fieldType == BaseTypes(true)[k])
      && (forall k :: 6 <= k < |names| ==> schema.value[k].fieldType == INTEGER)
  {
    TableSchemaShape(Uploader.ColumnNames(cvalue, cblk), cblk, cvalue, true);
  }

  /** The cells of a transformed raw, time-stamped edge from a `(hash, index)` source. */
  function RawRow(cvalue: bool, cblk: bool, fn: int, blS: int, txid: string,
                  h: string, i: nat, dest: string, index: nat, val: seq<int>): seq<Value>
    requires cvalue ==> index < |val|
  {
    [Int(blS), Str(txid), Str(h), Int(i), Str(dest), Int(index)]
      + (if cvalue then [Int(val[index])] else []) + (if cblk then [Int(fn)] else [])
  }

  lemma RawEdgeRow(cvalue: bool, cblk: bool, fn: int, blS: int, txid: string,
                   h: string, i: nat, v: seq<string>, index: nat, val: seq<int>)
    requires index < |v| && (cvalue ==> index < |val|)
    ensures var f := TxParser.Flags(true, true, cvalue);
      var e := TxParser.EdgeAt(f, Some(blS), Some(txid), Tuple([Str(h), Int(i)]), v, index, val);
      e.Some? && Transform([e.value], fn, cblk, true) == Some([RawRow(cvalue, cblk, fn, blS, txid, h, i, v[index], index, val)])
  {
    RawTimestampedEdge(cvalue, blS, txid, Tuple([Str(h), Int(i)]), v, index, val);
    var value: seq<Value> := if cvalue then [Int(val[index])] else [];
    var blk: seq<Value> := if cblk then [Int(fn)] else [];
    var e := [Int(blS), Str(txid), Tuple([Str(h), Int(i)]), Str(v[index]), Int(index)] + value;
    var w := if cblk then e + [Int(fn)] else e;
    var tail := [Str(v[index]), Int(index)] + (value + blk);
    assert w == [Int(blS), Str(txid), Tuple([Str(h), Int(i)])] + tail;
    TransformOne(e, fn, cblk);
    FlattenTupleRow(Int(blS), Str(txid), [Str(h), Int(i)], tail);
    var six := [Int(blS), Str(txid), Str(h), Int(i), Str(v[index]), Int(index)];
    SpliceSix(Int(blS), Str(txid), Str(h), Int(i), Str(v[index]), Int(index), value + blk);
    assert six + (value + blk) == six + value + blk;
  }

  lemma SpliceSix(x1: Value, x2: Value, x3: Value, x4: Value, x5: Value, x6: Value, t: seq<Value>)
    ensures [x1, x2] + [x3, x4] + ([x5, x6] + t) == [x1, x2, x3, x4, x5, x6] + t
  {
  }

  /** Flattening a row whose third cell is a tuple splices the tuple's items in. */
  lemma FlattenTupleRow(a: Value, b: Value, items: seq<Value>, rest: seq<Value>)
    ensures FlattenRow([a, b, Tuple(items)] + rest) == Some([a, b] + items + rest)
  {
    var w := [a, b, Tuple(items)] + rest;
    assert w[..2] == [a, b] && w[2] == Tuple(items) && w[3..] == rest;
  }

  lemma RawRowFits(cvalue: bool, cblk: bool, fn: int, blS: int, txid: string,
                   h: string, i: nat, dest: string, index: nat, val: seq<int>)
    requires cvalue ==> index < |val|
    ensures var row := RawRow(cvalue, cblk, fn, blS, txid, h, i, dest, index, val);
      var names := Uploader.ColumnNames(cvalue, cblk);
      var schema := TableSchema(names, cblk, cvalue, true);
      schema.Some? && |row| == |names| == |schema.value|
      && forall k :: 0 <= k < |row| ==> Fits(row[k], schema.value[k].fieldType)
  {
    var row := RawRow(cvalue, cblk, fn, blS, txid, h, i, dest, index, val);
    var tail := (if cvalue then [Int(val[index])] else []) + (if cblk then [Int(fn)] else []);
    assert row == [Int(blS), Str(txid), Str(h), Int(i), Str(dest), Int(index)] + tail;
    RawSchemaTypes(cvalue, cblk);
    var schema := TableSchema(Uploader.ColumnNames(cvalue, cblk), cblk, cvalue, true).value;
    forall k | 0 <= k < |row|
      ensures Fits(row[k], schema[k].fieldType)
    {
      if k >= 6 {
        assert row[k] == tail[k - 6];
      }
    }
  }

  /** A raw, time-stamped edge from an unresolved `(hash, index)` source,
      once transformed, has one cell per uploader column name and each cell
      fits the type the raw schema gives that column. Only tuple sources are
      covered: a coinbase source `"00"` is not a
      tuple, so `FlattenRow` copies that string into both the `hash` and the
      INTEGER `vout` column, where it does not fit. */
  lemma RawEdgeFitsSchema(cvalue: bool, cblk: bool, fn: int, blS: int, txid: string,
                          h: string, i: nat, v: seq<string>, index: nat, val: seq<int>)
    requires index < |v| && (cvalue ==> index < |val|)
    ensures var f := TxParser.Flags(true, true, cvalue);
      var e := TxParser.EdgeAt(f, Some(blS), Some(txid), Tuple([Str(h), Int(i)]), v, index, val);
      var names := Uploader.ColumnNames(cvalue, cblk);
      var schema := TableSchema(names, cblk, cvalue, true);
      e.Some? && Transform([e.value], fn, cblk, true).Some? && schema.Some?
      && var row := Transform([e.value], fn, cblk, true).value[0];
      |row| == |names| == |schema.value|
      && forall k :: 0 <= k < |row| ==> Fits(row[k], schema.value[k].fieldType)
  {
    RawEdgeRow(cvalue, cblk, fn, blS, txid, h, i, v, index, val);
    RawRowFits(cvalue, cblk, fn, blS, txid, h, i, v[index], index, val);
  }

  // ---------------------------------------------------------------------
  // save_edge_list

  /** Python's `str(n)` for a non-negative integer. */
  function DecimalString(n: nat): (r: string)
    ensures |r| >= 1
    ensures forall k :: 0 <= k < |r| ==> Framing.IsDigit(r[k])
    ensures r[0] == '0' ==> r == "0"
  {
    if n < 10 then [Framing.DigitChar(n)]
    else DecimalString(n / 10) + [Framing.DigitChar(n % 10)]
  }

  /** Reading the digits back gives the number. */
  lemma {:induction false} DecimalStringRoundTrip(n: nat)
    ensures Framing.DecimalValue(DecimalString(n)) == n
  {
    if n >= 10 {
      var d := DecimalString(n / 10);
      var r := DecimalString(n);
      assert r[..|r| - 1] == d;
      DecimalStringRoundTrip(n / 10);
    }
  }

  /** What the uploader's call returns: `"stop"` or anything else. */
  datatype Reply = Continue | Stop

  /** Where the transformed rows go. */
  datatype Destination = BigQuery | ParquetUpload | Skipped | LocalFile(path: string)

  datatype SaveError =
    | RowTooShort      // flattening meets a row without a third cell
    | AxUnbound        // the file-name suffix was never assigned
    | EmptyEdgeList    // `tablestats` reads the first edge of an empty list

  datatype SaveResult = Saved(dest: Destination, rows: seq<Edge>, success: Reply) | Failed(error: SaveError)

  /** The attributes of the parser object that `save_edge_list` reads. */
  datatype Settings = Settings(fn: nat, raw: bool, cblk: bool, cvalue: bool, useParquet: bool,
                               upload: bool, hasUploader: bool, targetpath: string)

  /** The name of the local csv file for block file `fn`. */
  function LocalName(fn: nat, ax: string): string
  {
    "raw_blk_" + DecimalString(fn) + ax + ".csv"
  }

  function RawEdgesDir(location: string, now: string): string
  {
    location + "/output/" + now + "/rawedges"
  }

  /** The parquet branch's `used_ram() > 35 or force_saving` test failed:
      the call returns early as "skipped". */
  predicate SkipsParquet(s: Settings, inEffect: bool, forceSaving: bool, ramPercent: real)
  {
    inEffect && s.useParquet && !(ramPercent > 35.0 || forceSaving)
  }

  /** Where a save that is not skipped sends its rows, and the value it
      returns: BigQuery or a parquet upload when an uploader is in effect
      (the uploader's reply), a local csv file otherwise. */
  function Route(s: Settings, inEffect: bool, location: string, now: string, reply: Reply, ax: string): (Destination, Reply)
  {
    if inEffect && !s.useParquet then (BigQuery, reply)
    else if inEffect then (ParquetUpload, reply)
    else (LocalFile(Join(RawEdgesDir(location, now), LocalName(s.fn, ax))), Continue)
  }

  /** A call with the parser's `edges`; `ax` is the file-name suffix as the
      routine has it when it reaches the local save (`None`: never assigned).
      `ramPercent` is the reading of `used_ram()` and `now` the module's
      start-time stamp. */
  function SaveWith(s: Settings, edges: seq<Edge>, uploaderArg: bool, locationArg: string,
                    forceSaving: bool, ramPercent: real, now: string, reply: Reply,
                    ax: Option<string>): SaveResult
  {
    var inEffect := if s.upload then s.hasUploader else uploaderArg;
    var location := if s.upload then locationArg else s.targetpath;
    match Transform(edges, s.fn, s.cblk, s.raw)
    case None => Failed(RowTooShort)
    case Some(rows) =>
      if SkipsParquet(s, inEffect, forceSaving, ramPercent) then Saved(Skipped, rows, Continue)
      else if !inEffect && ax.None? then Failed(AxUnbound)
      else if |edges| == 0 then Failed(EmptyEdgeList)
      else
        var route := Route(s, inEffect, location, now, reply, if ax.Some? then ax.value else "");
        Saved(route.0, rows, route.1)
  }

  /** `save_edge_list` as written: `ax` is assigned only in raw mode. */
  function SaveEdgeListAsWritten(s: Settings, edges: seq<Edge>, uploaderArg: bool, locationArg: string,
                                 forceSaving: bool, ramPercent: real, now: string, reply: Reply): SaveResult
  {
    SaveWith(s, edges, uploaderArg, locationArg, forceSaving, ramPercent, now, reply,
             if s.raw then Some("_raw") else None)
  }

  /** `save_edge_list` with the suffix empty outside raw mode. */
  function SaveEdgeList(s: Settings, edges: seq<Edge>, uploaderArg: bool, locationArg: string,
                        forceSaving: bool, ramPercent: real, now: string, reply: Reply): SaveResult
  {
    SaveWith(s, edges, uploaderArg, locationArg, forceSaving, ramPercent, now, reply,
             Some(if s.raw then "_raw" else ""))
  }

  /** Whether the call reached the final reset of the parser's edge list. */
  predicate Clears(r: SaveResult)
  {
    r.Saved? && r.dest != Skipped
  }

  /** As written, every local save outside raw mode stops with the unbound
      suffix, whatever the edges are. */
  lemma LocalNonRawSaveFails(s: Settings, edges: seq<Edge>, locationArg: string,
                             forceSaving: bool, ramPercent: real, now: string, reply: Reply)
    requires !s.raw && !s.upload
    ensures SaveEdgeListAsWritten(s, edges, false, locationArg, forceSaving, ramPercent, now, reply) == Failed(AxUnbound)
    ensures Clears(SaveEdgeList(s, edges, false, locationArg, forceSaving, ramPercent, now, reply)) <==> |edges| > 0
  {
  }

  /** The corrected routine: which destination is taken, that rows are
      kept in number and order, that it fails only on a short raw row or an
      empty list that was not skipped, and that it empties the parser's
      edge list on every path except the skipped parquet save. */
  lemma {:induction false} SaveEdgeListSpec(s: Settings, edges: seq<Edge>, uploaderArg: bool, locationArg: string,
                                            forceSaving: bool, ramPercent: real, now: string, reply: Reply)
    requires forall i :: 0 <= i < |edges| ==> |edges[i]| >= 3 && (edges[i][2].Tuple? ==> |edges[i][2].items| == 2)
    ensures var r := SaveEdgeList(s, edges, uploaderArg, locationArg, forceSaving, ramPercent, now, reply);
      var inEffect := if s.upload then s.hasUploader else uploaderArg;
      var skipped := inEffect && s.useParquet && !(ramPercent > 35.0 || forceSaving);
      (r.Failed? <==> !skipped && |edges| == 0)
      && (r.Saved? ==> |r.rows| == |edges|)
      && (r.Saved? ==> (r.dest == Skipped <==> skipped))
      && (r.Saved? ==> (r.dest == BigQuery <==> inEffect && !s.useParquet))
      && (r.Saved? ==> (r.dest.LocalFile? <==> !inEffect))
      && (r.Saved? && r.dest.LocalFile? ==> r.success == Continue)
      && (Clears(r) <==> !skipped && |edges| > 0)
  {
    TransformShape(edges, s.fn, s.cblk, s.raw);
  }

  /** A locally saved file is named `raw_blk_<fn>[_raw].csv` in the raw-edge
      directory, so listing that directory with `get_csv_files` finds it. */
  lemma LocalFileFound(s: Settings, edges: seq<Edge>, locationArg: string, forceSaving: bool,
                       ramPercent: real, now: string, reply: Reply, listing: seq<string>)
    requires var r := SaveEdgeList(s, edges, false, locationArg, forceSaving, ramPercent, now, reply);
      r.Saved? && r.dest.LocalFile?
    ensures var location := if s.upload then locationArg else s.targetpath;
      var name := LocalName(s.fn, if s.raw then "_raw" else "");
      SaveEdgeList(s, edges, false, locationArg, forceSaving, ramPercent, now, reply).dest.path
        == Join(RawEdgesDir(location, now), name)
      && StartsWith(name, "raw") && EndsWith(name, ".csv")
      && (name in listing ==> Join(RawEdgesDir(location, now), name) in GetCsvFiles(RawEdgesDir(location, now), listing))
  {
    var location := if s.upload then locationArg else s.targetpath;
    var name := LocalName(s.fn, if s.raw then "_raw" else "");
    assert name[..3] == "raw";
    assert name[|name| - 4..] == ".csv";
    GetCsvFilesSpec(RawEdgesDir(location, now), listing);
  }

  /** The parser object as `save_edge_list` and `tablestats` see it: the
      settings it reads, the edge list it empties and the running edge
      count `tablestats` keeps. */
  class EdgeListOwner {
    const settings: Settings
    var edgeList: seq<Edge>
    var cumEdges: int

    constructor (settings: Settings, edgeList: seq<Edge>, cumEdges: int)
      ensures this.settings == settings && this.edgeList == edgeList && this.cumEdges == cumEdges
    {
      this.settings, this.edgeList, this.cumEdges := settings, edgeList, cumEdges;
    }

    /** `save_edge_list(parser, uploader, location, force_saving)`. */
    method Save(uploaderArg: bool, locationArg: string, forceSaving: bool, ramPercent: real,
                now: string, reply: Reply) returns (r: SaveResult)
      modifies this
      ensures r == SaveEdgeList(settings, old(edgeList), uploaderArg, locationArg, forceSaving, ramPercent, now, reply)
      ensures edgeList == if Clears(r) then [] else old(edgeList)
      ensures cumEdges == old(cumEdges) + if Clears(r) then |old(edgeList)| else 0
    {
      var s := settings;
      var rE := edgeList;
      var inEffect := if s.upload then s.hasUploader else uploaderArg;
      var location := if s.upload then locationArg else s.targetpath;
      if s.cblk {
        rE := AppendBlk(rE, s.fn);
      }
      var ax := "";
      var flat := Some(rE);
      if s.raw {
        flat := FlattenRows(rE);
        ax := "_raw";
      }
      assert flat == Transform(edgeList, s.fn, s.cblk, s.raw);
      if flat.None? {
        return Failed(RowTooShort);
      }
      rE := flat.value;
      if SkipsParquet(s, inEffect, forceSaving, ramPercent) {
        return Saved(Skipped, rE, Continue);
      }
      var route := Route(s, inEffect, location, now, reply, ax);
      // tablestats
      cumEdges := cumEdges + |edgeList|;
      if |edgeList| == 0 {
        return Failed(EmptyEdgeList);
      }
      edgeList := [];
      r := Saved(route.0, rE, route.1);
    }
  }
}
