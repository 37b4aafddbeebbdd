/** The streaming transaction parser: it walks block files, blocks and
    transactions, records every processed transaction's outputs in a map of
    unspent outputs, resolves each input against that map, and appends one
    edge per (distinct source, destination) pair to the current file's edge
    list, which is handed to a sink and cleared after every file.

    Blocks, transactions, inputs and outputs are already decoded here: a
    transaction carries its txid, its inputs as (hash, index) pairs and, for
    each output, its address strings and its value. */
module TxParser {
  import opened Common
  import Framing

  datatype TxInput = TxInput(transactionHash: string, transactionIndex: nat)
  datatype TxOutput = TxOutput(addresses: seq<string>, value: int)
  datatype Tx = Tx(txid: string, inputs: seq<TxInput>, outputs: seq<TxOutput>)
  datatype Block = Block(hash: string, timestamp: int, transactions: seq<Tx>)

  /** One row of the edge list: a tuple of cells. */
  type Edge = seq<Value>

  /** txid -> output index -> the output's addresses. */
  type Utxos = map<string, map<nat, seq<string>>>

  /** The switches that decide the shape of an edge. */
  datatype Flags = Flags(raw: bool, withTS: bool, collectValue: bool)

  /** The previous-output hash of a coinbase input: 64 zero characters. */
  const CoinbaseHash: string := "0000000000000000000000000000000000000000000000000000000000000000"

  // ---------------------------------------------------------------------
  // Edges

  /** The number of cells of every edge built under `f`. */
  function EdgeLength(f: Flags): nat
  {
    (if f.withTS then 1 else 0) + 3 + (if f.raw then (if f.collectValue then 2 else 1) else 0)
  }

  /** The tuple `_buildEdge` appends for source `u` and the destination at
      `index`; `None` where `Val[index]` raises IndexError (the edge is only
      logged). The two non-raw branches that differ only in a `try` are merged. */
  function EdgeAt(f: Flags, blS: Option<int>, txid: Option<string>, u: Value,
                  v: seq<string>, index: nat, val: seq<int>): (r: Option<Edge>)
    requires index < |v|
    ensures r.None? <==> f.raw && f.collectValue && index >= |val|
    ensures r.Some? ==>
      var e := r.value; var o := if f.withTS then 1 else 0;
      |e| == EdgeLength(f)
      && (f.withTS ==> e[0] == IntOrNone(blS))
      && e[o] == StrOrNone(txid) && e[o + 1] == u && e[o + 2] == Str(v[index])
      && (f.raw ==> e[o + 3] == Int(index))
      && (f.raw && f.collectValue ==> e[o + 4] == Int(val[index]))
  {
    var ts, id, dest := IntOrNone(blS), StrOrNone(txid), Str(v[index]);
    if f.raw then
      if f.withTS && f.collectValue then
        if index < |val| then Some([ts, id, u, dest, Int(index), Int(val[index])]) else None
      else if f.withTS then Some([ts, id, u, dest, Int(index)])
      else if f.collectValue then
        if index < |val| then Some([id, u, dest, Int(index), Int(val[index])]) else None
      else Some([id, u, dest, Int(index)])
    else if f.withTS then Some([ts, id, u, dest])
    else Some([id, u, dest])
  }

  /** The edges from one source to the destinations `v[..k]`, in order. */
  function Row(f: Flags, blS: Option<int>, txid: Option<string>, u: Value,
               v: seq<string>, k: nat, val: seq<int>): seq<Edge>
    requires k <= |v|
  {
    if k == 0 then []
    else
      var prev := Row(f, blS, txid, u, v, k - 1, val);
      match EdgeAt(f, blS, txid, u, v, k - 1, val)
      case Some(e) => prev + [e]
      case None => prev
  }

  /** The edges from each of `sources` in turn to all of `v`. */
  function Edges(f: Flags, blS: Option<int>, txid: Option<string>, sources: seq<Value>,
                 v: seq<string>, val: seq<int>): seq<Edge>
  {
    if |sources| == 0 then []
    else Edges(f, blS, txid, sources[..|sources| - 1], v, val)
         + Row(f, blS, txid, sources[|sources| - 1], v, |v|, val)
  }

  /** What one `_buildEdge(u, v, Val)` call appends: the sources are
      de-duplicated (`set(u)`, taken here in first-occurrence order). */
  function EdgesFor(f: Flags, blS: Option<int>, txid: Option<string>, u: seq<Value>,
                    v: seq<string>, val: seq<int>): seq<Edge>
  {
    Edges(f, blS, txid, Dedup(u), v, val)
  }

  /** How many edges each source gets: one per destination, except that with
      raw values only the destinations that have a value count. */
  function Width(f: Flags, k: nat, val: seq<int>): nat
  {
    if f.raw && f.collectValue then Min(k, |val|) else k
  }

  lemma {:induction false} RowSpec(f: Flags, blS: Option<int>, txid: Option<string>, u: Value,
                                   v: seq<string>, k: nat, val: seq<int>)
    requires k <= |v|
    ensures |Row(f, blS, txid, u, v, k, val)| == Width(f, k, val)
    ensures forall j :: 0 <= j < Width(f, k, val) ==>
      EdgeAt(f, blS, txid, u, v, j, val).Some? && Row(f, blS, txid, u, v, k, val)[j] == EdgeAt(f, blS, txid, u, v, j, val).value
  {
    if k > 0 {
      RowSpec(f, blS, txid, u, v, k - 1, val);
    }
  }

  /** Where edge (i, j) sits: row i of width w starts at i * w. */
  lemma Slot(i: nat, w: nat, j: nat, n: nat)
    requires i < n && j < w
    ensures i * w + j < n * w
    ensures (i + 1) * w <= n * w
  {
    assert (i + 1) * w == i * w + w;
    assert n * w == (n - (i + 1)) * w + (i + 1) * w;
  }

  lemma MulStep(n: nat, w: nat)
    ensures (n + 1) * w == n * w + w
  {
  }

  lemma {:induction false} EdgesLength(f: Flags, blS: Option<int>, txid: Option<string>, sources: seq<Value>,
                                       v: seq<string>, val: seq<int>)
    ensures |Edges(f, blS, txid, sources, v, val)| == |sources| * Width(f, |v|, val)
  {
    if |sources| > 0 {
      var n := |sources| - 1;
      EdgesLength(f, blS, txid, sources[..n], v, val);
      RowSpec(f, blS, txid, sources[n], v, |v|, val);
      MulStep(n, Width(f, |v|, val));
    }
  }

  /** Edge number i * w + j joins source i to destination j. */
  lemma {:induction false} EdgesAt(f: Flags, blS: Option<int>, txid: Option<string>, sources: seq<Value>,
                                   v: seq<string>, val: seq<int>, i: nat, j: nat)
    requires i < |sources| && j < Width(f, |v|, val)
    ensures EdgeAt(f, blS, txid, sources[i], v, j, val).Some?
    ensures i * Width(f, |v|, val) + j < |Edges(f, blS, txid, sources, v, val)|
    ensures Edges(f, blS, txid, sources, v, val)[i * Width(f, |v|, val) + j]
         == EdgeAt(f, blS, txid, sources[i], v, j, val).value
  {
    var w := Width(f, |v|, val);
    var n := |sources| - 1;
    var p := sources[..n];
    EdgesLength(f, blS, txid, p, v, val);
    EdgesLength(f, blS, txid, sources, v, val);
    RowSpec(f, blS, txid, sources[n], v, |v|, val);
    if i < n {
      EdgesAt(f, blS, txid, p, v, val, i, j);
      Slot(i, w, j, n);
      assert p[i] == sources[i];
    }
  }

  /** The edge list of a call is the sources times the destinations, source
      by source, each destination in the order of `v` and carrying its index. */
  lemma EdgesSpec(f: Flags, blS: Option<int>, txid: Option<string>, sources: seq<Value>,
                  v: seq<string>, val: seq<int>)
    ensures |Edges(f, blS, txid, sources, v, val)| == |sources| * Width(f, |v|, val)
    ensures forall i, j :: 0 <= i < |sources| && 0 <= j < Width(f, |v|, val) ==>
      EdgeAt(f, blS, txid, sources[i], v, j, val).Some? && i * Width(f, |v|, val) + j < |Edges(f, blS, txid, sources, v, val)| &&
      Edges(f, blS, txid, sources, v, val)[i * Width(f, |v|, val) + j] == EdgeAt(f, blS, txid, sources[i], v, j, val).value
  {
    EdgesLength(f, blS, txid, sources, v, val);
    forall i, j | 0 <= i < |sources| && 0 <= j < Width(f, |v|, val)
      ensures EdgeAt(f, blS, txid, sources[i], v, j, val).Some?
      ensures i * Width(f, |v|, val) + j < |Edges(f, blS, txid, sources, v, val)|
      ensures Edges(f, blS, txid, sources, v, val)[i * Width(f, |v|, val) + j] == EdgeAt(f, blS, txid, sources[i], v, j, val).value
    {
      EdgesAt(f, blS, txid, sources, v, val, i, j);
    }
  }

  /** Every edge of a row has the row's shape, transaction and source, and
      one of the destinations. */
  lemma {:induction false} RowMembers(f: Flags, blS: Option<int>, txid: Option<string>, u: Value,
                                      v: seq<string>, k: nat, val: seq<int>)
    requires k <= |v|
    ensures forall e: Edge :: e in Row(f, blS, txid, u, v, k, val) ==>
      |e| == EdgeLength(f) && e[if f.withTS then 1 else 0] == StrOrNone(txid)
      && e[if f.withTS then 2 else 1] == u && e[if f.withTS then 3 else 2].Str? && e[if f.withTS then 3 else 2].s in v
  {
    if k > 0 {
      RowMembers(f, blS, txid, u, v, k - 1, val);
    }
  }

  lemma {:induction false} EdgesMembers(f: Flags, blS: Option<int>, txid: Option<string>, sources: seq<Value>,
                                        v: seq<string>, val: seq<int>)
    ensures forall e: Edge :: e in Edges(f, blS, txid, sources, v, val) ==>
      |e| == EdgeLength(f) && e[if f.withTS then 1 else 0] == StrOrNone(txid)
      && e[if f.withTS then 2 else 1] in sources && e[if f.withTS then 3 else 2].Str? && e[if f.withTS then 3 else 2].s in v
  {
    if |sources| > 0 {
      var n := |sources| - 1;
      var pre := Edges(f, blS, txid, sources[..n], v, val);
      var row := Row(f, blS, txid, sources[n], v, |v|, val);
      EdgesMembers(f, blS, txid, sources[..n], v, val);
      RowMembers(f, blS, txid, sources[n], v, |v|, val);
      var o := if f.withTS then 1 else 0;
      forall e: Edge | e in pre + row
        ensures |e| == EdgeLength(f) && e[o] == StrOrNone(txid)
          && e[o + 1] in sources && e[o + 2].Str? && e[o + 2].s in v
      {
        if e in pre {
          assert e[o + 1] in sources[..n];
        }
      }
    }
  }

  /** `_buildEdge` appends exactly |set(u)| x |v| edges (fewer only where raw
      values are missing), every one from a source of `u` to a destination
      of `v`, stamped with the current txid. */
  lemma EdgesForCount(f: Flags, blS: Option<int>, txid: Option<string>, u: seq<Value>,
                      v: seq<string>, val: seq<int>)
    ensures |EdgesFor(f, blS, txid, u, v, val)| == |Elements(u)| * Width(f, |v|, val)
    ensures !(f.raw && f.collectValue) ==> |EdgesFor(f, blS, txid, u, v, val)| == |Elements(u)| * |v|
    ensures forall e: Edge :: e in EdgesFor(f, blS, txid, u, v, val) ==>
      |e| == EdgeLength(f) && e[if f.withTS then 1 else 0] == StrOrNone(txid)
      && e[if f.withTS then 2 else 1] in u && e[if f.withTS then 3 else 2].Str? && e[if f.withTS then 3 else 2].s in v
  {
    EdgesLength(f, blS, txid, Dedup(u), v, val);
    DedupCardinality(u);
    EdgesMembers(f, blS, txid, Dedup(u), v, val);
  }

  // ---------------------------------------------------------------------
  // Outputs and inputs

  /** The `outs` dict built for a transaction: output index -> addresses. */
  function OutputMap(outputs: seq<TxOutput>): (r: map<nat, seq<string>>)
  {
    if |outputs| == 0 then map[]
    else OutputMap(outputs[..|outputs| - 1])[|outputs| - 1 := outputs[|outputs| - 1].addresses]
  }

  /** The keys of `outs` are exactly `0..len(outputs)-1`, each with its output's addresses. */
  lemma {:induction false} OutputMapSpec(outputs: seq<TxOutput>)
    ensures forall i: nat :: i in OutputMap(outputs) <==> i < |outputs|
    ensures forall i :: 0 <= i < |outputs| ==> OutputMap(outputs)[i] == outputs[i].addresses
  {
    if |outputs| > 0 {
      OutputMapSpec(outputs[..|outputs| - 1]);
    }
  }

  /** `Addrs_o`: the addresses of all outputs, output by output. */
  function Addresses(outputs: seq<TxOutput>): seq<string>
  {
    if |outputs| == 0 then [] else Addresses(outputs[..|outputs| - 1]) + outputs[|outputs| - 1].addresses
  }

  /** `Val`: one value per output. */
  function Values(outputs: seq<TxOutput>): (r: seq<int>)
    ensures |r| == |outputs|
    ensures forall i :: 0 <= i < |outputs| ==> r[i] == outputs[i].value
  {
    if |outputs| == 0 then [] else Values(outputs[..|outputs| - 1]) + [outputs[|outputs| - 1].value]
  }

  /** When every output has exactly one address, `Addrs_o` and `Val` line up. */
  lemma {:induction false} AddressesAligned(outputs: seq<TxOutput>)
    requires forall i :: 0 <= i < |outputs| ==> |outputs[i].addresses| == 1
    ensures |Addresses(outputs)| == |Values(outputs)|
    ensures forall i :: 0 <= i < |outputs| ==> Addresses(outputs)[i] == outputs[i].addresses[0]
  {
    if |outputs| > 0 {
      AddressesAligned(outputs[..|outputs| - 1]);
    }
  }

  function Strs(s: seq<string>): (r: seq<Value>)
    ensures |r| == |s| && forall i :: 0 <= i < |s| ==> r[i] == Str(s[i])
  {
    if |s| == 0 then [] else Strs(s[..|s| - 1]) + [Str(s[|s| - 1])]
  }

  /** `del Utxos[h][i]`, then `del Utxos[h]` once its map is empty. */
  function Evict(utxos: Utxos, h: string, i: nat): Utxos
    requires h in utxos
  {
    var inner := utxos[h] - {i};
    if |inner| == 0 then utxos - {h} else utxos[h := inner]
  }

  /** Eviction removes key `i` under `h`, drops `h` exactly when nothing
      else is left under it, and leaves every other entry as it was. */
  lemma EvictSpec(utxos: Utxos, h: string, i: nat)
    requires h in utxos
    ensures var r := Evict(utxos, h, i);
      (h in r <==> exists j :: j in utxos[h] && j != i)
      && (h in r ==> r[h] == utxos[h] - {i})
      && (forall g :: g != h ==> (g in r <==> g in utxos) && (g in r ==> r[g] == utxos[g]))
  {
    var inner := utxos[h] - {i};
    if exists j :: j in utxos[h] && j != i {
      var j :| j in utxos[h] && j != i;
      assert j in inner;
    } else {
      assert inner == map[];
    }
  }

  /** The sources an input list contributes, the map after the evictions,
      and the input that raised KeyError (a known txid whose index was
      already spent), if any. */
  datatype Resolution = Resolution(sources: seq<Value>, utxos: Utxos, missing: Option<TxInput>)

  /** One input: coinbase gives "00"; a known txid gives the spent output's
      addresses and evicts it; an unknown one gives `(hash, index)` in raw
      mode and nothing otherwise. */
  function ResolveInput(utxos: Utxos, inp: TxInput, raw: bool): Resolution
  {
    var h, i := inp.transactionHash, inp.transactionIndex;
    if h == CoinbaseHash then Resolution([Str("00")], utxos, None)
    else if h in utxos then
      if i in utxos[h] then Resolution(Strs(utxos[h][i]), Evict(utxos, h, i), None)
      else Resolution([], utxos, Some(inp))
    else if raw then Resolution([Tuple([Str(h), Int(i)])], utxos, None)
    else Resolution([], utxos, None)
  }

  /** The inputs in order, stopping at the first KeyError. */
  function ResolveInputs(utxos: Utxos, inputs: seq<TxInput>, raw: bool): Resolution
  {
    if |inputs| == 0 then Resolution([], utxos, None)
    else
      var r := ResolveInputs(utxos, inputs[..|inputs| - 1], raw);
      if r.missing.Some? then r
      else
        var one := ResolveInput(r.utxos, inputs[|inputs| - 1], raw);
        Resolution(r.sources + one.sources, one.utxos, one.missing)
  }

  /** After a KeyError the remaining inputs are not looked at. */
  lemma {:induction false} ResolveStopAt(utxos: Utxos, inputs: seq<TxInput>, raw: bool, k: nat)
    requires k <= |inputs| && ResolveInputs(utxos, inputs[..k], raw).missing.Some?
    ensures ResolveInputs(utxos, inputs, raw) == ResolveInputs(utxos, inputs[..k], raw)
  {
    if k < |inputs| {
      var m := inputs[..|inputs| - 1];
      assert m[..k] == inputs[..k];
      ResolveStopAt(utxos, m, raw, k);
    } else {
      assert inputs[..k] == inputs;
    }
  }

  /** Only coinbase inputs: one "00" source each, and the map is untouched. */
  lemma {:induction false} ResolveCoinbase(utxos: Utxos, inputs: seq<TxInput>, raw: bool)
    requires forall k :: 0 <= k < |inputs| ==> inputs[k].transactionHash == CoinbaseHash
    ensures ResolveInputs(utxos, inputs, raw) == Resolution(seq(|inputs|, _ => Str("00")), utxos, None)
  {
    if |inputs| > 0 {
      ResolveCoinbase(utxos, inputs[..|inputs| - 1], raw);
      assert seq(|inputs| - 1, _ => Str("00")) + [Str("00")] == seq(|inputs|, _ => Str("00"));
    }
  }

  /** Resolution only removes: every surviving entry was there before with
      at least the same keys and addresses, and an entry whose txid no input
      names is untouched. */
  lemma {:induction false} ResolveOnlyRemoves(utxos: Utxos, inputs: seq<TxInput>, raw: bool)
    ensures var r := ResolveInputs(utxos, inputs, raw).utxos;
      (forall h :: h in r ==>
         (h in utxos && r[h].Keys <= utxos[h].Keys && forall i :: i in r[h] ==> r[h][i] == utxos[h][i]))
      && (forall h :: h in utxos && (forall k :: 0 <= k < |inputs| ==> inputs[k].transactionHash != h)
                   ==> h in r && r[h] == utxos[h])
  {
    if |inputs| > 0 {
      var p := inputs[..|inputs| - 1];
      ResolveOnlyRemoves(utxos, p, raw);
      var r := ResolveInputs(utxos, p, raw);
      if r.missing.None? {
        var inp := inputs[|inputs| - 1];
        if inp.transactionHash != CoinbaseHash && inp.transactionHash in r.utxos
           && inp.transactionIndex in r.utxos[inp.transactionHash] {
          EvictSpec(r.utxos, inp.transactionHash, inp.transactionIndex);
        }
      }
    }
  }

  /** Without raw mode every source is an address string or "00": an input
      whose txid is unknown contributes nothing. */
  lemma {:induction false} ResolveNonRawSources(utxos: Utxos, inputs: seq<TxInput>)
    ensures forall s :: s in ResolveInputs(utxos, inputs, false).sources ==> s.Str?
  {
    if |inputs| > 0 {
      ResolveNonRawSources(utxos, inputs[..|inputs| - 1]);
    }
  }

  // ---------------------------------------------------------------------
  // Transactions, blocks and files

  /** The fields `parse` updates. */
  datatype ParserState = ParserState(utxos: Utxos, edgeList: seq<Edge>, currTxID: Option<string>,
                                     currBlHash: Option<string>, currBlS: Option<int>, fn: Option<nat>)

  datatype Status =
    | Running
    | EndTx                           // `eT` met: the scan stops (SystemExit, caught)
    | MissingOutput(input: TxInput)   // KeyError on an already-spent index, not caught
    | EdgeListNotEmpty                // the assertion at the start of a file fails
    | NoFileNumber(path: string)      // no five-digit run in the file name
    | Stopped                         // the sink asked to stop
    | Finished

  datatype Progress = Progress(state: ParserState, start: bool, status: Status)

  /** A processed transaction: outputs recorded (not in raw mode), inputs
      resolved, edges built. */
  function TxEffect(f: Flags, s: ParserState, tx: Tx): Progress
  {
    var u := if f.raw then s.utxos else s.utxos[tx.txid := OutputMap(tx.outputs)];
    var res := ResolveInputs(u, tx.inputs, f.raw);
    if res.missing.Some? then Progress(s.(utxos := res.utxos), true, MissingOutput(res.missing.value))
    else
      var val := if f.collectValue then Values(tx.outputs) else [];
      Progress(s.(utxos := res.utxos,
                  edgeList := s.edgeList + EdgesFor(f, s.currBlS, s.currTxID, res.sources, Addresses(tx.outputs), val)),
               true, Running)
  }

  /** One iteration of the transaction loop, start/end gate included. */
  function TxStep(f: Flags, s: ParserState, start: bool, tx: Tx, sT: Option<string>, eT: Option<string>): Progress
  {
    var s1 := s.(currTxID := Some(tx.txid));
    var started := start || sT.None? || sT == Some(tx.txid);
    if eT.Some? && started && eT == Some(tx.txid) then Progress(s1, false, EndTx)
    else if started then TxEffect(f, s1, tx)
    else Progress(s1, false, Running)
  }

  /** The transaction loop over `txs`, stopping at the first status that is not `Running`. */
  function RunTxs(f: Flags, s: ParserState, start: bool, txs: seq<Tx>, sT: Option<string>, eT: Option<string>): Progress
  {
    if |txs| == 0 then Progress(s, start, Running)
    else
      var p := RunTxs(f, s, start, txs[..|txs| - 1], sT, eT);
      if p.status != Running then p else TxStep(f, p.state, p.start, txs[|txs| - 1], sT, eT)
  }

  /** `if self.endTS:` on the stored value: absent or zero disables the skip. */
  predicate EndTSActive(endTS: Option<int>)
  {
    endTS.Some? && endTS.value != 0
  }

  /** One iteration of the block loop: blocks later than `endTS` are skipped. */
  function BlockStep(f: Flags, endTS: Option<int>, s: ParserState, start: bool, b: Block,
                     sT: Option<string>, eT: Option<string>): Progress
  {
    var s1 := s.(currBlHash := Some(b.hash), currBlS := Some(b.timestamp));
    if EndTSActive(endTS) && b.timestamp > endTS.value then Progress(s1, start, Running)
    else RunTxs(f, s1, start, b.transactions, sT, eT)
  }

  function RunBlocks(f: Flags, endTS: Option<int>, s: ParserState, start: bool, blocks: seq<Block>,
                     sT: Option<string>, eT: Option<string>): Progress
  {
    if |blocks| == 0 then Progress(s, start, Running)
    else
      var p := RunBlocks(f, endTS, s, start, blocks[..|blocks| - 1], sT, eT);
      if p.status != Running then p else BlockStep(f, endTS, p.state, p.start, blocks[|blocks| - 1], sT, eT)
  }

  /** One iteration of the file loop: the edge list must be empty, the file
      number is read from the name, the blocks are processed, then the edges
      go to the sink and the list is cleared (or, if an uploading sink says
      stop, the run ends with the list as it is). `blocksOf(file)` stands for
      the parsed blocks of that one file, the behaviour of
      `Framing.GetFileBlocks`; the call as written selects every file from
      `file` on (`Framing.ParserCallSelectsSuffix`). */
  function FileStep(f: Flags, endTS: Option<int>, upload: bool, s: ParserState, start: bool, file: string,
                    blocksOf: string -> seq<Block>, sink: (seq<Edge>, nat) -> bool,
                    sT: Option<string>, eT: Option<string>): Progress
  {
    if s.edgeList != [] then Progress(s, start, EdgeListNotEmpty)
    else
      match Framing.FileNumber(file)
      case None => Progress(s, start, NoFileNumber(file))
      case Some(n) =>
        var p := RunBlocks(f, endTS, s.(fn := Some(n)), start, blocksOf(file), sT, eT);
        if p.status != Running then p
        else if upload && sink(p.state.edgeList, n) then Progress(p.state, p.start, Stopped)
        else Progress(p.state.(edgeList := []), p.start, Running)
  }

  function RunFiles(f: Flags, endTS: Option<int>, upload: bool, s: ParserState, start: bool, files: seq<string>,
                    blocksOf: string -> seq<Block>, sink: (seq<Edge>, nat) -> bool,
                    sT: Option<string>, eT: Option<string>): Progress
  {
    if |files| == 0 then Progress(s, start, Running)
    else
      var p := RunFiles(f, endTS, upload, s, start, files[..|files| - 1], blocksOf, sink, sT, eT);
      if p.status != Running then p
      else FileStep(f, endTS, upload, p.state, p.start, files[|files| - 1], blocksOf, sink, sT, eT)
  }

  /** `parse`: the gate starts open exactly when there is no start transaction. */
  function ParseRun(f: Flags, endTS: Option<int>, upload: bool, s: ParserState, files: seq<string>,
                    blocksOf: string -> seq<Block>, sink: (seq<Edge>, nat) -> bool,
                    sT: Option<string>, eT: Option<string>): Progress
  {
    var p := RunFiles(f, endTS, upload, s, sT.None?, files, blocksOf, sink, sT, eT);
    if p.status == Running then p.(status := Finished) else p
  }

  // ---------------------------------------------------------------------
  // Properties of the gate and the loops

  /** Before `sT` is met nothing is recorded or emitted: only the current
      txid moves. */
  lemma {:induction false} ClosedGateRecordsNothing(f: Flags, s: ParserState, txs: seq<Tx>,
                                                    sT: Option<string>, eT: Option<string>)
    requires sT.Some? && forall k :: 0 <= k < |txs| ==> txs[k].txid != sT.value
    ensures var p := RunTxs(f, s, false, txs, sT, eT);
      p.status == Running && !p.start && p.state.utxos == s.utxos && p.state.edgeList == s.edgeList
  {
    if |txs| > 0 {
      ClosedGateRecordsNothing(f, s, txs[..|txs| - 1], sT, eT);
    }
  }

  /** `sT` itself is processed (unless it is also `eT`). */
  lemma StartTxProcessed(f: Flags, s: ParserState, tx: Tx, sT: Option<string>, eT: Option<string>)
    requires sT == Some(tx.txid) && eT != Some(tx.txid)
    ensures TxStep(f, s, false, tx, sT, eT) == TxEffect(f, s.(currTxID := Some(tx.txid)), tx)
    ensures TxStep(f, s, false, tx, sT, eT).start
  {
  }

  /** At `eT` the scan stops before processing it: nothing is recorded or emitted. */
  lemma EndTxNotProcessed(f: Flags, s: ParserState, start: bool, tx: Tx, sT: Option<string>, eT: Option<string>)
    requires eT == Some(tx.txid) && (start || sT.None? || sT == Some(tx.txid))
    ensures var p := TxStep(f, s, start, tx, sT, eT);
      p.status == EndTx && p.state.utxos == s.utxos && p.state.edgeList == s.edgeList
  {
  }

  /** Once the transaction loop has stopped, the later transactions change nothing. */
  lemma {:induction false} TxsStopAt(f: Flags, s: ParserState, start: bool, txs: seq<Tx>, k: nat,
                                     sT: Option<string>, eT: Option<string>)
    requires k <= |txs| && RunTxs(f, s, start, txs[..k], sT, eT).status != Running
    ensures RunTxs(f, s, start, txs, sT, eT) == RunTxs(f, s, start, txs[..k], sT, eT)
  {
    if k < |txs| {
      var m := txs[..|txs| - 1];
      assert m[..k] == txs[..k];
      TxsStopAt(f, s, start, m, k, sT, eT);
    } else {
      assert txs[..k] == txs;
    }
  }

  lemma {:induction false} BlocksStopAt(f: Flags, endTS: Option<int>, s: ParserState, start: bool, blocks: seq<Block>,
                                        k: nat, sT: Option<string>, eT: Option<string>)
    requires k <= |blocks| && RunBlocks(f, endTS, s, start, blocks[..k], sT, eT).status != Running
    ensures RunBlocks(f, endTS, s, start, blocks, sT, eT) == RunBlocks(f, endTS, s, start, blocks[..k], sT, eT)
  {
    if k < |blocks| {
      var m := blocks[..|blocks| - 1];
      assert m[..k] == blocks[..k];
      BlocksStopAt(f, endTS, s, start, m, k, sT, eT);
    } else {
      assert blocks[..k] == blocks;
    }
  }

  lemma {:induction false} FilesStopAt(f: Flags, endTS: Option<int>, upload: bool, s: ParserState, start: bool,
                                       files: seq<string>, k: nat, blocksOf: string -> seq<Block>,
                                       sink: (seq<Edge>, nat) -> bool, sT: Option<string>, eT: Option<string>)
    requires k <= |files| && RunFiles(f, endTS, upload, s, start, files[..k], blocksOf, sink, sT, eT).status != Running
    ensures RunFiles(f, endTS, upload, s, start, files, blocksOf, sink, sT, eT)
         == RunFiles(f, endTS, upload, s, start, files[..k], blocksOf, sink, sT, eT)
  {
    if k < |files| {
      var m := files[..|files| - 1];
      assert m[..k] == files[..k];
      FilesStopAt(f, endTS, upload, s, start, m, k, blocksOf, sink, sT, eT);
    } else {
      assert files[..k] == files;
    }
  }

  lemma TxsStep(f: Flags, s: ParserState, start: bool, txs: seq<Tx>, k: nat, sT: Option<string>, eT: Option<string>)
    requires k < |txs| && RunTxs(f, s, start, txs[..k], sT, eT).status == Running
    ensures var p := RunTxs(f, s, start, txs[..k], sT, eT);
      RunTxs(f, s, start, txs[..k + 1], sT, eT) == TxStep(f, p.state, p.start, txs[k], sT, eT)
  {
    assert txs[..k + 1][..k] == txs[..k];
  }

  lemma BlocksStep(f: Flags, endTS: Option<int>, s: ParserState, start: bool, blocks: seq<Block>, k: nat,
                   sT: Option<string>, eT: Option<string>)
    requires k < |blocks| && RunBlocks(f, endTS, s, start, blocks[..k], sT, eT).status == Running
    ensures var p := RunBlocks(f, endTS, s, start, blocks[..k], sT, eT);
      RunBlocks(f, endTS, s, start, blocks[..k + 1], sT, eT) == BlockStep(f, endTS, p.state, p.start, blocks[k], sT, eT)
  {
    assert blocks[..k + 1][..k] == blocks[..k];
  }

  lemma FilesStep(f: Flags, endTS: Option<int>, upload: bool, s: ParserState, start: bool, files: seq<string>, k: nat,
                  blocksOf: string -> seq<Block>, sink: (seq<Edge>, nat) -> bool, sT: Option<string>, eT: Option<string>)
    requires k < |files| && RunFiles(f, endTS, upload, s, start, files[..k], blocksOf, sink, sT, eT).status == Running
    ensures var p := RunFiles(f, endTS, upload, s, start, files[..k], blocksOf, sink, sT, eT);
      RunFiles(f, endTS, upload, s, start, files[..k + 1], blocksOf, sink, sT, eT)
      == FileStep(f, endTS, upload, p.state, p.start, files[k], blocksOf, sink, sT, eT)
  {
    assert files[..k + 1][..k] == files[..k];
  }

  /** A block later than an active `endTS` is skipped, the scan goes on, and
      only the current block hash and timestamp move. */
  lemma LateBlockSkipped(f: Flags, endTS: Option<int>, s: ParserState, start: bool, b: Block,
                         sT: Option<string>, eT: Option<string>)
    requires EndTSActive(endTS) && b.timestamp > endTS.value
    ensures BlockStep(f, endTS, s, start, b, sT, eT)
         == Progress(s.(currBlHash := Some(b.hash), currBlS := Some(b.timestamp)), start, Running)
  {
  }

  /** Outside raw mode a processed transaction's outputs are recorded under
      its txid with keys exactly `0..len(outputs)-1`, replacing any earlier
      entry, as long as none of its own inputs spends them. */
  lemma RecordsOutputs(f: Flags, s: ParserState, tx: Tx)
    requires !f.raw
    requires forall k :: 0 <= k < |tx.inputs| ==> tx.inputs[k].transactionHash != tx.txid
    ensures var p := TxEffect(f, s, tx);
      tx.txid in p.state.utxos && (forall i: nat :: i in p.state.utxos[tx.txid] <==> i < |tx.outputs|)
      && forall i :: 0 <= i < |tx.outputs| ==> p.state.utxos[tx.txid][i] == tx.outputs[i].addresses
  {
    var u := s.utxos[tx.txid := OutputMap(tx.outputs)];
    var res := ResolveInputs(u, tx.inputs, false);
    ResolveKeeps(u, tx.inputs, false, tx.txid);
    OutputMapSpec(tx.outputs);
    assert TxEffect(f, s, tx).state.utxos == res.utxos;
  }

  lemma ResolveKeeps(utxos: Utxos, inputs: seq<TxInput>, raw: bool, h: string)
    requires h in utxos && forall k :: 0 <= k < |inputs| ==> inputs[k].transactionHash != h
    ensures h in ResolveInputs(utxos, inputs, raw).utxos && ResolveInputs(utxos, inputs, raw).utxos[h] == utxos[h]
  {
    ResolveOnlyRemoves(utxos, inputs, raw);
  }

  /** Raw mode never writes the map: it can only lose entries. */
  lemma RawNeverRecords(f: Flags, s: ParserState, tx: Tx)
    requires f.raw
    ensures TxEffect(f, s, tx).state.utxos.Keys <= s.utxos.Keys
  {
    ResolveOnlyRemoves(s.utxos, tx.inputs, true);
  }

  /** A processed transaction appends |set(sources)| x |Addrs_o| edges in
      the input/output mode, and never touches earlier edges. */
  lemma TxEdgeCount(f: Flags, s: ParserState, tx: Tx)
    requires !f.raw
    ensures var p := TxEffect(f, s, tx); var u := s.utxos[tx.txid := OutputMap(tx.outputs)];
      p.status == Running ==>
        |p.state.edgeList| == |s.edgeList| + |Elements(ResolveInputs(u, tx.inputs, false).sources)| * |Addresses(tx.outputs)|
        && p.state.edgeList[..|s.edgeList|] == s.edgeList
  {
    var u := s.utxos[tx.txid := OutputMap(tx.outputs)];
    var res := ResolveInputs(u, tx.inputs, false);
    EdgesForCount(f, s.currBlS, s.currTxID, res.sources, Addresses(tx.outputs), if f.collectValue then Values(tx.outputs) else []);
  }

  /** After a file that runs to its end the edge list is empty again. */
  lemma FileClearsEdges(f: Flags, endTS: Option<int>, upload: bool, s: ParserState, start: bool, file: string,
                        blocksOf: string -> seq<Block>, sink: (seq<Edge>, nat) -> bool,
                        sT: Option<string>, eT: Option<string>)
    ensures var p := FileStep(f, endTS, upload, s, start, file, blocksOf, sink, sT, eT);
      p.status == Running ==> p.state.edgeList == [] && p.state.fn == Framing.FileNumber(file)
  {
    if s.edgeList == [] && Framing.FileNumber(file).Some? {
      var p := RunBlocks(f, endTS, s.(fn := Framing.FileNumber(file)), start, blocksOf(file), sT, eT);
      RunBlocksKeepsFn(f, endTS, s.(fn := Framing.FileNumber(file)), start, blocksOf(file), sT, eT);
    }
  }

  lemma {:induction false} RunTxsKeepsFn(f: Flags, s: ParserState, start: bool, txs: seq<Tx>,
                                         sT: Option<string>, eT: Option<string>)
    ensures RunTxs(f, s, start, txs, sT, eT).state.fn == s.fn
  {
    if |txs| > 0 {
      RunTxsKeepsFn(f, s, start, txs[..|txs| - 1], sT, eT);
    }
  }

  lemma {:induction false} RunBlocksKeepsFn(f: Flags, endTS: Option<int>, s: ParserState, start: bool,
                                            blocks: seq<Block>, sT: Option<string>, eT: Option<string>)
    ensures RunBlocks(f, endTS, s, start, blocks, sT, eT).state.fn == s.fn
  {
    if |blocks| > 0 {
      var b := blocks[|blocks| - 1];
      RunBlocksKeepsFn(f, endTS, s, start, blocks[..|blocks| - 1], sT, eT);
      var p := RunBlocks(f, endTS, s, start, blocks[..|blocks| - 1], sT, eT);
      RunTxsKeepsFn(f, p.state.(currBlHash := Some(b.hash), currBlS := Some(b.timestamp)), p.start, b.transactions, sT, eT);
    }
  }

  // ---------------------------------------------------------------------
  // The unspent-output map over a whole run

  /** Output `i` of txid `h` is in the map. */
  predicate InMap(utxos: Utxos, h: string, i: nat)
  {
    h in utxos && i in utxos[h]
  }

  /** Some input of the list spends output `i` of `h`; a coinbase input
      spends nothing. */
  predicate SpentBy(inputs: seq<TxInput>, h: string, i: nat)
  {
    h != CoinbaseHash && TxInput(h, i) in inputs
  }

  /** Reference definition of the map, one output at a time: after the
      processed transactions `txs`, starting from `init`, output `i` of `h`
      is unspent when no input of the last transaction spends it and either
      that transaction is `h` itself and has an output `i`, or the output was
      unspent before it. So `i` is in the map exactly when the last
      transaction to record `h` has an output `i` (or, if none does, `init`
      holds it) and no input from that transaction on spends it. */
  predicate Live(init: Utxos, txs: seq<Tx>, h: string, i: nat)
  {
    if |txs| == 0 then InMap(init, h, i)
    else
      var tx := txs[|txs| - 1];
      !SpentBy(tx.inputs, h, i) && (if tx.txid == h then i < |tx.outputs| else Live(init, txs[..|txs| - 1], h, i))
  }

  /** `Live` read off the list: with `txs[k]` the last transaction to
      record `h`, output `i` is unspent exactly when `txs[k]` has an output
      `i` and no input from `txs[k]` on spends it. */
  lemma {:induction false} LiveLastRecord(init: Utxos, txs: seq<Tx>, h: string, i: nat, k: nat)
    requires k < |txs| && txs[k].txid == h && forall j :: k < j < |txs| ==> txs[j].txid != h
    ensures Live(init, txs, h, i) <==> i < |txs[k].outputs| && forall j :: k <= j < |txs| ==> !SpentBy(txs[j].inputs, h, i)
  {
    var pre := txs[..|txs| - 1];
    if k < |txs| - 1 {
      LiveLastRecord(init, pre, h, i, k);
      assert forall j :: k <= j < |pre| ==> pre[j] == txs[j];
    }
  }

  /** With no transaction recording `h`, output `i` is unspent exactly when
      `init` holds it and no input spends it. */
  lemma {:induction false} LiveNoRecord(init: Utxos, txs: seq<Tx>, h: string, i: nat)
    requires forall j :: 0 <= j < |txs| ==> txs[j].txid != h
    ensures Live(init, txs, h, i) <==> InMap(init, h, i) && forall j :: 0 <= j < |txs| ==> !SpentBy(txs[j].inputs, h, i)
  {
    if |txs| > 0 {
      var pre := txs[..|txs| - 1];
      LiveNoRecord(init, pre, h, i);
      assert forall j :: 0 <= j < |pre| ==> pre[j] == txs[j];
    }
  }

  /** The gate after the transactions `txs` of a run that is still going:
      open from the start, or from the first transaction once `sT` is
      absent or met. */
  function GateAfter(start: bool, txs: seq<Tx>, sT: Option<string>): bool
  {
    if |txs| == 0 then start
    else GateAfter(start, txs[..|txs| - 1], sT) || OpensGate(sT, txs[|txs| - 1])
  }

  /** `tx` opens the gate: there is no start transaction, or `tx` is it. */
  predicate OpensGate(sT: Option<string>, tx: Tx)
  {
    sT.None? || sT == Some(tx.txid)
  }

  /** The transactions of `txs` the gate lets through, in order. */
  function Processed(start: bool, txs: seq<Tx>, sT: Option<string>): seq<Tx>
  {
    if |txs| == 0 then []
    else Processed(start, txs[..|txs| - 1], sT) + (if GateAfter(start, txs, sT) then [txs[|txs| - 1]] else [])
  }

  /** The gate is open after `txs` exactly when it was open to begin with
      or one of `txs` opens it. */
  lemma {:induction false} GateAfterSpec(start: bool, txs: seq<Tx>, sT: Option<string>)
    ensures GateAfter(start, txs, sT) <==> start || exists k :: 0 <= k < |txs| && OpensGate(sT, txs[k])
  {
    if |txs| > 0 {
      var pre, last := txs[..|txs| - 1], |txs| - 1;
      GateAfterSpec(start, pre, sT);
      assert GateAfter(start, txs, sT) <==> GateAfter(start, pre, sT) || OpensGate(sT, txs[last]);
      if exists k :: 0 <= k < |pre| && OpensGate(sT, pre[k]) {
        var k :| 0 <= k < |pre| && OpensGate(sT, pre[k]);
        assert txs[k] == pre[k];
      }
      if exists k :: 0 <= k < |txs| && OpensGate(sT, txs[k]) {
        var k :| 0 <= k < |txs| && OpensGate(sT, txs[k]);
        if k < |pre| {
          assert pre[k] == txs[k];
        }
      }
    }
  }

  /** Removing output `j` of `g` removes that one output and no other. */
  lemma EvictInMap(utxos: Utxos, g: string, j: nat, h: string, i: nat)
    requires g in utxos
    ensures InMap(Evict(utxos, g, j), h, i) <==> InMap(utxos, h, i) && (h != g || i != j)
  {
    EvictSpec(utxos, g, j);
    if h == g && i != j && i in utxos[h] {
      assert i in utxos[h] - {j};
    }
  }

  /** Inputs that raise no KeyError remove exactly the outputs they spend. */
  lemma {:induction false} ResolveRemovesSpent(utxos: Utxos, inputs: seq<TxInput>, h: string, i: nat)
    requires ResolveInputs(utxos, inputs, false).missing.None?
    ensures InMap(ResolveInputs(utxos, inputs, false).utxos, h, i) <==> InMap(utxos, h, i) && !SpentBy(inputs, h, i)
  {
    if |inputs| > 0 {
      var pre, inp := inputs[..|inputs| - 1], inputs[|inputs| - 1];
      var r := ResolveInputs(utxos, pre, false);
      ResolveRemovesSpent(utxos, pre, h, i);
      assert inputs == pre + [inp];
      var g, j := inp.transactionHash, inp.transactionIndex;
      if g != CoinbaseHash && g in r.utxos && j in r.utxos[g] {
        EvictInMap(r.utxos, g, j, h, i);
      }
    }
  }

  /** One processed transaction outside raw mode, without a KeyError:
      the map changes as `Live` says for its last step. */
  lemma TxEffectLive(f: Flags, s: ParserState, tx: Tx, h: string, i: nat)
    requires !f.raw && TxEffect(f, s, tx).status == Running
    ensures InMap(TxEffect(f, s, tx).state.utxos, h, i)
        <==> !SpentBy(tx.inputs, h, i) && (if tx.txid == h then i < |tx.outputs| else InMap(s.utxos, h, i))
  {
    var u := s.utxos[tx.txid := OutputMap(tx.outputs)];
    OutputMapSpec(tx.outputs);
    ResolveRemovesSpent(u, tx.inputs, h, i);
  }

  /** One iteration of the transaction loop that keeps the run going: the
      gate opens as `GateAfter` says, and the map takes `Live`'s last step
      if the gate is open and stays as it was if not. */
  lemma TxStepLive(f: Flags, s: ParserState, start: bool, tx: Tx, sT: Option<string>, eT: Option<string>,
                   h: string, i: nat)
    requires !f.raw
    ensures var p := TxStep(f, s, start, tx, sT, eT); var open := start || OpensGate(sT, tx);
      p.status == Running ==>
        p.start == open
        && (InMap(p.state.utxos, h, i)
            <==> if open then !SpentBy(tx.inputs, h, i) && (if tx.txid == h then i < |tx.outputs| else InMap(s.utxos, h, i))
                 else InMap(s.utxos, h, i))
  {
    var s1 := s.(currTxID := Some(tx.txid));
    if TxEffect(f, s1, tx).status == Running {
      TxEffectLive(f, s1, tx, h, i);
    }
  }

  /** The transaction loop of a run that keeps going keeps the map equal,
      output by output, to `Live` over the transactions the gate let
      through, and leaves the gate at `GateAfter`. */
  lemma {:induction false} RunTxsLive(f: Flags, s: ParserState, start: bool, txs: seq<Tx>, sT: Option<string>,
                                      eT: Option<string>, init: Utxos, done: seq<Tx>, h: string, i: nat)
    requires !f.raw && (InMap(s.utxos, h, i) <==> Live(init, done, h, i))
    ensures var p := RunTxs(f, s, start, txs, sT, eT);
      p.status == Running ==>
        p.start == GateAfter(start, txs, sT)
        && (InMap(p.state.utxos, h, i) <==> Live(init, done + Processed(start, txs, sT), h, i))
  {
    if |txs| == 0 {
      assert done + [] == done;
    } else {
      var pre := txs[..|txs| - 1];
      RunTxsLive(f, s, start, pre, sT, eT, init, done, h, i);
      var p := RunTxs(f, s, start, pre, sT, eT);
      if p.status == Running {
        TxStepLive(f, p.state, p.start, txs[|txs| - 1], sT, eT, h, i);
        LiveProcessedSnoc(init, done, start, txs, sT, h, i);
      }
    }
  }

  /** `Live` over the processed transactions, one transaction further. */
  lemma LiveProcessedSnoc(init: Utxos, done: seq<Tx>, start: bool, txs: seq<Tx>, sT: Option<string>, h: string, i: nat)
    requires |txs| > 0
    ensures var tx, q := txs[|txs| - 1], done + Processed(start, txs[..|txs| - 1], sT);
      Live(init, done + Processed(start, txs, sT), h, i)
      <==> if GateAfter(start, txs, sT)
           then !SpentBy(tx.inputs, h, i) && (if tx.txid == h then i < |tx.outputs| else Live(init, q, h, i))
           else Live(init, q, h, i)
  {
    var tx, q := txs[|txs| - 1], done + Processed(start, txs[..|txs| - 1], sT);
    if GateAfter(start, txs, sT) {
      assert done + Processed(start, txs, sT) == q + [tx];
      assert (q + [tx])[..|q|] == q;
    } else {
      assert done + Processed(start, txs, sT) == q;
    }
  }

  /** The gate and the processed transactions over two stretches of a run. */
  lemma {:induction false} ProcessedAppend(start: bool, a: seq<Tx>, b: seq<Tx>, sT: Option<string>)
    ensures GateAfter(start, a + b, sT) == GateAfter(GateAfter(start, a, sT), b, sT)
    ensures Processed(start, a + b, sT) == Processed(start, a, sT) + Processed(GateAfter(start, a, sT), b, sT)
  {
    if |b| == 0 {
      assert a + b == a;
    } else {
      var b' := b[..|b| - 1];
      assert (a + b)[..|a + b| - 1] == a + b';
      assert (a + b)[|a + b| - 1] == b[|b| - 1];
      ProcessedAppend(start, a, b', sT);
    }
  }

  /** The transactions of a block that the end-timestamp skip lets through. */
  function BlockTxs(endTS: Option<int>, b: Block): seq<Tx>
  {
    if EndTSActive(endTS) && b.timestamp > endTS.value then [] else b.transactions
  }

  /** The transactions of `blocks` the block loop hands to the transaction loop, in order. */
  function TxsOf(endTS: Option<int>, blocks: seq<Block>): seq<Tx>
  {
    if |blocks| == 0 then [] else TxsOf(endTS, blocks[..|blocks| - 1]) + BlockTxs(endTS, blocks[|blocks| - 1])
  }

  /** The transactions of `files` the file loop hands to the block loop, in order. */
  function FileTxs(endTS: Option<int>, files: seq<string>, blocksOf: string -> seq<Block>): seq<Tx>
  {
    if |files| == 0 then [] else FileTxs(endTS, files[..|files| - 1], blocksOf) + TxsOf(endTS, blocksOf(files[|files| - 1]))
  }

  /** `Live` and the gate across two stretches of transactions. */
  lemma LiveAppend(init: Utxos, done: seq<Tx>, start: bool, a: seq<Tx>, b: seq<Tx>, sT: Option<string>)
    ensures GateAfter(start, a + b, sT) == GateAfter(GateAfter(start, a, sT), b, sT)
    ensures done + Processed(start, a + b, sT)
         == (done + Processed(start, a, sT)) + Processed(GateAfter(start, a, sT), b, sT)
  {
    ProcessedAppend(start, a, b, sT);
  }

  /** One iteration of the block loop that keeps the run going, as `RunTxsLive`
      over the block's transactions that are not skipped. */
  lemma BlockStepLive(f: Flags, endTS: Option<int>, s: ParserState, start: bool, b: Block, sT: Option<string>,
                      eT: Option<string>, init: Utxos, done: seq<Tx>, h: string, i: nat)
    requires !f.raw && (InMap(s.utxos, h, i) <==> Live(init, done, h, i))
    ensures var p := BlockStep(f, endTS, s, start, b, sT, eT); var txs := BlockTxs(endTS, b);
      p.status == Running ==>
        p.start == GateAfter(start, txs, sT)
        && (InMap(p.state.utxos, h, i) <==> Live(init, done + Processed(start, txs, sT), h, i))
  {
    if EndTSActive(endTS) && b.timestamp > endTS.value {
      assert done + [] == done;
    } else {
      var s1 := s.(currBlHash := Some(b.hash), currBlS := Some(b.timestamp));
      RunTxsLive(f, s1, start, b.transactions, sT, eT, init, done, h, i);
    }
  }

  /** The block loop of a run that keeps going, as `RunTxsLive` over the
      transactions of the blocks that are not skipped. */
  lemma {:induction false} RunBlocksLive(f: Flags, endTS: Option<int>, s: ParserState, start: bool, blocks: seq<Block>,
                                         sT: Option<string>, eT: Option<string>, init: Utxos, done: seq<Tx>,
                                         h: string, i: nat)
    requires !f.raw && (InMap(s.utxos, h, i) <==> Live(init, done, h, i))
    ensures var p := RunBlocks(f, endTS, s, start, blocks, sT, eT); var txs := TxsOf(endTS, blocks);
      p.status == Running ==>
        p.start == GateAfter(start, txs, sT)
        && (InMap(p.state.utxos, h, i) <==> Live(init, done + Processed(start, txs, sT), h, i))
  {
    if |blocks| == 0 {
      assert done + [] == done;
    } else {
      var pre, b := blocks[..|blocks| - 1], blocks[|blocks| - 1];
      RunBlocksLive(f, endTS, s, start, pre, sT, eT, init, done, h, i);
      var p := RunBlocks(f, endTS, s, start, pre, sT, eT);
      if p.status == Running {
        var t := TxsOf(endTS, pre);
        BlockStepLive(f, endTS, p.state, p.start, b, sT, eT, init, done + Processed(start, t, sT), h, i);
        LiveAppend(init, done, start, t, BlockTxs(endTS, b), sT);
      }
    }
  }

  /** One iteration of the file loop that keeps the run going: the flush
      leaves the map alone, so this is `RunBlocksLive` over the file's blocks. */
  lemma FileStepLive(f: Flags, endTS: Option<int>, upload: bool, s: ParserState, start: bool, file: string,
                     blocksOf: string -> seq<Block>, sink: (seq<Edge>, nat) -> bool, sT: Option<string>,
                     eT: Option<string>, init: Utxos, done: seq<Tx>, h: string, i: nat)
    requires !f.raw && (InMap(s.utxos, h, i) <==> Live(init, done, h, i))
    ensures var p := FileStep(f, endTS, upload, s, start, file, blocksOf, sink, sT, eT);
      var txs := TxsOf(endTS, blocksOf(file));
      p.status == Running ==>
        p.start == GateAfter(start, txs, sT)
        && (InMap(p.state.utxos, h, i) <==> Live(init, done + Processed(start, txs, sT), h, i))
  {
    if s.edgeList == [] && Framing.FileNumber(file).Some? {
      RunBlocksLive(f, endTS, s.(fn := Framing.FileNumber(file)), start, blocksOf(file), sT, eT, init, done, h, i);
    }
  }

  /** The file loop of a run that keeps going, as `RunTxsLive` over the
      transactions of all its files' blocks that are not skipped. */
  lemma {:induction false} RunFilesLive(f: Flags, endTS: Option<int>, upload: bool, s: ParserState, start: bool,
                                        files: seq<string>, blocksOf: string -> seq<Block>,
                                        sink: (seq<Edge>, nat) -> bool, sT: Option<string>, eT: Option<string>,
                                        init: Utxos, done: seq<Tx>, h: string, i: nat)
    requires !f.raw && (InMap(s.utxos, h, i) <==> Live(init, done, h, i))
    ensures var p := RunFiles(f, endTS, upload, s, start, files, blocksOf, sink, sT, eT);
      var txs := FileTxs(endTS, files, blocksOf);
      p.status == Running ==>
        p.start == GateAfter(start, txs, sT)
        && (InMap(p.state.utxos, h, i) <==> Live(init, done + Processed(start, txs, sT), h, i))
  {
    if |files| == 0 {
      assert done + [] == done;
    } else {
      var pre, file := files[..|files| - 1], files[|files| - 1];
      RunFilesLive(f, endTS, upload, s, start, pre, blocksOf, sink, sT, eT, init, done, h, i);
      var p := RunFiles(f, endTS, upload, s, start, pre, blocksOf, sink, sT, eT);
      if p.status == Running {
        var t := FileTxs(endTS, pre, blocksOf);
        FileStepLive(f, endTS, upload, p.state, p.start, file, blocksOf, sink, sT, eT,
                     init, done + Processed(start, t, sT), h, i);
        LiveAppend(init, done, start, t, TxsOf(endTS, blocksOf(file)), sT);
      }
    }
  }

  /** `Finished` is given only by `parse` itself, never by a loop. */
  lemma {:induction false} RunTxsNotFinished(f: Flags, s: ParserState, start: bool, txs: seq<Tx>,
                                             sT: Option<string>, eT: Option<string>)
    ensures RunTxs(f, s, start, txs, sT, eT).status != Finished
  {
    if |txs| > 0 {
      RunTxsNotFinished(f, s, start, txs[..|txs| - 1], sT, eT);
    }
  }

  lemma {:induction false} RunBlocksNotFinished(f: Flags, endTS: Option<int>, s: ParserState, start: bool,
                                                blocks: seq<Block>, sT: Option<string>, eT: Option<string>)
    ensures RunBlocks(f, endTS, s, start, blocks, sT, eT).status != Finished
  {
    if |blocks| > 0 {
      var b := blocks[|blocks| - 1];
      RunBlocksNotFinished(f, endTS, s, start, blocks[..|blocks| - 1], sT, eT);
      var p := RunBlocks(f, endTS, s, start, blocks[..|blocks| - 1], sT, eT);
      RunTxsNotFinished(f, p.state.(currBlHash := Some(b.hash), currBlS := Some(b.timestamp)), p.start,
                        b.transactions, sT, eT);
    }
  }

  lemma {:induction false} RunFilesNotFinished(f: Flags, endTS: Option<int>, upload: bool, s: ParserState, start: bool,
                                               files: seq<string>, blocksOf: string -> seq<Block>,
                                               sink: (seq<Edge>, nat) -> bool, sT: Option<string>, eT: Option<string>)
    ensures RunFiles(f, endTS, upload, s, start, files, blocksOf, sink, sT, eT).status != Finished
  {
    if |files| > 0 {
      var file := files[|files| - 1];
      RunFilesNotFinished(f, endTS, upload, s, start, files[..|files| - 1], blocksOf, sink, sT, eT);
      var p := RunFiles(f, endTS, upload, s, start, files[..|files| - 1], blocksOf, sink, sT, eT);
      RunBlocksNotFinished(f, endTS, p.state.(fn := Framing.FileNumber(file)), p.start, blocksOf(file), sT, eT);
    }
  }

  /** A `parse` outside raw mode that reaches its end leaves output `i` of
      `h` in `Utxos` exactly when `Live` says so over the transactions it
      processed, starting from the map it was given. */
  lemma ParseLive(f: Flags, endTS: Option<int>, upload: bool, s: ParserState, files: seq<string>,
                  blocksOf: string -> seq<Block>, sink: (seq<Edge>, nat) -> bool,
                  sT: Option<string>, eT: Option<string>, h: string, i: nat)
    requires !f.raw
    ensures var p := ParseRun(f, endTS, upload, s, files, blocksOf, sink, sT, eT);
      p.status == Finished ==>
        (InMap(p.state.utxos, h, i)
         <==> Live(s.utxos, Processed(sT.None?, FileTxs(endTS, files, blocksOf), sT), h, i))
  {
    RunFilesLive(f, endTS, upload, s, sT.None?, files, blocksOf, sink, sT, eT, s.utxos, [], h, i);
    RunFilesNotFinished(f, endTS, upload, s, sT.None?, files, blocksOf, sink, sT, eT);
    assert [] + Processed(sT.None?, FileTxs(endTS, files, blocksOf), sT)
        == Processed(sT.None?, FileTxs(endTS, files, blocksOf), sT);
  }

  // ---------------------------------------------------------------------
  // Entries without outputs

  /** No txid in the map is left with an empty dict of outputs. */
  predicate NoEmptyEntries(utxos: Utxos)
  {
    forall h :: h in utxos ==> utxos[h] != map[]
  }

  /** Every transaction of the list has at least one output. */
  predicate HaveOutputs(txs: seq<Tx>)
  {
    forall tx :: tx in txs ==> |tx.outputs| > 0
  }

  /** Eviction never leaves an empty dict behind. */
  lemma {:induction false} ResolveKeepsNoEmpty(utxos: Utxos, inputs: seq<TxInput>, raw: bool)
    requires NoEmptyEntries(utxos)
    ensures NoEmptyEntries(ResolveInputs(utxos, inputs, raw).utxos)
  {
    if |inputs| > 0 {
      ResolveKeepsNoEmpty(utxos, inputs[..|inputs| - 1], raw);
      var r := ResolveInputs(utxos, inputs[..|inputs| - 1], raw);
      var inp := inputs[|inputs| - 1];
      if inp.transactionHash in r.utxos {
        var inner := r.utxos[inp.transactionHash] - {inp.transactionIndex};
        assert |inner| != 0 ==> inner != map[];
      }
    }
  }

  /** Recording at least one output keeps every entry non-empty. */
  lemma TxEffectKeepsNoEmpty(f: Flags, s: ParserState, tx: Tx)
    requires NoEmptyEntries(s.utxos) && |tx.outputs| > 0
    ensures NoEmptyEntries(TxEffect(f, s, tx).state.utxos)
  {
    var u := if f.raw then s.utxos else s.utxos[tx.txid := OutputMap(tx.outputs)];
    OutputMapSpec(tx.outputs);
    assert 0 in OutputMap(tx.outputs);
    ResolveKeepsNoEmpty(u, tx.inputs, f.raw);
  }

  lemma {:induction false} RunTxsKeepsNoEmpty(f: Flags, s: ParserState, start: bool, txs: seq<Tx>,
                                              sT: Option<string>, eT: Option<string>)
    requires NoEmptyEntries(s.utxos) && HaveOutputs(txs)
    ensures NoEmptyEntries(RunTxs(f, s, start, txs, sT, eT).state.utxos)
  {
    if |txs| > 0 {
      var pre, tx := txs[..|txs| - 1], txs[|txs| - 1];
      assert txs == pre + [tx];
      RunTxsKeepsNoEmpty(f, s, start, pre, sT, eT);
      var p := RunTxs(f, s, start, pre, sT, eT);
      TxEffectKeepsNoEmpty(f, p.state.(currTxID := Some(tx.txid)), tx);
    }
  }

  lemma {:induction false} RunBlocksKeepsNoEmpty(f: Flags, endTS: Option<int>, s: ParserState, start: bool,
                                                 blocks: seq<Block>, sT: Option<string>, eT: Option<string>)
    requires NoEmptyEntries(s.utxos) && HaveOutputs(TxsOf(endTS, blocks))
    ensures NoEmptyEntries(RunBlocks(f, endTS, s, start, blocks, sT, eT).state.utxos)
  {
    if |blocks| > 0 {
      var pre, b := blocks[..|blocks| - 1], blocks[|blocks| - 1];
      RunBlocksKeepsNoEmpty(f, endTS, s, start, pre, sT, eT);
      var p := RunBlocks(f, endTS, s, start, pre, sT, eT);
      if !(EndTSActive(endTS) && b.timestamp > endTS.value) {
        RunTxsKeepsNoEmpty(f, p.state.(currBlHash := Some(b.hash), currBlS := Some(b.timestamp)), p.start,
                           b.transactions, sT, eT);
      }
    }
  }

  lemma {:induction false} RunFilesKeepsNoEmpty(f: Flags, endTS: Option<int>, upload: bool, s: ParserState, start: bool,
                                                files: seq<string>, blocksOf: string -> seq<Block>,
                                                sink: (seq<Edge>, nat) -> bool, sT: Option<string>, eT: Option<string>)
    requires NoEmptyEntries(s.utxos) && HaveOutputs(FileTxs(endTS, files, blocksOf))
    ensures NoEmptyEntries(RunFiles(f, endTS, upload, s, start, files, blocksOf, sink, sT, eT).state.utxos)
  {
    if |files| > 0 {
      var pre, file := files[..|files| - 1], files[|files| - 1];
      RunFilesKeepsNoEmpty(f, endTS, upload, s, start, pre, blocksOf, sink, sT, eT);
      var p := RunFiles(f, endTS, upload, s, start, pre, blocksOf, sink, sT, eT);
      if p.state.edgeList == [] && Framing.FileNumber(file).Some? {
        RunBlocksKeepsNoEmpty(f, endTS, p.state.(fn := Framing.FileNumber(file)), p.start, blocksOf(file), sT, eT);
      }
    }
  }

  /** When every entry starts non-empty and every transaction has an
      output, a `parse` that reaches its end keeps a txid in `Utxos` exactly
      when one of its outputs is still unspent. */
  lemma ParseEntries(f: Flags, endTS: Option<int>, upload: bool, s: ParserState, files: seq<string>,
                     blocksOf: string -> seq<Block>, sink: (seq<Edge>, nat) -> bool,
                     sT: Option<string>, eT: Option<string>, h: string)
    requires !f.raw && NoEmptyEntries(s.utxos) && HaveOutputs(FileTxs(endTS, files, blocksOf))
    ensures var p := ParseRun(f, endTS, upload, s, files, blocksOf, sink, sT, eT);
      var done := Processed(sT.None?, FileTxs(endTS, files, blocksOf), sT);
      p.status == Finished ==> (h in p.state.utxos <==> exists i: nat :: Live(s.utxos, done, h, i))
  {
    var p := ParseRun(f, endTS, upload, s, files, blocksOf, sink, sT, eT);
    var done := Processed(sT.None?, FileTxs(endTS, files, blocksOf), sT);
    if p.status == Finished {
      RunFilesKeepsNoEmpty(f, endTS, upload, s, sT.None?, files, blocksOf, sink, sT, eT);
      if h in p.state.utxos {
        assert p.state.utxos[h].Keys != {};
        var i :| i in p.state.utxos[h];
        ParseLive(f, endTS, upload, s, files, blocksOf, sink, sT, eT, h, i);
      }
      if exists i: nat :: Live(s.utxos, done, h, i) {
        var i: nat :| Live(s.utxos, done, h, i);
        ParseLive(f, endTS, upload, s, files, blocksOf, sink, sT, eT, h, i);
      }
    }
  }

  /** The code records `outs` even when a transaction has no outputs, so
      such a transaction leaves its txid in `Utxos` with an empty dict; no
      later input can remove it (one that names it raises KeyError). */
  lemma ZeroOutputEntryStays(f: Flags, s: ParserState, tx: Tx)
    requires !f.raw && |tx.outputs| == 0
    requires forall k :: 0 <= k < |tx.inputs| ==> tx.inputs[k].transactionHash != tx.txid
    ensures var u := TxEffect(f, s, tx).state.utxos;
      tx.txid in u && u[tx.txid] == map[] && forall i :: !InMap(u, tx.txid, i)
  {
    RecordsOutputs(f, s, tx);
  }

  // ---------------------------------------------------------------------
  // The parser object

  class BtcTxParser {
    const raw: bool
    const withTS: bool
    const collectValue: bool
    const upload: bool
    const endTS: Option<int>
    var utxos: Utxos
    var edgeList: seq<Edge>
    var currTxID: Option<string>
    var currBlHash: Option<string>
    var currBlS: Option<int>
    var fn: Option<nat>

    function Switches(): Flags
    {
      Flags(raw, withTS, collectValue)
    }

    ghost function State(): ParserState
      reads this
    {
      ParserState(utxos, edgeList, currTxID, currBlHash, currBlS, fn)
    }

    /** The restored metadata and map are passed in already loaded. */
    constructor (raw: bool, withTS: bool, collectValue: bool, upload: bool, endTS: Option<int>,
                 utxos: Utxos, edgeList: seq<Edge>, currTxID: Option<string>, currBlHash: Option<string>,
                 currBlS: Option<int>)
      ensures Switches() == Flags(raw, withTS, collectValue) && this.upload == upload && this.endTS == endTS
      ensures State() == ParserState(utxos, edgeList, currTxID, currBlHash, currBlS, None)
    {
      this.raw, this.withTS, this.collectValue, this.upload, this.endTS := raw, withTS, collectValue, upload, endTS;
      this.utxos, this.edgeList, this.currTxID, this.currBlHash, this.currBlS := utxos, edgeList, currTxID, currBlHash, currBlS;
      fn := None;
    }

    /** `_buildEdge(u, v, Val)`. */
    method BuildEdge(u: seq<Value>, v: seq<string>, val: seq<int>)
      modifies this`edgeList
      ensures edgeList == old(edgeList) + EdgesFor(Switches(), currBlS, currTxID, u, v, val)
    {
      var sources := Dedup(u);
      for i := 0 to |sources|
        invariant edgeList == old(edgeList) + Edges(Switches(), currBlS, currTxID, sources[..i], v, val)
      {
        assert sources[..i + 1][..i] == sources[..i];
        ghost var f := Switches();
        assert Edges(f, currBlS, currTxID, sources[..i + 1], v, val)
          == Edges(f, currBlS, currTxID, sources[..i], v, val) + Row(f, currBlS, currTxID, sources[i], v, |v|, val);
        BuildRow(sources[i], v, val);
      }
      assert sources[..|sources|] == sources;
    }

    /** The inner loop of `_buildEdge`: the edges from `src` to each of `v`. */
    method BuildRow(src: Value, v: seq<string>, val: seq<int>)
      modifies this`edgeList
      ensures edgeList == old(edgeList) + Row(Switches(), currBlS, currTxID, src, v, |v|, val)
    {
      for index := 0 to |v|
        invariant edgeList == old(edgeList) + Row(Switches(), currBlS, currTxID, src, v, index, val)
      {
        var ts, id, dest := IntOrNone(currBlS), StrOrNone(currTxID), Str(v[index]);
        if raw {
          if withTS && collectValue {
            if index < |val| {
              edgeList := edgeList + [[ts, id, src, dest, Int(index), Int(val[index])]];
            }
            // else: IndexError, only logged
          } else if withTS {
            edgeList := edgeList + [[ts, id, src, dest, Int(index)]];
          } else if collectValue {
            if index < |val| {
              edgeList := edgeList + [[id, src, dest, Int(index), Int(val[index])]];
            }
          } else {
            edgeList := edgeList + [[id, src, dest, Int(index)]];
          }
        } else if withTS {
          edgeList := edgeList + [[ts, id, src, dest]];
        } else {
          edgeList := edgeList + [[id, src, dest]];
        }
      }
    }

    /** Resolving the inputs of a processed transaction, the loop of `parse`
        that fills `Vins` and evicts spent outputs. */
    method ResolveAll(inputs: seq<TxInput>) returns (vins: seq<Value>, missing: Option<TxInput>)
      modifies this`utxos
      ensures Resolution(vins, utxos, missing) == ResolveInputs(old(utxos), inputs, raw)
    {
      vins, missing := [], None;
      for k := 0 to |inputs|
        invariant Resolution(vins, utxos, None) == ResolveInputs(old(utxos), inputs[..k], raw)
      {
        assert inputs[..k + 1][..k] == inputs[..k];
        var inp := inputs[k];
        var h, i := inp.transactionHash, inp.transactionIndex;
        if h == CoinbaseHash {
          vins := vins + [Str("00")];
        } else if h in utxos {
          if i !in utxos[h] {
            ResolveStopAt(old(utxos), inputs, raw, k + 1);
            return vins, Some(inp);
          }
          var vin := utxos[h][i];
          vins := vins + Strs(vin);
          var inner := utxos[h] - {i};
          if |inner| == 0 {
            utxos := utxos - {h};
          } else {
            utxos := utxos[h := inner];
          }
        } else if raw {
          vins := vins + [Tuple([Str(h), Int(i)])];
        }
      }
      assert inputs[..|inputs|] == inputs;
    }

    /** The per-transaction body of `parse`. */
    method ProcessTx(tx: Tx, start: bool, sT: Option<string>, eT: Option<string>) returns (start': bool, status: Status)
      modifies this`utxos, this`edgeList, this`currTxID
      ensures Progress(State(), start', status) == TxStep(Switches(), old(State()), start, tx, sT, eT)
    {
      currTxID := Some(tx.txid);
      start' := start;
      if !start' {
        start' := sT.None? || sT == Some(tx.txid);
      }
      if eT.Some? && start' {
        start' := eT != Some(tx.txid);
        if !start' {
          return false, EndTx;
        }
      }
      if !start' {
        return false, Running;
      }
      if !raw {
        var outs: map<nat, seq<string>> := map[];
        for oIndex := 0 to |tx.outputs|
          invariant outs == OutputMap(tx.outputs[..oIndex])
        {
          assert tx.outputs[..oIndex + 1][..oIndex] == tx.outputs[..oIndex];
          outs := outs[oIndex := tx.outputs[oIndex].addresses];
        }
        assert tx.outputs[..|tx.outputs|] == tx.outputs;
        utxos := utxos[tx.txid := outs];
      }
      var vins, missing := ResolveAll(tx.inputs);
      if missing.Some? {
        return true, MissingOutput(missing.value);
      }
      var addrs := Addresses(tx.outputs);
      var val := if collectValue then Values(tx.outputs) else [];
      BuildEdge(vins, addrs, val);
      return true, Running;
    }

    /** The per-block body of `parse`: the transaction loop. */
    method ProcessBlock(b: Block, start: bool, sT: Option<string>, eT: Option<string>) returns (start': bool, status: Status)
      modifies this`utxos, this`edgeList, this`currTxID, this`currBlHash, this`currBlS
      ensures Progress(State(), start', status) == BlockStep(Switches(), endTS, old(State()), start, b, sT, eT)
    {
      currBlHash := Some(b.hash);
      currBlS := Some(b.timestamp);
      if EndTSActive(endTS) && b.timestamp > endTS.value {
        return start, Running;
      }
      ghost var s1 := State();
      ghost var p := Progress(s1, start, Running);
      start', status := start, Running;
      for k := 0 to |b.transactions|
        invariant p == RunTxs(Switches(), s1, start, b.transactions[..k], sT, eT)
        invariant status == Running && p.status == Running
        invariant State() == p.state && start' == p.start
        invariant currBlHash == Some(b.hash) && currBlS == Some(b.timestamp)
      {
        TxsStep(Switches(), s1, start, b.transactions, k, sT, eT);
        start', status := ProcessTx(b.transactions[k], start', sT, eT);
        p := TxStep(Switches(), p.state, p.start, b.transactions[k], sT, eT);
        if status != Running {
          TxsStopAt(Switches(), s1, start, b.transactions, k + 1, sT, eT);
          return;
        }
      }
      assert b.transactions[..|b.transactions|] == b.transactions;
    }

    /** The per-file body of `parse`: the block loop, then the sink and the reset. */
    method ProcessFile(file: string, start: bool, blocksOf: string -> seq<Block>, sink: (seq<Edge>, nat) -> bool,
                       sT: Option<string>, eT: Option<string>) returns (start': bool, status: Status)
      modifies this
      ensures Progress(State(), start', status) == FileStep(Switches(), endTS, upload, old(State()), start, file, blocksOf, sink, sT, eT)
    {
      if edgeList != [] {
        return start, EdgeListNotEmpty;
      }
      var n := Framing.FileNumber(file);
      if n.None? {
        return start, NoFileNumber(file);
      }
      fn := n;
      ghost var s1 := State();
      var blocks := blocksOf(file);
      ghost var p := Progress(s1, start, Running);
      start', status := start, Running;
      for k := 0 to |blocks|
        invariant p == RunBlocks(Switches(), endTS, s1, start, blocks[..k], sT, eT)
        invariant status == Running && p.status == Running
        invariant State() == p.state && start' == p.start
      {
        BlocksStep(Switches(), endTS, s1, start, blocks, k, sT, eT);
        start', status := ProcessBlock(blocks[k], start', sT, eT);
        p := BlockStep(Switches(), endTS, p.state, p.start, blocks[k], sT, eT);
        if status != Running {
          BlocksStopAt(Switches(), endTS, s1, start, blocks, k + 1, sT, eT);
          return;
        }
      }
      assert blocks[..|blocks|] == blocks;
      if upload {
        if sink(edgeList, n.value) {
          return start', Stopped;
        }
      }
      // the local save ignores the sink's answer
      edgeList := [];
    }

    /** `parse(sF, eF, sT, eT)` over the already selected block files. */
    method Parse(files: seq<string>, blocksOf: string -> seq<Block>, sink: (seq<Edge>, nat) -> bool,
                 sT: Option<string>, eT: Option<string>) returns (status: Status)
      modifies this
      ensures var p := ParseRun(Switches(), endTS, upload, old(State()), files, blocksOf, sink, sT, eT);
        State() == p.state && status == p.status
    {
      var start := sT.None?;
      ghost var s0 := State();
      ghost var p := Progress(s0, start, Running);
      status := Running;
      for k := 0 to |files|
        invariant p == RunFiles(Switches(), endTS, upload, s0, sT.None?, files[..k], blocksOf, sink, sT, eT)
        invariant status == Running && p.status == Running
        invariant State() == p.state && start == p.start
      {
        FilesStep(Switches(), endTS, upload, s0, sT.None?, files, k, blocksOf, sink, sT, eT);
        start, status := ProcessFile(files[k], start, blocksOf, sink, sT, eT);
        p := FileStep(Switches(), endTS, upload, p.state, p.start, files[k], blocksOf, sink, sT, eT);
        if status != Running {
          FilesStopAt(Switches(), endTS, upload, s0, sT.None?, files, k + 1, blocksOf, sink, sT, eT);
          return;
        }
      }
      assert files[..|files|] == files;
      return Finished;
    }
  }
}
