/** The older graph builder: it interns every address it meets as a vertex
    (`V`, with its integer index in `MAP_V`), adds one directed edge per
    (input address, output address) pair, and keeps its own unspent-output
    map keyed by transaction hash. The graph library is reduced to what this
    code uses of it: a node counter (`addNode` returns the next index) and
    the sequence of edges added. */
module Graph {
  import opened Common
  import Framing
  import TxParser

  datatype Transaction = Transaction(hash: string, inputs: seq<TxParser.TxInput>, outputs: seq<TxParser.TxOutput>)
  datatype Block = Block(hash: string, timestamp: int, transactions: seq<Transaction>)

  /** How many recent block hashes `processedBl` keeps. */
  const Window: nat := 50

  datatype GraphState = GraphState(nodeCount: nat, edges: seq<(nat, nat)>, v: set<string>, mapV: map<string, nat>,
                                   utxos: TxParser.Utxos, processedBl: seq<string>, lastBlHash: Option<string>,
                                   lastBlTs: Option<int>, lastTxHash: Option<string>)

  /** `V` and the keys of `MAP_V` are the same set. */
  predicate Agrees(s: GraphState)
  {
    s.v == s.mapV.Keys
  }

  predicate Injective(m: map<string, nat>)
  {
    forall a, b :: a in m && b in m && a != b ==> m[a] != m[b]
  }

  /** The full invariant: the vertex set and the map agree, every index is a
      node of the graph, no two names share an index, and every edge joins
      two nodes. */
  predicate Valid(s: GraphState)
  {
    Agrees(s) && Injective(s.mapV) && (forall n :: n in s.mapV ==> s.mapV[n] < s.nodeCount)
    && forall k :: 0 <= k < |s.edges| ==> s.edges[k].0 < s.nodeCount && s.edges[k].1 < s.nodeCount
  }

  // ---------------------------------------------------------------------
  // Vertices and edges

  /** `_addNode(n)` where `n` is new, or the `MAP_V` lookup where it is known. */
  function InternOne(s: GraphState, n: string): (r: (GraphState, nat))
    requires Agrees(s)
    ensures Agrees(r.0) && r.0 == s.(nodeCount := r.0.nodeCount, v := r.0.v, mapV := r.0.mapV)
  {
    if n !in s.v then (s.(nodeCount := s.nodeCount + 1, mapV := s.mapV[n := s.nodeCount], v := s.v + {n}), s.nodeCount)
    else (s, s.mapV[n])
  }

  /** One of the two list comprehensions of `_buildEdge`: every name in turn. */
  function Intern(s: GraphState, names: seq<string>): (r: (GraphState, seq<nat>))
    requires Agrees(s)
    ensures Agrees(r.0) && |r.1| == |names|
    ensures r.0 == s.(nodeCount := r.0.nodeCount, v := r.0.v, mapV := r.0.mapV)
  {
    if |names| == 0 then (s, [])
    else
      var p := Intern(s, names[..|names| - 1]);
      var q := InternOne(p.0, names[|names| - 1]);
      (q.0, p.1 + [q.1])
  }

  /** `for i in inputs: for o in outputs: addEdge(i, o)`. */
  function Cross(ins: seq<nat>, outs: seq<nat>): seq<(nat, nat)>
  {
    if |ins| == 0 then [] else Cross(ins[..|ins| - 1], outs) + Pairs(ins[|ins| - 1], outs)
  }

  /** The inner loop: `x` joined to every output in turn. */
  function Pairs(x: nat, outs: seq<nat>): (r: seq<(nat, nat)>)
    ensures |r| == |outs| && forall j :: 0 <= j < |outs| ==> r[j] == (x, outs[j])
  {
    if |outs| == 0 then [] else Pairs(x, outs[..|outs| - 1]) + [(x, outs[|outs| - 1])]
  }

  /** `_buildEdge(u, v)`. */
  function BuildEdgeSpec(s: GraphState, u: seq<string>, v: seq<string>): (r: GraphState)
    requires Agrees(s)
    ensures Agrees(r) && r == s.(nodeCount := r.nodeCount, edges := r.edges, v := r.v, mapV := r.mapV)
  {
    var p := Intern(s, u);
    var q := Intern(p.0, v);
    q.0.(edges := q.0.edges + Cross(p.1, q.1))
  }

  /** One new name keeps the invariant: its index, the old node counter,
      is above every index in use. */
  lemma InternOneValid(s: GraphState, n: string)
    requires Valid(s)
    ensures Valid(InternOne(s, n).0)
  {
    if n !in s.v {
      var r := InternOne(s, n).0;
      forall a, b | a in r.mapV && b in r.mapV && a != b
        ensures r.mapV[a] != r.mapV[b]
      {
        if a != n && b != n {
          assert r.mapV[a] == s.mapV[a] && r.mapV[b] == s.mapV[b];
        }
      }
    }
  }

  lemma {:induction false} InternValid(s: GraphState, names: seq<string>)
    requires Valid(s)
    ensures Valid(Intern(s, names).0)
  {
    if |names| > 0 {
      InternValid(s, names[..|names| - 1]);
      InternOneValid(Intern(s, names[..|names| - 1]).0, names[|names| - 1]);
    }
  }

  /** Interning adds exactly the names to `V` and only grows the counter. */
  lemma {:induction false} InternVertices(s: GraphState, names: seq<string>)
    requires Agrees(s)
    ensures Intern(s, names).0.v == s.v + Elements(names)
    ensures Intern(s, names).0.nodeCount >= s.nodeCount
  {
    if |names| > 0 {
      var m := names[..|names| - 1];
      InternVertices(s, m);
      assert Elements(names) == Elements(m) + {names[|names| - 1]};
    }
  }

  /** Known names keep their index; new names get indices from the counter. */
  lemma {:induction false} InternIndexes(s: GraphState, names: seq<string>)
    requires Agrees(s)
    ensures var r := Intern(s, names).0;
      (forall n :: n in s.mapV ==> n in r.mapV && r.mapV[n] == s.mapV[n])
      && (forall n :: n in r.mapV && n !in s.mapV ==> s.nodeCount <= r.mapV[n] < r.nodeCount)
  {
    if |names| > 0 {
      InternIndexes(s, names[..|names| - 1]);
      InternVertices(s, names[..|names| - 1]);
    }
  }

  /** The k-th result of interning is the k-th name's `MAP_V` index. */
  lemma {:induction false} InternIds(s: GraphState, names: seq<string>)
    requires Agrees(s)
    ensures var r := Intern(s, names);
      forall k :: 0 <= k < |names| ==> names[k] in r.0.mapV && r.1[k] == r.0.mapV[names[k]]
  {
    if |names| > 0 {
      var m := names[..|names| - 1];
      InternIds(s, m);
      var p := Intern(s, m);
      var q := InternOne(p.0, names[|names| - 1]);
      forall k | 0 <= k < |names|
        ensures names[k] in q.0.mapV && (p.1 + [q.1])[k] == q.0.mapV[names[k]]
      {
        if k < |m| {
          assert names[k] == m[k];
        }
      }
    }
  }

  /** Interning puts every name in `V`, returns each name's `MAP_V` index,
      keeps the index of every name already known and gives new names
      fresh indices from the node counter. */
  lemma InternSpec(s: GraphState, names: seq<string>)
    requires Agrees(s)
    ensures var r := Intern(s, names);
      r.0.v == s.v + Elements(names) && r.0.nodeCount >= s.nodeCount
      && (forall k :: 0 <= k < |names| ==> r.1[k] == r.0.mapV[names[k]])
      && (forall n :: n in s.mapV ==> r.0.mapV[n] == s.mapV[n])
      && (forall n :: n in r.0.mapV && n !in s.mapV ==> s.nodeCount <= r.0.mapV[n] < r.0.nodeCount)
  {
    InternVertices(s, names);
    InternIndexes(s, names);
    InternIds(s, names);
    var r := Intern(s, names);
    assert forall k :: 0 <= k < |names| ==> names[k] in r.0.mapV;
  }

  lemma {:induction false} CrossLength(ins: seq<nat>, outs: seq<nat>)
    ensures |Cross(ins, outs)| == |ins| * |outs|
  {
    if |ins| > 0 {
      CrossLength(ins[..|ins| - 1], outs);
      TxParser.MulStep(|ins| - 1, |outs|);
    }
  }

  /** Edge number i * |outs| + j joins input i to output j. */
  lemma {:induction false} CrossAt(ins: seq<nat>, outs: seq<nat>, i: nat, j: nat)
    requires i < |ins| && j < |outs|
    ensures i * |outs| + j < |Cross(ins, outs)|
    ensures Cross(ins, outs)[i * |outs| + j] == (ins[i], outs[j])
  {
    var n := |ins| - 1;
    var p := ins[..n];
    CrossLength(p, outs);
    CrossLength(ins, outs);
    if i < n {
      CrossAt(p, outs, i, j);
      TxParser.Slot(i, |outs|, j, n);
      assert p[i] == ins[i];
    }
  }

  lemma {:induction false} CrossMembers(ins: seq<nat>, outs: seq<nat>)
    ensures forall e :: e in Cross(ins, outs) ==> e.0 in ins && e.1 in outs
  {
    if |ins| > 0 {
      CrossMembers(ins[..|ins| - 1], outs);
      assert forall x :: x in ins[..|ins| - 1] ==> x in ins;
      var row := Pairs(ins[|ins| - 1], outs);
      assert forall e :: e in row ==> e.1 in outs;
    }
  }

  /** Every index in `ids` is below `bound`. */
  predicate Below(ids: seq<nat>, bound: nat)
  {
    forall x :: x in ids ==> x < bound
  }

  /** `_buildEdge` keeps the invariant: every new edge joins two nodes. */
  lemma BuildEdgeValid(s: GraphState, u: seq<string>, v: seq<string>)
    requires Valid(s)
    ensures Valid(BuildEdgeSpec(s, u, v))
  {
    var p := Intern(s, u);
    InternValid(s, u);
    InternIds(s, u);
    var q := Intern(p.0, v);
    InternValid(p.0, v);
    InternIds(p.0, v);
    InternVertices(p.0, v);
    assert Below(p.1, q.0.nodeCount) by {
      forall x | x in p.1 ensures x < q.0.nodeCount {
        var a :| 0 <= a < |p.1| && p.1[a] == x;
      }
    }
    assert Below(q.1, q.0.nodeCount) by {
      forall x | x in q.1 ensures x < q.0.nodeCount {
        var b :| 0 <= b < |q.1| && q.1[b] == x;
      }
    }
    CrossBelow(p.1, q.1, q.0.nodeCount);
  }

  lemma CrossBelow(ins: seq<nat>, outs: seq<nat>, bound: nat)
    requires Below(ins, bound) && Below(outs, bound)
    ensures forall k :: 0 <= k < |Cross(ins, outs)| ==> Cross(ins, outs)[k].0 < bound && Cross(ins, outs)[k].1 < bound
  {
    CrossMembers(ins, outs);
    forall k | 0 <= k < |Cross(ins, outs)|
      ensures Cross(ins, outs)[k].0 < bound && Cross(ins, outs)[k].1 < bound
    {
      assert Cross(ins, outs)[k] in Cross(ins, outs);
    }
  }

  /** The `MAP_V` indices of `names`, in order. */
  function Ids(m: map<string, nat>, names: seq<string>): (r: seq<nat>)
    requires forall k :: 0 <= k < |names| ==> names[k] in m
    ensures |r| == |names| && forall k :: 0 <= k < |names| ==> r[k] == m[names[k]]
  {
    seq(|names|, k requires 0 <= k < |names| => m[names[k]])
  }

  /** `_buildEdge` puts every name of both lists in `V`, keeps the index of
      every known name, and appends the cross product of the inputs' indices
      with the outputs' indices, in the order of the lists, with no
      de-duplication. */
  lemma BuildEdgeLayout(s: GraphState, u: seq<string>, v: seq<string>)
    requires Agrees(s)
    ensures var r := BuildEdgeSpec(s, u, v);
      r.v == s.v + Elements(u) + Elements(v)
      && (forall n :: n in s.mapV ==> r.mapV[n] == s.mapV[n])
      && (forall k :: 0 <= k < |u| ==> u[k] in r.mapV)
      && (forall k :: 0 <= k < |v| ==> v[k] in r.mapV)
      && r.edges == s.edges + Cross(Ids(r.mapV, u), Ids(r.mapV, v))
  {
    var p := Intern(s, u);
    InternVertices(s, u);
    InternIndexes(s, u);
    InternIds(s, u);
    var q := Intern(p.0, v);
    InternVertices(p.0, v);
    InternIndexes(p.0, v);
    InternIds(p.0, v);
    assert p.1 == Ids(q.0.mapV, u);
    assert q.1 == Ids(q.0.mapV, v);
  }

  /** Hence exactly |u| x |v| edges are added, the one for (u[i], v[j]) at
      position i * |v| + j after the old ones. */
  lemma BuildEdgeCount(s: GraphState, u: seq<string>, v: seq<string>, i: nat, j: nat)
    requires Agrees(s) && i < |u| && j < |v|
    ensures var r := BuildEdgeSpec(s, u, v);
      |r.edges| == |s.edges| + |u| * |v| && r.edges[..|s.edges|] == s.edges
      && u[i] in r.mapV && v[j] in r.mapV
      && i * |v| + j < |u| * |v| && r.edges[|s.edges| + i * |v| + j] == (r.mapV[u[i]], r.mapV[v[j]])
  {
    BuildEdgeLayout(s, u, v);
    var r := BuildEdgeSpec(s, u, v);
    AppendedSlot(s.edges, Ids(r.mapV, u), Ids(r.mapV, v), i, j);
  }

  /** Where edge `(ins[i], outs[j])` lands when the cross product is appended. */
  lemma AppendedSlot(e: seq<(nat, nat)>, ins: seq<nat>, outs: seq<nat>, i: nat, j: nat)
    requires i < |ins| && j < |outs|
    ensures |e + Cross(ins, outs)| == |e| + |ins| * |outs|
    ensures (e + Cross(ins, outs))[..|e|] == e
    ensures i * |outs| + j < |ins| * |outs|
    ensures (e + Cross(ins, outs))[|e| + i * |outs| + j] == (ins[i], outs[j])
  {
    CrossLength(ins, outs);
    CrossAt(ins, outs, i, j);
    var c := Cross(ins, outs);
    MulNonNegative(i, |outs|);
    var k := i * |outs| + j;
    assert (e + c)[|e| + k] == c[k];
  }

  lemma MulNonNegative(a: nat, b: nat)
    ensures 0 <= a * b
  {
  }

  /** `MAP_V_r`: the `(index, name)` pairs of the map's items, taken in
      order, a later pair overwriting an earlier one with the same index. */
  function MapVReversed(items: seq<(string, nat)>): (r: map<nat, string>)
    ensures forall i :: i in r <==> exists k :: 0 <= k < |items| && items[k].1 == i
  {
    if |items| == 0 then map[]
    else
      var p := MapVReversed(items[..|items| - 1]);
      var last := items[|items| - 1];
      assert forall k :: 0 <= k < |items| - 1 ==> items[..|items| - 1][k] == items[k];
      p[last.1 := last.0]
  }

  /** The items of a dict: distinct keys. */
  ghost predicate ItemsOf(items: seq<(string, nat)>, m: map<string, nat>)
  {
    (forall a :: a in m <==> exists k :: 0 <= k < |items| && items[k].0 == a)
    && forall k :: 0 <= k < |items| ==> items[k].0 in m && m[items[k].0] == items[k].1
  }

  /** For an injective map the reversed map is its inverse, both ways. */
  lemma {:induction false} MapVReversedInverse(items: seq<(string, nat)>, m: map<string, nat>)
    requires ItemsOf(items, m) && Injective(m)
    ensures var r := MapVReversed(items);
      (forall a :: a in m ==> m[a] in r && r[m[a]] == a)
      && (forall i :: i in r ==> r[i] in m && m[r[i]] == i)
  {
    var r := MapVReversed(items);
    ReversedHolds(items, m);
    forall a | a in m
      ensures m[a] in r && r[m[a]] == a
    {
      var k :| 0 <= k < |items| && items[k].0 == a;
    }
    forall i | i in r
      ensures r[i] in m && m[r[i]] == i
    {
      var k :| 0 <= k < |items| && items[k].1 == i;
    }
  }

  lemma {:induction false} ReversedHolds(items: seq<(string, nat)>, m: map<string, nat>)
    requires forall k :: 0 <= k < |items| ==> items[k].0 in m && m[items[k].0] == items[k].1
    requires Injective(m)
    ensures forall k :: 0 <= k < |items| ==> MapVReversed(items)[items[k].1] == items[k].0
  {
    if |items| > 0 {
      var p := items[..|items| - 1];
      assert forall k :: 0 <= k < |p| ==> p[k] == items[k];
      ReversedHolds(p, m);
    }
  }

  /** `processedBl[-50:]`. */
  function LastWindow(s: seq<string>): seq<string>
  {
    if |s| <= Window then s else s[|s| - Window..]
  }

  /** After appending a hash and trimming, the window holds at most 50 hashes,
      ends with the new one, and is the tail of the old window plus it. */
  lemma WindowProperties(old_: seq<string>, h: string)
    ensures var w := LastWindow(old_ + [h]);
      |w| <= Window && |w| > 0 && w[|w| - 1] == h
      && exists k :: 0 <= k <= |old_| && w == old_[k..] + [h]
  {
    var s := old_ + [h];
    if |s| <= Window {
      assert s == old_[0..] + [h];
    } else {
      assert s[|s| - Window..] == old_[|s| - Window..] + [h];
    }
  }

  // ---------------------------------------------------------------------
  // Transactions, blocks and files

  datatype Progress = Progress(state: GraphState, start: bool, status: TxParser.Status)

  /** The input loop of a processed transaction: coinbase inputs connect
      "00" to every output address, resolved inputs connect the spent
      output's addresses to them and then evict it; unknown hashes are
      skipped and an already-spent index raises KeyError. */
  function HandleInputs(s: GraphState, inputs: seq<TxParser.TxInput>, addrs: seq<string>): (r: (GraphState, Option<TxParser.TxInput>))
    requires Agrees(s)
    ensures Agrees(r.0)
    ensures r.0 == s.(nodeCount := r.0.nodeCount, edges := r.0.edges, v := r.0.v, mapV := r.0.mapV, utxos := r.0.utxos)
  {
    if |inputs| == 0 then (s, None)
    else
      var p := HandleInputs(s, inputs[..|inputs| - 1], addrs);
      if p.1.Some? then p
      else
        var inp := inputs[|inputs| - 1];
        var h, i := inp.transactionHash, inp.transactionIndex;
        if h == TxParser.CoinbaseHash then (BuildEdgeSpec(p.0, ["00"], addrs), None)
        else if h in p.0.utxos then
          if i in p.0.utxos[h] then
            var s1 := BuildEdgeSpec(p.0, p.0.utxos[h][i], addrs);
            (s1.(utxos := TxParser.Evict(s1.utxos, h, i)), None)
          else (p.0, Some(inp))
        else p
  }

  /** One iteration of the transaction loop. The gate is read BEFORE this
      transaction moves it: the start transaction opens it for the ones after
      it, and the end transaction is processed and then stops the scan. */
  function TxStep(s: GraphState, start: bool, tx: Transaction, sT: Option<string>, eT: Option<string>): (r: Progress)
    requires Agrees(s)
    ensures Agrees(r.state)
    ensures r.state.processedBl == s.processedBl && r.state.lastBlHash == s.lastBlHash && r.state.lastBlTs == s.lastBlTs
  {
    var p :=
      if start then
        var u := s.utxos[tx.hash := TxParser.OutputMap(tx.outputs)];
        HandleInputs(s.(utxos := u), tx.inputs, TxParser.Addresses(tx.outputs))
      else (s, None);
    if p.1.Some? then Progress(p.0, start, TxParser.MissingOutput(p.1.value))
    else
      var s1 := p.0.(lastTxHash := Some(tx.hash));
      var started := start || sT.None? || sT == Some(tx.hash);
      if eT.Some? && started && eT == Some(tx.hash) then Progress(s1, false, TxParser.EndTx)
      else Progress(s1, started, TxParser.Running)
  }

  function RunTxs(s: GraphState, start: bool, txs: seq<Transaction>, sT: Option<string>, eT: Option<string>): (r: Progress)
    requires Agrees(s)
    ensures Agrees(r.state)
    ensures r.state.processedBl == s.processedBl && r.state.lastBlHash == s.lastBlHash && r.state.lastBlTs == s.lastBlTs
  {
    if |txs| == 0 then Progress(s, start, TxParser.Running)
    else
      var p := RunTxs(s, start, txs[..|txs| - 1], sT, eT);
      if p.status != TxParser.Running then p else TxStep(p.state, p.start, txs[|txs| - 1], sT, eT)
  }

  /** One iteration of the block loop: the timestamp is recorded first, a
      block later than an active `end` is then skipped; otherwise its hash is
      recorded and pushed into the window. */
  function BlockStep(end: Option<int>, s: GraphState, start: bool, b: Block, sT: Option<string>, eT: Option<string>): (r: Progress)
    requires Agrees(s)
    ensures Agrees(r.state)
  {
    var s1 := s.(lastBlTs := Some(b.timestamp));
    if TxParser.EndTSActive(end) && b.timestamp > end.value then Progress(s1, start, TxParser.Running)
    else
      var s2 := s1.(lastBlHash := Some(b.hash), processedBl := LastWindow(s1.processedBl + [b.hash]));
      RunTxs(s2, start, b.transactions, sT, eT)
  }

  function RunBlocks(end: Option<int>, s: GraphState, start: bool, blocks: seq<Block>, sT: Option<string>, eT: Option<string>): (r: Progress)
    requires Agrees(s)
    ensures Agrees(r.state)
  {
    if |blocks| == 0 then Progress(s, start, TxParser.Running)
    else
      var p := RunBlocks(end, s, start, blocks[..|blocks| - 1], sT, eT);
      if p.status != TxParser.Running then p else BlockStep(end, p.state, p.start, blocks[|blocks| - 1], sT, eT)
  }

  /** One iteration of the file loop: the progress line evaluates
      `file_number` on the path, then the blocks are processed.
      `blocksOf(file)` stands for the parsed blocks of that one file, as for
      `TxParser.FileStep`. */
  function FileStep(end: Option<int>, s: GraphState, start: bool, file: string, blocksOf: string -> seq<Block>,
                    sT: Option<string>, eT: Option<string>): (r: Progress)
    requires Agrees(s)
    ensures Agrees(r.state)
  {
    if Framing.FileNumber(file).None? then Progress(s, start, TxParser.NoFileNumber(file))
    else RunBlocks(end, s, start, blocksOf(file), sT, eT)
  }

  function RunFiles(end: Option<int>, s: GraphState, start: bool, files: seq<string>, blocksOf: string -> seq<Block>,
                    sT: Option<string>, eT: Option<string>): (r: Progress)
    requires Agrees(s)
    ensures Agrees(r.state)
  {
    if |files| == 0 then Progress(s, start, TxParser.Running)
    else
      var p := RunFiles(end, s, start, files[..|files| - 1], blocksOf, sT, eT);
      if p.status != TxParser.Running then p else FileStep(end, p.state, p.start, files[|files| - 1], blocksOf, sT, eT)
  }

  /** `build`: the gate starts open exactly when there is no start transaction. */
  function BuildRun(end: Option<int>, s: GraphState, files: seq<string>, blocksOf: string -> seq<Block>,
                    sT: Option<string>, eT: Option<string>): Progress
    requires Agrees(s)
  {
    var p := RunFiles(end, s, sT.None?, files, blocksOf, sT, eT);
    if p.status == TxParser.Running then p.(status := TxParser.Finished) else p
  }

  // ---------------------------------------------------------------------
  // Properties of the gate, the window and the invariant

  /** The start transaction itself is not processed: only the last hash
      moves, and the gate opens for the next transaction. */
  lemma StartTxSkipped(s: GraphState, tx: Transaction, sT: Option<string>, eT: Option<string>)
    requires Agrees(s) && sT == Some(tx.hash) && eT != Some(tx.hash)
    ensures TxStep(s, false, tx, sT, eT) == Progress(s.(lastTxHash := Some(tx.hash)), true, TxParser.Running)
  {
  }

  /** The end transaction is processed (its outputs are recorded) and the
      scan then stops. */
  lemma EndTxProcessed(s: GraphState, tx: Transaction, sT: Option<string>, eT: Option<string>)
    requires Agrees(s) && eT == Some(tx.hash)
    requires forall k :: 0 <= k < |tx.inputs| ==> tx.inputs[k].transactionHash != tx.hash
    ensures var p := TxStep(s, true, tx, sT, eT);
      (p.status == TxParser.EndTx || p.status.MissingOutput?)
      && tx.hash in p.state.utxos
      && forall i: nat :: i in p.state.utxos[tx.hash] <==> i < |tx.outputs|
  {
    var u := s.utxos[tx.hash := TxParser.OutputMap(tx.outputs)];
    HandleInputsKeeps(s.(utxos := u), tx.inputs, TxParser.Addresses(tx.outputs), tx.hash);
    TxParser.OutputMapSpec(tx.outputs);
  }

  /** Handling inputs never touches the entry of a hash that none of them names. */
  lemma {:induction false} HandleInputsKeeps(s: GraphState, inputs: seq<TxParser.TxInput>, addrs: seq<string>, h: string)
    requires Agrees(s) && h in s.utxos
    requires forall k :: 0 <= k < |inputs| ==> inputs[k].transactionHash != h
    ensures h in HandleInputs(s, inputs, addrs).0.utxos && HandleInputs(s, inputs, addrs).0.utxos[h] == s.utxos[h]
  {
    if |inputs| > 0 {
      var m := inputs[..|inputs| - 1];
      HandleInputsKeeps(s, m, addrs, h);
      var p := HandleInputs(s, m, addrs);
      var inp := inputs[|inputs| - 1];
      var g, i := inp.transactionHash, inp.transactionIndex;
      if p.1.None? && g != TxParser.CoinbaseHash && g in p.0.utxos && i in p.0.utxos[g] {
        var s1 := BuildEdgeSpec(p.0, p.0.utxos[g][i], addrs);
        TxParser.EvictSpec(s1.utxos, g, i);
      }
    }
  }

  /** A block later than an active `end` moves only `lastBlTs`: not the
      last block hash and not the window. */
  lemma LateBlockSkipped(end: Option<int>, s: GraphState, start: bool, b: Block, sT: Option<string>, eT: Option<string>)
    requires Agrees(s) && TxParser.EndTSActive(end) && b.timestamp > end.value
    ensures BlockStep(end, s, start, b, sT, eT) == Progress(s.(lastBlTs := Some(b.timestamp)), start, TxParser.Running)
  {
  }

  /** The invariant survives every transaction. */
  lemma {:induction false} HandleInputsValid(s: GraphState, inputs: seq<TxParser.TxInput>, addrs: seq<string>)
    requires Valid(s)
    ensures Valid(HandleInputs(s, inputs, addrs).0)
  {
    if |inputs| > 0 {
      var m := inputs[..|inputs| - 1];
      HandleInputsValid(s, m, addrs);
      var p := HandleInputs(s, m, addrs);
      var inp := inputs[|inputs| - 1];
      var h, i := inp.transactionHash, inp.transactionIndex;
      if p.1.None? {
        if h == TxParser.CoinbaseHash {
          BuildEdgeValid(p.0, ["00"], addrs);
        } else if h in p.0.utxos && i in p.0.utxos[h] {
          BuildEdgeValid(p.0, p.0.utxos[h][i], addrs);
        }
      }
    }
  }

  lemma TxStepValid(s: GraphState, start: bool, tx: Transaction, sT: Option<string>, eT: Option<string>)
    requires Valid(s)
    ensures Valid(TxStep(s, start, tx, sT, eT).state)
  {
    if start {
      HandleInputsValid(s.(utxos := s.utxos[tx.hash := TxParser.OutputMap(tx.outputs)]), tx.inputs, TxParser.Addresses(tx.outputs));
    }
  }

  lemma {:induction false} RunTxsValid(s: GraphState, start: bool, txs: seq<Transaction>, sT: Option<string>, eT: Option<string>)
    requires Valid(s)
    ensures Valid(RunTxs(s, start, txs, sT, eT).state)
  {
    if |txs| > 0 {
      RunTxsValid(s, start, txs[..|txs| - 1], sT, eT);
      var p := RunTxs(s, start, txs[..|txs| - 1], sT, eT);
      if p.status == TxParser.Running {
        TxStepValid(p.state, p.start, txs[|txs| - 1], sT, eT);
      }
    }
  }

  /** Every block keeps the invariant, and the window never exceeds 50
      hashes once a block has been recorded. */
  lemma BlockStepValid(end: Option<int>, s: GraphState, start: bool, b: Block, sT: Option<string>, eT: Option<string>)
    requires Valid(s)
    ensures Valid(BlockStep(end, s, start, b, sT, eT).state)
    ensures |s.processedBl| <= Window ==> |BlockStep(end, s, start, b, sT, eT).state.processedBl| <= Window
  {
    var s1 := s.(lastBlTs := Some(b.timestamp));
    if !(TxParser.EndTSActive(end) && b.timestamp > end.value) {
      var s2 := s1.(lastBlHash := Some(b.hash), processedBl := LastWindow(s1.processedBl + [b.hash]));
      RunTxsValid(s2, start, b.transactions, sT, eT);
      WindowProperties(s1.processedBl, b.hash);
    }
  }

  /** The block loop keeps the invariant and the 50-hash bound on the window. */
  lemma {:induction false} RunBlocksValid(end: Option<int>, s: GraphState, start: bool, blocks: seq<Block>,
                                          sT: Option<string>, eT: Option<string>)
    requires Valid(s) && |s.processedBl| <= Window
    ensures var r := RunBlocks(end, s, start, blocks, sT, eT).state;
      Valid(r) && |r.processedBl| <= Window
  {
    if |blocks| > 0 {
      RunBlocksValid(end, s, start, blocks[..|blocks| - 1], sT, eT);
      var p := RunBlocks(end, s, start, blocks[..|blocks| - 1], sT, eT);
      if p.status == TxParser.Running {
        BlockStepValid(end, p.state, p.start, blocks[|blocks| - 1], sT, eT);
      }
    }
  }

  /** The file loop keeps the invariant and the window bound. */
  lemma {:induction false} RunFilesValid(end: Option<int>, s: GraphState, start: bool, files: seq<string>,
                                         blocksOf: string -> seq<Block>, sT: Option<string>, eT: Option<string>)
    requires Valid(s) && |s.processedBl| <= Window
    ensures var r := RunFiles(end, s, start, files, blocksOf, sT, eT).state;
      Valid(r) && |r.processedBl| <= Window
  {
    if |files| > 0 {
      RunFilesValid(end, s, start, files[..|files| - 1], blocksOf, sT, eT);
      var p := RunFiles(end, s, start, files[..|files| - 1], blocksOf, sT, eT);
      if p.status == TxParser.Running && Framing.FileNumber(files[|files| - 1]).Some? {
        RunBlocksValid(end, p.state, p.start, blocksOf(files[|files| - 1]), sT, eT);
      }
    }
  }

  /** A whole `build`, however it ends, leaves a valid graph with at most
      50 hashes in the window. */
  lemma BuildRunValid(end: Option<int>, s: GraphState, files: seq<string>, blocksOf: string -> seq<Block>,
                      sT: Option<string>, eT: Option<string>)
    requires Valid(s) && |s.processedBl| <= Window
    ensures var r := BuildRun(end, s, files, blocksOf, sT, eT).state;
      Valid(r) && |r.processedBl| <= Window
  {
    RunFilesValid(end, s, sT.None?, files, blocksOf, sT, eT);
  }

  // Loop lemmas: a stopped loop ignores the rest, and one more step.

  lemma {:induction false} TxsStopAt(s: GraphState, start: bool, txs: seq<Transaction>, k: nat, sT: Option<string>, eT: Option<string>)
    requires Agrees(s) && k <= |txs| && RunTxs(s, start, txs[..k], sT, eT).status != TxParser.Running
    ensures RunTxs(s, start, txs, sT, eT) == RunTxs(s, start, txs[..k], sT, eT)
  {
    if k < |txs| {
      var m := txs[..|txs| - 1];
      assert m[..k] == txs[..k];
      TxsStopAt(s, start, m, k, sT, eT);
    } else {
      assert txs[..k] == txs;
    }
  }

  lemma TxsStep(s: GraphState, start: bool, txs: seq<Transaction>, k: nat, sT: Option<string>, eT: Option<string>)
    requires Agrees(s) && k < |txs| && RunTxs(s, start, txs[..k], sT, eT).status == TxParser.Running
    ensures var p := RunTxs(s, start, txs[..k], sT, eT);
      RunTxs(s, start, txs[..k + 1], sT, eT) == TxStep(p.state, p.start, txs[k], sT, eT)
  {
    assert txs[..k + 1][..k] == txs[..k];
  }

  lemma {:induction false} BlocksStopAt(end: Option<int>, s: GraphState, start: bool, blocks: seq<Block>, k: nat,
                                        sT: Option<string>, eT: Option<string>)
    requires Agrees(s) && k <= |blocks| && RunBlocks(end, s, start, blocks[..k], sT, eT).status != TxParser.Running
    ensures RunBlocks(end, s, start, blocks, sT, eT) == RunBlocks(end, s, start, blocks[..k], sT, eT)
  {
    if k < |blocks| {
      var m := blocks[..|blocks| - 1];
      assert m[..k] == blocks[..k];
      BlocksStopAt(end, s, start, m, k, sT, eT);
    } else {
      assert blocks[..k] == blocks;
    }
  }

  lemma BlocksStep(end: Option<int>, s: GraphState, start: bool, blocks: seq<Block>, k: nat, sT: Option<string>, eT: Option<string>)
    requires Agrees(s) && k < |blocks| && RunBlocks(end, s, start, blocks[..k], sT, eT).status == TxParser.Running
    ensures var p := RunBlocks(end, s, start, blocks[..k], sT, eT);
      RunBlocks(end, s, start, blocks[..k + 1], sT, eT) == BlockStep(end, p.state, p.start, blocks[k], sT, eT)
  {
    assert blocks[..k + 1][..k] == blocks[..k];
  }

  lemma {:induction false} FilesStopAt(end: Option<int>, s: GraphState, start: bool, files: seq<string>, k: nat,
                                       blocksOf: string -> seq<Block>, sT: Option<string>, eT: Option<string>)
    requires Agrees(s) && k <= |files| && RunFiles(end, s, start, files[..k], blocksOf, sT, eT).status != TxParser.Running
    ensures RunFiles(end, s, start, files, blocksOf, sT, eT) == RunFiles(end, s, start, files[..k], blocksOf, sT, eT)
  {
    if k < |files| {
      var m := files[..|files| - 1];
      assert m[..k] == files[..k];
      FilesStopAt(end, s, start, m, k, blocksOf, sT, eT);
    } else {
      assert files[..k] == files;
    }
  }

  lemma FilesStep(end: Option<int>, s: GraphState, start: bool, files: seq<string>, k: nat,
                  blocksOf: string -> seq<Block>, sT: Option<string>, eT: Option<string>)
    requires Agrees(s) && k < |files| && RunFiles(end, s, start, files[..k], blocksOf, sT, eT).status == TxParser.Running
    ensures var p := RunFiles(end, s, start, files[..k], blocksOf, sT, eT);
      RunFiles(end, s, start, files[..k + 1], blocksOf, sT, eT) == FileStep(end, p.state, p.start, files[k], blocksOf, sT, eT)
  {
    assert files[..k + 1][..k] == files[..k];
  }

  // ---------------------------------------------------------------------
  // The graph object

  class BtcGraph {
    const end: Option<int>
    var nodeCount: nat
    var edges: seq<(nat, nat)>
    var v: set<string>
    var mapV: map<string, nat>
    var utxos: TxParser.Utxos
    var processedBl: seq<string>
    var lastBlHash: Option<string>
    var lastBlTs: Option<int>
    var lastTxHash: Option<string>

    ghost function State(): GraphState
      reads this
    {
      GraphState(nodeCount, edges, v, mapV, utxos, processedBl, lastBlHash, lastBlTs, lastTxHash)
    }

    /** An empty graph (no restored components). */
    constructor (end: Option<int>)
      ensures this.end == end
      ensures State() == GraphState(0, [], {}, map[], map[], [], None, None, None)
      ensures Valid(State())
    {
      this.end := end;
      nodeCount, edges, v, mapV, utxos := 0, [], {}, map[], map[];
      processedBl, lastBlHash, lastBlTs, lastTxHash := [], None, None, None;
    }

    /** `_update_mapping(node, idx)`. */
    method UpdateMapping(node: string, idx: nat)
      modifies this`mapV
      ensures mapV == old(mapV)[node := idx]
    {
      mapV := mapV[node := idx];
    }

    /** `_addNode(n)`: a new graph node, mapped and added to `V`. */
    method AddNode(n: string) returns (ix: nat)
      modifies this`nodeCount, this`mapV, this`v
      ensures ix == old(nodeCount) && nodeCount == old(nodeCount) + 1
      ensures mapV == old(mapV)[n := ix] && v == old(v) + {n}
    {
      ix := nodeCount;          // G.addNode()
      nodeCount := nodeCount + 1;
      UpdateMapping(n, ix);
      v := v + {n};
    }

    /** One list comprehension of `_buildEdge`. */
    method InternAll(names: seq<string>) returns (ids: seq<nat>)
      requires Agrees(State())
      modifies this`nodeCount, this`mapV, this`v
      ensures (State(), ids) == Intern(old(State()), names)
    {
      ids := [];
      for k := 0 to |names|
        invariant Agrees(State())
        invariant (State(), ids) == Intern(old(State()), names[..k])
      {
        assert names[..k + 1][..k] == names[..k];
        var ix;
        if names[k] !in v {
          ix := AddNode(names[k]);
        } else {
          ix := mapV[names[k]];
        }
        ids := ids + [ix];
      }
      assert names[..|names|] == names;
    }

    /** `_buildEdge(u, v)`. */
    method BuildEdge(u: seq<string>, w: seq<string>)
      requires Agrees(State())
      modifies this`nodeCount, this`mapV, this`v, this`edges
      ensures State() == BuildEdgeSpec(old(State()), u, w)
    {
      var inputs := InternAll(u);
      var outputs := InternAll(w);
      AddEdges(inputs, outputs);
    }

    /** The nested `_addEdge` loops of `_buildEdge`. */
    method AddEdges(inputs: seq<nat>, outputs: seq<nat>)
      modifies this`edges
      ensures edges == old(edges) + Cross(inputs, outputs)
    {
      for a := 0 to |inputs|
        invariant edges == old(edges) + Cross(inputs[..a], outputs)
      {
        assert inputs[..a + 1][..a] == inputs[..a];
        ghost var before := edges;
        for b := 0 to |outputs|
          invariant edges == before + Pairs(inputs[a], outputs[..b])
        {
          assert outputs[..b + 1][..b] == outputs[..b];
          edges := edges + [(inputs[a], outputs[b])];   // _addEdge
        }
        assert outputs[..|outputs|] == outputs;
      }
      assert inputs[..|inputs|] == inputs;
    }

    /** The input loop of `build` for one processed transaction. */
    method HandleAll(inputs: seq<TxParser.TxInput>, addrs: seq<string>) returns (missing: Option<TxParser.TxInput>)
      requires Agrees(State())
      modifies this`nodeCount, this`mapV, this`v, this`edges, this`utxos
      ensures (State(), missing) == HandleInputs(old(State()), inputs, addrs)
    {
      for k := 0 to |inputs|
        invariant Agrees(State())
        invariant (State(), None) == HandleInputs(old(State()), inputs[..k], addrs)
      {
        assert inputs[..k + 1][..k] == inputs[..k];
        var inp := inputs[k];
        var h, i := inp.transactionHash, inp.transactionIndex;
        if h == TxParser.CoinbaseHash {
          BuildEdge(["00"], addrs);
        } else if h in utxos {
          if i !in utxos[h] {
            HandleStopAt(old(State()), inputs, addrs, k + 1);
            return Some(inp);
          }
          BuildEdge(utxos[h][i], addrs);
          assert h in utxos;
          var inner := utxos[h] - {i};
          if |inner| == 0 {
            utxos := utxos - {h};
          } else {
            utxos := utxos[h := inner];
          }
        }
      }
      assert inputs[..|inputs|] == inputs;
      return None;
    }

    /** The per-transaction body of `build`. */
    method ProcessTx(tx: Transaction, start: bool, sT: Option<string>, eT: Option<string>) returns (start': bool, status: TxParser.Status)
      requires Agrees(State())
      modifies this`nodeCount, this`mapV, this`v, this`edges, this`utxos, this`lastTxHash
      ensures Progress(State(), start', status) == TxStep(old(State()), start, tx, sT, eT)
    {
      if start {
        var outs: map<nat, seq<string>> := map[];
        for oIndex := 0 to |tx.outputs|
          invariant outs == TxParser.OutputMap(tx.outputs[..oIndex])
        {
          assert tx.outputs[..oIndex + 1][..oIndex] == tx.outputs[..oIndex];
          outs := outs[oIndex := tx.outputs[oIndex].addresses];
        }
        assert tx.outputs[..|tx.outputs|] == tx.outputs;
        utxos := utxos[tx.hash := outs];
        var missing := HandleAll(tx.inputs, TxParser.Addresses(tx.outputs));
        if missing.Some? {
          return start, TxParser.MissingOutput(missing.value);
        }
      }
      lastTxHash := Some(tx.hash);
      start' := start;
      if !start' {
        start' := sT.None? || sT == Some(tx.hash);
      }
      if eT.Some? && start' {
        start' := eT != Some(tx.hash);
        if !start' {
          return false, TxParser.EndTx;
        }
      }
      return start', TxParser.Running;
    }

    /** The per-block body of `build`. */
    method ProcessBlock(b: Block, start: bool, sT: Option<string>, eT: Option<string>) returns (start': bool, status: TxParser.Status)
      requires Agrees(State())
      modifies this`nodeCount, this`mapV, this`v, this`edges, this`utxos, this`lastTxHash,
               this`lastBlTs, this`lastBlHash, this`processedBl
      ensures Progress(State(), start', status) == BlockStep(end, old(State()), start, b, sT, eT)
    {
      lastBlTs := Some(b.timestamp);
      if TxParser.EndTSActive(end) && b.timestamp > end.value {
        return start, TxParser.Running;
      }
      lastBlHash := Some(b.hash);
      processedBl := processedBl + [b.hash];
      processedBl := LastWindow(processedBl);
      start', status := ProcessTxs(b.transactions, start, sT, eT);
    }

    /** The transaction loop of `process_block`. */
    method ProcessTxs(txs: seq<Transaction>, start: bool, sT: Option<string>, eT: Option<string>) returns (start': bool, status: TxParser.Status)
      requires Agrees(State())
      modifies this`nodeCount, this`mapV, this`v, this`edges, this`utxos, this`lastTxHash
      ensures Progress(State(), start', status) == RunTxs(old(State()), start, txs, sT, eT)
    {
      ghost var s1 := State();
      ghost var p := Progress(s1, start, TxParser.Running);
      start', status := start, TxParser.Running;
      for k := 0 to |txs|
        invariant Agrees(State())
        invariant p == RunTxs(s1, start, txs[..k], sT, eT)
        invariant status == TxParser.Running && p.status == TxParser.Running
        invariant State() == p.state && start' == p.start
      {
        TxsStep(s1, start, txs, k, sT, eT);
        start', status := ProcessTx(txs[k], start', sT, eT);
        p := TxStep(p.state, p.start, txs[k], sT, eT);
        if status != TxParser.Running {
          TxsStopAt(s1, start, txs, k + 1, sT, eT);
          return;
        }
      }
      assert txs[..|txs|] == txs;
    }

    /** The per-file body of `build`: the progress line (which evaluates
        `file_number`), then the block loop. */
    method ProcessFile(file: string, start: bool, blocksOf: string -> seq<Block>, sT: Option<string>, eT: Option<string>)
      returns (start': bool, status: TxParser.Status)
      requires Agrees(State())
      modifies this
      ensures Progress(State(), start', status) == FileStep(end, old(State()), start, file, blocksOf, sT, eT)
    {
      if Framing.FileNumber(file).None? {
        return start, TxParser.NoFileNumber(file);
      }
      ghost var s1 := State();
      var blocks := blocksOf(file);
      ghost var p := Progress(s1, start, TxParser.Running);
      start', status := start, TxParser.Running;
      for k := 0 to |blocks|
        invariant Agrees(State())
        invariant p == RunBlocks(end, s1, start, blocks[..k], sT, eT)
        invariant status == TxParser.Running && p.status == TxParser.Running
        invariant State() == p.state && start' == p.start
      {
        BlocksStep(end, s1, start, blocks, k, sT, eT);
        start', status := ProcessBlock(blocks[k], start', sT, eT);
        p := BlockStep(end, p.state, p.start, blocks[k], sT, eT);
        if status != TxParser.Running {
          BlocksStopAt(end, s1, start, blocks, k + 1, sT, eT);
          return;
        }
      }
      assert blocks[..|blocks|] == blocks;
    }

    /** `build(sF, eF, sT, eT)` over the already selected block files. */
    method Build(files: seq<string>, blocksOf: string -> seq<Block>, sT: Option<string>, eT: Option<string>)
      returns (status: TxParser.Status)
      requires Agrees(State())
      modifies this
      ensures var p := BuildRun(end, old(State()), files, blocksOf, sT, eT);
        State() == p.state && status == p.status
    {
      var start := sT.None?;
      ghost var s0 := State();
      ghost var p := Progress(s0, start, TxParser.Running);
      status := TxParser.Running;
      for k := 0 to |files|
        invariant Agrees(State())
        invariant p == RunFiles(end, s0, sT.None?, files[..k], blocksOf, sT, eT)
        invariant status == TxParser.Running && p.status == TxParser.Running
        invariant State() == p.state && start == p.start
      {
        FilesStep(end, s0, sT.None?, files, k, blocksOf, sT, eT);
        start, status := ProcessFile(files[k], start, blocksOf, sT, eT);
        p := FileStep(end, p.state, p.start, files[k], blocksOf, sT, eT);
        if status != TxParser.Running {
          FilesStopAt(end, s0, sT.None?, files, k + 1, blocksOf, sT, eT);
          return;
        }
      }
      assert files[..|files|] == files;
      return TxParser.Finished;
    }
  }

  lemma {:induction false} HandleStopAt(s: GraphState, inputs: seq<TxParser.TxInput>, addrs: seq<string>, k: nat)
    requires Agrees(s) && k <= |inputs| && HandleInputs(s, inputs[..k], addrs).1.Some?
    ensures HandleInputs(s, inputs, addrs) == HandleInputs(s, inputs[..k], addrs)
  {
    if k < |inputs| {
      var m := inputs[..|inputs| - 1];
      assert m[..k] == inputs[..k];
      HandleStopAt(s, m, addrs, k);
    } else {
      assert inputs[..k] == inputs;
    }
  }
}
