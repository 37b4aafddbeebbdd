# python-bitcoin-scraper (`bitcoin_graph`), modelled in Dafny

This project models the core of python-bitcoin-scraper, the package `bitcoin_graph`. That program replays the Bitcoin ledger from Bitcoin Core's `blk*.dat` files and turns every transaction into edges between addresses. The model covers five parts:

- **Block files** (`framing.dfy`, module `Framing`):
  - the magic-and-length framing loop `get_blocks` over a byte buffer;
  - the `get_files` listing filter;
  - `file_number`;
  - the per-file start/end flag of `Blockchain.get_unordered_blocks`.
- **Outputs** (`outputs.dfy`, module `Outputs`):
  - the byte layout an `Output` cuts out of a transaction;
  - the first-match `type` cascade;
  - the `addresses` dispatch;
  - the memoisation of `value`, `script` and `addresses` in a class.
- **The edge parser** (`txparser.dfy`, module `TxParser`), the class `BtcTxParser`:
  - the UTXO map (txid → output index → addresses), filled by processed transactions and emptied by the inputs that spend them;
  - the edge list `_buildEdge` appends to, in every flag combination;
  - the start/end-transaction gate and the end-timestamp block skip;
  - the per-file flush.

  The loops of `parse` are methods over abstract transactions, blocks and files. Each method is proved equal to a left fold (`RunTxs`, `RunBlocks`, `RunFiles`), and the lemmas are stated about those folds.
- **Input clustering** (`clustering.dfy`, module `Clustering`): the class `InputHeuristic`, a union structure over four mutable fields. It is proved equal to pure transition functions, which carry the consistency invariant.
- **The graph builder** (`graph.dfy`, module `Graph`): the class `BtcGraph`, covering:
  - vertex interning into `V`/`MAP_V`;
  - the networkit graph, as a node counter and an edge sequence;
  - per-input edge building;
  - the 50-hash block window and its own gate;
  - `MAP_V_r`.
- **Helpers** (`helpers.dfy`, `uploader.dfy`, modules `Helpers` and `Uploader`):
  - the csv listing filter and the BigQuery table schema;
  - the two row transforms of `save_edge_list` and its routing and reset;
  - the uploader's column names and its alphanumeric sanitiser.
- **Shared definitions** (`common.dfy`, module `Common`): optional values, Python tuple cells (`Value`), little-endian decoding, first-occurrence de-duplication, string prefix/suffix/substring tests, and Python's string order and `sorted`.

The model follows the code where the documented behaviour differs from it. In particular, when `parse` meets the end transaction, it exits without flushing the edges collected for the current file (`bitcoin_graph/btcTxParser.py:196-201`). `TxParser.EndTxNotProcessed` and the `EndTx` status model exactly that. The documented map of unspent outputs holds a txid exactly while one of its outputs is unspent. The code keeps that promise only for transactions with at least one output (`TxParser.ParseEntries`): a transaction without outputs leaves an empty dict under its txid (`bitcoin_graph/btcTxParser.py:208-212`, `TxParser.ZeroOutputEntryStays`). Bitcoin's consensus rules reject such transactions, so no block on the chain holds one.

## Model

| member | source | states |
|---|---|---|
| Common.LittleEndianRoundTrip | bitcoin_graph/blockchain_parser/blockchain.py:58 | Decoding the `k` little-endian bytes of `n < 256^k` gives `n` back; this is the `<I` size read. |
| Common.Dedup | bitcoin_graph/btcTxParser.py:85 | The iteration of `set(u)`: the same elements as `u`, each exactly once, never longer than `u`. |
| Common.DedupCardinality | bitcoin_graph/btcTxParser.py:85 | The de-duplicated list has exactly as many entries as the set of `u`. |
| Common.SortStrings | bitcoin_graph/blockchain_parser/blockchain.py:37 | `sorted` on strings: the result is ordered by Python's string order and is a permutation of its input. |
| Common.SelectFilesSpec | bitcoin_graph/blockchain_parser/blockchain.py:34-37 | The listing filter returns a sorted list. It holds the joined path of every name with the prefix and suffix, and nothing else. |
| Framing.GetBlocks | bitcoin_graph/blockchain_parser/blockchain.py:40-64 | The offset loop yields exactly the bodies of the reference scan `Scan(raw, 0)`, and the block count equals the number of bodies. |
| Framing.ScanFrame | bitcoin_graph/blockchain_parser/blockchain.py:56-61 | A frame (magic, 4-byte little-endian size, body) at the front yields its body; the scan then resumes right after the body. |
| Framing.ScanFrames | bitcoin_graph/blockchain_parser/blockchain.py:55-63 | Round trip: a stream of well-formed frames yields exactly their bodies, in order. |
| Framing.TwoFrames | bitcoin_graph/blockchain_parser/blockchain.py:55-63 | Two concatenated frames yield exactly their two bodies, in order. |
| Framing.ScanSkipsGarbage | bitcoin_graph/blockchain_parser/blockchain.py:62-63 | Bytes in front of the frames where no magic starts are skipped one at a time and change nothing. |
| Framing.ScanShift | bitcoin_graph/blockchain_parser/blockchain.py:55-63 | The scan depends only on the bytes from its offset on. |
| Framing.ScanWithinBuffer | bitcoin_graph/blockchain_parser/blockchain.py:55-61 | The yielded bodies, with their 8-byte headers, never extend past the end of the buffer. |
| Framing.GetFilesSpec | bitcoin_graph/blockchain_parser/blockchain.py:32-37 | A directory listing gives its `blk*.dat` names joined with the path, sorted, each as often as it is listed, and nothing else. A non-directory path gives `[path]`. |
| Framing.FindFiveDigits | bitcoin_graph/blockchain_parser/blockchain.py:75 | `re.search("([0-9]{5})")`: the found position starts five digits, and no earlier position does. `None` means that no position does. |
| Framing.StripLeadingZeros | bitcoin_graph/blockchain_parser/blockchain.py:79 | `lstrip("0")` returns a suffix of its input that does not start with `'0'`. |
| Framing.StripKeepsValue | bitcoin_graph/blockchain_parser/blockchain.py:79 | Stripping leading zeros keeps the decimal value. |
| Framing.FileNumberSpec | bitcoin_graph/blockchain_parser/blockchain.py:74-79 | `file_number` is the decimal value of the leftmost five-digit run: `"00000"` gives 0, and `None` means there is no run. The helper copy at `bitcoin_graph/helpers.py:108-113` is the same function. |
| Framing.FileNumberOfBlkName | bitcoin_graph/blockchain_parser/blockchain.py:74-79 | `file_number("blk%05d.dat" % n) == n` for every `n < 100000`. |
| Framing.PadDigitsRoundTrip | bitcoin_graph/blockchain_parser/blockchain.py:79 | Reading back a zero-padded rendering of `n < 10^k` gives `n`. |
| Framing.FlagAfterSpec | bitcoin_graph/blockchain_parser/blockchain.py:102-127 | The per-file flag is true exactly when some file so far names the start and neither it nor any later file names the end, or when no start was given and no file so far names the end. A file naming the end is therefore excluded. |
| Framing.OpenedEndHit | bitcoin_graph/blockchain_parser/blockchain.py:126-127 | A file whose path contains `str(customEnd)` is never read. |
| Framing.HasNumberIsFileNumber | bitcoin_graph/blockchain_parser/blockchain.py:74-79 | A path has a five-digit run exactly when `file_number` returns a value for it. |
| Framing.GetUnorderedBlocks | bitcoin_graph/blockchain_parser/blockchain.py:98-132 | The generator yields what the loop gathers over the listed files. When every path has a five-digit run, that is the scans of exactly the flagged files, in file order, and a truncated frame ends the iteration. An iteration that stops on an unnumbered path names a listed path for which `file_number` fails. |
| Framing.GatherBlocks | bitcoin_graph/blockchain_parser/blockchain.py:102-132 | The loop over the listed files reads every path's file number first (the progress line), then updates the flag, scans the files it lets through, and stops at the first truncated frame or the first path without a number. Its result is `Gathered` over all the files. |
| Framing.GatheredIsScanOfSelected | bitcoin_graph/blockchain_parser/blockchain.py:111-132 | When every path has a number, what the loop gathers is the concatenated scan of exactly the files the gate selects, in order. |
| Framing.GatheredAfterStop | bitcoin_graph/blockchain_parser/blockchain.py:111-132 | Once the iteration has stopped, on a truncated frame or an unnumbered path, the files after it add nothing. |
| Framing.GatheredStopsAtUnnumbered | bitcoin_graph/blockchain_parser/blockchain.py:111-112 | The first path without a five-digit run ends the iteration whether or not the flag would select it. The blocks of the selected files before it are kept, unless a truncated frame came first. |
| Framing.GatheredUnnumberedPath | bitcoin_graph/blockchain_parser/blockchain.py:111-112 | A path the iteration stops on is one of the listed files and has no five-digit run. |
| Framing.ParserCallSelectsSuffix | bitcoin_graph/blockchain_parser/blockchain.py:106-127 | With a non-empty start marker that file `k` contains and no earlier file does, no end marker, and no path containing `"None"`, the flag is false before file `k` and true from it on. The selected files are exactly `files[k..]`. This is the call `get_unordered_blocks(blk_file)` that both parsers make (`bitcoin_graph/btcTxParser.py:172`, `bitcoin_graph/btcgraph.py:278`). |
| Framing.ParserCallGathersSuffix | bitcoin_graph/blockchain_parser/blockchain.py:98-132 | Under the same conditions, with every path numbered, the parsers' call gathers the scan of file `k` and of every file after it. |
| Framing.OwnFileGathered | bitcoin_graph/blockchain_parser/blockchain.py:102-132 | Over a single file with neither start nor end, the loop stops on an unnumbered path and skips a path containing `"None"`. Any other path gives exactly that file's own scan. |
| Framing.GetFileBlocks | bitcoin_graph/blockchain_parser/blockchain.py:98-132 | A `Blockchain` opened on one file's own path yields that file's blocks and no other file's, or stops or skips as `OwnFileGathered` says. |
| Outputs.DecodeVarint | bitcoin_graph/blockchain_parser/output.py:29 | CompactSize decoding consumes 1, 3, 5 or 9 bytes, never more than it has. It fails exactly on an empty or short input. |
| Outputs.VarintRoundTrip | bitcoin_graph/blockchain_parser/output.py:29-30 | Decoding the encoding of `n`, followed by anything, gives `n` and consumes exactly the encoding. |
| Outputs.DecodeUint64 | bitcoin_graph/blockchain_parser/output.py:47 | `decode_uint64` succeeds exactly on 8 bytes and gives a value below 2^64. |
| Outputs.OutputLayout | bitcoin_graph/blockchain_parser/output.py:24-34 | The layout exists exactly when the varint after the first 8 bytes decodes. `value_hex` is those 8 bytes, the script is at most `script_length` bytes (cut at the buffer's end), and the size is `8 + varint_size + script_length`. |
| Outputs.LayoutRoundTrip | bitcoin_graph/blockchain_parser/output.py:29-34 | A serialised output followed by anything yields its own value bytes, script and size. |
| Outputs.TypeOf | bitcoin_graph/blockchain_parser/output.py:129-160 | `type` always returns one of the ten type names. |
| Outputs.TypeOfFirstMatch | bitcoin_graph/blockchain_parser/output.py:129-160 | First match, both ways: the type is the i-th name exactly when check i holds and every earlier check fails. It is `"unknown"` exactly when all nine checks fail. |
| Outputs.TypeNamesDistinct | bitcoin_graph/blockchain_parser/output.py:129-160 | The ten type names differ from each other, so the cascade's result determines the matched check. |
| Outputs.AddressesCardinality | bitcoin_graph/blockchain_parser/output.py:12-98 | Every non-multisig type gives exactly one address. Multisig gives at most one, `operations[1]`, and gives it exactly when `operations[1:1+n]` is not empty. |
| Outputs.AddressesPlaceholders | bitcoin_graph/blockchain_parser/output.py:90-98 | OP_RETURN gives `OPReturnAddress`, and invalid/unknown give `UnknownAddress(type)`. `UnknownAddress("undefined")` never appears. |
| Outputs.Output.constructor | bitcoin_graph/blockchain_parser/output.py:24-34 | The object holds the layout's slices and size, and its three caches are empty. |
| Outputs.Output.Value | bitcoin_graph/blockchain_parser/output.py:43-48 | Returns `decode_uint64(value_hex)` and fills the cache on first success. A filled cache never changes. |
| Outputs.Output.GetScript | bitcoin_graph/blockchain_parser/output.py:50-55 | Returns `Script.from_hex(script_hex)` and caches it. |
| Outputs.Output.Type | bitcoin_graph/blockchain_parser/output.py:129-160 | Returns the cascade's result on the memoised script. |
| Outputs.Output.Addresses | bitcoin_graph/blockchain_parser/output.py:58-100 | Returns the dispatch's addresses and caches them. A filled cache is returned unchanged. |
| Clustering.TouchedIds | bitcoin_graph/input_heuristic.py:51-60 | The touched cluster ids are strictly increasing: exactly the lookups of the known inputs, each once. |
| Clustering.ConsistentDisjoint | bitcoin_graph/input_heuristic.py:13-45 | Consistency makes the cluster sets pairwise disjoint. |
| Clustering.MergeConsistent | bitcoin_graph/input_heuristic.py:13-24 | Merging keeps the four fields consistent, and every absorbed member is then looked up to `n[0]`. |
| Clustering.MergeSingleton | bitcoin_graph/input_heuristic.py:58-63 | Merging a single cluster changes nothing. |
| Clustering.HandleConsistent | bitcoin_graph/input_heuristic.py:48-71 | `handle_inputs` preserves the invariant: `knownNodes` equals the keys of `clusterLookUp`, each known address lies in the cluster it is looked up to, and every id is below `clusterIndex`. |
| Clustering.HandleGroupsInputs | bitcoin_graph/input_heuristic.py:33-71 | After the call every input is known, is looked up to the returned id and belongs to that cluster. `knownNodes` grows by exactly the inputs, and the counter never decreases. |
| Clustering.HandleOutcome | bitcoin_graph/input_heuristic.py:16-68 | With no known input: a new cluster of the inputs under the old counter, which grows by one (also for an empty list). Otherwise: the smallest touched id, the other touched ids deleted, and the merged cluster equal to the absorbed sets plus the inputs. |
| Clustering.HandleUntouched | bitcoin_graph/input_heuristic.py:13-35 | A cluster that no input touches keeps its id and its members. |
| Clustering.InputHeuristic.constructor | bitcoin_graph/input_heuristic.py:3-7 | The four fields start empty, with the counter at 0, and are consistent. |
| Clustering.InputHeuristic.GetCluster | bitcoin_graph/input_heuristic.py:9-11 | Returns the lookup of a known address, which names a cluster holding it, and `None` for an unknown one. |
| Clustering.InputHeuristic.MergeClusters | bitcoin_graph/input_heuristic.py:13-24 | Returns `n[0]` and leaves the state `Merge(old, n)`. |
| Clustering.InputHeuristic.PointAt | bitcoin_graph/input_heuristic.py:18-19 | Every member of the merged cluster now looks up `n[0]`; every other lookup entry, and the clusters, are unchanged. |
| Clustering.InputHeuristic.InputsToCluster | bitcoin_graph/input_heuristic.py:27-35 | Leaves the state `AddInputs(old, inputs, c)`. |
| Clustering.InputHeuristic.CreateEntry | bitcoin_graph/input_heuristic.py:38-45 | Returns the old counter and leaves the state `NewEntry(old, inputs)`. |
| Clustering.InputHeuristic.HandleInputs | bitcoin_graph/input_heuristic.py:48-71 | Keeps the invariant, and state and result are those of `Handle`. |
| TxParser.EdgeAt | bitcoin_graph/btcTxParser.py:87-132 | One tuple per (source, destination index). Raw tuples carry the index, prefixed by `currBl_s` with `withTS` and starting at `currTxID` otherwise. The value `Val[index]` is present only in raw+collectValue mode, where a missing value drops the edge. Non-raw tuples never carry a value. |
| TxParser.EdgesSpec | bitcoin_graph/btcTxParser.py:85-132 | Edge `i * w + j` of a call joins source `i` to destination `j`. It is exactly the tuple `EdgeAt` builds, and there are `|sources| * w` edges. |
| TxParser.EdgesForCount | bitcoin_graph/btcTxParser.py:84-133 | `_buildEdge` appends exactly `|set(u)| * |v|` edges (fewer only where raw values are missing). Each has the mode's length and the current txid, a source from `u` and a destination from `v`. |
| TxParser.BtcTxParser.BuildEdge | bitcoin_graph/btcTxParser.py:84-133 | The new edge list is the old one followed by `EdgesFor(...)`; earlier entries are untouched. |
| TxParser.BtcTxParser.BuildRow | bitcoin_graph/btcTxParser.py:87-131 | One source's pass over the outputs appends exactly `Row(...)` for the current switches; earlier entries are untouched. |
| TxParser.OutputMapSpec | bitcoin_graph/btcTxParser.py:208-210 | The `outs` dict has keys exactly `0..len(outputs)-1`, each mapped to its output's addresses. |
| TxParser.Values | bitcoin_graph/btcTxParser.py:250-251 | `Val` has one value per output, in order. |
| TxParser.AddressesAligned | bitcoin_graph/btcTxParser.py:247-251 | When every output has one address, `Addrs_o` and `Val` have equal length and line up. |
| TxParser.EvictSpec | bitcoin_graph/btcTxParser.py:233-235 | Eviction removes only key `Vout` under the txid and drops the txid exactly when nothing is left under it. Every other entry is unchanged. |
| TxParser.ResolveCoinbase | bitcoin_graph/btcTxParser.py:219-221 | Coinbase inputs contribute one `"00"` each and neither read nor change the map. |
| TxParser.ResolveOnlyRemoves | bitcoin_graph/btcTxParser.py:224-243 | Resolution only removes. An entry no input names is untouched. |
| TxParser.ResolveStopAt | bitcoin_graph/btcTxParser.py:228 | After the KeyError of an already-spent index, no later input is looked at. |
| TxParser.ResolveNonRawSources | bitcoin_graph/btcTxParser.py:239-243 | Outside raw mode every source is a string: an unknown txid contributes nothing. |
| TxParser.BtcTxParser.ResolveAll | bitcoin_graph/btcTxParser.py:215-243 | The input loop's sources, map and KeyError are those of `ResolveInputs`. |
| TxParser.RecordsOutputs | bitcoin_graph/btcTxParser.py:206-212 | Outside raw mode, a processed transaction's outputs are recorded under its txid with keys exactly `0..len-1`, overwriting any earlier entry. This holds when none of its own inputs spends them. |
| TxParser.RawNeverRecords | bitcoin_graph/btcTxParser.py:205-206 | Raw mode never adds an entry to the map. |
| TxParser.TxEdgeCount | bitcoin_graph/btcTxParser.py:204-254 | Outside raw mode a processed transaction appends `|set(Vins)| * |Addrs_o|` edges after the untouched old ones. |
| TxParser.ClosedGateRecordsNothing | bitcoin_graph/btcTxParser.py:187-204 | Until `sT` is met, nothing is recorded or emitted and the gate stays closed. |
| TxParser.StartTxProcessed | bitcoin_graph/btcTxParser.py:192-204 | `sT` itself is processed and opens the gate. |
| TxParser.EndTxNotProcessed | bitcoin_graph/btcTxParser.py:196-201 | At `eT` the scan stops before processing it: map and edge list unchanged, status `EndTx`. |
| TxParser.LateBlockSkipped | bitcoin_graph/btcTxParser.py:175-182 | A block later than an active `endTS` is skipped and the scan continues; only the current block hash and timestamp move. |
| TxParser.FileClearsEdges | bitcoin_graph/btcTxParser.py:159-273 | After a file that runs to its end, the edge list is empty and `fn` is that file's number. |
| TxParser.TxsStopAt | bitcoin_graph/btcTxParser.py:184-201 | Once the transaction loop has stopped, later transactions change nothing. |
| TxParser.FilesStopAt | bitcoin_graph/btcTxParser.py:259-266 | Once a file stops the run, later files change nothing. |
| TxParser.GateAfterSpec | bitcoin_graph/btcTxParser.py:192-193 | The gate is open after a stretch of transactions exactly when it was open before it, or one of them opens it: any transaction when `sT` is `None`, otherwise the transaction whose txid is `sT`. |
| TxParser.LiveLastRecord | bitcoin_graph/btcTxParser.py:204-235 | The reference reading of `Utxos`: when `txs[k]` is the last processed transaction with txid `h`, output `i` of `h` is unspent exactly when `txs[k]` has an output `i` and no input of `txs[k]` or of a later transaction spends `(h, i)`. |
| TxParser.LiveNoRecord | bitcoin_graph/btcTxParser.py:214-235 | When no processed transaction has txid `h`, output `i` of `h` is unspent exactly when the starting map holds it and no processed input spends it. |
| TxParser.EvictInMap | bitcoin_graph/btcTxParser.py:233-235 | `del Utxos[h][Vout]`, with the clean-up of an empty dict, removes exactly output `Vout` of `h` and no other output. |
| TxParser.ResolveRemovesSpent | bitcoin_graph/btcTxParser.py:214-243 | An input loop that raises no KeyError removes exactly the outputs its non-coinbase inputs name. |
| TxParser.TxEffectLive | bitcoin_graph/btcTxParser.py:204-243 | A processed transaction outside raw mode that raises no KeyError leaves output `i` of `h` in the map exactly when none of its inputs spends it, and either it is `h` and has an output `i`, or the output was in the map before. |
| TxParser.TxStepLive | bitcoin_graph/btcTxParser.py:184-243 | One iteration of the transaction loop that keeps going moves the gate as `GateAfter` says. It changes the map as `TxEffectLive` says when the gate is open, and not at all when it is closed. |
| TxParser.RunTxsLive | bitcoin_graph/btcTxParser.py:184-254 | A transaction loop that keeps going leaves output `i` of `h` in the map exactly when `Live` holds over the transactions the gate let through, and leaves the gate at `GateAfter`. |
| TxParser.BlockStepLive | bitcoin_graph/btcTxParser.py:172-254 | The same for one block: a block later than an active `endTS` contributes no transactions. |
| TxParser.RunBlocksLive | bitcoin_graph/btcTxParser.py:172-254 | The same for the block loop over the transactions of the blocks that are not skipped. |
| TxParser.FileStepLive | bitcoin_graph/btcTxParser.py:159-273 | The same for one file: the flush at the end of the file does not touch the map. |
| TxParser.RunFilesLive | bitcoin_graph/btcTxParser.py:159-273 | The same for the file loop over every file's transactions. |
| TxParser.ParseLive | bitcoin_graph/btcTxParser.py:139-303 | A `parse` outside raw mode that runs through all its files leaves output `i` of `h` in `Utxos` exactly when `Live` holds over the transactions it processed, starting from the map it was given. |
| TxParser.ResolveKeepsNoEmpty | bitcoin_graph/btcTxParser.py:233-235 | The input loop never leaves a txid with an empty dict: the dict is deleted once its last output is spent. |
| TxParser.TxEffectKeepsNoEmpty | bitcoin_graph/btcTxParser.py:204-243 | A processed transaction with at least one output keeps every entry of the map non-empty. |
| TxParser.RunFilesKeepsNoEmpty | bitcoin_graph/btcTxParser.py:159-273 | So does the whole file loop, when every transaction it hands on has an output. |
| TxParser.ParseEntries | bitcoin_graph/btcTxParser.py:139-303 | When every entry starts non-empty and every transaction has an output, a `parse` that runs through all its files keeps a txid in `Utxos` exactly when one of its outputs is still unspent. |
| TxParser.ZeroOutputEntryStays | bitcoin_graph/btcTxParser.py:208-212 | A processed transaction with no outputs stores an empty dict under its txid. The txid stays in the map although none of its outputs is unspent. |
| TxParser.BtcTxParser.constructor | bitcoin_graph/btcTxParser.py:39-71 | The flags, the restored metadata, the map and the edge list are as given. |
| TxParser.BtcTxParser.ProcessTx | bitcoin_graph/btcTxParser.py:184-254 | One transaction: state, gate and status are those of `TxStep`. |
| TxParser.BtcTxParser.ProcessBlock | bitcoin_graph/btcTxParser.py:172-254 | One block: state, gate and status are those of `BlockStep`. |
| TxParser.BtcTxParser.ProcessFile | bitcoin_graph/btcTxParser.py:159-273 | One file: state, gate and status are those of `FileStep`. |
| TxParser.BtcTxParser.Parse | bitcoin_graph/btcTxParser.py:139-303 | The whole run: state and final status are those of `ParseRun`. |
| Graph.InternSpec | bitcoin_graph/btcgraph.py:231-243 | Every interned name is in `V` with its `MAP_V` index as the result. Known names keep their index; new names get fresh indices from the node counter. |
| Graph.InternVertices | bitcoin_graph/btcgraph.py:240-243 | Interning adds exactly the names to `V` and only grows the node counter. |
| Graph.BuildEdgeValid | bitcoin_graph/btcgraph.py:237-247 | `_buildEdge` keeps the invariant: `V == MAP_V.keys()`, indices are injective and below the counter, and every edge joins two nodes. |
| Graph.BuildEdgeLayout | bitcoin_graph/btcgraph.py:237-247 | All names of both lists are in `V` and known names keep their index. The new edges are the cross product of the input and output indices, with no de-duplication. |
| Graph.BuildEdgeCount | bitcoin_graph/btcgraph.py:245-247 | Exactly `|u| * |v|` edges are added; the one for `(u[i], v[j])` sits at `i * |v| + j` after the old ones. |
| Graph.CrossAt | bitcoin_graph/btcgraph.py:245-247 | The nested loops' edge `i * |outs| + j` is `(ins[i], outs[j])`. |
| Graph.MapVReversed | bitcoin_graph/btcgraph.py:125-126 | The keys of `MAP_V_r(m)` are exactly the indices among the items. |
| Graph.MapVReversedInverse | bitcoin_graph/btcgraph.py:125-126 | For an injective `m`, `MAP_V_r(m)` is its inverse in both directions. |
| Graph.WindowProperties | bitcoin_graph/btcgraph.py:288-289 | After the append and `[-50:]`, the window holds at most 50 hashes, ends with the new one and is a tail of the old window plus it. |
| Graph.BlockStepValid | bitcoin_graph/btcgraph.py:278-341 | Every block keeps the invariant, and `processedBl` never exceeds 50 hashes. |
| Graph.RunBlocksValid | bitcoin_graph/btcgraph.py:278-341 | The block loop keeps the invariant, and keeps `processedBl` at 50 hashes or fewer. |
| Graph.RunFilesValid | bitcoin_graph/btcgraph.py:266-344 | So does the file loop. |
| Graph.BuildRunValid | bitcoin_graph/btcgraph.py:254-356 | A whole `build`, however it ends, leaves a valid graph whose window holds at most 50 hashes. |
| Graph.HandleInputsValid | bitcoin_graph/btcgraph.py:302-328 | The input loop keeps the invariant. |
| Graph.HandleInputsKeeps | bitcoin_graph/btcgraph.py:302-328 | An entry no input names is untouched by the input loop. |
| Graph.StartTxSkipped | bitcoin_graph/btcgraph.py:292-334 | Here `sT` itself is not processed: only `lastTxHash` moves, and the gate opens after it. |
| Graph.EndTxProcessed | bitcoin_graph/btcgraph.py:292-341 | Here `eT` is processed: its outputs are recorded under its hash with keys exactly `0..len-1`, and the scan then stops (or raises the KeyError of one of its inputs). |
| Graph.LateBlockSkipped | bitcoin_graph/btcgraph.py:280-284 | A block later than an active `end` moves only `lastBlTs`, not `lastBlHash` or the window. |
| Graph.TxStep | bitcoin_graph/btcgraph.py:291-341 | A transaction never changes the window, the last block hash or the last block time, and keeps `V == MAP_V.keys()`. |
| Graph.BtcGraph.constructor | bitcoin_graph/btcgraph.py:185-207 | An empty graph satisfies the invariant. |
| Graph.BtcGraph.UpdateMapping | bitcoin_graph/btcgraph.py:250-251 | `MAP_V[node] = idx` and nothing else changes. |
| Graph.BtcGraph.AddNode | bitcoin_graph/btcgraph.py:231-235 | A new node's index is the old node counter; it is mapped and added to `V`. |
| Graph.BtcGraph.BuildEdge | bitcoin_graph/btcgraph.py:237-247 | The new state is `BuildEdgeSpec(old, u, v)`. |
| Graph.BtcGraph.AddEdges | bitcoin_graph/btcgraph.py:245-247 | The edge list grows by exactly `Cross(inputs, outputs)`. |
| Graph.BtcGraph.HandleAll | bitcoin_graph/btcgraph.py:302-328 | The input loop's state and KeyError are those of `HandleInputs`. |
| Graph.BtcGraph.ProcessTx | bitcoin_graph/btcgraph.py:291-341 | One transaction: state, gate and status are those of `TxStep`. |
| Graph.BtcGraph.ProcessBlock | bitcoin_graph/btcgraph.py:278-341 | One block: the state is that of `BlockStep`. |
| Graph.BtcGraph.ProcessTxs | bitcoin_graph/btcgraph.py:291-339 | The transaction loop leaves the state, gate and status of `RunTxs`, stopping at the first transaction that ends the run. |
| Graph.BtcGraph.ProcessFile | bitcoin_graph/btcgraph.py:266-344 | One file: the state is that of `FileStep`. |
| Graph.BtcGraph.Build | bitcoin_graph/btcgraph.py:254-356 | The whole run: the state is that of `BuildRun`. |
| Helpers.GetCsvFilesSpec | bitcoin_graph/helpers.py:36-40 | The csv files are sorted: exactly the listed `raw*.csv` names joined with the path, each as often as it is listed. |
| Helpers.TableSchema | bitcoin_graph/helpers.py:116-136 | There is no schema (IndexError) exactly when `cls` is shorter than the base columns. |
| Helpers.TableSchemaShape | bitcoin_graph/helpers.py:116-136 | Raw mode has six base columns typed INTEGER, STRING, STRING, INTEGER, STRING, INTEGER and named `cls[0..5]`. Otherwise four, typed INTEGER, STRING, STRING, STRING. Then INTEGER `value` iff `cvalue` and `blk_file_nr` iff `cblk`, in that order; the length is base plus the set flags. |
| Helpers.SchemaOfColumnNames | bitcoin_graph/helpers.py:116-136 | Given the uploader's column names, the raw schema names its columns exactly as those names. |
| Helpers.AppendBlk | bitcoin_graph/helpers.py:56-57 | Every row gets `blkfilenr` as its last field and keeps its other fields. Row count and order are unchanged. |
| Helpers.FlattenRows | bitcoin_graph/helpers.py:62 | Flattening fails (IndexError) exactly when some row lacks a third field. Otherwise it keeps the row count and flattens each row in place. |
| Helpers.FlattenGainsOne | bitcoin_graph/helpers.py:62 | A `(hash, index)` third field is spliced into two fields, and a non-tuple third field (coinbase `"00"`) is written twice. Either way the row gains one field, and the other fields keep their order. |
| Helpers.TransformShape | bitcoin_graph/helpers.py:56-63 | Both transforms keep row count and order. Each adds one field per transform applied, and the block number is last under `cblk`. |
| Helpers.RawEdgeFitsSchema | bitcoin_graph/helpers.py:56-136 | A raw, time-stamped parser edge from a `(hash, index)` source, once transformed, has one field per uploader column name. Each field fits the type the raw schema gives its column. Only tuple sources are covered: a coinbase source `"00"` is copied into the INTEGER `vout` column as well, where it does not fit. |
| Helpers.DecimalStringRoundTrip | bitcoin_graph/helpers.py:86 | `str(n)` reads back as `n`. |
| Helpers.SaveEdgeListSpec | bitcoin_graph/helpers.py:42-95 | The destination is BigQuery, parquet, skipped or a local file as the flags, the RAM reading and `force_saving` decide. Rows keep their number. The call fails only on an empty edge list that was not skipped. It empties the edge list on every path except the skipped parquet save. |
| Helpers.LocalFileFound | bitcoin_graph/helpers.py:36-89 | A local save writes `raw_blk_<fn>[_raw].csv` in the raw-edge directory, which `get_csv_files` lists. |
| Helpers.LocalNonRawSaveFails | bitcoin_graph/helpers.py:60-86 | As written, every local save outside raw mode fails on the unbound `ax`. The corrected routine saves it whenever there are edges. |
| Helpers.EdgeListOwner.Save | bitcoin_graph/helpers.py:42-95 | Returns `SaveEdgeList(...)` on the old edge list. The edge list becomes empty and `cum_edges` grows by its length exactly when the call reaches the reset. The `cum_edges` update is at `bitcoin_graph/helpers.py:148`. |
| Uploader.ColumnNames | bitcoin_graph/uploader.py:62-70 | The names always start with `ts, tx_id, input_tx_id, vout, output_to, output_index`. `value` is present iff `cvalue` (at index 6) and `blk_file_nr` iff `cblk` (last), so there are 6, 7 or 8 names. |
| Uploader.SanitiseIsFilter | bitcoin_graph/uploader.py:128 | Deleting the maximal non-alphanumeric runs left to right keeps exactly the ASCII letters and digits, in their order. |
| Uploader.SanitiseProperties | bitcoin_graph/uploader.py:128 | The output holds only ASCII letters and digits and is never longer than the input. A clean string is unchanged, and the sanitiser is idempotent. |

## Left out

- File and system I/O are parameters:
  - `open`/`mmap` become a byte sequence, or a `read` function from path to bytes;
  - `os.listdir` and `os.stat` become an optional listing;
  - `os.makedirs`, writing csv and parquet files, and loading and saving pickles are left out (this covers `load_Utxos`, `save_*` and `load_*`).
- The clock, `psutil`, logging and printing:
  - `now`, creation times, loop durations, `estimate_end` and `show_delta_info` are absent or appear as parameters;
  - `used_ram()` is the real parameter `ramPercent`.
- `tablestats` is reduced to its `cum_edges` update and to its IndexError on an empty edge list. Its `int(rE[0][0])` conversion (which fails on a non-numeric first field) and its printing are left out.
- Timestamps are integers: the `datetime` conversions of `endTS`, `end` and the block headers are left out.
- Google BigQuery and Storage: upload, retry and coordination code is left out. The uploader's reply is the parameter `Reply`.
- networkit: the graph is a node counter plus an edge sequence. `follow_node`, `get_community`, `stream_neighborhood` and community detection are left out.
- Code in files that are not part of this model comes in as data or parameters:
  - `Block`, `Transaction` and `Input` headers are abstract datatypes;
  - `Script.from_hex`, the script predicates and the address encoders (base58, BIP 173 bech32, BIP 350 bech32m) are a function parameter, predicate answers stored in `Script`, and the `Address` datatype;
  - `decode_varint` and `decode_uint64` (in `utils.py`) are modelled as Bitcoin's CompactSize and the little-endian `<Q` unpacking.
- In `btcgraph.py` the output addresses passed to `_buildEdge` are `Address` objects. The model keys vertices by their address strings, so object identity is not modelled.
- Python's `set(u)` iterates in hash order. The model fixes first-occurrence order, so all counts and memberships are exact, but the order of sources within a call is representative only.
- `get_blk_files` (`bitcoin_graph/btcTxParser.py:150`, `bitcoin_graph/btcgraph.py:264`) and `show_delta_info` (`bitcoin_graph/btcTxParser.py:277`, `bitcoin_graph/btcgraph.py:274`) are not methods or functions of the shown source. As written, `btcgraph.py:264` raises AttributeError inside a `try` that catches only KeyboardInterrupt and SystemExit (`bitcoin_graph/btcgraph.py:349-357`), so `BtcGraph.build` ends before its first file. The model takes the file list as an input, as the evidently intended `get_blk_files(sF, eF)` would return it.
- `get_unordered_blocks(blk_file)` is the function parameter `blocksOf`, standing for the blocks of that one file (`Framing.GetFileBlocks`). As written it selects every file from `blk_file` on; see Findings.
- Graph.BtcGraph.ProcessFile: `bitcoin_graph/btcgraph.py:271` calls a bare `logger.log`, which is a NameError on the first file. Neither this method nor `Graph.FileStep` has a counterpart for it: both follow the evidently intended `self.logger.log`, and logging is left out. The `BlkLogger()` of `bitcoin_graph/btcgraph.py:198` is not imported either.
- Graph.BtcGraph.Build: takes the file list as an input, so it does not model the AttributeError of `get_blk_files` at `bitcoin_graph/btcgraph.py:264`, which as written ends the build before its first file.
- The parser's calls to `save_edge_list` (`bitcoin_graph/btcTxParser.py:260, 270`) do not match its signature (`bitcoin_graph/helpers.py:42`). The parser's flush is an abstract `sink` that returns stop or continue, and `save_edge_list` is modelled on its own against the parser fields it reads.
- Exceptions are returned statuses:
  - `sys.exit` and the KeyError of an already-spent index each become a status value;
  - a path without a five-digit run is a status in the parsers' own `file_number` calls (`NoFileNumber`). Inside `get_unordered_blocks`, where the progress line calls `file_number` on every listed path, it is the stop `Unnumbered` that ends the iteration;
  - `KeyboardInterrupt` and `finish_tasks` are left out;
  - `parse`'s `assert len(self.edge_list) == 0` becomes the status `EdgeListNotEmpty`.
- The `MAP_V` that `load_MAP_V` reads back from csv has string values; that is not modelled.
- The loop of `estimate_end`, `BtcGraph.stats` and `BtcTxParser.stats` are printing only.
- Outputs.Output.Addresses: the multisig count `n = operations[-2]` is taken as an integer opcode value; Python's `OP_n` decoding is in `script.py`, which is not part of this model.
- Helpers.RawEdgeFitsSchema: covers only rows whose source is a `(hash, index)` tuple. In raw mode a coinbase input's `"00"` is duplicated by the flattening into the INTEGER `vout` column, which it does not fit; that case is not stated.
- Helpers.SaveEdgeListSpec: requires every row to have a third field, and a tuple third field to have two items. Rows of other shapes are covered only by `Helpers.FlattenRows` (the IndexError) and by the general `FlattenRow` definition.
- Uploader.SanitiseProperties: models the sanitiser on `str(x)` already rendered. Python's `str` of integers and `None` is not modelled; the parquet path converts `vout` to `int` first.

## Findings

| source | as written | input that shows it | evidently intended | confidence | as-written member | corrected member |
|---|---|---|---|---|---|---|
| bitcoin_graph/helpers.py:60-86 | `ax` is assigned only inside `if raw:`, but the local save formats the file name with `ax` | any call with `raw == False` and no uploader in effect: the `format(..., ax)` raises UnboundLocalError before the file is opened, so the edge list is neither written nor reset | an empty suffix outside raw mode, giving `raw_blk_<fn>.csv` | not executed | Helpers.SaveEdgeListAsWritten (shown by Helpers.LocalNonRawSaveFails) | Helpers.SaveEdgeList (proved by Helpers.SaveEdgeListSpec and Helpers.LocalFileFound) |
| bitcoin_graph/btcTxParser.py:172 | both parsers (here and at `bitcoin_graph/btcgraph.py:278`) open one `Blockchain` on the whole directory and, for each listed file, call `get_unordered_blocks(blk_file)`. That makes `blk_file` the start marker with no end marker, so the flag is set at that file and never cleared | a directory holding `blk00000.dat` and `blk00001.dat`: the call for the first file yields the blocks of both, and the next iteration yields the second file's blocks again. Replayed blocks rewrite edges and re-record spent outputs, and a replayed spend of an evicted index raises KeyError | the blocks of `blk_file` alone, from a `Blockchain` opened on that file | not executed | Framing.ParserCallSelectsSuffix (and Framing.ParserCallGathersSuffix) | Framing.GetFileBlocks (proved by Framing.OwnFileGathered); the parsers' `blocksOf` parameter stands for it |
