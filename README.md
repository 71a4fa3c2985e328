# melblkidx, modelled in Dafny

melblkidx is a block indexer for the Mel blockchain. It walks the chain from
its highest indexed height up to the tip and copies every block into an
SQLite database of four tables:

- `coins`: one row per coin, with its creation and spend columns;
- `headvars`: one row per height, holding header values;
- `stakes`: stake documents;
- `txvars`: transactions.

It then answers queries over those tables. This project models three parts
of it and proves what they do:

- **Indexing (`indexer_loop_once`).** For each height the indexer builds a
  `new_coins` map and a `spent_coins` map. It then applies the Melswap
  override rules, inserts coins (ignored when the key is taken), overwrites
  the spend columns, and writes the headvars, stakes and txvars rows, all
  in one database transaction. The network client is an oracle (`Client`)
  that either answers or fails. SQLite tables are maps keyed by their
  UNIQUE columns. The imperative indexer (class `Index.Indexer`) is proved
  to compute the value-level semantics in module `Apply`:
  - `Apply.NewCoins` and `Apply.Spent` are the two maps;
  - `Apply.Commit` is one height's transaction;
  - `Apply.Pass` is the loop over a run of heights.

  Properties of those functions are then proved: last writer wins,
  overrides come from the snapshot, reapplying a block is idempotent, and
  heights are committed whole and in order.
- **`CoinQuery`.** The builder (class `Query.CoinQuery`) accumulates
  WHERE-clause fragments with `?` placeholders, plus their parameters.
  - Each builder method is proved to append exactly what the source
    appends.
  - The fragments are bound into clauses (`Eq`, `Ge`, `Gt`, `Le`, `Lt`,
    `IsNull`) that have a satisfaction predicate over rows, with SQLite's
    comparison rules: NULL never compares, storage classes are ordered,
    and blobs compare bytewise.
  - `Iter` returns exactly the decoded rows that satisfy every clause. With
    no filters, it fails as the empty WHERE clause does.
  - Coin values are stored as 16-byte big-endian `u128`s (module `Codec`).
    That encoding round-trips, and it preserves order, so `value_range`
    selects by numeric value.
- **`BalanceTracker`.** A height-to-balance cache over the coins a query
  matches (class `Balance.BalanceTracker`). A balance is answered in one of
  three ways:
  - a direct cache hit;
  - a from-scratch sum;
  - a neighbour's cached balance adjusted by `balance_diff`.

  The main lemma is `balance(b) = balance(a) + diff(a, b)`. From it,
  `BalanceAt` always returns the true balance over the coin table as it
  was when the query was built, and keeps every cache entry equal to that
  balance at its height.

Modules, in dependency order:

| module | file | contents |
|---|---|---|
| `Wrappers` | `wrappers.dfy` | Option and Result |
| `Codec` | `codec.dfy` | the `u128` codec and byte order |
| `Structs` | `structs.dfy` | chain types and the `Client` oracle |
| `Schema` | `schema.dfy` | table rows and their well-formedness |
| `Query` | `coinquery.dfy` | SQL values, clauses, filters, decoding, `CoinQuery` |
| `Balance` | `balance.dfy` | sums, `balance_diff`, `BalanceTracker` |
| `Apply` | `apply.dfy` | per-block semantics as values |
| `Index` | `indexer.dfy` | the imperative indexer, class `Indexer` |

Where the code and the system's design description disagree, the model
follows the code:

- The design says that a duplicate coin key, or a spend of an
  already-spent coin, is a contract violation that halts indexing. The
  code silently ignores duplicate inserts (`on conflict ignore`, src/lib.rs:44,
  83, 86, 89). It overwrites the spend columns unconditionally
  (src/lib.rs:280). `Apply.ApplySpendsAt` states the overwrite.
- The design describes `value_range` as inclusive below and exclusive
  above. The code accepts any pair of `RangeBounds`, and the model follows
  it (`Query.ValueRangeSelectsByValue`).
- The design says that a spend of a coin with no local row must not be
  dropped: the client is asked for the coin, which is then inserted and
  marked spent. The code asks the snapshot only for Melswap outputs. Its
  spend UPDATE (src/lib.rs:280) then matches no row, and the spend is lost.
  The model does the same: `Apply.ApplySpendsAt` keeps the set of keys as
  it was.
- Indexing resumes at the highest indexed height itself, not one above it,
  so each pass recommits its first height (`Index.Indexer.LoopOnce`,
  `Apply.RecommitKeepsRows`).

## Model

| member | source | states |
|---|---|---|
| `Codec.DecodeEncode` | src/coinquery.rs:171 | decoding the `n`-byte big-endian form of any `v < 256^n` gives `v` |
| `Codec.EncodeDecode` | src/coinquery.rs:171 | every byte string is the big-endian form of the number it decodes to |
| `Codec.RoundTripU128` | src/coinquery.rs:171 | `from_be_bytes(to_be_bytes(v)) == v` for every `u128` |
| `Codec.ToBeBytesInjective` | src/lib.rs:271 | two values have the same 16-byte encoding iff they are equal |
| `Codec.LexOrderIsNumericOrder` | src/coinquery.rs:85-88 | bytewise comparison of equal-length big-endian strings is the comparison of the numbers they encode |
| `Codec.EncodingPreservesOrder` | src/coinquery.rs:85-88 | comparing two encoded values as blobs gives the same result as comparing the values |
| `Query.HoldsAllConcat` | src/coinquery.rs:151-154 | joining two clause lists with ` and ` holds exactly when both lists hold |
| `Query.PlaceholdersConcat` | src/coinquery.rs:105-141 | the placeholder count of appended filters is the sum of the counts |
| `Query.BindConcat` | src/coinquery.rs:151-158 | binding appended filters to appended parameters is the concatenation of the two bindings |
| `Query.RenderedQuestionMarks` | src/coinquery.rs:105-141 | each rendered fragment contains as many `?` as it takes parameters |
| `Query.PlaceholdersAreQuestionMarks` | src/coinquery.rs:151-154 | the WHERE string holds exactly as many `?` as the filters take parameters |
| `Query.WhereClauseEmptyIff` | src/coinquery.rs:151-154 | the WHERE string is empty iff there are no filters |
| `Query.RangeFilterArity` | src/coinquery.rs:111-141 | a range filter adds one fragment and one parameter per bounded end, 0 to 2 |
| `Query.HoldsRange` | src/coinquery.rs:111-141 | a start bound becomes `>=`/`>`/nothing and an end bound becomes `<=`/`<`/nothing |
| `Query.BindRange` | src/coinquery.rs:111-141 | the range fragments and their parameters bind to exactly the clauses of the bounds |
| `Query.ValueOrder` | src/coinquery.rs:85-88 | comparing a stored 16-byte value with an encoded bound is comparing the decoded amounts |
| `Query.ValueStartSelects` | src/coinquery.rs:85-88 | the start clause of `value_range` holds iff the decoded value is above the start bound |
| `Query.ValueEndSelects` | src/coinquery.rs:85-88 | the end clause of `value_range` holds iff the decoded value is below the end bound |
| `Query.ValueRangeSelectsByValue` | src/coinquery.rs:85-88 | `value_range` selects a row iff its decoded value lies within the bounds |
| `Query.CreateHeightRangeSelects` | src/coinquery.rs:59-62 | `create_height_range` selects a row iff its `create_height` lies within the bounds |
| `Query.SpendHeightRangeSelects` | src/coinquery.rs:80-83 | `spend_height_range` selects a row iff its `spend_height` lies within the bounds; a bounded range never selects an unspent row |
| `Query.Select` | src/coinquery.rs:148-200 | the selection is no longer than the rows it filters |
| `Query.SelectSnoc` | src/coinquery.rs:148-200 | the rows come out in scan order, each row kept iff every clause holds of it |
| `Query.SelectMembership` | src/coinquery.rs:148-200 | a row is yielded iff it is in the table and satisfies every clause |
| `Query.SelectConcat` | src/coinquery.rs:148-200 | selecting from two runs of rows is selecting from each in turn |
| `Query.SelectCompose` | src/coinquery.rs:151-154 | filtering by `a and b` is filtering by `a`, then by `b` |
| `Query.DecodeFaithful` | src/coinquery.rs:160-192 | a decoded row carries its creation columns and its decoded value; `spend_info` is present iff `spend_txhash` is non-NULL, with that row's spend index and height; a well-formed row always decodes |
| `Query.DecodeRows` | src/coinquery.rs:160-192 | a successful decode yields one coin per row |
| `Query.DecodeRowsSnoc` | src/coinquery.rs:160-192 | rows decode in order, and the first failing row is the failure |
| `Query.DecodeRowsErrSticks` | src/coinquery.rs:160-192 | once a row fails to decode, later rows do not change the outcome |
| `Query.DecodeRowsAt` | src/coinquery.rs:160-192 | the `i`-th coin yielded is the decoding of the `i`-th selected row |
| `Query.DecodeRowsOfWellFormed` | src/coinquery.rs:160-192 | rows written by the indexer always decode |
| `Query.SelectedRowsDecode` | src/coinquery.rs:160-192 | any selection from well-formed rows decodes |
| `Query.CoinQuery.constructor` | src/coinquery.rs:41-47 | a new query has no filters and no parameters |
| `Query.CoinQuery.AddEqFilter` | src/coinquery.rs:105-109 | appends exactly one `field == ?` fragment and one parameter; earlier ones are unchanged and in order |
| `Query.CoinQuery.AddRangeFilter` | src/coinquery.rs:111-141 | appends the fragments and parameters of the bounds, and the clause list grows by exactly the range clauses |
| `Query.CoinQuery.Unspent` | src/coinquery.rs:64-68 | appends `spend_txhash is null` and no parameter |
| `Query.CoinQuery.CreateTxhash` | src/coinquery.rs:49-52 | appends an equality on `create_txhash` with the hash as parameter |
| `Query.CoinQuery.CreateIndex` | src/coinquery.rs:54-57 | appends an equality on `create_index` |
| `Query.CoinQuery.CreateHeightRange` | src/coinquery.rs:59-62 | appends the range clauses of the bounds on `create_height`, unchanged |
| `Query.CoinQuery.SpendTxhash` | src/coinquery.rs:70-73 | appends an equality on `spend_txhash` |
| `Query.CoinQuery.SpendIndex` | src/coinquery.rs:75-78 | appends an equality on `spend_index` |
| `Query.CoinQuery.SpendHeightRange` | src/coinquery.rs:80-83 | appends the range clauses of the bounds on `spend_height`, unchanged |
| `Query.CoinQuery.ValueRange` | src/coinquery.rs:85-88 | appends the range clauses of the encoded bounds on `value` |
| `Query.CoinQuery.Denom` | src/coinquery.rs:90-93 | appends an equality on `denom` |
| `Query.CoinQuery.Covhash` | src/coinquery.rs:95-98 | appends an equality on `covhash` |
| `Query.CoinQuery.AdditionalData` | src/coinquery.rs:100-103 | appends an equality on `additional_data` |
| `Query.CoinQuery.Iter` | src/coinquery.rs:148-200 | with no filters the query fails; otherwise it yields the decoding of exactly the rows that satisfy every accumulated clause, in scan order |
| `Balance.SumSelect` | src/balance.rs:47-68 | folding the values of the selected coins sums the value of every row satisfying the clauses |
| `Balance.BalanceDiffMeaning` | src/balance.rs:17-31 | `balance_diff(start, end)` is the value of matching coins created in `(start, end]` minus that of those spent in `(start, end]` |
| `Balance.ScratchMeaning` | src/balance.rs:47-68 | the from-scratch balance at `h` is the value of matching coins created by `h` and unspent or spent after `h` |
| `Balance.BalanceStep` | src/balance.rs:17-31 | for `a <= b`, the balance at `b` is the balance at `a` plus what was created in `(a, b]`, minus what was spent in `(a, b]` |
| `Balance.ScratchStep` | src/balance.rs:17-31 | for `a <= b`, `balance(b) = balance(a) + balance_diff(a, b)` |
| `Balance.NeighbourExists` | src/balance.rs:86-96 | the neighbour the choice picks is never the `u64::MAX` placeholder once the cache is non-empty |
| `Balance.BackFromNext` | src/balance.rs:86-91 | the next neighbour's balance minus the diff is the balance at `h` |
| `Balance.OnFromPrev` | src/balance.rs:92-96 | the previous neighbour's balance plus the diff is the balance at `h` |
| `Balance.BalanceTracker.constructor` | src/balance.rs:33-39 | a new tracker has an empty cache over the query's rows and clauses |
| `Balance.BalanceTracker.NextEntry` | src/balance.rs:69-77 | yields the least cached height above `h` with its balance, or `(u64::MAX, 0)` |
| `Balance.BalanceTracker.PrevEntry` | src/balance.rs:78-85 | yields the greatest cached height below `h` with its balance, or `(u64::MAX, 0)` |
| `Balance.NearestExists` | src/balance.rs:69-85 | both neighbour lookups have an answer (a cached height or the `(u64::MAX, 0)` fallback) whenever the cached heights are below 2^63 |
| `Balance.BalanceTracker.BalanceAt` | src/balance.rs:41-102 | always `Some` of the true balance; a hit leaves the cache alone; an empty cache gets exactly `h`; otherwise `h` is cached iff the result differs from both neighbours' balances; every cache entry stays the true balance |
| `Apply.LiqWithdrawOverridesAll` | src/lib.rs:236-246 | a LiqWithdraw with fewer than 255 outputs looks up outputs `0..=len`, one more than it has |
| `Apply.InsertOutputsAt` | src/lib.rs:204-206 | output `i` lands under `CoinID(hash, i as u8)`, the last output with that byte winning |
| `Apply.OverrideAt` | src/lib.rs:217-246 | every overridden id carries the snapshot's coin, or is absent when the snapshot lacks it; other ids are untouched |
| `Apply.TxCoinsAt` | src/lib.rs:203-247 | a transaction rewrites exactly the ids it outputs or overrides |
| `Apply.NewCoinsFoldAt` | src/lib.rs:198-247 | the built `new_coins` agrees at every id with the reference in which the last transaction touching the id decides |
| `Apply.NewCoinProvenance` | src/lib.rs:198-247 | every coin in `new_coins` is the snapshot's, or a declared, non-overridden output of some transaction |
| `Apply.NeverInsertedWhenSnapshotLacksIt` | src/lib.rs:217-246 | an overridden output the snapshot does not have is never inserted |
| `Apply.InsertInputsAt` | src/lib.rs:248-250 | an input maps to the spending hash and its last position in the input list |
| `Apply.SpentFoldAt` | src/lib.rs:248-250 | the built `spent_coins` agrees at every id with the reference |
| `Apply.SpentAtMeaning` | src/lib.rs:248-250 | a coin is recorded as spent iff some transaction spends it, and then by the last such transaction |
| `Apply.SpentMeaning` | src/lib.rs:248-250 | `spent_coins` has an id iff some input is that id, and the later spender wins |
| `Apply.FreshRowDecodes` | src/lib.rs:264-277 | a freshly inserted coin row is well formed and decodes back to the coin it was written from, unspent |
| `Apply.TxRowKeepsFirstKilobyte` | src/lib.rs:317-331 | the stored `data` is a prefix of the transaction's data, at most 1024 bytes long |
| `Apply.InsertTxsAt` | src/lib.rs:317-331 | a txvars row is kept or comes from the first transaction in the block with that hash |
| `Apply.InsertCoinsAt` | src/lib.rs:264-277 | coin inserts keep every existing row and add a fresh row exactly where the key is free |
| `Apply.ApplySpendsAt` | src/lib.rs:278-289 | the spend update sets the spend triple of every row of a spent coin, whatever it held before, and changes nothing else |
| `Apply.CreatedAndSpentInOneBlock` | src/lib.rs:264-289 | since inserts precede updates, a coin created and spent in one block ends up spent at that height |
| `Apply.InsertTxsIdempotent` | src/lib.rs:317-331 | inserting the same transactions twice is inserting them once |
| `Apply.InsertCoinsAgain` | src/lib.rs:264-277 | reinserting a block's coins after its commit changes nothing |
| `Apply.SpendsAgain` | src/lib.rs:278-289 | repeating the spend updates changes nothing |
| `Apply.RecommitKeepsCoins` | src/lib.rs:264-289 | reapplying a block's coin writes leaves coins as the first application did |
| `Apply.RecommitKeepsRows` | src/lib.rs:262-332 | recommitting a height leaves coins, headvars and txvars unchanged, whatever stakes it brings |
| `Apply.CommitIdempotent` | src/lib.rs:262-332 | the same commit twice is the commit once |
| `Apply.CommitCoinWF` | src/lib.rs:264-289 | every coin row after a commit is well formed and created at an indexed height |
| `Apply.InsertHeadWF` | src/lib.rs:290-300 | the headvars insert adds exactly height `h` and keeps every row well formed |
| `Apply.CommitPreservesWF` | src/lib.rs:262-332 | a commit keeps the store well formed and adds exactly `h` to the indexed heights |
| `Apply.LookupsOkMeaning` | src/lib.rs:217-246 | the override lookups of a transaction succeed iff each lookup succeeds |
| `Apply.TxsLookupsOkMeaning` | src/lib.rs:204-246 | the lookups of a block's transactions succeed iff every transaction's do |
| `Apply.SnapshotsOkMeaning` | src/lib.rs:200-246 | building `new_coins` meets no failed request iff the reward lookup and every override lookup succeed |
| `Apply.StepKeepsStakesWhenUnchanged` | src/lib.rs:253-259 | when the stakes hash did not move, the stakers are not asked for: the step succeeds exactly when the coin lookups do, whatever the stakers request would answer, and then the stakes table and the last stakes hash are unchanged |
| `Apply.StepFetchesStakesWhenMoved` | src/lib.rs:253-259 | when the stakes hash moved and the coin lookups succeed, the step succeeds exactly when the stakers request does, and then it inserts the returned stake documents (none when the snapshot has none) and records the new stakes hash |
| `Apply.StepPreservesWF` | src/lib.rs:195-332 | a successful iteration keeps the store well formed and indexes exactly its height |
| `Apply.StepOfIndexesItsHeight` | src/lib.rs:195-332 | the indexer's iteration indexes exactly its height, for every store and height |
| `Apply.AdvanceIndexes` | src/lib.rs:194-334 | an attempt adds its height to the indexed heights iff it and the pass so far succeeded |
| `Apply.PassCommitsInOrder` | src/lib.rs:194-334 | after a pass the indexed heights are the old ones plus an unbroken run from `start`, the whole run when nothing failed |
| `Apply.PassStaysBelow` | src/lib.rs:194 | no height above the last one tried (`start + n - 1`) is ever indexed, beyond those already at or below `start` |
| `Apply.MaxHeightOf` | src/lib.rs:129-139 | the greatest indexed height, 0 when there is none |
| `Apply.PassCatchesUp` | src/lib.rs:185-194 | a pass from the highest indexed height to the tip that meets no failure leaves the tip as the highest indexed height |
| `Apply.HeadRowRoundTrip` | src/lib.rs:110-122 | a headvars row read back gives the header values it was written from |
| `Index.InsertCoinsPeel` | src/lib.rs:264-277 | the coin inserts give the same table in any order of the HashMap walk |
| `Index.ApplySpendsPeel` | src/lib.rs:278-289 | the spend updates give the same table in any order |
| `Index.InsertStakesPeel` | src/lib.rs:301-316 | the stake inserts give the same table in any order |
| `Index.InsertTxOutputs` | src/lib.rs:204-206 | the output loop builds the map `Apply.InsertOutputs` describes |
| `Index.OverrideTx` | src/lib.rs:217-246 | the override loop fails iff a snapshot lookup fails, and otherwise builds the overridden map |
| `Index.CollectReward` | src/lib.rs:200-202 | starts from the reward coin when the snapshot has it; fails iff the lookup fails |
| `Index.CollectTxCoins` | src/lib.rs:203-247 | one transaction's outputs then overrides; fails iff one of its lookups fails |
| `Index.CollectCoins` | src/lib.rs:198-247 | fails iff a coin lookup fails, and otherwise returns exactly `new_coins` |
| `Index.InsertTxInputs` | src/lib.rs:248-250 | the input loop builds the map `Apply.InsertInputs` describes |
| `Index.CollectSpent` | src/lib.rs:248-250 | returns exactly `spent_coins` |
| `Index.EnumeratedRowsWF` | src/lib.rs:97-100 | a scan of a well-formed coin table yields well-formed rows |
| `Index.SpendTxhashClause` | src/lib.rs:141-149 | the `spend_txhash` filter holds of exactly the rows spent by `t` |
| `Index.Rounds` | src/lib.rs:194 | `our_highest..=their_highest` covers every height from start to top, inclusive, and none when top is below start |
| `Index.PassStaysStopped` | src/lib.rs:194-334 | once an iteration fails, the pass stops and the store is left as it was |
| `Index.InsertNewCoins` | src/lib.rs:264-277 | the insert loop writes exactly the coins `Apply.InsertCoins` describes |
| `Index.ApplySpendUpdates` | src/lib.rs:278-289 | the update loop writes exactly the spends `Apply.ApplySpends` describes |
| `Index.InsertStakeDocs` | src/lib.rs:301-316 | the stake loop writes exactly the stake rows `Apply.InsertStakes` describes |
| `Index.InsertTxRows` | src/lib.rs:317-331 | the txvars loop writes exactly the rows `Apply.InsertTxs` describes |
| `Index.LoopKeepsWF` | src/lib.rs:183-336 | a pass from the highest height keeps the store well formed |
| `Index.HeadRowReadsBack` | src/lib.rs:110-122 | a well-formed headvars row decodes to the header it was written from |
| `Index.Indexer.constructor` | src/lib.rs:43-91 | a fresh database has four empty tables and is well formed; reopening an existing store is covered by `LoopOnce`, whose contract holds over any well-formed store |
| `Index.Indexer.MaxHeight` | src/lib.rs:129-139 | `max_height` is the greatest height in headvars, 0 on an empty table |
| `Index.Indexer.HeightInfo` | src/lib.rs:102-127 | `Some` iff the height has a headvars row, and then that height with its header values read back |
| `Index.Indexer.ScanCoins` | src/lib.rs:97-100 | the scan lists each coin row exactly once |
| `Index.Indexer.QueryCoins` | src/lib.rs:97-100 | `query_coins` is a fresh, filterless query over the whole coin table |
| `Index.Indexer.TxhashToHeight` | src/lib.rs:141-149 | `None` iff no coin was spent by `t`; otherwise the spend height of a coin that `t` spent |
| `Index.Indexer.CommitBlock` | src/lib.rs:262-332 | the transaction's statements, in the code's order, leave the store as `Apply.Commit` |
| `Index.Indexer.IndexHeight` | src/lib.rs:195-333 | one iteration: every request first, then the commit; on a failed request nothing is written |
| `Index.Indexer.IndexRange` | src/lib.rs:194-334 | the loop over `start..=top` leaves the store and result that `Apply.Pass` describes |
| `Index.Indexer.LoopOnce` | src/lib.rs:183-336 | `indexer_loop_once` resumes at the highest indexed height inclusive and runs the pass to the tip; a failed tip request writes nothing; the store stays well formed |

## Left out

- SQLite failures (a failed `execute`, `prepare_cached` or `commit`, and the `unwrap` panics on them) are not modelled: every statement succeeds. Only network requests can fail, and they all happen before the database transaction opens.
- The schema DDL, indexes and pragmas (src/lib.rs:43-91) are out of scope: tables are maps keyed by their UNIQUE columns.
- src/pool.rs (the connection pool and its optimisation thread), the `blkidx` example program, the `Mutex` around the balance cache and the `Send`/`Sync` impls concern resources and concurrency; they are not part of this model.
- `indexer_loop` (src/lib.rs:174-181), with its endless retry and one-second sleep, and `repeat_fallible` (src/lib.rs:21-28) are non-terminating retry loops around I/O and are not modelled.
- The network client (`latest_snapshot`, `get_older`, `current_block`, `get_coin`, `get_stakers_raw`) is the `Client` oracle, a parameter that answers or fails; async, timers and `smol` are not modelled.
- The Melswap state-transition rules (src/lib.rs:208-215) are not modelled: the code asks the snapshot instead, and the model does the same.
- Serialisation is opaque: the JSON/hex of covenants and signatures, `stdcode` for stake documents (the oracle returns them decoded), `to_string`/`parse` of hashes and addresses (`Text(code)`, injective), `Denom::to_bytes`/`from_bytes`, and the byte code of a transaction kind.
- `blkhash_to_height` (src/lib.rs:151-162) is not modelled; it is a single keyed lookup outside the core.
- HashMap iteration order is an arbitrary pick in each loop step; the peel lemmas show that the order cannot matter.
- The lazy generator of `iter` is not modelled: `Iter` returns the whole list, or the error of the first row that cannot be decoded. The coins a caller would have seen before a panic are not modelled.
- Query.CoinQuery.Iter: the model fixes a single order of `rows` for every query, so the order in `Iter`'s contract ("in scan order") is the model's. Without `ORDER BY`, SQLite's row order depends on the query plan, which is not modelled.
- Index.Indexer.TxhashToHeight: states the spend height of some coin that `t` spent, not the first one in SQLite's row order, because the scan order of `coins` is not modelled.
- Integer widths: balances, diffs and sums are mathematical integers, so the `i128`/`u128` casts at src/balance.rs:90 and 95 and any overflow of `CoinValue` additions are not modelled. The tracker requires heights below 2^63, the range SQLite stores, so `height + 1` never overflows. `Apply.OverrideIndices` wraps `len as u8 + 1` as a release build does; a debug build panics on a LiqWithdraw with 255 outputs, which is not modelled.
- The cache's `BTreeMap` range lookups are modelled by scans over the keys (`NextEntry`, `PrevEntry`), which yield the same neighbours.
- Balance.BalanceTracker and Index.Indexer.QueryCoins: the model reads the coin table once, when the query is built, and the tracker works over that fixed set of rows. The source reads the live table on every call through a pooled connection while the indexer keeps committing blocks, so its cache can go stale: an entry cached for a height above the tip indexed at the time stays as it was after later blocks add or spend matching coins. That staleness is not modelled.
- Index.Indexer.constructor: models `Indexer::new` on a fresh database; `create table if not exists` on an existing file is not modelled as its own case, as `LoopOnce` and the queries hold over any well-formed store.
- Logging is not modelled.
