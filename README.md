# CAPE query service, relayer and wallet rules in Dafny

This project models the core of CAPE, a system of configurable asset privacy for Ethereum. It covers five parts:

- **The query service's chain poller** (`EthPolling`, `EthPollingFacts`). The poller folds contract events into the shared query state:
  - committed blocks become a Commit event, Memos events, the transaction indices and the nullifier set;
  - ERC20 deposits are buffered as wraps until the next committed block;
  - the faucet bootstrap record goes straight into the records tree.

  The start-up checks on the persisted contract address are modelled too. Each event is specified by a pure function over a `PollState`. The class `EthPoller` performs the same work in place, field by field, and each of its methods is proved to leave exactly the state the specification computes.
- **The query service's read endpoints** (`EqsRoutes`). These are projections of the query state, plus the start-up check of the route table.
- **The flat layout of a ternary records-tree frontier** (`RecordsMerkleTree`). This is the layout the CAPE contract reads: the hashed leaf followed by the siblings of each path node. The Rescue hash is a function parameter.
- **The wallet backend and web API rules**:
  - `WalletBackend`: the polling step of the event subscription with its exponential backoff, the nullifier cache, the start-up state taken from the query service, and the refusal to submit wraps;
  - `WalletRoutes`: typed URL parameters and the dispatch of the key and account endpoints.
- **The relayer** (`Relayer`): one transaction becomes a one-transaction block, and the outcome is classified.

Modules `Wrappers`, `Accumulator` and `Ledger` hold the shared types:

- Option and Result;
- an abstract records tree: a sequence of leaves with a leaf count, push, a commitment, a frontier and a partial restore;
- the ledger values of the query state.

The commitment of the abstract tree is its leaf sequence, which stands for a collision-free root. The commitment of a transition is the transition itself.

Where the design description of the system and the code disagree, the model follows the code:

- **Committed wraps.** A wrap that is committed with a block appears in the block's Commit event after the block's transactions. Its output is neither pushed into the query service's tree nor indexed; only the block's own transactions are.
- **Block height.** `check` never writes `last_updated_block_height`. Every block is compared against the height fixed at start-up.
- **Records tree.** A block's outputs are pushed into a clone of the restored tree. The commitment and frontier written back are those of the tree as restored, so the next block's outputs get the same uids (`BlockCommitKeepsStoredTree`).
- **Memo pairing.** The memo/output pairing counter advances only over memos of transactions whose memo signature is valid. After an invalid signature, memos pair with another transaction's outputs (`MemoPairingSkewsAfterInvalidSignature`).

Panics of the source are modelled as failures:

- `Fatal` in the poller;
- `RouteError` in the query service routes;
- `None` when parsing a flat frontier;
- `DecodePanic` in the subscription;
- `MissingAddress` in `getaccount`.

## Model

| member | source | states |
|---|---|---|
| EthPolling.NewPoller | eqs/src/eth_polling.rs:44-93 | A test run starts at height 0 and leaves the state as it is. Otherwise start-up succeeds iff an address is configured and either the persisted address equals it or none is persisted at height 0. A missing persisted address at height > 0 fails as malformed, and a different one fails as another contract. On success the configured address is recorded and the persisted height is kept. |
| EthPolling.EthPoller.constructor | eqs/src/eth_polling.rs:87-93 | The poller starts with the accepted state and height and an empty pending buffer. |
| EthPolling.EthPoller.OnErc20TokensDeposited | eqs/src/eth_polling.rs:274-289 | The new state is the deposit step: one wrap appended to the pending buffer. The height is unchanged. |
| EthPolling.EthPoller.OnFaucetInitialized | eqs/src/eth_polling.rs:290-336 | The new state and the result are those of the faucet step. The height is unchanged. |
| EthPolling.EthPoller.OnBlockCommitted | eqs/src/eth_polling.rs:110-272 | The new state and the result are those of the block step. A transaction/memo count mismatch leaves the state untouched. The height is unchanged. |
| EthPolling.EthPoller.ToTransitions | eqs/src/eth_polling.rs:136-140 | The loop yields the block's transactions as transitions, in order. |
| EthPolling.EthPoller.PushOutputs | eqs/src/eth_polling.rs:155-169 | With a restored tree, the uids are consecutive from its leaf count and the paths are those of the pushed clone. Without one, both are empty. |
| EthPolling.EthPoller.CollectMemoEvents | eqs/src/eth_polling.rs:186-217 | The loop computes the specified Memos events and pairing counter, or the failure of a memo with no output left. |
| EthPolling.EthPoller.RecordTransitions | eqs/src/eth_polling.rs:242-267 | The loop leaves the indices and nullifiers that the index specification computes. The buffer and height are unchanged. |
| EthPolling.EthPoller.AddNullifiers | eqs/src/eth_polling.rs:262-264 | The loop adds exactly the transaction's nullifiers to the set and changes nothing else. |
| EthPolling.EthPoller.Check | eqs/src/eth_polling.rs:96-340 | Processing the events one by one leaves the state of the specified fold, stopping at the first fatal event. The height is never written. |
| EthPollingFacts.OutputPosition | eqs/src/eth_polling.rs:145-147 | Output m of transaction i is at position OutputsBefore(i)+m of the block's output list. |
| EthPollingFacts.OutputUid | eqs/src/eth_polling.rs:156-168 | Output m of transaction i gets uid `leaf count + OutputsBefore(i) + m`. The clone holds that output at that uid, and the path is the clone's path for that uid. |
| EthPollingFacts.ValidTxnIds | eqs/src/eth_polling.rs:189-196 | The ids are strictly increasing, and each is a transaction among the first k whose memo signature is valid. |
| EthPollingFacts.ValidTxnIdsComplete | eqs/src/eth_polling.rs:189-196 | Every transaction among the first k with a valid memo signature is listed. |
| EthPollingFacts.MemoEventsDefined | eqs/src/eth_polling.rs:197-207 | Memos events exist iff the valid memos do not outnumber the outputs and uids. There is then one event per valid transaction, and the counter equals the number of valid memos. |
| EthPollingFacts.MemoEventsShape | eqs/src/eth_polling.rs:188-217 | Event e belongs to the e-th valid transaction j. It is tagged (block, j, kind of j) and pairs j's memos with the outputs, uids and paths from the count of earlier valid memos. |
| EthPollingFacts.MemoPairingAligned | eqs/src/eth_polling.rs:197-206 | When all signatures are valid and each transaction has one memo per output, memo m of transaction j pairs with output m of j and its uid. |
| EthPollingFacts.MemoPairingSkewsAfterInvalidSignature | eqs/src/eth_polling.rs:188-206 | A concrete block in which the memo of the second transaction is paired with the first transaction's output, because the first has an invalid signature. |
| EthPollingFacts.SpentBy | eqs/src/eth_polling.rs:262-264 | A nullifier is in the set iff one of the first n transactions spends it. |
| EthPollingFacts.IndexProgress | eqs/src/eth_polling.rs:243-267 | Recording n transactions succeeds iff the first output position of transaction n-1 has a uid. The record index is then the number of outputs before n. |
| EthPollingFacts.IndexNullifiers | eqs/src/eth_polling.rs:262-264 | Recording adds exactly the nullifiers spent by the recorded transactions. |
| EthPollingFacts.IndexById | eqs/src/eth_polling.rs:248-257 | Entry (block, i) holds transaction i, its first uid and its output count. Other keys keep their entries, and no other key is added. |
| EthPollingFacts.IndexByHash | eqs/src/eth_polling.rs:258-261 | Each recorded transaction maps to (block, i) of its last occurrence in the block. Every other transition keeps its entry, and the keys become the old keys plus the recorded transactions. |
| EthPollingFacts.BlockUidsLength | eqs/src/eth_polling.rs:156-169 | There is one uid per output when the tree restores, and none otherwise. |
| EthPollingFacts.BlockCommitOutcome | eqs/src/eth_polling.rs:125-267 | A block folds without a halt iff its counts match, the valid memos fit the uids, and (for a newer block) the last transaction's first output has a uid. A newer non-empty block halts when the tree cannot be restored. |
| EthPollingFacts.BlockCommitLog | eqs/src/eth_polling.rs:218-240 | For a newer block: the old log is kept, then one Commit of (block transactions ++ earlier pending), then one Memos event per valid transaction with its tag. The buffer empties and the state number goes up by exactly 1. |
| EthPollingFacts.BlockCommitIndex | eqs/src/eth_polling.rs:242-267 | For a newer block: nullifiers become old ∪ spent by the block; each (block, i) entry carries `leaf count + OutputsBefore(i)` and the output count. Id keys only grow. The hash index maps each of the block's transactions to its last position, keeps every other transition's entry and gains no other key (`HashIndexed`). The contract address and persisted height do not change. |
| EthPollingFacts.StaleBlockOnlyBuffers | eqs/src/eth_polling.rs:134-143 | A block not newer than the start height leaves the query state as it is. The buffer becomes the block's transactions followed by the earlier pending ones. |
| EthPollingFacts.BlockCommitKeepsStoredTree | eqs/src/eth_polling.rs:234-240 | After a block, the restored tree is the same as before. The next block's uids are the same as they would have been without it. |
| EthPollingFacts.DepositOnlyBuffers | eqs/src/eth_polling.rs:283-288 | The query state is untouched, and exactly one wrap is appended to the buffer. |
| EthPollingFacts.WrapCommittedAfterBlockTxns | eqs/src/eth_polling.rs:134-143 | A deposited wrap is committed in the next newer block's Commit, after that block's transactions. The indices, nullifiers and ledger state are as without it. |
| EthPollingFacts.FaucetEffect | eqs/src/eth_polling.rs:305-332 | The event halts iff the tree cannot be restored. Otherwise: one leaf is pushed with uid = prior leaf count, the commitment and frontier become the grown tree's, and one Memos event with no transaction is appended. The buffer, state number, indices and nullifiers are unchanged. |
| EthPollingFacts.StepGrows | eqs/src/eth_polling.rs:108-337 | Any event grows the log at its end and grows the nullifiers and id keys. The address and height are kept. The state number goes up by 1 only for a newer committed block. |
| EthPollingFacts.CheckFoldGrows | eqs/src/eth_polling.rs:96-340 | Over a poll that does not halt, the same growth holds. The state number goes up by the number of newer committed blocks. |
| Accumulator.Push | eqs/src/eth_polling.rs:162-163 | The pushed leaf gets uid = the previous leaf count. The earlier leaves stay. |
| Accumulator.Restore | eqs/src/eth_polling.rs:150-153 | Restoring succeeds iff the commitment and frontier describe one tree. That tree has exactly that commitment and frontier. |
| Accumulator.GetLeafPath | eqs/src/eth_polling.rs:167 | The path of a retained leaf names its uid and the tree's root. |
| Accumulator.RestoreRoundTrip | eqs/src/eth_polling.rs:235-240 | The commitment and frontier written back restore the same tree. |
| EqsRoutes.GetCapState | eqs/src/routes.rs:88-93 | A projection of the query state. Its meaning is carried by `WalletBackend.CreateFromQueryService`: a wallet created from the answer starts at the tree whose commitment and frontier the service stores, with now = the number of events. |
| EqsRoutes.GetAllNullifiers | eqs/src/routes.rs:95-99 | A projection of the query state. Its meaning is carried by `EthPollingFacts.IndexNullifiers` and `EthPollingFacts.BlockCommitIndex` (the set grows by exactly the nullifiers a block spends) and by `EqsRoutes.CheckNullifierAgreesWithAllNullifiers`. |
| EqsRoutes.CheckNullifier | eqs/src/routes.rs:101-108 | Succeeds iff `:nullifier` is bound and parses as a nullifier. A missing binding fails as missing, and a bad parameter fails with its error. On success the result is true iff the nullifier is in the set. |
| EqsRoutes.CheckNullifierAgreesWithAllNullifiers | eqs/src/routes.rs:95-108 | For a well-formed `:nullifier`, the answer is whether it belongs to the set that `get_all_nullifiers` returns. |
| EqsRoutes.FirstParam | eqs/src/routes.rs:114-118 | A missing `:first` means 0. |
| EqsRoutes.GetEventsSince | eqs/src/routes.rs:110-129 | The result is empty when first ≥ len. Otherwise it is events[first..] elementwise, of length min(max_count, len-first), or len-first without max_count, and never more than len-first. It fails iff a parameter fails to parse. |
| EqsRoutes.EventsSinceAgreeWithoutOverflow | eqs/src/routes.rs:123-128 | When first+max_count fits in 64 bits, the handler as written equals the overflow-free definition. |
| EqsRoutes.EventsSinceOverflowPanics | eqs/src/routes.rs:124 | For first = 1 and max_count = 2^64-1 the handler as written panics on the slice. The overflow-free definition returns the remaining event. |
| EqsRoutes.GetTransaction | eqs/src/routes.rs:131-142 | Succeeds iff both ids are bound and parse as u64. The block id is checked first: a missing one fails as missing and a bad one with its error; then the same for `:txn_id`. On success the result is Some exactly when (block_id, txn_id) is indexed, and then it is that entry. |
| EqsRoutes.CheckApi | eqs/src/routes.rs:30-43 | Succeeds (with true) iff there is a route table and it defines every route key. Otherwise it halts. |
| RecordsMerkleTree.ComputeHashLeaf | contracts/rust/src/records_merkle_tree/mod.rs:36-43 | hash(empty, uid, leaf), in the source's argument order. Its role is stated by `RecordsMerkleTree.ParseFlattenRoundTrip`: the first element of a flattened frontier, read back, is this hash of the frontier's leaf with its uid. |
| RecordsMerkleTree.FlattenFrontier | contracts/rust/src/records_merkle_tree/mod.rs:74-90 | The loop yields the flat layout of the frontier. |
| RecordsMerkleTree.ParseFlattenedFrontier | contracts/rust/src/records_merkle_tree/mod.rs:98-131 | The loop yields the parsed frontier: Empty(0) for an empty layout, and a failure for an even length. Otherwise leaf = flat[0], and node k has position digit k of uid (base 3) and siblings flat[2k+1], flat[2k+2]. |
| RecordsMerkleTree.FlattenEmpty | contracts/rust/src/records_merkle_tree/mod.rs:187-191 | An empty frontier flattens to nothing. |
| RecordsMerkleTree.FlattenLayout | contracts/rust/src/records_merkle_tree/mod.rs:208-219 | The length is 1 + 2·nodes, element 0 is hash(empty, uid, leaf), and elements 2k+1 and 2k+2 are the siblings of node k. |
| RecordsMerkleTree.ParseFlattenRoundTrip | contracts/rust/src/records_merkle_tree/mod.rs:241-257 | Parsing the layout of a frontier whose path follows its uid gives back the same path, with the leaf replaced by its hash. |
| RecordsMerkleTree.ParseFlattenNeedsUidPath | contracts/rust/src/records_merkle_tree/mod.rs:104-125 | The round trip succeeds only for paths whose positions are the base-3 digits of the uid. |
| RecordsMerkleTree.ParseFlattenEmpty | contracts/rust/src/records_merkle_tree/mod.rs:99-100 | An empty frontier of any height comes back as the empty frontier of height 0. |
| WalletBackend.Slower | wallet/src/backend.rs:290 | The backoff doubles when twice it is at most 60 s, and is 60 s otherwise. It stays in range and never decreases. |
| WalletBackend.NextRequest | wallet/src/backend.rs:271-283 | The stream ends iff a bound is given and from ≥ to. A bounded request asks for exactly to-from events from `from`. |
| WalletBackend.PollStep | wallet/src/backend.rs:270-313 | Ending leaves the state as it is. A connection failure yields no events, keeps `from` and slows the backoff. from advances by exactly the number of events. An empty batch slows the backoff; a non-empty one resets it to 500 ms. |
| WalletBackend.StreamState.constructor | wallet/src/backend.rs:256-263 | The stream starts at `from`, with bound `to` and backoff 500 ms. |
| WalletBackend.StreamState.Poll | wallet/src/backend.rs:270-313 | The poll leaves exactly the state and yields exactly the outcome of the polling step, and keeps the backoff in range. |
| WalletBackend.PollKeepsBackoffInRange | wallet/src/backend.rs:243-308 | The backoff always stays in [500 ms, 60 s]. |
| WalletBackend.RequestBindings | wallet/src/backend.rs:276-283 | The request's from and count become the `:first` and `:max_count` route parameters. |
| WalletBackend.PollBacksOffOnServiceError | wallet/src/backend.rs:284-292 | Whenever the query service's handler fails on the request, the error status makes `send()` fail: the poll yields nothing, keeps `from` and slows the backoff, as for a failed connection; it does not panic. |
| WalletBackend.PollFollowsEventLog | wallet/src/backend.rs:265-313 | Against the query service's handler: no decode panic, and the batch is exactly log[from..from']. The cursor never passes the log's end or the bound, and it advances whenever wanted events exist. |
| WalletBackend.SubscriptionDeliversEventLog | wallet/src/backend.rs:265-317 | Over any number of polls of a growing log, the delivered events are exactly log[from0..from_n], in order, within the bound. |
| WalletBackend.CachedLookup | wallet/src/backend.rs:347-358 | A cached answer is returned without querying. Otherwise the queried answer is cached and returned. Afterwards the cache maps the nullifier to the result and keeps all old entries. |
| WalletBackend.GetNullifierProof | wallet/src/backend.rs:340-360 | The answer and the new cache are those of the cached lookup. |
| WalletBackend.CachedAnswerIsStable | wallet/src/backend.rs:349-358 | A second lookup returns the first answer and changes nothing, whatever the contract says then. |
| WalletBackend.Create | wallet/src/backend.rs:186-225 | Fails iff the cap-state call fails or the frontier does not restore. Otherwise the tree has the stored commitment and frontier, the leaf to forget is n-1 if n > 0 else None, the validator gets (state number, n), and `now` is num_events. |
| WalletBackend.LeafToForgetIsFrontierLeaf | wallet/src/backend.rs:205-216 | There is a leaf to forget iff the frontier holds a leaf, and it is that leaf's uid. |
| WalletBackend.CreateFromQueryService | wallet/src/backend.rs:186-225 | From the query service's get_cap_state of a real tree, create succeeds with that tree, starting at the end of the log. |
| WalletBackend.Submit | wallet/src/backend.rs:141-183 | A wrap fails and posts nothing. A transaction posts exactly one body with it, its memos and its signature. It succeeds iff the relayer answers with a 2xx status: a failure to send and an error status both fail. The transaction is handed to the mock query service iff the submission succeeded. |
| WalletBackend.SubmitSucceedsIffRelayed | wallet/src/backend.rs:141-183 | Against the relayer's `submit` endpoint, submit succeeds iff the relayer built, sent and confirmed the block. |
| Relayer.Status | relayer/src/lib.rs:33-40 | Deserialize and BadBlock give 400. Submission, Rejected and Internal give 500. |
| Relayer.Relay | relayer/src/lib.rs:66-86 | The block is built from exactly [txn] with the default miner. A build failure gives BadBlock. A send or confirmation failure gives Submission. Finalized without a receipt gives Rejected, and with one gives that receipt. |
| Relayer.RelayOutcomes | relayer/src/lib.rs:66-86 | A receipt comes iff the build, send and confirmation succeed and a receipt exists. The relay fails only with BadBlock, Submission or Rejected. |
| Relayer.SubmitEndpoint | relayer/src/lib.rs:54-64 | An undecodable body gives Deserialize with 400, without relaying. Otherwise the body is the relay result, with 200 on success and the error's status on failure. |
| Relayer.EndpointBlamesClientOnlyForItsRequest | relayer/src/lib.rs:33-64 | The status is 400 iff the body does not decode or the transaction does not form a block. |
| WalletRoutes.Status | wallet/src/routes.rs:85-94 | Param, Tag, Deserialize, OpenWallet and MissingWallet give 400. Wallet and Internal give 500. |
| WalletRoutes.Parse | wallet/src/routes.rs:130-141 | A literal is kept unchanged. Only "true"/"false" are booleans. Integers and hexadecimals are below 2^128. |
| WalletRoutes.ParseUnsigned | wallet/src/routes.rs:133-134 | An empty string and a lone "+" fail, and any result fits the bound. |
| WalletRoutes.ToDigitsValue | wallet/src/routes.rs:133-134 | The digits of n in any base 2..36 read back as n. |
| WalletRoutes.ParseIntegerRoundTrip | wallet/src/routes.rs:133-134 | Every u128 written in decimal parses back as that Integer, and in hexadecimal as that Hexadecimal. |
| WalletRoutes.ParseIntegerRejectsOverflow | wallet/src/routes.rs:134 | A decimal at or above 2^128 is not parsed. |
| WalletRoutes.AsBoolean | wallet/src/routes.rs:143-152 | Succeeds iff the value is Boolean(b), returning b. Otherwise the error is Param("Boolean", variant). |
| WalletRoutes.AsIndex | wallet/src/routes.rs:154-163 | Succeeds iff the value is Integer(i), returning i mod 2^64. Otherwise the error is Param("Index", …). |
| WalletRoutes.AsU64 | wallet/src/routes.rs:165-174 | Succeeds iff the value is Integer(i), returning i truncated to 64 bits (i itself when it fits). Otherwise the error is Param("Integer", …). |
| WalletRoutes.AsUsize | wallet/src/routes.rs:176-178 | Same as as_u64. |
| WalletRoutes.AsU64DropsHighBits | wallet/src/routes.rs:165-174 | Integer(2^64) reads as 0 and Integer(2^64+1) as 1. |
| WalletRoutes.AsIdentifier | wallet/src/routes.rs:180-189 | Succeeds iff the value is an identifier, returning it. Otherwise Param("TaggedBase64", …). |
| WalletRoutes.AsBase64 | wallet/src/routes.rs:191-200 | Succeeds iff the value is Base64, returning its bytes. Otherwise Param("Base64", …). |
| WalletRoutes.AsPath | wallet/src/routes.rs:202-204 | Succeeds iff the value is Base64 whose bytes are UTF-8, returning the text. Invalid UTF-8 is a server error. |
| WalletRoutes.AsString | wallet/src/routes.rs:206-215 | A Literal is returned as is, and an Identifier's bytes are read as UTF-8. Every other variant gives Param("String", …). |
| WalletRoutes.To | wallet/src/routes.rs:217-223 | A non-identifier gives Param("TaggedBase64", …). A blob that does not deserialize gives Deserialize. |
| WalletRoutes.AccessorFailuresAreClientErrors | wallet/src/routes.rs:143-223 | A failure of as_boolean, as_u64, as_index, as_identifier, as_base64 or to is a 400. as_path and as_string fail with 400 on a value of the wrong kind and with 500 on bytes that are not UTF-8. |
| WalletRoutes.RequireWallet | wallet/src/routes.rs:472-476 | Fails with MissingWallet iff no wallet is open. Otherwise it returns the open wallet. |
| WalletRoutes.CloseWallet | wallet/src/routes.rs:556-560 | Succeeds iff a wallet was open. No wallet is open afterwards. |
| WalletRoutes.KeyKindOf | wallet/src/routes.rs:656-664 | "send"/"sending", "view"/"viewing" and "freeze"/"freezing" select the three kinds. Anything else is a Param error naming the string. |
| WalletRoutes.NewKey | wallet/src/routes.rs:653-665 | No wallet gives MissingWallet, before the key type is looked at. Otherwise the result is the key-type dispatch. |
| WalletRoutes.RecoverKey | wallet/src/routes.rs:796-825 | Same dispatch. A sending key scans from `:scan_from` read as usize, 0 when absent, and a bad `:scan_from` fails. |
| WalletRoutes.NewKeyAndRecoverKeyAgree | wallet/src/routes.rs:653-825 | Without `:scan_from`, newkey and recoverkey accept the same key types and pick the same kind. |
| WalletRoutes.GetAccount | wallet/src/routes.rs:936-954 | No wallet gives MissingWallet, and a missing `:address` panics. On success, ADDR/USERPUBKEY give a sending account, AUDPUBKEY a viewing one and FREEZEPUBKEY a freezing one. An identifier with any other tag gives exactly the Tag error. |
| WalletRoutes.GetAccountDispatch | wallet/src/routes.rs:942-953 | With a known tag whose key deserializes, the account of that key is returned. Every route failure is a 400. |

## Left out

- **Network and chain I/O.** This covers contract event queries, block fetching, the relayer's contract calls, and HTTP clients and servers. Their results are inputs or function parameters. The route parser and `dispatch_url` are not part of this model: route parameters arrive decoded.
- **Cryptography.** The Rescue hash is a parameter. Record commitments, memo signature verification and memo generation are inputs (`MemoBundle.sigValid`, the record opening's commitment). The Merkle tree internals are abstracted to a leaf sequence: paths name a uid and the root, and the tree height and capacity are not modelled.
- **Locks, async tasks and sleeping.** Durations are whole milliseconds. The query state is a value owned by the poller.
- **Persistence.** `store_latest_state`, the wallet's storage and loader, and key generation in the wallet are not modelled.
- **Block numbers and counters are unbounded naturals.** The only 64-bit arithmetic modelled is `get_events_since`'s sum and the `as u64` casts of the wallet routes.
- **Panics.** A panic in the poller after the count check (a missing memo output, a missing output uid, a faucet event on an unrestorable tree) is modelled as a failure. The state left behind in that case is not described.
- **The mock query service in the wallet backend.** `WalletBackend.Submit` records which transition is handed to it. What the mock ledger then does with it is not modelled, including the panic of its `unwrap`.
- **The client's error-body middleware.** `net::client::parse_error_body` is not part of this model. Both HTTP clients of the wallet backend are built with it. The model takes it to turn every non-2xx response into an error of `send()`, as the relayer's own test at relayer/src/lib.rs:315-327 relies on. `WalletBackend.Submit` and `WalletBackend.EqsAnswer` rest on this reading.
- WalletBackend.U64Binding: the query service's route parser (`as_u64`) is not part of this model. Its failure on values of 2^64 or more is assumed, not read from the code. The wallet never sends such a request, since its cursor is a `usize`.
- **The order of a block's output commitments.** `get_list_of_output_record_commitments` and `output_len` are not part of this model. `EthPolling.BlockOutputs` takes the list to be every transaction's outputs, concatenated in block order, and `OutputLen` of a transaction to be its number of outputs. `EthPollingFacts.OutputPosition`, `EthPollingFacts.OutputUid`, `EthPollingFacts.MemoPairingAligned`, `EthPollingFacts.IndexById` and `EthPollingFacts.BlockCommitIndex` rest on this ordering.
- RecordsMerkleTree.ParseFlattenedFrontier: the source's branch for the last index is dead, because `flat[i + 1]` has already panicked there, so that branch is not modelled. The uid is an unbounded natural rather than a `u64`.
- RecordsMerkleTree.ParseFlattenEmpty: the height of an empty frontier is not part of the layout, so it is not recovered.
- EthPolling.NewPoller: the connection built at start-up is not modelled.
- WalletRoutes.GetAccount: the account contents (records and assets collected from the wallet) are not modelled; only which account is described.
- WalletBackend.Create: the proving keys and the empty key, record and transaction stores of the new wallet state are not modelled.
- The rest of the wallet API (transfers, minting, wrapping, asset definitions) is not modelled, and neither are the `random_wallet` driver, the build configuration or the contract integration tests.

## Findings

| source | as written | input that shows it | evidently intended | confidence | as-written member | corrected member |
|---|---|---|---|---|---|---|
| eqs/src/routes.rs:124 | `first + max_count` is a 64-bit `usize` sum. It overflows: a debug build panics, and a release build wraps to a small end, which makes the slice `events[first..last]` panic. | `:first` = 1, `:max_count` = 2^64-1, with two events stored | the events from `first` on, at most `max_count` of them, i.e. the end clamped without overflow | not executed | EqsRoutes.GetEventsSinceAsWritten, EqsRoutes.EventsSinceOverflowPanics | EqsRoutes.GetEventsSince |
