/** The query service's chain poller (eqs/src/eth_polling.rs): it folds
    committed blocks, ERC20 deposits and the faucet bootstrap event into the
    query state. The pure functions below specify one event each; the class
    `EthPoller` performs them in place, step by step, as the source does,
    and each of its methods is proved to leave exactly the state that the
    specification computes. Chain queries, block fetching and signature
    verification happen outside: their results are the inputs. */
module EthPolling {
  import opened Wrappers
  import opened Accumulator
  import opened Ledger

  datatype EqsOptions = EqsOptions(tempTestRun: bool, capeAddress: Option<Address>)

  /** The conditions under which the poller panics. */
  datatype Fatal =
    | InvocationError                      // no contract address outside a test run
    | MalformedPersistedState              // persisted height > 0 without a contract address
    | DifferentContract                    // persisted state belongs to another contract
    | TxnMemoCountMismatch(numTxn: nat, numTxnMemo: nat)
    | MemoOutputMissing                    // memos of valid transactions outrun the outputs
    | OutputStartMissing                   // no uid left for a transaction's first output
    | TreeNotRestored                      // faucet event on a tree that cannot be restored

  /** Memos of one transaction and the outcome of checking their signature
      against the transaction. */
  datatype MemoBundle = MemoBundle(memos: seq<ReceiverMemo>, sigValid: bool)

  datatype BlockWithMemos = BlockWithMemos(txns: seq<CapeModelTxn>, memos: seq<MemoBundle>)

  datatype CapeEvent =
    | BlockCommitted(block: BlockWithMemos)
    | Erc20TokensDeposited(ro: RecordOpening, erc20Code: Address, from: Address)
    | FaucetInitialized(ro: RecordOpening, memo: ReceiverMemo)

  datatype EventMeta = EventMeta(blockNumber: nat)

  /** What the poller owns besides its fixed height: the shared query state
      and the buffer of transitions awaiting a committed block. */
  datatype PollState = PollState(qrs: QueryResultState, pending: seq<CapeTransition>)

  datatype Startup = Startup(queryResultState: QueryResultState, lastUpdatedBlockHeight: nat)

  /** Start-up of the poller: a test run starts at height 0; otherwise the
      configured contract address must agree with the persisted one. */
  function NewPoller(opt: EqsOptions, qrs: QueryResultState): (r: Result<Startup, Fatal>)
    ensures r.Success? <==>
      || opt.tempTestRun
      || (&& opt.capeAddress.Some?
          && (qrs.contractAddress == opt.capeAddress
              || (qrs.contractAddress.None? && qrs.lastUpdatedBlockHeight == 0)))
    ensures (!opt.tempTestRun && opt.capeAddress.Some? && qrs.contractAddress.None?
             && qrs.lastUpdatedBlockHeight > 0) ==> r == Failure(MalformedPersistedState)
    ensures (!opt.tempTestRun && opt.capeAddress.Some? && qrs.contractAddress.Some?
             && qrs.contractAddress != opt.capeAddress) ==> r == Failure(DifferentContract)
    ensures r.Success? ==> r.value.lastUpdatedBlockHeight ==
                           (if opt.tempTestRun then 0 else qrs.lastUpdatedBlockHeight)
    ensures r.Success? && !opt.tempTestRun ==>
      r.value.queryResultState == qrs.(contractAddress := opt.capeAddress)
    ensures r.Success? && opt.tempTestRun ==> r.value.queryResultState == qrs
  {
    if opt.tempTestRun then Success(Startup(qrs, 0))
    else if opt.capeAddress.None? then Failure(InvocationError)
    else if qrs.contractAddress.None? && qrs.lastUpdatedBlockHeight > 0 then
      Failure(MalformedPersistedState)
    else if qrs.contractAddress.Some? && qrs.contractAddress.value != opt.capeAddress.value then
      Failure(DifferentContract)
    else
      Success(Startup(qrs.(contractAddress := opt.capeAddress), qrs.lastUpdatedBlockHeight))
  }

  /** The block's transactions as transitions, in block order. */
  function Transitions(txns: seq<CapeModelTxn>): (ts: seq<CapeTransition>)
    ensures |ts| == |txns|
  {
    seq(|txns|, i requires 0 <= i < |txns| => Transaction(txns[i]))
  }

  /** The output record commitments of a block, transaction by transaction. */
  function BlockOutputs(txns: seq<CapeModelTxn>): seq<Field>
    decreases |txns|
  {
    if |txns| == 0 then [] else BlockOutputs(txns[..|txns| - 1]) + txns[|txns| - 1].outputs
  }

  /** Number of outputs of the transactions before position `i`. */
  function OutputsBefore(txns: seq<CapeModelTxn>, i: nat): nat
    requires i <= |txns|
  {
    |BlockOutputs(txns[..i])|
  }

  function PushAll(t: Tree, leaves: seq<Field>): Tree {
    Tree(t.leaves + leaves)
  }

  function Uids(start: nat, count: nat): seq<nat> {
    seq(count, i requires 0 <= i < count => start + i)
  }

  function Paths(t: Tree, uids: seq<nat>): (ps: seq<MerklePath>)
    requires forall i :: 0 <= i < |uids| ==> uids[i] < NumLeaves(t)
    ensures |ps| == |uids|
  {
    seq(|uids|, i requires 0 <= i < |uids| => GetLeafPath(t, uids[i]))
  }

  /** The outputs of one Memos event: memo m is paired with the output, uid
      and path at position `start + m`. */
  function MemoOutputs(memos: seq<ReceiverMemo>, outs: seq<Field>, uids: seq<nat>,
                       paths: seq<MerklePath>, start: nat): seq<MemoOutput>
    requires start + |memos| <= |outs| && start + |memos| <= |uids| && |paths| == |uids|
  {
    seq(|memos|, m requires 0 <= m < |memos| =>
      MemoOutput(memos[m], outs[start + m], uids[start + m], paths[start + m]))
  }

  datatype MemoFold = MemoFold(events: seq<LedgerEvent>, index: nat)

  /** The Memos events of the first `k` transactions and the pairing counter
      after them; the counter advances only over memos of transactions whose
      signature is valid. None when a memo has no output left to pair with. */
  function MemoEvents(txns: seq<CapeModelTxn>, bundles: seq<MemoBundle>, outs: seq<Field>,
                      uids: seq<nat>, paths: seq<MerklePath>, blockNumber: nat, k: nat): Option<MemoFold>
    requires k <= |bundles| && k <= |txns| && |paths| == |uids|
    decreases k
  {
    if k == 0 then Some(MemoFold([], 0))
    else match MemoEvents(txns, bundles, outs, uids, paths, blockNumber, k - 1)
      case None => None
      case Some(f) =>
        var b := bundles[k - 1];
        if !b.sigValid then Some(f)
        else if f.index + |b.memos| <= |outs| && f.index + |b.memos| <= |uids| then
          Some(MemoFold(
            f.events + [Memos(MemoOutputs(b.memos, outs, uids, paths, f.index),
                              Some(TxnTag(blockNumber, k - 1, Transaction(txns[k - 1]).Kind())))],
            f.index + |b.memos|))
        else None
  }

  /** The two transaction indices, the nullifier set and the running record
      index while the block's transitions are recorded. */
  datatype TxIndex = TxIndex(
    byId: map<TxnId, CommittedTransition>,
    byHash: map<CapeTransition, TxnId>,
    nullifiers: set<Nullifier>,
    recordIndex: nat)

  /** Records the first `k` transitions; None when a transition's first output
      has no uid. */
  function IndexTransitions(transitions: seq<CapeTransition>, uids: seq<nat>, blockNumber: nat,
                            k: nat, start: TxIndex): Option<TxIndex>
    requires k <= |transitions|
    decreases k
  {
    if k == 0 then Some(start)
    else match IndexTransitions(transitions, uids, blockNumber, k - 1, start)
      case None => None
      case Some(ix) =>
        if ix.recordIndex < |uids| then
          var t := transitions[k - 1];
          Some(TxIndex(
            ix.byId[(blockNumber, k - 1) := CommittedTransition(blockNumber, k - 1, uids[ix.recordIndex], t.OutputLen(), t)],
            ix.byHash[t := (blockNumber, k - 1)],
            ix.nullifiers + t.ProvenNullifiers(),
            ix.recordIndex + t.OutputLen()))
        else None
  }

  /** The tree restored from the stored commitment and frontier. */
  function RestoredTree(s: PollState): Option<Tree> {
    Restore(s.qrs.ledgerState.recordMerkleCommitment, s.qrs.ledgerState.recordMerkleFrontier)
  }

  /** Uids of the block's outputs: consecutive from the restored leaf count,
      none when the tree cannot be restored. */
  function BlockUids(s: PollState, txns: seq<CapeModelTxn>): seq<nat> {
    var restored := RestoredTree(s);
    if restored.Some? then Uids(NumLeaves(restored.value), |BlockOutputs(txns)|) else []
  }

  function BlockPaths(s: PollState, txns: seq<CapeModelTxn>): (ps: seq<MerklePath>)
    ensures |ps| == |BlockUids(s, txns)|
  {
    var restored := RestoredTree(s);
    if restored.Some? then
      Paths(PushAll(restored.value, BlockOutputs(txns)), BlockUids(s, txns))
    else []
  }

  /** Folding one committed block. */
  function BlockCommittedStep(s: PollState, lastUpdated: nat, block: BlockWithMemos, blockNumber: nat)
    : Result<PollState, Fatal>
  {
    if |block.txns| != |block.memos| then
      Failure(TxnMemoCountMismatch(|block.txns|, |block.memos|))
    else
      var transitions := Transitions(block.txns);
      var pending := transitions + s.pending;
      var restored := RestoredTree(s);
      var uids := BlockUids(s, block.txns);
      var memoFold := MemoEvents(block.txns, block.memos, BlockOutputs(block.txns), uids,
                                 BlockPaths(s, block.txns), blockNumber, |block.memos|);
      if memoFold.None? then Failure(MemoOutputMissing)
      else if blockNumber <= lastUpdated then Success(PollState(s.qrs, pending))
      else
        var qrs := s.qrs;
        var ix := IndexTransitions(transitions, uids, blockNumber, |transitions|,
                                   TxIndex(qrs.transactionById, qrs.transactionIdByHash, qrs.nullifiers, 0));
        if ix.None? then Failure(OutputStartMissing)
        else
          var header := CommitHeader(qrs, pending, restored, memoFold.value.events, blockNumber);
          Success(PollState(
            header.(transactionById := ix.value.byId,
                    transactionIdByHash := ix.value.byHash,
                    nullifiers := ix.value.nullifiers),
            []))
  }

  /** The part of a block commit written before the indices: the Commit event
      of the whole pending buffer followed by the Memos events, the next state
      number, and the commitment and frontier of the restored tree. */
  function CommitHeader(qrs: QueryResultState, pending: seq<CapeTransition>, restored: Option<Tree>,
                        memoEvents: seq<LedgerEvent>, blockNumber: nat): QueryResultState
  {
    var ls := qrs.ledgerState.(stateNumber := qrs.ledgerState.stateNumber + 1);
    var ls' := if restored.Some? then
                 ls.(recordMerkleCommitment := Commitment(restored.value),
                     recordMerkleFrontier := FrontierOf(restored.value))
               else ls;
    qrs.(ledgerState := ls',
         events := qrs.events + [Commit(CapeBlock(pending), blockNumber, blockNumber + 1)] + memoEvents)
  }

  /** An ERC20 deposit only buffers a wrap for the next committed block. */
  function DepositStep(s: PollState, ro: RecordOpening, erc20Code: Address, from: Address): PollState {
    s.(pending := s.pending + [Wrap(ro, erc20Code, from)])
  }

  /** The faucet bootstrap record goes straight into the tree and the log. */
  function FaucetStep(s: PollState, ro: RecordOpening, memo: ReceiverMemo): Result<PollState, Fatal> {
    var restored := RestoredTree(s);
    if restored.None? then Failure(TreeNotRestored)
    else
      var uid := NumLeaves(restored.value);
      var tree := Push(restored.value, ro.commitment);
      var output := MemoOutput(memo, ro.commitment, uid, GetLeafPath(tree, uid));
      var ls := s.qrs.ledgerState.(recordMerkleCommitment := Commitment(tree),
                                   recordMerkleFrontier := FrontierOf(tree));
      Success(s.(qrs := s.qrs.(ledgerState := ls, events := s.qrs.events + [Memos([output], None)])))
  }

  function Step(s: PollState, lastUpdated: nat, ev: CapeEvent, meta: EventMeta): Result<PollState, Fatal> {
    match ev
    case BlockCommitted(block) => BlockCommittedStep(s, lastUpdated, block, meta.blockNumber)
    case Erc20TokensDeposited(ro, code, from) => Success(DepositStep(s, ro, code, from))
    case FaucetInitialized(ro, memo) => FaucetStep(s, ro, memo)
  }

  /** One poll: the events in order, stopping at the first fatal one. The
      height compared against is the same for every event. */
  function CheckFold(s: PollState, lastUpdated: nat, evs: seq<(CapeEvent, EventMeta)>): Result<PollState, Fatal>
    decreases |evs|
  {
    if |evs| == 0 then Success(s)
    else match CheckFold(s, lastUpdated, evs[..|evs| - 1])
      case Failure(e) => Failure(e)
      case Success(s') => Step(s', lastUpdated, evs[|evs| - 1].0, evs[|evs| - 1].1)
  }

  lemma {:induction false} MemoEventsNoneStays(txns: seq<CapeModelTxn>, bundles: seq<MemoBundle>, outs: seq<Field>,
                                               uids: seq<nat>, paths: seq<MerklePath>, blockNumber: nat, k: nat, n: nat)
    requires k <= n <= |bundles| && n <= |txns| && |paths| == |uids|
    requires MemoEvents(txns, bundles, outs, uids, paths, blockNumber, k).None?
    ensures MemoEvents(txns, bundles, outs, uids, paths, blockNumber, n).None?
    decreases n - k
  {
    if k < n {
      MemoEventsNoneStays(txns, bundles, outs, uids, paths, blockNumber, k + 1, n);
    }
  }

  lemma {:induction false} IndexNoneStays(transitions: seq<CapeTransition>, uids: seq<nat>, blockNumber: nat,
                                          k: nat, n: nat, start: TxIndex)
    requires k <= n <= |transitions|
    requires IndexTransitions(transitions, uids, blockNumber, k, start).None?
    ensures IndexTransitions(transitions, uids, blockNumber, n, start).None?
    decreases n - k
  {
    if k < n {
      IndexNoneStays(transitions, uids, blockNumber, k + 1, n, start);
    }
  }

  /** Folding one more event continues from the state reached so far. */
  lemma CheckFoldNext(s: PollState, lastUpdated: nat, evs: seq<(CapeEvent, EventMeta)>, i: nat, reached: PollState)
    requires i < |evs| && CheckFold(s, lastUpdated, evs[..i]) == Success(reached)
    ensures CheckFold(s, lastUpdated, evs[..i + 1]) == Step(reached, lastUpdated, evs[i].0, evs[i].1)
  {
    assert evs[..i + 1][..i] == evs[..i];
  }

  lemma {:induction false} CheckFailureStays(s: PollState, lastUpdated: nat, evs: seq<(CapeEvent, EventMeta)>, k: nat)
    requires k <= |evs|
    requires CheckFold(s, lastUpdated, evs[..k]).Failure?
    ensures CheckFold(s, lastUpdated, evs) == CheckFold(s, lastUpdated, evs[..k])
    decreases |evs| - k
  {
    if k < |evs| {
      assert evs[..k + 1][..k] == evs[..k];
      CheckFailureStays(s, lastUpdated, evs, k + 1);
    } else {
      assert evs[..k] == evs;
    }
  }

  /** The poller. `queryResultState` is the state it shares with the query
      handlers; `lastUpdatedBlockHeight` is fixed when the poller starts. */
  class EthPoller {
    var queryResultState: QueryResultState
    var lastUpdatedBlockHeight: nat
    var pendingCommitEvent: seq<CapeTransition>

    function State(): PollState
      reads this
    {
      PollState(queryResultState, pendingCommitEvent)
    }

    /** The poller `new` returns once `NewPoller` has accepted the options. */
    constructor (start: Startup)
      ensures queryResultState == start.queryResultState
      ensures lastUpdatedBlockHeight == start.lastUpdatedBlockHeight
      ensures pendingCommitEvent == []
    {
      queryResultState := start.queryResultState;
      lastUpdatedBlockHeight := start.lastUpdatedBlockHeight;
      pendingCommitEvent := [];
    }

    method OnErc20TokensDeposited(ro: RecordOpening, erc20Code: Address, from: Address)
      modifies this
      ensures State() == DepositStep(old(State()), ro, erc20Code, from)
      ensures lastUpdatedBlockHeight == old(lastUpdatedBlockHeight)
    {
      pendingCommitEvent := pendingCommitEvent + [Wrap(ro, erc20Code, from)];
    }

    method OnFaucetInitialized(ro: RecordOpening, memo: ReceiverMemo) returns (r: Result<(), Fatal>)
      modifies this
      ensures var spec := FaucetStep(old(State()), ro, memo);
        && r.Success? == spec.Success?
        && (spec.Success? ==> State() == spec.value)
        && (spec.Failure? ==> r.error == spec.error && State() == old(State()))
      ensures lastUpdatedBlockHeight == old(lastUpdatedBlockHeight)
    {
      var ls := queryResultState.ledgerState;
      var restored := Restore(ls.recordMerkleCommitment, ls.recordMerkleFrontier);
      if restored.None? {
        return Failure(TreeNotRestored);
      }
      var tree := restored.value;
      var uid := NumLeaves(tree);
      tree := Push(tree, ro.commitment);
      var path := GetLeafPath(tree, uid);
      var memoEvents := [Memos([MemoOutput(memo, ro.commitment, uid, path)], None)];
      queryResultState := queryResultState.(ledgerState :=
        queryResultState.ledgerState.(recordMerkleCommitment := Commitment(tree)));
      queryResultState := queryResultState.(ledgerState :=
        queryResultState.ledgerState.(recordMerkleFrontier := FrontierOf(tree)));
      queryResultState := queryResultState.(events := queryResultState.events + memoEvents);
      return Success(());
    }

    method OnBlockCommitted(block: BlockWithMemos, blockNumber: nat) returns (r: Result<(), Fatal>)
      modifies this
      ensures var spec := BlockCommittedStep(old(State()), old(lastUpdatedBlockHeight), block, blockNumber);
        && r.Success? == spec.Success?
        && (spec.Success? ==> State() == spec.value)
        && (spec.Failure? ==> r.error == spec.error)
      ensures |block.txns| != |block.memos| ==> State() == old(State())
      ensures lastUpdatedBlockHeight == old(lastUpdatedBlockHeight)
    {
      ghost var s0 := State();
      var txns := block.txns;
      var numTxn := |txns|;
      var numTxnMemo := |block.memos|;
      if numTxn != numTxnMemo {
        return Failure(TxnMemoCountMismatch(numTxn, numTxnMemo));
      }

      var wraps := pendingCommitEvent;
      pendingCommitEvent := [];
      var transitions := ToTransitions(txns);
      pendingCommitEvent := pendingCommitEvent + transitions;
      pendingCommitEvent := pendingCommitEvent + wraps;

      var outs := BlockOutputs(txns);
      var ls := queryResultState.ledgerState;
      var restored := Restore(ls.recordMerkleCommitment, ls.recordMerkleFrontier);
      var uids, paths := PushOutputs(restored, outs);
      assert uids == BlockUids(s0, txns) && paths == BlockPaths(s0, txns);

      var memoFold := CollectMemoEvents(txns, block.memos, outs, uids, paths, blockNumber);
      if memoFold.None? {
        return Failure(MemoOutputMissing);
      }
      ghost var startIx := TxIndex(s0.qrs.transactionById, s0.qrs.transactionIdByHash, s0.qrs.nullifiers, 0);
      ghost var ix := IndexTransitions(transitions, uids, blockNumber, |transitions|, startIx);
      assert pendingCommitEvent == Transitions(txns) + s0.pending;

      if blockNumber > lastUpdatedBlockHeight {
        var pendingCommit := pendingCommitEvent;
        pendingCommitEvent := [];
        queryResultState := queryResultState.(events :=
          queryResultState.events + [Commit(CapeBlock(pendingCommit), blockNumber, blockNumber + 1)]);
        queryResultState := queryResultState.(events := queryResultState.events + memoFold.value.events);
        queryResultState := queryResultState.(ledgerState :=
          queryResultState.ledgerState.(stateNumber := queryResultState.ledgerState.stateNumber + 1));
        if restored.Some? {
          queryResultState := queryResultState.(ledgerState :=
            queryResultState.ledgerState.(recordMerkleCommitment := Commitment(restored.value)));
          queryResultState := queryResultState.(ledgerState :=
            queryResultState.ledgerState.(recordMerkleFrontier := FrontierOf(restored.value)));
        }
        assert queryResultState == CommitHeader(s0.qrs, pendingCommit, restored, memoFold.value.events, blockNumber);
        ghost var header := queryResultState;
        var ok := RecordTransitions(transitions, uids, blockNumber);
        if !ok {
          return Failure(OutputStartMissing);
        }
        assert State() == PollState(header.(transactionById := ix.value.byId,
                                            transactionIdByHash := ix.value.byHash,
                                            nullifiers := ix.value.nullifiers), []);
      } else {
        assert State() == PollState(s0.qrs, Transitions(txns) + s0.pending);
      }
      return Success(());
    }

    /** The block's transactions wrapped as transitions, in order. */
    static method ToTransitions(txns: seq<CapeModelTxn>) returns (transitions: seq<CapeTransition>)
      ensures transitions == Transitions(txns)
    {
      transitions := [];
      for i := 0 to |txns|
        invariant transitions == Transitions(txns[..i])
      {
        transitions := transitions + [Transaction(txns[i])];
      }
      assert txns[..|txns|] == txns;
    }

    /** Pushes the block's outputs into a clone of the restored tree, noting
        each output's uid, then takes the membership path of every uid. */
    static method PushOutputs(restored: Option<Tree>, outs: seq<Field>) returns (uids: seq<nat>, paths: seq<MerklePath>)
      ensures restored.None? ==> uids == [] && paths == []
      ensures restored.Some? ==> uids == Uids(NumLeaves(restored.value), |outs|)
      ensures restored.Some? ==> paths == Paths(PushAll(restored.value, outs), uids)
    {
      uids, paths := [], [];
      if restored.Some? {
        var tree := restored.value;
        for k := 0 to |outs|
          invariant tree == PushAll(restored.value, outs[..k])
          invariant uids == Uids(NumLeaves(restored.value), k)
        {
          uids := uids + [NumLeaves(tree)];
          tree := Push(tree, outs[k]);
          assert outs[..k + 1] == outs[..k] + [outs[k]];
        }
        assert outs[..|outs|] == outs;
        paths := Paths(tree, uids);
      }
    }

    /** One Memos event per transaction whose memo signature is valid, in
        block order; memos are paired with outputs by a running counter. */
    static method CollectMemoEvents(txns: seq<CapeModelTxn>, bundles: seq<MemoBundle>, outs: seq<Field>,
                                    uids: seq<nat>, paths: seq<MerklePath>, blockNumber: nat)
      returns (r: Option<MemoFold>)
      requires |bundles| == |txns| && |paths| == |uids|
      ensures r == MemoEvents(txns, bundles, outs, uids, paths, blockNumber, |bundles|)
    {
      var memoEvents: seq<LedgerEvent> := [];
      var index := 0;
      for txnId := 0 to |bundles|
        invariant MemoEvents(txns, bundles, outs, uids, paths, blockNumber, txnId)
                  == Some(MemoFold(memoEvents, index))
        invariant index <= |outs| && index <= |uids|
      {
        var bundle := bundles[txnId];
        if bundle.sigValid {
          var outputs: seq<MemoOutput> := [];
          ghost var start := index;
          for m := 0 to |bundle.memos|
            invariant index == start + m
            invariant start + m <= |outs| && start + m <= |uids|
            invariant outputs == MemoOutputs(bundle.memos[..m], outs, uids, paths, start)
          {
            if index >= |outs| || index >= |uids| {
              assert MemoEvents(txns, bundles, outs, uids, paths, blockNumber, txnId + 1).None?;
              MemoEventsNoneStays(txns, bundles, outs, uids, paths, blockNumber, txnId + 1, |bundles|);
              return None;
            }
            outputs := outputs + [MemoOutput(bundle.memos[m], outs[index], uids[index], paths[index])];
            index := index + 1;
          }
          assert bundle.memos[..|bundle.memos|] == bundle.memos;
          memoEvents := memoEvents + [Memos(outputs, Some(TxnTag(blockNumber, txnId, Transaction(txns[txnId]).Kind())))];
        }
      }
      return Some(MemoFold(memoEvents, index));
    }

    /** Inserts the nullifiers a transaction spends, one by one. */
    method AddNullifiers(spent: seq<Nullifier>)
      modifies this
      ensures queryResultState == old(queryResultState).(nullifiers := old(queryResultState.nullifiers)
                                                                        + set n | n in spent)
      ensures pendingCommitEvent == old(pendingCommitEvent)
      ensures lastUpdatedBlockHeight == old(lastUpdatedBlockHeight)
    {
      for j := 0 to |spent|
        invariant queryResultState == old(queryResultState).(nullifiers := old(queryResultState.nullifiers)
                                                                          + set n | n in spent[..j])
        invariant pendingCommitEvent == old(pendingCommitEvent)
        invariant lastUpdatedBlockHeight == old(lastUpdatedBlockHeight)
      {
        queryResultState := queryResultState.(nullifiers := queryResultState.nullifiers + {spent[j]});
        assert spent[..j + 1] == spent[..j] + [spent[j]];
      }
      assert spent[..|spent|] == spent;
    }

    /** Records every transition of the block in the two indices and adds
        its nullifiers; false when a transition's first output has no uid. */
    method RecordTransitions(transitions: seq<CapeTransition>, uids: seq<nat>, blockNumber: nat) returns (ok: bool)
      requires forall i :: 0 <= i < |transitions| ==> transitions[i].Transaction?
      modifies this
      ensures var spec := IndexTransitions(transitions, uids, blockNumber, |transitions|,
        TxIndex(old(queryResultState.transactionById), old(queryResultState.transactionIdByHash),
                old(queryResultState.nullifiers), 0));
        && ok == spec.Some?
        && (ok ==> queryResultState == old(queryResultState).(transactionById := spec.value.byId,
                                                              transactionIdByHash := spec.value.byHash,
                                                              nullifiers := spec.value.nullifiers))
      ensures pendingCommitEvent == old(pendingCommitEvent)
      ensures lastUpdatedBlockHeight == old(lastUpdatedBlockHeight)
    {
      ghost var startIx := TxIndex(queryResultState.transactionById, queryResultState.transactionIdByHash,
                                   queryResultState.nullifiers, 0);
      ghost var fixedPart := queryResultState;
      var recordIndex: nat := 0;
      for txnId := 0 to |transitions|
        invariant IndexTransitions(transitions, uids, blockNumber, txnId, startIx)
                  == Some(TxIndex(queryResultState.transactionById, queryResultState.transactionIdByHash,
                                  queryResultState.nullifiers, recordIndex))
        invariant queryResultState == fixedPart.(transactionById := queryResultState.transactionById,
                                                 transactionIdByHash := queryResultState.transactionIdByHash,
                                                 nullifiers := queryResultState.nullifiers)
        invariant pendingCommitEvent == old(pendingCommitEvent)
        invariant lastUpdatedBlockHeight == old(lastUpdatedBlockHeight)
      {
        if recordIndex >= |uids| {
          IndexNoneStays(transitions, uids, blockNumber, txnId + 1, |transitions|, startIx);
          return false;
        }
        var transition := transitions[txnId];
        queryResultState := queryResultState.(transactionById := queryResultState.transactionById[
          (blockNumber, txnId) := CommittedTransition(blockNumber, txnId, uids[recordIndex],
                                                      transition.OutputLen(), transition)]);
        queryResultState := queryResultState.(transactionIdByHash :=
          queryResultState.transactionIdByHash[transition := (blockNumber, txnId)]);
        AddNullifiers(transition.txn.nullifiers);
        assert (set n | n in transition.txn.nullifiers) == transition.ProvenNullifiers();
        recordIndex := recordIndex + transition.OutputLen();
      }
      return true;
    }

    /** One poll over the events the chain returned, in order. */
    method Check(evs: seq<(CapeEvent, EventMeta)>) returns (r: Result<nat, Fatal>)
      modifies this
      ensures var spec := CheckFold(old(State()), old(lastUpdatedBlockHeight), evs);
        && r.Success? == spec.Success?
        && (spec.Success? ==> State() == spec.value && r.value == 0)
        && (spec.Failure? ==> r.error == spec.error)
      ensures lastUpdatedBlockHeight == old(lastUpdatedBlockHeight)
    {
      ghost var s0 := State();
      for i := 0 to |evs|
        invariant CheckFold(s0, lastUpdatedBlockHeight, evs[..i]) == Success(State())
        invariant lastUpdatedBlockHeight == old(lastUpdatedBlockHeight)
      {
        CheckFoldNext(s0, lastUpdatedBlockHeight, evs, i, State());
        var (ev, meta) := evs[i];
        match ev {
          case BlockCommitted(block) =>
            var res := OnBlockCommitted(block, meta.blockNumber);
            if res.Failure? {
              CheckFailureStays(s0, lastUpdatedBlockHeight, evs, i + 1);
              return Failure(res.error);
            }
          case Erc20TokensDeposited(ro, code, from) =>
            OnErc20TokensDeposited(ro, code, from);
          case FaucetInitialized(ro, memo) =>
            var res := OnFaucetInitialized(ro, memo);
            if res.Failure? {
              CheckFailureStays(s0, lastUpdatedBlockHeight, evs, i + 1);
              return Failure(res.error);
            }
        }
      }
      assert evs[..|evs|] == evs;
      return Success(0);
    }
  }
}
