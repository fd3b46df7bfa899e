/** Properties of the poller's specification (module EthPolling): where a
    block's outputs land in the records tree, which Memos events a block
    yields and how memos are paired with outputs, what the transaction
    index and the nullifier set hold after a block, and what a deposit, a
    faucet event and a whole poll do to the query state. */
module EthPollingFacts {
  import opened Wrappers
  import opened Accumulator
  import opened Ledger
  import opened EthPolling

  // ---------------------------------------------------------------------
  // Outputs of a block and their uids

  lemma {:induction false} OutputsBeforeStep(txns: seq<CapeModelTxn>, i: nat)
    requires i < |txns|
    ensures BlockOutputs(txns[..i + 1]) == BlockOutputs(txns[..i]) + txns[i].outputs
    ensures OutputsBefore(txns, i + 1) == OutputsBefore(txns, i) + |txns[i].outputs|
  {
    var p := txns[..i + 1];
    assert p[..|p| - 1] == txns[..i];
  }

  /** The outputs of the first `i` transactions are a prefix of those of the
      first `n`. */
  lemma {:induction false} OutputsBeforePrefix(txns: seq<CapeModelTxn>, i: nat, n: nat)
    requires i <= n <= |txns|
    ensures OutputsBefore(txns, i) <= OutputsBefore(txns, n)
    ensures BlockOutputs(txns[..i]) == BlockOutputs(txns[..n])[..OutputsBefore(txns, i)]
    decreases n - i
  {
    if i < n {
      OutputsBeforePrefix(txns, i + 1, n);
      OutputsBeforeStep(txns, i);
    }
  }

  /** Output `m` of transaction `i` sits at position `OutputsBefore(txns, i) + m`
      of the block's output list. */
  lemma OutputPosition(txns: seq<CapeModelTxn>, i: nat, m: nat)
    requires i < |txns| && m < |txns[i].outputs|
    ensures OutputsBefore(txns, i) + m < |BlockOutputs(txns)|
    ensures BlockOutputs(txns)[OutputsBefore(txns, i) + m] == txns[i].outputs[m]
  {
    OutputsBeforeStep(txns, i);
    OutputsBeforePrefix(txns, i + 1, |txns|);
    assert txns[..|txns|] == txns;
  }

  /** Output `m` of transaction `i` of a block gets uid `leaf count +
      OutputsBefore(txns, i) + m`: the uids are consecutive from the leaf
      count of the restored tree, the leaf at that uid of the pushed clone is
      that output, and its path is the clone's path for that uid. */
  lemma OutputUid(s: PollState, txns: seq<CapeModelTxn>, i: nat, m: nat)
    requires RestoredTree(s).Some? && i < |txns| && m < |txns[i].outputs|
    ensures var k := OutputsBefore(txns, i) + m;
            var t := RestoredTree(s).value;
            var clone := PushAll(t, BlockOutputs(txns));
      && k < |BlockUids(s, txns)|
      && BlockUids(s, txns)[k] == NumLeaves(t) + k
      && NumLeaves(t) + k < NumLeaves(clone)
      && clone.leaves[NumLeaves(t) + k] == txns[i].outputs[m]
      && BlockPaths(s, txns)[k] == GetLeafPath(clone, NumLeaves(t) + k)
  {
    OutputPosition(txns, i, m);
  }

  // ---------------------------------------------------------------------
  // Memos events of a block

  /** Indices, among the first `k`, of the transactions whose memo signature
      is valid, in increasing order. */
  function ValidTxnIds(bundles: seq<MemoBundle>, k: nat): (ids: seq<nat>)
    requires k <= |bundles|
    ensures forall e :: 0 <= e < |ids| ==> ids[e] < k && bundles[ids[e]].sigValid
    ensures forall e, e' :: 0 <= e < e' < |ids| ==> ids[e] < ids[e']
    decreases k
  {
    if k == 0 then []
    else ValidTxnIds(bundles, k - 1) + (if bundles[k - 1].sigValid then [k - 1] else [])
  }

  /** Every signature-valid transaction among the first `k` has its id
      listed. */
  lemma {:induction false} ValidTxnIdsComplete(bundles: seq<MemoBundle>, k: nat, j: nat)
    requires j < k <= |bundles| && bundles[j].sigValid
    ensures j in ValidTxnIds(bundles, k)
    decreases k
  {
    if j < k - 1 {
      ValidTxnIdsComplete(bundles, k - 1, j);
    }
  }

  /** Number of memos carried by the signature-valid transactions among the
      first `k`. */
  function ValidMemoCount(bundles: seq<MemoBundle>, k: nat): nat
    requires k <= |bundles|
    decreases k
  {
    if k == 0 then 0
    else ValidMemoCount(bundles, k - 1) + (if bundles[k - 1].sigValid then |bundles[k - 1].memos| else 0)
  }

  lemma {:induction false} ValidMemoCountMonotone(bundles: seq<MemoBundle>, j: nat, k: nat)
    requires j <= k <= |bundles|
    ensures ValidMemoCount(bundles, j) <= ValidMemoCount(bundles, k)
    decreases k - j
  {
    if j < k {
      ValidMemoCountMonotone(bundles, j + 1, k);
    }
  }

  /** The Memos events of the first `k` transactions exist exactly when the
      valid memos do not outnumber the outputs and the uids; there is then
      one event per signature-valid transaction, and the counter stands at
      the number of valid memos. */
  lemma {:induction false} MemoEventsDefined(txns: seq<CapeModelTxn>, bundles: seq<MemoBundle>, outs: seq<Field>,
                                             uids: seq<nat>, paths: seq<MerklePath>, blockNumber: nat, k: nat)
    requires k <= |bundles| && k <= |txns| && |paths| == |uids|
    ensures MemoEvents(txns, bundles, outs, uids, paths, blockNumber, k).Some? <==>
            ValidMemoCount(bundles, k) <= |outs| && ValidMemoCount(bundles, k) <= |uids|
    ensures MemoEvents(txns, bundles, outs, uids, paths, blockNumber, k).Some? ==>
      && MemoEvents(txns, bundles, outs, uids, paths, blockNumber, k).value.index == ValidMemoCount(bundles, k)
      && |MemoEvents(txns, bundles, outs, uids, paths, blockNumber, k).value.events| == |ValidTxnIds(bundles, k)|
    decreases k
  {
    if k > 0 {
      MemoEventsDefined(txns, bundles, outs, uids, paths, blockNumber, k - 1);
      ValidMemoCountMonotone(bundles, k - 1, k);
    }
  }

  /** The Memos events of the first `k` transactions, in transaction order:
      event `e` belongs to the `e`-th signature-valid transaction `j`, is
      tagged with the block number, `j` and its kind, and pairs the memos of
      `j` with the outputs from position `ValidMemoCount(bundles, j)` on, the
      number of valid memos before it. */
  lemma MemoEventsShape(txns: seq<CapeModelTxn>, bundles: seq<MemoBundle>, outs: seq<Field>,
                        uids: seq<nat>, paths: seq<MerklePath>, blockNumber: nat, k: nat)
    requires k <= |bundles| && k <= |txns| && |paths| == |uids|
    requires MemoEvents(txns, bundles, outs, uids, paths, blockNumber, k).Some?
    ensures
      var f := MemoEvents(txns, bundles, outs, uids, paths, blockNumber, k).value;
      var ids := ValidTxnIds(bundles, k);
      && f.index <= |outs| && f.index <= |uids|
      && |f.events| == |ids|
      && forall e :: 0 <= e < |ids| ==>
           && ValidMemoCount(bundles, ids[e]) + |bundles[ids[e]].memos| <= f.index
           && f.events[e] == Memos(MemoOutputs(bundles[ids[e]].memos, outs, uids, paths, ValidMemoCount(bundles, ids[e])),
                                   Some(TxnTag(blockNumber, ids[e], Transaction(txns[ids[e]]).Kind())))
  {
    MemoEventsDefined(txns, bundles, outs, uids, paths, blockNumber, k);
    var f := MemoEvents(txns, bundles, outs, uids, paths, blockNumber, k).value;
    var ids := ValidTxnIds(bundles, k);
    forall e | 0 <= e < |ids|
      ensures && ValidMemoCount(bundles, ids[e]) + |bundles[ids[e]].memos| <= f.index
              && f.events[e] == Memos(MemoOutputs(bundles[ids[e]].memos, outs, uids, paths, ValidMemoCount(bundles, ids[e])),
                                      Some(TxnTag(blockNumber, ids[e], Transaction(txns[ids[e]]).Kind())))
    {
      MemoEventShape(txns, bundles, outs, uids, paths, blockNumber, k, e);
    }
  }

  /** One step of the Memos fold: a transaction with an invalid signature
      changes nothing; a valid one appends its event and advances the
      counter past its memos. */
  lemma MemoStep(txns: seq<CapeModelTxn>, bundles: seq<MemoBundle>, outs: seq<Field>,
                 uids: seq<nat>, paths: seq<MerklePath>, blockNumber: nat, k: nat)
    requires 0 < k <= |bundles| && k <= |txns| && |paths| == |uids|
    requires MemoEvents(txns, bundles, outs, uids, paths, blockNumber, k).Some?
    ensures var prev := MemoEvents(txns, bundles, outs, uids, paths, blockNumber, k - 1);
            var b := bundles[k - 1];
      && prev.Some?
      && (!b.sigValid ==> MemoEvents(txns, bundles, outs, uids, paths, blockNumber, k) == prev)
      && (b.sigValid ==>
            && prev.value.index + |b.memos| <= |outs| && prev.value.index + |b.memos| <= |uids|
            && MemoEvents(txns, bundles, outs, uids, paths, blockNumber, k).value
               == MemoFold(prev.value.events + [Memos(MemoOutputs(b.memos, outs, uids, paths, prev.value.index),
                                                      Some(TxnTag(blockNumber, k - 1, Transaction(txns[k - 1]).Kind())))],
                           prev.value.index + |b.memos|))
  {
  }

  /** Event `e` of the first `k` transactions belongs to the `e`-th valid
      transaction, and the counter has passed its memos. */
  lemma {:induction false} MemoEventShape(txns: seq<CapeModelTxn>, bundles: seq<MemoBundle>, outs: seq<Field>,
                                          uids: seq<nat>, paths: seq<MerklePath>, blockNumber: nat, k: nat, e: nat)
    requires k <= |bundles| && k <= |txns| && |paths| == |uids|
    requires MemoEvents(txns, bundles, outs, uids, paths, blockNumber, k).Some?
    requires e < |ValidTxnIds(bundles, k)|
    ensures
      var f := MemoEvents(txns, bundles, outs, uids, paths, blockNumber, k).value;
      var j := ValidTxnIds(bundles, k)[e];
      && e < |f.events|
      && f.index <= |outs| && f.index <= |uids|
      && ValidMemoCount(bundles, j) + |bundles[j].memos| <= f.index
      && f.events[e] == Memos(MemoOutputs(bundles[j].memos, outs, uids, paths, ValidMemoCount(bundles, j)),
                              Some(TxnTag(blockNumber, j, Transaction(txns[j]).Kind())))
    decreases k
  {
    MemoEventsDefined(txns, bundles, outs, uids, paths, blockNumber, k);
    if !bundles[k - 1].sigValid {
      MemoSkipStep(txns, bundles, outs, uids, paths, blockNumber, k);
      MemoEventShape(txns, bundles, outs, uids, paths, blockNumber, k - 1, e);
    } else if e < |ValidTxnIds(bundles, k - 1)| {
      MemoKeepStep(txns, bundles, outs, uids, paths, blockNumber, k, e);
      MemoEventShape(txns, bundles, outs, uids, paths, blockNumber, k - 1, e);
    } else {
      MemoNewStep(txns, bundles, outs, uids, paths, blockNumber, k, e);
    }
  }

  /** A transaction with an invalid signature adds no event and no id. */
  lemma MemoSkipStep(txns: seq<CapeModelTxn>, bundles: seq<MemoBundle>, outs: seq<Field>,
                     uids: seq<nat>, paths: seq<MerklePath>, blockNumber: nat, k: nat)
    requires 0 < k <= |bundles| && k <= |txns| && |paths| == |uids| && !bundles[k - 1].sigValid
    requires MemoEvents(txns, bundles, outs, uids, paths, blockNumber, k).Some?
    ensures MemoEvents(txns, bundles, outs, uids, paths, blockNumber, k)
            == MemoEvents(txns, bundles, outs, uids, paths, blockNumber, k - 1)
    ensures ValidTxnIds(bundles, k) == ValidTxnIds(bundles, k - 1)
  {
  }

  /** A valid transaction keeps the earlier events and ids in place and only
      moves the counter forward. */
  lemma MemoKeepStep(txns: seq<CapeModelTxn>, bundles: seq<MemoBundle>, outs: seq<Field>,
                     uids: seq<nat>, paths: seq<MerklePath>, blockNumber: nat, k: nat, e: nat)
    requires 0 < k <= |bundles| && k <= |txns| && |paths| == |uids| && bundles[k - 1].sigValid
    requires MemoEvents(txns, bundles, outs, uids, paths, blockNumber, k).Some?
    requires e < |ValidTxnIds(bundles, k - 1)|
    ensures var prev := MemoEvents(txns, bundles, outs, uids, paths, blockNumber, k - 1);
            var f := MemoEvents(txns, bundles, outs, uids, paths, blockNumber, k).value;
      && prev.Some?
      && e < |ValidTxnIds(bundles, k)|
      && ValidTxnIds(bundles, k)[e] == ValidTxnIds(bundles, k - 1)[e]
      && prev.value.index <= f.index
      && (e < |prev.value.events| ==> e < |f.events| && f.events[e] == prev.value.events[e])
  {
    MemoStep(txns, bundles, outs, uids, paths, blockNumber, k);
    assert ValidTxnIds(bundles, k) == ValidTxnIds(bundles, k - 1) + [k - 1];
  }

  /** A valid transaction's event comes last and pairs its memos with the
      outputs from the number of valid memos before it. */
  lemma MemoNewStep(txns: seq<CapeModelTxn>, bundles: seq<MemoBundle>, outs: seq<Field>,
                    uids: seq<nat>, paths: seq<MerklePath>, blockNumber: nat, k: nat, e: nat)
    requires 0 < k <= |bundles| && k <= |txns| && |paths| == |uids| && bundles[k - 1].sigValid
    requires MemoEvents(txns, bundles, outs, uids, paths, blockNumber, k).Some?
    requires |ValidTxnIds(bundles, k - 1)| <= e < |ValidTxnIds(bundles, k)|
    ensures
      var f := MemoEvents(txns, bundles, outs, uids, paths, blockNumber, k).value;
      var j := ValidTxnIds(bundles, k)[e];
      && j == k - 1
      && e < |f.events|
      && f.index <= |outs| && f.index <= |uids|
      && ValidMemoCount(bundles, j) + |bundles[j].memos| == f.index
      && f.events[e] == Memos(MemoOutputs(bundles[j].memos, outs, uids, paths, ValidMemoCount(bundles, j)),
                              Some(TxnTag(blockNumber, j, Transaction(txns[j]).Kind())))
  {
    MemoStep(txns, bundles, outs, uids, paths, blockNumber, k);
    MemoEventsDefined(txns, bundles, outs, uids, paths, blockNumber, k - 1);
    assert ValidTxnIds(bundles, k) == ValidTxnIds(bundles, k - 1) + [k - 1];
  }

  /** When every memo signature is valid and each transaction comes with one
      memo per output, the Memos events exist, one per transaction, and the
      counter pairs memo `m` of transaction `j` with output `m` of that same
      transaction and with its uid. */
  lemma MemoPairingAligned(txns: seq<CapeModelTxn>, bundles: seq<MemoBundle>, uids: seq<nat>,
                           paths: seq<MerklePath>, blockNumber: nat, j: nat, m: nat)
    requires |bundles| == |txns| && |paths| == |uids| && |BlockOutputs(txns)| <= |uids|
    requires forall i :: 0 <= i < |txns| ==> bundles[i].sigValid && |bundles[i].memos| == |txns[i].outputs|
    requires j < |txns| && m < |txns[j].outputs|
    ensures var r := MemoEvents(txns, bundles, BlockOutputs(txns), uids, paths, blockNumber, |bundles|);
      && r.Some?
      && |r.value.events| == |txns|
      && r.value.events[j].Memos? && m < |r.value.events[j].outputs|
      && OutputsBefore(txns, j) + m < |uids|
      && r.value.events[j].outputs[m].comm == txns[j].outputs[m]
      && r.value.events[j].outputs[m].uid == uids[OutputsBefore(txns, j) + m]
  {
    var outs := BlockOutputs(txns);
    var n := |txns|;
    AllValidDefined(txns, bundles, uids, paths, blockNumber);
    AllValidIds(bundles, n);
    AllValidCountsOutputs(txns, bundles, j);
    OutputPosition(txns, j, m);
    MemoOutputAt(txns, bundles, outs, uids, paths, blockNumber, n, j, m);
  }

  lemma AllValidDefined(txns: seq<CapeModelTxn>, bundles: seq<MemoBundle>, uids: seq<nat>,
                        paths: seq<MerklePath>, blockNumber: nat)
    requires |bundles| == |txns| && |paths| == |uids| && |BlockOutputs(txns)| <= |uids|
    requires forall j :: 0 <= j < |txns| ==> bundles[j].sigValid && |bundles[j].memos| == |txns[j].outputs|
    ensures var r := MemoEvents(txns, bundles, BlockOutputs(txns), uids, paths, blockNumber, |bundles|);
      r.Some? && |r.value.events| == |txns|
  {
    var n := |txns|;
    AllValidCountsOutputs(txns, bundles, n);
    assert txns[..n] == txns;
    AllValidIds(bundles, n);
    MemoEventsDefined(txns, bundles, BlockOutputs(txns), uids, paths, blockNumber, n);
  }

  /** Memo `m` of the `e`-th Memos event of the first `k` transactions. */
  lemma MemoOutputAt(txns: seq<CapeModelTxn>, bundles: seq<MemoBundle>, outs: seq<Field>,
                     uids: seq<nat>, paths: seq<MerklePath>, blockNumber: nat, k: nat, e: nat, m: nat)
    requires k <= |bundles| && k <= |txns| && |paths| == |uids|
    requires MemoEvents(txns, bundles, outs, uids, paths, blockNumber, k).Some?
    requires e < |ValidTxnIds(bundles, k)| && m < |bundles[ValidTxnIds(bundles, k)[e]].memos|
    ensures var f := MemoEvents(txns, bundles, outs, uids, paths, blockNumber, k).value;
            var j := ValidTxnIds(bundles, k)[e];
            var c := ValidMemoCount(bundles, j);
      && e < |f.events| && f.events[e].Memos? && m < |f.events[e].outputs|
      && c + m < |outs| && c + m < |uids|
      && f.events[e].outputs[m] == MemoOutput(bundles[j].memos[m], outs[c + m], uids[c + m], paths[c + m])
  {
    MemoEventsShape(txns, bundles, outs, uids, paths, blockNumber, k);
  }

  lemma {:induction false} AllValidCountsOutputs(txns: seq<CapeModelTxn>, bundles: seq<MemoBundle>, j: nat)
    requires |bundles| == |txns| && j <= |txns|
    requires forall i :: 0 <= i < |txns| ==> bundles[i].sigValid && |bundles[i].memos| == |txns[i].outputs|
    ensures ValidMemoCount(bundles, j) == OutputsBefore(txns, j)
    decreases j
  {
    if j > 0 {
      AllValidCountsOutputs(txns, bundles, j - 1);
      OutputsBeforeStep(txns, j - 1);
    }
  }

  lemma {:induction false} AllValidIds(bundles: seq<MemoBundle>, k: nat)
    requires k <= |bundles|
    requires forall i :: 0 <= i < |bundles| ==> bundles[i].sigValid
    ensures |ValidTxnIds(bundles, k)| == k
    ensures forall e :: 0 <= e < k ==> ValidTxnIds(bundles, k)[e] == e
    decreases k
  {
    if k > 0 {
      AllValidIds(bundles, k - 1);
    }
  }

  /** As written, a transaction whose memo signature fails still owns outputs
      but its memos are skipped without advancing the counter, so the memos of
      the next valid transaction are paired with the skipped transaction's
      outputs: here the memo of transaction 1 is paired with output 10 of
      transaction 0 (uid 0), not with its own output 20. */
  lemma MemoPairingSkewsAfterInvalidSignature()
    ensures var txns := [Burn([], [10], 0), Burn([], [20], 0)];
            var bundles := [MemoBundle([1], false), MemoBundle([2], true)];
            var paths := [MerklePath(0, [10, 20]), MerklePath(1, [10, 20])];
            MemoEvents(txns, bundles, BlockOutputs(txns), [0, 1], paths, 5, 2)
            == Some(MemoFold([Memos([MemoOutput(2, 10, 0, MerklePath(0, [10, 20]))], Some(TxnTag(5, 1, BurnKind)))], 1))
  {
    var txns := [Burn([], [10], 0), Burn([], [20], 0)];
    assert txns[..1] == [Burn([], [10], 0)];
    assert txns[..2][..1] == txns[..1];
    assert BlockOutputs(txns) == [10, 20];
    var bundles := [MemoBundle([1], false), MemoBundle([2], true)];
    var paths := [MerklePath(0, [10, 20]), MerklePath(1, [10, 20])];
    assert MemoEvents(txns, bundles, [10, 20], [0, 1], paths, 5, 1) == Some(MemoFold([], 0));
    assert MemoOutputs([2], [10, 20], [0, 1], paths, 0) == [MemoOutput(2, 10, 0, MerklePath(0, [10, 20]))];
    assert Transaction(txns[1]).Kind() == BurnKind;
    var ev := Memos(MemoOutputs(bundles[1].memos, [10, 20], [0, 1], paths, 0), Some(TxnTag(5, 1, Transaction(txns[1]).Kind())));
    assert MemoEvents(txns, bundles, [10, 20], [0, 1], paths, 5, 2) == Some(MemoFold([] + [ev], 1));
    assert [] + [ev] == [ev];
    assert MemoEvents(txns, bundles, [10, 20], [0, 1], paths, 5, 2)
           == Some(MemoFold([Memos([MemoOutput(2, 10, 0, MerklePath(0, [10, 20]))], Some(TxnTag(5, 1, BurnKind)))], 1));
  }

  // ---------------------------------------------------------------------
  // Transaction index and nullifiers

  /** The nullifiers spent by the first `n` transactions. */
  function SpentBy(txns: seq<CapeModelTxn>, n: nat): (spent: set<Nullifier>)
    requires n <= |txns|
    ensures forall i, x :: 0 <= i < n && x in txns[i].nullifiers ==> x in spent
    ensures forall x :: x in spent ==> exists i :: 0 <= i < n && x in txns[i].nullifiers
    decreases n
  {
    if n == 0 then {} else SpentBy(txns, n - 1) + Transaction(txns[n - 1]).ProvenNullifiers()
  }

  /** Transaction `i` does not occur again among the first `n`. */
  predicate LastOccurrence(txns: seq<CapeModelTxn>, i: nat, n: nat)
    requires i < n <= |txns|
  {
    forall j :: i < j < n ==> txns[j] != txns[i]
  }

  /** Recording the first `n` transactions of a block succeeds exactly when
      the first output position of transaction `n - 1` has a uid; the running
      record index is then the number of outputs recorded. */
  lemma {:induction false} IndexProgress(txns: seq<CapeModelTxn>, uids: seq<nat>, blockNumber: nat, n: nat,
                                         start: TxIndex)
    requires n <= |txns| && start.recordIndex == 0
    ensures IndexTransitions(Transitions(txns), uids, blockNumber, n, start).Some? <==>
            (n == 0 || OutputsBefore(txns, n - 1) < |uids|)
    ensures IndexTransitions(Transitions(txns), uids, blockNumber, n, start).Some? ==>
            IndexTransitions(Transitions(txns), uids, blockNumber, n, start).value.recordIndex
            == OutputsBefore(txns, n)
    decreases n
  {
    if n > 0 {
      IndexProgress(txns, uids, blockNumber, n - 1, start);
      OutputsBeforeStep(txns, n - 1);
      if n > 1 {
        OutputsBeforeStep(txns, n - 2);
      }
    }
  }

  /** Recording the first `n` transactions adds exactly the nullifiers they
      spend. */
  lemma {:induction false} IndexNullifiers(txns: seq<CapeModelTxn>, uids: seq<nat>, blockNumber: nat, n: nat,
                                           start: TxIndex)
    requires n <= |txns|
    requires IndexTransitions(Transitions(txns), uids, blockNumber, n, start).Some?
    ensures IndexTransitions(Transitions(txns), uids, blockNumber, n, start).value.nullifiers
            == start.nullifiers + SpentBy(txns, n)
    decreases n
  {
    if n > 0 {
      IndexStep(txns, uids, blockNumber, n, start);
      IndexNullifiers(txns, uids, blockNumber, n - 1, start);
    }
  }

  /** One recording step: transaction `n - 1` is entered under `(block, n - 1)`
      and under itself, its nullifiers are added and the record index moves
      past its outputs. */
  lemma IndexStep(txns: seq<CapeModelTxn>, uids: seq<nat>, blockNumber: nat, n: nat, start: TxIndex)
    requires 0 < n <= |txns|
    requires IndexTransitions(Transitions(txns), uids, blockNumber, n, start).Some?
    ensures var prev := IndexTransitions(Transitions(txns), uids, blockNumber, n - 1, start);
            var t := Transaction(txns[n - 1]);
      && prev.Some? && prev.value.recordIndex < |uids|
      && IndexTransitions(Transitions(txns), uids, blockNumber, n, start).value
         == TxIndex(prev.value.byId[(blockNumber, n - 1) := CommittedTransition(blockNumber, n - 1,
                                        uids[prev.value.recordIndex], |txns[n - 1].outputs|, t)],
                    prev.value.byHash[t := (blockNumber, n - 1)],
                    prev.value.nullifiers + t.ProvenNullifiers(),
                    prev.value.recordIndex + |txns[n - 1].outputs|)
  {
  }

  /** After recording the first `n` transactions, entry `(block, i)` of the
      id index holds transaction i with the uid at its first output position
      and its output count; entries of other keys are kept, and no other key
      appears. */
  lemma IndexById(txns: seq<CapeModelTxn>, uids: seq<nat>, blockNumber: nat, n: nat, start: TxIndex)
    requires n <= |txns| && start.recordIndex == 0
    requires IndexTransitions(Transitions(txns), uids, blockNumber, n, start).Some?
    ensures var ix := IndexTransitions(Transitions(txns), uids, blockNumber, n, start).value;
      && (forall i :: 0 <= i < n ==>
            && OutputsBefore(txns, i) < |uids|
            && (blockNumber, i) in ix.byId
            && ix.byId[(blockNumber, i)] == CommittedTransition(blockNumber, i, uids[OutputsBefore(txns, i)],
                                                                |txns[i].outputs|, Transaction(txns[i])))
      && (forall key :: key in start.byId && !(key.0 == blockNumber && key.1 < n) ==>
            key in ix.byId && ix.byId[key] == start.byId[key])
      && (forall key :: key in ix.byId ==> key in start.byId || (key.0 == blockNumber && key.1 < n))
  {
    IndexByIdEntries(txns, uids, blockNumber, n, start);
    IndexByIdKeys(txns, uids, blockNumber, n, start);
  }

  lemma IndexByIdEntries(txns: seq<CapeModelTxn>, uids: seq<nat>, blockNumber: nat, n: nat, start: TxIndex)
    requires n <= |txns| && start.recordIndex == 0
    requires IndexTransitions(Transitions(txns), uids, blockNumber, n, start).Some?
    ensures var ix := IndexTransitions(Transitions(txns), uids, blockNumber, n, start).value;
      forall i :: 0 <= i < n ==>
        && OutputsBefore(txns, i) < |uids|
        && (blockNumber, i) in ix.byId
        && ix.byId[(blockNumber, i)] == CommittedTransition(blockNumber, i, uids[OutputsBefore(txns, i)],
                                                            |txns[i].outputs|, Transaction(txns[i]))
  {
    forall i | 0 <= i < n
      ensures var ix := IndexTransitions(Transitions(txns), uids, blockNumber, n, start).value;
        && OutputsBefore(txns, i) < |uids|
        && (blockNumber, i) in ix.byId
        && ix.byId[(blockNumber, i)] == CommittedTransition(blockNumber, i, uids[OutputsBefore(txns, i)],
                                                            |txns[i].outputs|, Transaction(txns[i]))
    {
      IndexByIdEntry(txns, uids, blockNumber, n, start, i);
    }
  }

  /** The entry of transaction `i` survives the recording of the later
      transactions of the block. */
  lemma {:induction false} IndexByIdEntry(txns: seq<CapeModelTxn>, uids: seq<nat>, blockNumber: nat, n: nat,
                                          start: TxIndex, i: nat)
    requires i < n <= |txns| && start.recordIndex == 0
    requires IndexTransitions(Transitions(txns), uids, blockNumber, n, start).Some?
    ensures var ix := IndexTransitions(Transitions(txns), uids, blockNumber, n, start).value;
      && OutputsBefore(txns, i) < |uids|
      && (blockNumber, i) in ix.byId
      && ix.byId[(blockNumber, i)] == CommittedTransition(blockNumber, i, uids[OutputsBefore(txns, i)],
                                                          |txns[i].outputs|, Transaction(txns[i]))
    decreases n
  {
    IndexStep(txns, uids, blockNumber, n, start);
    if i == n - 1 {
      IndexProgress(txns, uids, blockNumber, n - 1, start);
    } else {
      IndexByIdEntry(txns, uids, blockNumber, n - 1, start, i);
      var prev := IndexTransitions(Transitions(txns), uids, blockNumber, n - 1, start).value;
      var key := (blockNumber, i);
      assert key in prev.byId;
      assert key != (blockNumber, n - 1);
    }
  }

  lemma {:induction false} IndexByIdKeys(txns: seq<CapeModelTxn>, uids: seq<nat>, blockNumber: nat, n: nat,
                                         start: TxIndex)
    requires n <= |txns|
    requires IndexTransitions(Transitions(txns), uids, blockNumber, n, start).Some?
    ensures var ix := IndexTransitions(Transitions(txns), uids, blockNumber, n, start).value;
      && (forall key :: key in start.byId && !(key.0 == blockNumber && key.1 < n) ==>
            key in ix.byId && ix.byId[key] == start.byId[key])
      && (forall key :: key in ix.byId ==> key in start.byId || (key.0 == blockNumber && key.1 < n))
    decreases n
  {
    if n > 0 {
      IndexStep(txns, uids, blockNumber, n, start);
      IndexByIdKeys(txns, uids, blockNumber, n - 1, start);
    }
  }

  /** After recording the first `n` transactions, the hash index maps each
      transaction to its last position among them; the entry of every other
      transition is kept, and no key other than the recorded transactions
      is added. */
  lemma IndexByHash(txns: seq<CapeModelTxn>, uids: seq<nat>, blockNumber: nat, n: nat, start: TxIndex)
    requires n <= |txns|
    requires IndexTransitions(Transitions(txns), uids, blockNumber, n, start).Some?
    ensures var ix := IndexTransitions(Transitions(txns), uids, blockNumber, n, start).value;
      && (forall i :: 0 <= i < n && LastOccurrence(txns, i, n) ==>
            Transaction(txns[i]) in ix.byHash && ix.byHash[Transaction(txns[i])] == (blockNumber, i))
      && (forall t :: t in start.byHash && t !in Transitions(txns)[..n] ==>
            t in ix.byHash && ix.byHash[t] == start.byHash[t])
      && ix.byHash.Keys == start.byHash.Keys + (set i | 0 <= i < n :: Transaction(txns[i]))
  {
    IndexByHashLast(txns, uids, blockNumber, n, start);
    IndexByHashFrame(txns, uids, blockNumber, n, start);
  }

  lemma {:induction false} IndexByHashLast(txns: seq<CapeModelTxn>, uids: seq<nat>, blockNumber: nat, n: nat,
                                           start: TxIndex)
    requires n <= |txns|
    requires IndexTransitions(Transitions(txns), uids, blockNumber, n, start).Some?
    ensures var ix := IndexTransitions(Transitions(txns), uids, blockNumber, n, start).value;
      forall i :: 0 <= i < n && LastOccurrence(txns, i, n) ==>
        Transaction(txns[i]) in ix.byHash && ix.byHash[Transaction(txns[i])] == (blockNumber, i)
    decreases n
  {
    if n > 0 {
      IndexStep(txns, uids, blockNumber, n, start);
      IndexByHashLast(txns, uids, blockNumber, n - 1, start);
      var ix := IndexTransitions(Transitions(txns), uids, blockNumber, n, start).value;
      forall i | 0 <= i < n && LastOccurrence(txns, i, n)
        ensures Transaction(txns[i]) in ix.byHash && ix.byHash[Transaction(txns[i])] == (blockNumber, i)
      {
        if i < n - 1 {
          assert txns[n - 1] != txns[i];
          assert LastOccurrence(txns, i, n - 1);
        }
      }
    }
  }

  lemma {:induction false} IndexByHashFrame(txns: seq<CapeModelTxn>, uids: seq<nat>, blockNumber: nat, n: nat,
                                            start: TxIndex)
    requires n <= |txns|
    requires IndexTransitions(Transitions(txns), uids, blockNumber, n, start).Some?
    ensures var ix := IndexTransitions(Transitions(txns), uids, blockNumber, n, start).value;
      && (forall t :: t in start.byHash && t !in Transitions(txns)[..n] ==>
            t in ix.byHash && ix.byHash[t] == start.byHash[t])
      && ix.byHash.Keys == start.byHash.Keys + (set i | 0 <= i < n :: Transaction(txns[i]))
    decreases n
  {
    if n > 0 {
      IndexStep(txns, uids, blockNumber, n, start);
      IndexByHashFrame(txns, uids, blockNumber, n - 1, start);
      var ts := Transitions(txns);
      assert ts[..n] == ts[..n - 1] + [ts[n - 1]];
      assert (set i | 0 <= i < n :: Transaction(txns[i]))
          == (set i | 0 <= i < n - 1 :: Transaction(txns[i])) + {Transaction(txns[n - 1])};
    }
  }

  // ---------------------------------------------------------------------
  // One committed block

  lemma BlockUidsLength(s: PollState, txns: seq<CapeModelTxn>)
    ensures |BlockUids(s, txns)| == if RestoredTree(s).Some? then |BlockOutputs(txns)| else 0
  {
  }

  /** A committed block is folded without a halt exactly when its memo
      bundles match its transactions one to one, the valid memos do not
      outnumber the new uids, and, for a block newer than the starting
      height, the last transaction's first output position has a uid. A
      newer non-empty block therefore halts when the stored tree cannot be
      restored. */
  lemma BlockCommitOutcome(s: PollState, lastUpdated: nat, block: BlockWithMemos, blockNumber: nat)
    ensures var txns := block.txns;
      BlockCommittedStep(s, lastUpdated, block, blockNumber).Success? <==>
        && |txns| == |block.memos|
        && ValidMemoCount(block.memos, |block.memos|) <= |BlockUids(s, txns)|
        && (blockNumber > lastUpdated && |txns| > 0 ==>
              OutputsBefore(txns, |txns| - 1) < |BlockUids(s, txns)|)
    ensures RestoredTree(s).None? && blockNumber > lastUpdated && |block.txns| > 0 ==>
            BlockCommittedStep(s, lastUpdated, block, blockNumber).Failure?
  {
    var txns := block.txns;
    BlockUidsLength(s, txns);
    if |txns| == |block.memos| {
      MemoEventsDefined(txns, block.memos, BlockOutputs(txns), BlockUids(s, txns), BlockPaths(s, txns),
                      blockNumber, |block.memos|);
      IndexProgress(txns, BlockUids(s, txns), blockNumber, |txns|,
                    TxIndex(s.qrs.transactionById, s.qrs.transactionIdByHash, s.qrs.nullifiers, 0));
    }
  }

  /** The state a block newer than the starting height leaves: the commit
      header with the three indices of the recorded block, and an empty
      buffer. */
  lemma NewerBlockState(s: PollState, lastUpdated: nat, block: BlockWithMemos, blockNumber: nat)
    requires BlockCommittedStep(s, lastUpdated, block, blockNumber).Success? && blockNumber > lastUpdated
    ensures var txns := block.txns;
            var uids := BlockUids(s, txns);
            var memoFold := MemoEvents(txns, block.memos, BlockOutputs(txns), uids, BlockPaths(s, txns),
                                       blockNumber, |block.memos|);
            var ix := IndexTransitions(Transitions(txns), uids, blockNumber, |txns|,
                                       TxIndex(s.qrs.transactionById, s.qrs.transactionIdByHash, s.qrs.nullifiers, 0));
      && |txns| == |block.memos| && memoFold.Some? && ix.Some?
      && BlockCommittedStep(s, lastUpdated, block, blockNumber).value
         == PollState(CommitHeader(s.qrs, Transitions(txns) + s.pending, RestoredTree(s), memoFold.value.events,
                                   blockNumber).(transactionById := ix.value.byId,
                                                 transactionIdByHash := ix.value.byHash,
                                                 nullifiers := ix.value.nullifiers),
                      [])
  {
  }

  /** What a block newer than the starting height writes to the log and the
      ledger state: the Commit event of the whole buffer (the block's
      transactions, then the earlier pending wraps) is appended, followed by
      one Memos event per signature-valid transaction in order; the buffer
      empties; the state number advances by one while the stored commitment
      and frontier stay those of the tree as restored. */
  lemma BlockCommitLog(s: PollState, lastUpdated: nat, block: BlockWithMemos, blockNumber: nat)
    requires BlockCommittedStep(s, lastUpdated, block, blockNumber).Success? && blockNumber > lastUpdated
    ensures var s' := BlockCommittedStep(s, lastUpdated, block, blockNumber).value;
      && s'.pending == []
      && s'.qrs.ledgerState == s.qrs.ledgerState.(stateNumber := s.qrs.ledgerState.stateNumber + 1)
    ensures var s' := BlockCommittedStep(s, lastUpdated, block, blockNumber).value;
            var n := |s.qrs.events|;
      && |s'.qrs.events| == n + 1 + |ValidTxnIds(block.memos, |block.memos|)|
      && s'.qrs.events[..n] == s.qrs.events
      && s'.qrs.events[n] == Commit(CapeBlock(Transitions(block.txns) + s.pending), blockNumber, blockNumber + 1)
      && MemosLogged(s'.qrs.events, n + 1, block, blockNumber)
  {
    BlockCommitHead(s, lastUpdated, block, blockNumber);
    BlockCommitMemos(s, lastUpdated, block, blockNumber);
  }

  /** From position `start` on, `events` holds one Memos event per
      signature-valid transaction of the block, in order, with as many
      outputs as the transaction has memos and tagged with the block number,
      the transaction's position and its kind. */
  predicate MemosLogged(events: seq<LedgerEvent>, start: nat, block: BlockWithMemos, blockNumber: nat) {
    var ids := ValidTxnIds(block.memos, |block.memos|);
    && start + |ids| <= |events|
    && forall e :: 0 <= e < |ids| ==>
         && ids[e] < |block.txns|
         && events[start + e].Memos?
         && |events[start + e].outputs| == |block.memos[ids[e]].memos|
         && events[start + e].transaction == Some(TxnTag(blockNumber, ids[e], Transaction(block.txns[ids[e]]).Kind()))
  }

  lemma BlockCommitHead(s: PollState, lastUpdated: nat, block: BlockWithMemos, blockNumber: nat)
    requires BlockCommittedStep(s, lastUpdated, block, blockNumber).Success? && blockNumber > lastUpdated
    ensures var s' := BlockCommittedStep(s, lastUpdated, block, blockNumber).value;
      && s'.pending == []
      && s'.qrs.ledgerState == s.qrs.ledgerState.(stateNumber := s.qrs.ledgerState.stateNumber + 1)
    ensures var s' := BlockCommittedStep(s, lastUpdated, block, blockNumber).value;
            var n := |s.qrs.events|;
      && |s'.qrs.events| == n + 1 + |ValidTxnIds(block.memos, |block.memos|)|
      && s'.qrs.events[..n] == s.qrs.events
      && s'.qrs.events[n] == Commit(CapeBlock(Transitions(block.txns) + s.pending), blockNumber, blockNumber + 1)
  {
    var txns := block.txns;
    var uids := BlockUids(s, txns);
    var memoFold := MemoEvents(txns, block.memos, BlockOutputs(txns), uids, BlockPaths(s, txns),
                               blockNumber, |block.memos|);
    MemoEventsDefined(txns, block.memos, BlockOutputs(txns), uids, BlockPaths(s, txns),
                      blockNumber, |block.memos|);
    NewerBlockState(s, lastUpdated, block, blockNumber);
    var s' := BlockCommittedStep(s, lastUpdated, block, blockNumber).value;
    var head := s.qrs.events + [Commit(CapeBlock(Transitions(txns) + s.pending), blockNumber, blockNumber + 1)];
    assert s'.qrs.events == head + memoFold.value.events;
    assert s'.qrs.events[..|s.qrs.events|] == s.qrs.events;
    if RestoredTree(s).Some? {
      var t := RestoredTree(s).value;
      assert Commitment(t) == s.qrs.ledgerState.recordMerkleCommitment;
      assert FrontierOf(t) == s.qrs.ledgerState.recordMerkleFrontier;
    }
  }

  lemma BlockCommitMemos(s: PollState, lastUpdated: nat, block: BlockWithMemos, blockNumber: nat)
    requires BlockCommittedStep(s, lastUpdated, block, blockNumber).Success? && blockNumber > lastUpdated
    ensures MemosLogged(BlockCommittedStep(s, lastUpdated, block, blockNumber).value.qrs.events,
                        |s.qrs.events| + 1, block, blockNumber)
  {
    var txns := block.txns;
    var uids := BlockUids(s, txns);
    var memoFold := MemoEvents(txns, block.memos, BlockOutputs(txns), uids, BlockPaths(s, txns),
                               blockNumber, |block.memos|);
    NewerBlockState(s, lastUpdated, block, blockNumber);
    MemoEventsDefined(txns, block.memos, BlockOutputs(txns), uids, BlockPaths(s, txns),
                      blockNumber, |block.memos|);
    var events := BlockCommittedStep(s, lastUpdated, block, blockNumber).value.qrs.events;
    var head := s.qrs.events + [Commit(CapeBlock(Transitions(txns) + s.pending), blockNumber, blockNumber + 1)];
    assert events == head + memoFold.value.events;
    var ids := ValidTxnIds(block.memos, |block.memos|);
    var start := |s.qrs.events| + 1;
    forall e | 0 <= e < |ids|
      ensures && ids[e] < |block.txns|
              && events[start + e].Memos?
              && |events[start + e].outputs| == |block.memos[ids[e]].memos|
              && events[start + e].transaction
                 == Some(TxnTag(blockNumber, ids[e], Transaction(block.txns[ids[e]]).Kind()))
    {
      MemoEventShape(txns, block.memos, BlockOutputs(txns), uids, BlockPaths(s, txns),
                     blockNumber, |block.memos|, e);
      assert events[start + e] == memoFold.value.events[e];
    }
  }

  /** What a block newer than the starting height records: the nullifier set
      gains exactly the block's nullifiers; entry `(block, i)` of the id
      index holds transaction i with its first uid, `leaf count +
      OutputsBefore(txns, i)`, and its output count; the hash index is
      updated as `HashIndexed` says; the contract address and persisted
      height do not change. */
  lemma BlockCommitIndex(s: PollState, lastUpdated: nat, block: BlockWithMemos, blockNumber: nat)
    requires BlockCommittedStep(s, lastUpdated, block, blockNumber).Success? && blockNumber > lastUpdated
    ensures var s' := BlockCommittedStep(s, lastUpdated, block, blockNumber).value;
            var txns := block.txns;
      && s'.qrs.nullifiers == s.qrs.nullifiers + SpentBy(txns, |txns|)
      && (forall i :: 0 <= i < |txns| ==>
            && RestoredTree(s).Some?
            && (blockNumber, i) in s'.qrs.transactionById
            && s'.qrs.transactionById[(blockNumber, i)]
               == CommittedTransition(blockNumber, i, NumLeaves(RestoredTree(s).value) + OutputsBefore(txns, i),
                                      |txns[i].outputs|, Transaction(txns[i])))
      && s.qrs.transactionById.Keys <= s'.qrs.transactionById.Keys
      && HashIndexed(s.qrs.transactionIdByHash, s'.qrs.transactionIdByHash, txns, blockNumber)
      && s'.qrs.contractAddress == s.qrs.contractAddress
      && s'.qrs.lastUpdatedBlockHeight == s.qrs.lastUpdatedBlockHeight
  {
    BlockCommitIdIndex(s, lastUpdated, block, blockNumber);
    BlockCommitHashIndex(s, lastUpdated, block, blockNumber);
  }

  /** The hash index `after` records the block's transactions `txns` over
      `before`: each transaction maps to its last position in the block, the
      entry of every other transition is kept, and no other key appears. */
  predicate HashIndexed(before: map<CapeTransition, TxnId>, after: map<CapeTransition, TxnId>,
                        txns: seq<CapeModelTxn>, blockNumber: nat) {
    && (forall i :: 0 <= i < |txns| && LastOccurrence(txns, i, |txns|) ==>
          Transaction(txns[i]) in after && after[Transaction(txns[i])] == (blockNumber, i))
    && (forall t :: t in before && t !in Transitions(txns) ==> t in after && after[t] == before[t])
    && after.Keys == before.Keys + (set i | 0 <= i < |txns| :: Transaction(txns[i]))
  }

  lemma BlockCommitIdIndex(s: PollState, lastUpdated: nat, block: BlockWithMemos, blockNumber: nat)
    requires BlockCommittedStep(s, lastUpdated, block, blockNumber).Success? && blockNumber > lastUpdated
    ensures var s' := BlockCommittedStep(s, lastUpdated, block, blockNumber).value;
            var txns := block.txns;
      && s'.qrs.nullifiers == s.qrs.nullifiers + SpentBy(txns, |txns|)
      && (forall i :: 0 <= i < |txns| ==>
            && RestoredTree(s).Some?
            && (blockNumber, i) in s'.qrs.transactionById
            && s'.qrs.transactionById[(blockNumber, i)]
               == CommittedTransition(blockNumber, i, NumLeaves(RestoredTree(s).value) + OutputsBefore(txns, i),
                                      |txns[i].outputs|, Transaction(txns[i])))
      && s.qrs.transactionById.Keys <= s'.qrs.transactionById.Keys
      && s'.qrs.contractAddress == s.qrs.contractAddress
      && s'.qrs.lastUpdatedBlockHeight == s.qrs.lastUpdatedBlockHeight
  {
    var txns := block.txns;
    var uids := BlockUids(s, txns);
    BlockUidsLength(s, txns);
    NewerBlockState(s, lastUpdated, block, blockNumber);
    var start := TxIndex(s.qrs.transactionById, s.qrs.transactionIdByHash, s.qrs.nullifiers, 0);
    var ix := IndexTransitions(Transitions(txns), uids, blockNumber, |txns|, start);
    assert ix.Some?;
    IndexProgress(txns, uids, blockNumber, |txns|, start);
    IndexNullifiers(txns, uids, blockNumber, |txns|, start);
    IndexById(txns, uids, blockNumber, |txns|, start);
    if |txns| > 0 {
      OutputsBeforePrefix(txns, 0, |txns| - 1);
    }
  }

  lemma BlockCommitHashIndex(s: PollState, lastUpdated: nat, block: BlockWithMemos, blockNumber: nat)
    requires BlockCommittedStep(s, lastUpdated, block, blockNumber).Success? && blockNumber > lastUpdated
    ensures HashIndexed(s.qrs.transactionIdByHash,
                        BlockCommittedStep(s, lastUpdated, block, blockNumber).value.qrs.transactionIdByHash,
                        block.txns, blockNumber)
  {
    var txns := block.txns;
    var uids := BlockUids(s, txns);
    NewerBlockState(s, lastUpdated, block, blockNumber);
    var start := TxIndex(s.qrs.transactionById, s.qrs.transactionIdByHash, s.qrs.nullifiers, 0);
    IndexByHash(txns, uids, blockNumber, |txns|, start);
    assert Transitions(txns)[..|txns|] == Transitions(txns);
  }

  /** A block not newer than the starting height changes nothing but the
      buffer, which becomes the block's transactions followed by what was
      pending. */
  lemma StaleBlockOnlyBuffers(s: PollState, lastUpdated: nat, block: BlockWithMemos, blockNumber: nat)
    requires BlockCommittedStep(s, lastUpdated, block, blockNumber).Success? && blockNumber <= lastUpdated
    ensures BlockCommittedStep(s, lastUpdated, block, blockNumber).value
            == PollState(s.qrs, Transitions(block.txns) + s.pending)
  {
  }

  /** The stored commitment and frontier are those of the tree as restored,
      before the block's outputs were pushed into its clone: the tree
      restored for the next block is the same one, and the next block's
      outputs get the same uids. */
  lemma BlockCommitKeepsStoredTree(s: PollState, lastUpdated: nat, block: BlockWithMemos, blockNumber: nat,
                                   next: seq<CapeModelTxn>)
    requires BlockCommittedStep(s, lastUpdated, block, blockNumber).Success?
    ensures var s' := BlockCommittedStep(s, lastUpdated, block, blockNumber).value;
      && RestoredTree(s') == RestoredTree(s)
      && BlockUids(s', next) == BlockUids(s, next)
  {
    if blockNumber > lastUpdated {
      BlockCommitLog(s, lastUpdated, block, blockNumber);
    }
  }

  /** A deposit only buffers: the query state is untouched and one wrap is
      appended to the pending transitions. */
  lemma DepositOnlyBuffers(s: PollState, ro: RecordOpening, erc20Code: Address, from: Address)
    ensures DepositStep(s, ro, erc20Code, from).qrs == s.qrs
    ensures DepositStep(s, ro, erc20Code, from).pending == s.pending + [Wrap(ro, erc20Code, from)]
  {
  }

  /** A deposited wrap is committed with the next newer block, after that
      block's transactions; it is neither indexed nor spends nullifiers, so
      the indices, nullifiers and ledger state come out as without it. */
  lemma WrapCommittedAfterBlockTxns(s: PollState, ro: RecordOpening, erc20Code: Address, from: Address,
                                    lastUpdated: nat, block: BlockWithMemos, blockNumber: nat)
    requires blockNumber > lastUpdated
    requires BlockCommittedStep(DepositStep(s, ro, erc20Code, from), lastUpdated, block, blockNumber).Success?
    ensures var withWrap := BlockCommittedStep(DepositStep(s, ro, erc20Code, from), lastUpdated, block, blockNumber).value;
            var without := BlockCommittedStep(s, lastUpdated, block, blockNumber);
      && withWrap.qrs.events[|s.qrs.events|]
         == Commit(CapeBlock(Transitions(block.txns) + s.pending + [Wrap(ro, erc20Code, from)]),
                   blockNumber, blockNumber + 1)
      && without.Success?
      && withWrap.qrs.transactionById == without.value.qrs.transactionById
      && withWrap.qrs.transactionIdByHash == without.value.qrs.transactionIdByHash
      && withWrap.qrs.nullifiers == without.value.qrs.nullifiers
      && withWrap.qrs.ledgerState == without.value.qrs.ledgerState
  {
    var s1 := DepositStep(s, ro, erc20Code, from);
    BlockCommitLog(s1, lastUpdated, block, blockNumber);
    assert Transitions(block.txns) + s1.pending == Transitions(block.txns) + s.pending + [Wrap(ro, erc20Code, from)];
  }

  // ---------------------------------------------------------------------
  // Faucet event

  /** The faucet event halts exactly when the stored tree cannot be
      restored; otherwise its record becomes the next leaf, with uid the
      prior leaf count, the stored commitment and frontier become those of
      the grown tree, exactly one Memos event without a transaction is
      appended, and nothing else changes; the next block's uids start one
      further on. */
  lemma FaucetEffect(s: PollState, ro: RecordOpening, memo: ReceiverMemo, next: seq<CapeModelTxn>)
    ensures FaucetStep(s, ro, memo).Success? <==> RestoredTree(s).Some?
    ensures FaucetStep(s, ro, memo).Success? ==>
      var s' := FaucetStep(s, ro, memo).value;
      var t := RestoredTree(s).value;
      var uid := NumLeaves(t);
      && RestoredTree(s') == Some(Push(t, ro.commitment))
      && s'.qrs.events == s.qrs.events
           + [Memos([MemoOutput(memo, ro.commitment, uid, GetLeafPath(Push(t, ro.commitment), uid))], None)]
      && s'.pending == s.pending
      && s'.qrs.ledgerState.stateNumber == s.qrs.ledgerState.stateNumber
      && s'.qrs.nullifiers == s.qrs.nullifiers
      && s'.qrs.transactionById == s.qrs.transactionById
      && s'.qrs.transactionIdByHash == s.qrs.transactionIdByHash
      && s'.qrs.contractAddress == s.qrs.contractAddress
      && BlockUids(s', next) == Uids(uid + 1, |BlockOutputs(next)|)
  {
    if RestoredTree(s).Some? {
      RestoreRoundTrip(Push(RestoredTree(s).value, ro.commitment));
    }
  }

  // ---------------------------------------------------------------------
  // A whole poll

  /** Number of committed-block events newer than the starting height. */
  function NewerBlocks(evs: seq<(CapeEvent, EventMeta)>, lastUpdated: nat): nat
    decreases |evs|
  {
    if |evs| == 0 then 0
    else
      var (ev, meta) := evs[|evs| - 1];
      NewerBlocks(evs[..|evs| - 1], lastUpdated) + (if ev.BlockCommitted? && meta.blockNumber > lastUpdated then 1 else 0)
  }

  /** What one event preserves: the event log only grows at its end, the
      nullifier set and the id index's keys only grow, the contract address
      and the persisted height stay, and the state number advances by one
      exactly for a committed block newer than the starting height. */
  lemma StepGrows(s: PollState, lastUpdated: nat, ev: CapeEvent, meta: EventMeta)
    requires Step(s, lastUpdated, ev, meta).Success?
    ensures var s' := Step(s, lastUpdated, ev, meta).value;
      && s.qrs.events <= s'.qrs.events
      && s.qrs.nullifiers <= s'.qrs.nullifiers
      && s.qrs.transactionById.Keys <= s'.qrs.transactionById.Keys
      && s'.qrs.contractAddress == s.qrs.contractAddress
      && s'.qrs.lastUpdatedBlockHeight == s.qrs.lastUpdatedBlockHeight
      && s'.qrs.ledgerState.stateNumber ==
         s.qrs.ledgerState.stateNumber + (if ev.BlockCommitted? && meta.blockNumber > lastUpdated then 1 else 0)
  {
    match ev
    case BlockCommitted(block) =>
      if meta.blockNumber > lastUpdated {
        var s' := Step(s, lastUpdated, ev, meta).value;
        BlockCommitLog(s, lastUpdated, block, meta.blockNumber);
        BlockCommitIndex(s, lastUpdated, block, meta.blockNumber);
        assert s'.qrs.events[..|s.qrs.events|] == s.qrs.events;
      }
    case Erc20TokensDeposited(_, _, _) =>
    case FaucetInitialized(ro, memo) =>
      FaucetEffect(s, ro, memo, []);
  }

  /** Over a whole poll that does not halt: the event log only grows at its
      end, the nullifier set and the id index only grow, the contract address
      and persisted height never change, and the state number advances by
      exactly the number of committed blocks newer than the starting height
      (the height compared against is the same for every event of the poll). */
  lemma {:induction false} CheckFoldGrows(s: PollState, lastUpdated: nat, evs: seq<(CapeEvent, EventMeta)>)
    requires CheckFold(s, lastUpdated, evs).Success?
    ensures var s' := CheckFold(s, lastUpdated, evs).value;
      && s.qrs.events <= s'.qrs.events
      && s.qrs.nullifiers <= s'.qrs.nullifiers
      && s.qrs.transactionById.Keys <= s'.qrs.transactionById.Keys
      && s'.qrs.contractAddress == s.qrs.contractAddress
      && s'.qrs.lastUpdatedBlockHeight == s.qrs.lastUpdatedBlockHeight
      && s'.qrs.ledgerState.stateNumber == s.qrs.ledgerState.stateNumber + NewerBlocks(evs, lastUpdated)
    decreases |evs|
  {
    if |evs| > 0 {
      var init := evs[..|evs| - 1];
      CheckFoldGrows(s, lastUpdated, init);
      var mid := CheckFold(s, lastUpdated, init).value;
      StepGrows(mid, lastUpdated, evs[|evs| - 1].0, evs[|evs| - 1].1);
    }
  }
}
