/** The ledger values the query service folds: transactions and transitions,
    ledger events, the ledger state and the service-visible query state.
    Cryptographic content (proofs, signatures, record openings) is abstracted
    to the parts the service reads. The commitment of a transition is the
    transition itself (a collision-free content hash). */
module Ledger {
  import opened Wrappers
  import opened Accumulator

  type Nullifier = int
  type ReceiverMemo = int
  /** An Ethereum address (20 bytes), abstracted. */
  type Address = int

  datatype NoteKind = Mint | Transfer | Freeze

  /** A transaction of a committed block: a CAP note or a burn. `nullifiers`
      are the inputs it spends, `outputs` the record commitments it creates,
      and `note` stands for the rest of its contents. */
  datatype CapeModelTxn =
    | Cap(noteKind: NoteKind, nullifiers: seq<Nullifier>, outputs: seq<Field>, note: int)
    | Burn(nullifiers: seq<Nullifier>, outputs: seq<Field>, note: int)

  /** A record opening, abstracted to its contents and its commitment. */
  datatype RecordOpening = RecordOpening(contents: int, commitment: Field)

  datatype CapeTransactionKind = CapKind(noteKind: NoteKind) | BurnKind | WrapKind

  datatype CapeTransition =
    | Transaction(txn: CapeModelTxn)
    | Wrap(ro: RecordOpening, erc20Code: Address, srcAddr: Address)
  {
    /** Number of records the transition adds to the records tree. */
    function OutputLen(): nat {
      match this
      case Transaction(t) => |t.outputs|
      case Wrap(_, _, _) => 1
    }

    function ProvenNullifiers(): set<Nullifier> {
      match this
      case Transaction(t) => set n | n in t.nullifiers
      case Wrap(_, _, _) => {}
    }

    function Kind(): CapeTransactionKind {
      match this
      case Transaction(Cap(k, _, _, _)) => CapKind(k)
      case Transaction(Burn(_, _, _)) => BurnKind
      case Wrap(_, _, _) => WrapKind
    }
  }

  datatype CapeBlock = CapeBlock(transitions: seq<CapeTransition>)

  /** The transaction a Memos event belongs to: block, index in block, kind. */
  datatype TxnTag = TxnTag(blockId: nat, txnId: nat, kind: CapeTransactionKind)

  datatype MemoOutput = MemoOutput(memo: ReceiverMemo, comm: Field, uid: nat, path: MerklePath)

  datatype LedgerEvent =
    | Commit(block: CapeBlock, blockId: nat, stateComm: nat)
    | Memos(outputs: seq<MemoOutput>, transaction: Option<TxnTag>)

  datatype LedgerState = LedgerState(
    stateNumber: nat,
    recordMerkleCommitment: TreeCommitment,
    recordMerkleFrontier: Frontier)

  /** Key of `transaction_by_id`: (block id, index in block). */
  type TxnId = (nat, nat)

  datatype CommittedTransition = CommittedTransition(
    blockId: nat,
    txnId: nat,
    outputStart: nat,
    outputSize: nat,
    transition: CapeTransition)

  datatype QueryResultState = QueryResultState(
    ledgerState: LedgerState,
    events: seq<LedgerEvent>,
    nullifiers: set<Nullifier>,
    transactionById: map<TxnId, CommittedTransition>,
    transactionIdByHash: map<CapeTransition, TxnId>,
    contractAddress: Option<Address>,
    lastUpdatedBlockHeight: nat)
}
