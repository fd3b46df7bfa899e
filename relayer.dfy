/** The relayer's `submit` endpoint (relayer/src/lib.rs): it wraps one
    transaction into a block mined by the default miner, submits the block
    to the CAPE contract, and classifies what goes wrong. Building the block,
    sending it and waiting for its confirmation are calls into code outside
    this model and are parameters. */
module Relayer {
  import opened Wrappers
  import opened Ledger

  datatype RelayerError =
    | Deserialize(msg: string)  // the request body is not a transaction
    | BadBlock(msg: string)     // the transaction does not form a valid block
    | Submission(msg: string)   // sending the block or waiting for it failed
    | Rejected                  // the block was finalized but not accepted
    | Internal(msg: string)     // any other error of the web server

  const HTTP_OK: nat := 200
  const HTTP_BAD_REQUEST: nat := 400
  const HTTP_INTERNAL_SERVER_ERROR: nat := 500

  /** `Error::status`: errors of the request are the client's, the others
      the server's. */
  function Status(e: RelayerError): (code: nat)
    ensures code == HTTP_BAD_REQUEST <==> e.Deserialize? || e.BadBlock?
    ensures code == HTTP_INTERNAL_SERVER_ERROR <==> e.Submission? || e.Rejected? || e.Internal?
  {
    match e
    case Deserialize(_) => HTTP_BAD_REQUEST
    case BadBlock(_) => HTTP_BAD_REQUEST
    case Submission(_) => HTTP_INTERNAL_SERVER_ERROR
    case Rejected => HTTP_INTERNAL_SERVER_ERROR
    case Internal(_) => HTTP_INTERNAL_SERVER_ERROR
  }

  /** The address of the default user public key, the miner of relayed
      blocks. */
  const DEFAULT_MINER: Address := 0

  /** A block built for the contract, a submitted contract call, and the
      receipt of a mined one: values of the chain client, opaque here. */
  type ContractBlock = int
  type PendingTxn = int
  type Receipt = int

  /** The calls `relay` makes: build a block from transactions and a miner,
      send it to the contract, wait for it to be finalized (no receipt when
      it was not accepted). */
  datatype Chain = Chain(
    buildBlock: (seq<CapeModelTxn>, Address) -> Result<ContractBlock, string>,
    send: ContractBlock -> Result<PendingTxn, string>,
    confirm: PendingTxn -> Result<Option<Receipt>, string>)

  /** `relay`: the block holds exactly the given transaction and names the
      default miner; each failure is classified by the step it comes
      from. */
  function Relay(chain: Chain, txn: CapeModelTxn): (r: Result<Receipt, RelayerError>)
    ensures chain.buildBlock([txn], DEFAULT_MINER).Failure? ==>
              r == Failure(BadBlock(chain.buildBlock([txn], DEFAULT_MINER).error))
    ensures chain.buildBlock([txn], DEFAULT_MINER).Success? ==>
      var sent := chain.send(chain.buildBlock([txn], DEFAULT_MINER).value);
      && (sent.Failure? ==> r == Failure(Submission(sent.error)))
      && (sent.Success? ==>
            var confirmed := chain.confirm(sent.value);
            && (confirmed.Failure? ==> r == Failure(Submission(confirmed.error)))
            && (confirmed == Success(None) ==> r == Failure(Rejected))
            && (confirmed.Success? && confirmed.value.Some? ==> r == Success(confirmed.value.value)))
  {
    var block :- chain.buildBlock([txn], DEFAULT_MINER).MapFailure(e => BadBlock(e));
    var pending :- chain.send(block).MapFailure(e => Submission(e));
    var receipt :- chain.confirm(pending).MapFailure(e => Submission(e));
    match receipt
    case None => Failure(Rejected)
    case Some(rec) => Success(rec)
  }

  /** A receipt comes only from a block that was built, sent and confirmed;
      the relay never fails with a deserialization or internal error. */
  lemma RelayOutcomes(chain: Chain, txn: CapeModelTxn)
    ensures var r := Relay(chain, txn);
      && (r.Success? <==>
            && chain.buildBlock([txn], DEFAULT_MINER).Success?
            && chain.send(chain.buildBlock([txn], DEFAULT_MINER).value).Success?
            && chain.confirm(chain.send(chain.buildBlock([txn], DEFAULT_MINER).value).value).Success?
            && chain.confirm(chain.send(chain.buildBlock([txn], DEFAULT_MINER).value).value).value.Some?)
      && (r.Failure? ==> r.error.BadBlock? || r.error.Submission? || r.error.Rejected?)
  {
  }

  /** What the endpoint answers: a status and either a receipt or an
      error. */
  datatype EndpointReply = EndpointReply(status: nat, body: Result<Receipt, RelayerError>)

  /** `submit_endpoint`, given the outcome of decoding the request body: a
      body that does not decode is answered with a deserialization error and
      nothing is relayed. */
  function SubmitEndpoint(chain: Chain, requestBody: Result<CapeModelTxn, string>): (r: EndpointReply)
    ensures requestBody.Failure? ==>
              r == EndpointReply(HTTP_BAD_REQUEST, Failure(Deserialize(requestBody.error)))
    ensures requestBody.Success? ==> r.body == Relay(chain, requestBody.value)
    ensures r.body.Success? <==> r.status == HTTP_OK
    ensures r.body.Failure? ==> r.status == Status(r.body.error)
  {
    match requestBody
    case Failure(e) => EndpointReply(HTTP_BAD_REQUEST, Failure(Deserialize(e)))
    case Success(txn) =>
      match Relay(chain, txn)
      case Success(rec) => EndpointReply(HTTP_OK, Success(rec))
      case Failure(err) => EndpointReply(Status(err), Failure(err))
  }

  /** A client is told its request was bad exactly when the body is not a
      transaction or the transaction does not form a block; every other
      failure is reported as the server's. */
  lemma EndpointBlamesClientOnlyForItsRequest(chain: Chain, requestBody: Result<CapeModelTxn, string>)
    ensures var r := SubmitEndpoint(chain, requestBody);
      r.status == HTTP_BAD_REQUEST <==>
        requestBody.Failure? || chain.buildBlock([requestBody.value], DEFAULT_MINER).Failure?
  {
    if requestBody.Success? {
      RelayOutcomes(chain, requestBody.value);
    }
  }
}
