/** The rules of the CAPE wallet backend (wallet/src/backend.rs) that do not
    depend on the network: the polling step of the event subscription, the
    local cache of nullifier answers, the start-up state derived from the
    query service, and the refusal to submit wraps. Every call to the query
    service, the relayer or the contract is a parameter; sleeping is not
    modelled and durations are whole milliseconds. */
module WalletBackend {
  import opened Wrappers
  import opened Accumulator
  import opened Ledger
  import opened EqsRoutes
  import Relayer

  datatype WalletError = Failed(msg: string)

  // ---------------------------------------------------------------------
  // Event subscription

  /** The shortest wait between two requests. */
  const MIN_BACKOFF_MS: nat := 500
  /** The longest wait between two requests. */
  const MAX_BACKOFF_MS: nat := 60000

  /** A `get_events_since` request: from which event, and how many at most. */
  datatype EventRequest = EventRequest(from: nat, maxCount: Option<nat>)

  /** What a request to the query service gives: no connection, a body that
      is not a list of events, or the events. */
  datatype EqsReply = Unreachable | Undecodable | Events(events: seq<LedgerEvent>)

  /** What one poll yields to the stream: its end, a batch of events (maybe
      none), or the panic on an undecodable body. */
  datatype PollOutcome = EndOfStream | Batch(events: seq<LedgerEvent>) | DecodePanic

  /** The values of a subscription's `StreamState` that change. */
  datatype Cursor = Cursor(from: nat, to: Option<nat>, backoff: nat)

  /** The backoff in range. */
  predicate BackoffInRange(backoff: nat) {
    MIN_BACKOFF_MS <= backoff <= MAX_BACKOFF_MS
  }

  /** The backoff after a poll that brought nothing: doubled, at most the
      longest wait. */
  function Slower(backoff: nat): (b: nat)
    ensures b <= MAX_BACKOFF_MS
    ensures b == 2 * backoff || b == MAX_BACKOFF_MS
    ensures 2 * backoff <= MAX_BACKOFF_MS ==> b == 2 * backoff
    ensures 2 * backoff > MAX_BACKOFF_MS ==> b == MAX_BACKOFF_MS
    ensures BackoffInRange(backoff) ==> BackoffInRange(b) && backoff <= b
  {
    if 2 * backoff <= MAX_BACKOFF_MS then 2 * backoff else MAX_BACKOFF_MS
  }

  /** The request of the next poll; none once a bounded stream has reached
      its bound. A bounded request asks for exactly the events up to the
      bound. */
  function NextRequest(c: Cursor): (r: Option<EventRequest>)
    ensures r.None? <==> c.to.Some? && c.from >= c.to.value
    ensures r.Some? ==> r.value.from == c.from
    ensures r.Some? ==> (r.value.maxCount.Some? <==> c.to.Some?)
    ensures r.Some? && c.to.Some? ==> c.from + r.value.maxCount.value == c.to.value
  {
    match c.to
    case Some(to) => if c.from >= to then None else Some(EventRequest(c.from, Some(to - c.from)))
    case None => Some(EventRequest(c.from, None))
  }

  /** One poll of the subscription, `eqs` answering its request. */
  function PollStep(c: Cursor, eqs: EventRequest -> EqsReply): (r: (PollOutcome, Cursor))
    ensures r.0 == EndOfStream <==> NextRequest(c).None?
    ensures r.0 == EndOfStream ==> r.1 == c
    ensures r.1.to == c.to
    ensures r.0.Batch? ==> r.1.from == c.from + |r.0.events|
    ensures r.0.Batch? && |r.0.events| == 0 ==> r.1.backoff == Slower(c.backoff)
    ensures r.0.Batch? && |r.0.events| > 0 ==> r.1.backoff == MIN_BACKOFF_MS
    ensures NextRequest(c).Some? && eqs(NextRequest(c).value).Unreachable? ==>
              r == (Batch([]), c.(backoff := Slower(c.backoff)))
    ensures NextRequest(c).Some? && eqs(NextRequest(c).value).Events? ==>
              r.0 == Batch(eqs(NextRequest(c).value).events)
  {
    match NextRequest(c)
    case None => (EndOfStream, c)
    case Some(req) =>
      match eqs(req)
      case Unreachable => (Batch([]), c.(backoff := Slower(c.backoff)))
      case Undecodable => (DecodePanic, c)
      case Events(evs) =>
        var backoff := if |evs| == 0 then Slower(c.backoff) else MIN_BACKOFF_MS;
        (Batch(evs), c.(from := c.from + |evs|, backoff := backoff))
  }

  /** The state a subscription carries from one poll to the next. */
  class StreamState {
    var from: nat
    var to: Option<nat>
    var backoff: nat

    function Snapshot(): Cursor
      reads this
    {
      Cursor(from, to, backoff)
    }

    /** A subscription from event `from`, up to `to` when given, starting
        with the shortest wait. */
    constructor (from: nat, to: Option<nat>)
      ensures Snapshot() == Cursor(from, to, MIN_BACKOFF_MS)
      ensures BackoffInRange(backoff)
    {
      this.from := from;
      this.to := to;
      this.backoff := MIN_BACKOFF_MS;
    }

    /** The polling function of the stream. */
    method Poll(eqs: EventRequest -> EqsReply) returns (out: PollOutcome)
      modifies this
      ensures (out, Snapshot()) == PollStep(old(Snapshot()), eqs)
      ensures old(BackoffInRange(backoff)) ==> BackoffInRange(backoff)
    {
      var req;
      if to.Some? {
        if from >= to.value {
          return EndOfStream;
        }
        req := EventRequest(from, Some(to.value - from));
      } else {
        req := EventRequest(from, None);
      }
      var reply := eqs(req);
      if reply.Unreachable? {
        backoff := Slower(backoff);
        return Batch([]);
      }
      if reply.Undecodable? {
        return DecodePanic;
      }
      var events := reply.events;
      if |events| == 0 {
        backoff := Slower(backoff);
      } else {
        backoff := MIN_BACKOFF_MS;
      }
      from := from + |events|;
      return Batch(events);
    }
  }

  /** Every poll keeps the backoff between the shortest and the longest
      wait. */
  lemma PollKeepsBackoffInRange(c: Cursor, eqs: EventRequest -> EqsReply)
    requires BackoffInRange(c.backoff)
    ensures BackoffInRange(PollStep(c, eqs).1.backoff)
  {
  }

  /** A count as the route parameter the query service parses it into. */
  function U64Binding(n: nat): (b: RouteBinding)
    ensures n < U64_MODULUS ==> b.asU64 == Success(n)
  {
    RouteBinding(if n < U64_MODULUS then Success(n) else Failure("integer out of range"),
                 Failure("not a nullifier"))
  }

  /** The route parameters of `get_events_since/{from}[/{max_count}]`. */
  function RequestBindings(req: EventRequest): (b: Bindings)
    ensures ":first" in b && b[":first"] == U64Binding(req.from)
    ensures ":max_count" in b <==> req.maxCount.Some?
    ensures req.maxCount.Some? ==> b[":max_count"] == U64Binding(req.maxCount.value)
  {
    var first := map[":first" := U64Binding(req.from)];
    match req.maxCount
    case None => first
    case Some(n) => first[":max_count" := U64Binding(n)]
  }

  /** The query service in state `qrs` answering a request: the events its
      `get_events_since` handler returns. An error of the handler is sent
      with an error status, which the client's error-body middleware turns
      into a failed `send()`, so the poll sees it as no connection. */
  function EqsAnswer(qrs: QueryResultState): EventRequest -> EqsReply {
    req => match GetEventsSince(RequestBindings(req), qrs)
           case Success(evs) => Events(evs)
           case Failure(_) => Unreachable
  }

  /** Whenever the query service's handler fails on the poll's request, the
      poll yields nothing, keeps its place and backs off, exactly as when the
      service cannot be reached; it never panics. */
  lemma PollBacksOffOnServiceError(c: Cursor, qrs: QueryResultState)
    requires NextRequest(c).Some? && GetEventsSince(RequestBindings(NextRequest(c).value), qrs).Failure?
    ensures PollStep(c, EqsAnswer(qrs)) == (Batch([]), c.(backoff := Slower(c.backoff)))
    ensures PollStep(c, EqsAnswer(qrs)).1.from == c.from
  {
  }

  /** Against the query service, a poll from inside the event log yields the
      next events of the log, moves the cursor past exactly those, never
      past the end of the log nor past the bound, and yields at least one
      event whenever the log holds one the stream still wants. */
  lemma PollFollowsEventLog(c: Cursor, qrs: QueryResultState)
    requires c.from <= |qrs.events| < U64_MODULUS
    requires c.to.Some? ==> c.to.value < U64_MODULUS
    ensures var r := PollStep(c, EqsAnswer(qrs));
      && !r.0.DecodePanic?
      && c.from <= r.1.from <= |qrs.events|
      && (r.0.Batch? ==> r.0.events == qrs.events[c.from..r.1.from])
      && (c.to.Some? && c.from <= c.to.value ==> r.1.from <= c.to.value)
      && (NextRequest(c).Some? && c.from < |qrs.events| ==> r.1.from > c.from)
  {
    var r := PollStep(c, EqsAnswer(qrs));
    match NextRequest(c)
    case None =>
    case Some(req) =>
      var b := RequestBindings(req);
      var answer := GetEventsSince(b, qrs);
      assert FirstParam(b) == Success(c.from);
      assert answer.Success?;
      assert EqsAnswer(qrs)(req) == Events(answer.value);
      var evs := answer.value;
      assert r.1.from == c.from + |evs|;
      if c.from < |qrs.events| {
        assert |evs| <= |qrs.events| - c.from;
        assert evs == qrs.events[c.from..c.from + |evs|];
      } else {
        assert evs == [];
      }
  }

  /** The cursor after polling once against each of the states `eqsStates`
      of the query service, and the events delivered on the way. */
  function Delivered(c: Cursor, eqsStates: seq<QueryResultState>): (Cursor, seq<LedgerEvent>)
    decreases |eqsStates|
  {
    if |eqsStates| == 0 then (c, [])
    else
      var prev := Delivered(c, eqsStates[..|eqsStates| - 1]);
      var r := PollStep(prev.0, EqsAnswer(eqsStates[|eqsStates| - 1]));
      (r.1, prev.1 + (if r.0.Batch? then r.0.events else []))
  }

  /** The event log only grows between polls. */
  predicate LogGrows(eqsStates: seq<QueryResultState>) {
    forall i, j :: 0 <= i <= j < |eqsStates| ==> eqsStates[i].events <= eqsStates[j].events
  }

  /** A subscription polling a query service whose log only grows delivers
      exactly the log from where it started to where its cursor stands, in
      order, without gaps or repeats, and never past its bound. */
  lemma {:induction false} SubscriptionDeliversEventLog(c: Cursor, eqsStates: seq<QueryResultState>)
    requires |eqsStates| > 0 && LogGrows(eqsStates)
    requires c.from <= |eqsStates[0].events|
    requires |eqsStates[|eqsStates| - 1].events| < U64_MODULUS
    requires c.to.Some? ==> c.from <= c.to.value < U64_MODULUS
    ensures var d := Delivered(c, eqsStates);
      && c.from <= d.0.from <= |eqsStates[|eqsStates| - 1].events|
      && d.1 == eqsStates[|eqsStates| - 1].events[c.from..d.0.from]
      && d.0.to == c.to
      && (c.to.Some? ==> d.0.from <= c.to.value)
    decreases |eqsStates|
  {
    var n := |eqsStates|;
    var last := eqsStates[n - 1];
    var front := eqsStates[..n - 1];
    var prev := Delivered(c, front);
    if n == 1 {
      assert prev == (c, []);
      assert eqsStates[0].events <= last.events;
    } else {
      forall i, j | 0 <= i <= j < |front| ensures front[i].events <= front[j].events {
        assert front[i] == eqsStates[i] && front[j] == eqsStates[j];
      }
      assert front[n - 2] == eqsStates[n - 2];
      assert eqsStates[n - 2].events <= last.events;
      SubscriptionDeliversEventLog(c, front);
      PrefixSlice(eqsStates[n - 2].events, last.events, c.from, prev.0.from);
    }
    PollFollowsEventLog(prev.0, last);
    var r := PollStep(prev.0, EqsAnswer(last));
    if r.0.Batch? {
      SliceConcat(last.events, c.from, prev.0.from, r.1.from);
    }
  }

  lemma PrefixSlice<T>(a: seq<T>, b: seq<T>, i: nat, j: nat)
    requires a <= b && i <= j <= |a|
    ensures a[i..j] == b[i..j]
  {
  }

  lemma SliceConcat<T>(s: seq<T>, i: nat, j: nat, k: nat)
    requires i <= j <= k <= |s|
    ensures s[i..j] + s[j..k] == s[i..k]
  {
  }

  // ---------------------------------------------------------------------
  // Nullifier cache

  /** The wallet's local nullifier set, a cache of the contract's answers. */
  class NullifierCache {
    var known: map<Nullifier, bool>

    constructor ()
      ensures known == map[]
    {
      known := map[];
    }
  }

  /** A lookup through the cache: the cached answer when there is one, and
      otherwise the contract's answer `spent`, which is then cached. */
  function CachedLookup(known: map<Nullifier, bool>, nf: Nullifier, spent: Nullifier -> bool): (r: (bool, map<Nullifier, bool>))
    ensures nf in known ==> r.0 == known[nf] && r.1 == known
    ensures nf !in known ==> r.0 == spent(nf)
    ensures nf in r.1 && r.1[nf] == r.0
    ensures r.1.Keys == known.Keys + {nf}
    ensures forall n :: n in known ==> r.1[n] == known[n]
  {
    if nf in known then (known[nf], known) else (spent(nf), known[nf := spent(nf)])
  }

  /** `get_nullifier_proof`. */
  method GetNullifierProof(cache: NullifierCache, nf: Nullifier, spent: Nullifier -> bool) returns (r: bool)
    modifies cache
    ensures (r, cache.known) == CachedLookup(old(cache.known), nf, spent)
  {
    if nf in cache.known {
      return cache.known[nf];
    }
    r := spent(nf);
    cache.known := cache.known[nf := r];
  }

  /** Once a nullifier has been looked up, every later lookup gives the same
      answer without consulting the contract again, whatever the contract
      would say now. */
  lemma CachedAnswerIsStable(known: map<Nullifier, bool>, nf: Nullifier, spent: Nullifier -> bool, spentLater: Nullifier -> bool)
    ensures var first := CachedLookup(known, nf, spent);
      CachedLookup(first.1, nf, spentLater) == first
  {
  }

  // ---------------------------------------------------------------------
  // Creating the wallet state

  /** The parts of a new wallet's state that `create` derives from the query
      service: the records tree, the leaf to forget, the validator's block
      height and leaf count, and the event index to start from. */
  datatype WalletStart = WalletStart(
    recordTree: Tree,
    merkleLeafToForget: Option<nat>,
    validatorBlockHeight: nat,
    validatorNumLeaves: nat,
    now: nat)

  /** `create`, given the query service's `get_cap_state` answer (or the
      error of that call). */
  function Create(capState: Result<CapState, string>): (r: Result<WalletStart, WalletError>)
    ensures r.Success? <==>
              capState.Success? &&
              Consistent(capState.value.ledger.recordMerkleCommitment, capState.value.ledger.recordMerkleFrontier)
    ensures r.Success? ==>
      var ledger := capState.value.ledger;
      && Commitment(r.value.recordTree) == ledger.recordMerkleCommitment
      && FrontierOf(r.value.recordTree) == ledger.recordMerkleFrontier
      && r.value.merkleLeafToForget ==
           (if NumLeaves(r.value.recordTree) > 0 then Some(NumLeaves(r.value.recordTree) - 1) else None)
      && r.value.validatorBlockHeight == ledger.stateNumber
      && r.value.validatorNumLeaves == NumLeaves(r.value.recordTree)
      && r.value.now == capState.value.numEvents
  {
    var state :- capState.MapFailure(e => Failed("eqs error: " + e));
    var ledger := state.ledger;
    var recordTree :- match Restore(ledger.recordMerkleCommitment, ledger.recordMerkleFrontier)
                      case Some(t) => Success(t)
                      case None => Failure(Failed("cannot reconstruct Merkle tree from frontier"));
    var n := NumLeaves(recordTree);
    Success(WalletStart(recordTree, if n > 0 then Some(n - 1) else None, ledger.stateNumber, n, state.numEvents))
  }

  /** The leaf a new wallet forgets is the one the frontier keeps: none for
      an empty tree, and otherwise the last leaf's uid. */
  lemma LeafToForgetIsFrontierLeaf(capState: Result<CapState, string>)
    requires Create(capState).Success?
    ensures var f := capState.value.ledger.recordMerkleFrontier;
      && (Create(capState).value.merkleLeafToForget.Some? <==> f.LastLeaf?)
      && (f.LastLeaf? ==> Create(capState).value.merkleLeafToForget == Some(f.uid))
  {
  }

  /** A wallet created from a query service whose stored commitment and
      frontier are those of a tree starts from that very tree, at the end
      of the service's event log. */
  lemma CreateFromQueryService(t: Tree, qrs: QueryResultState)
    requires qrs.ledgerState.recordMerkleCommitment == Commitment(t)
    requires qrs.ledgerState.recordMerkleFrontier == FrontierOf(t)
    ensures var r := Create(Success(GetCapState(qrs)));
      && r.Success?
      && r.value.recordTree == t
      && r.value.now == |qrs.events|
  {
    RestoreRoundTrip(t);
  }

  // ---------------------------------------------------------------------
  // Submitting a transaction

  /** The body posted to the relayer's `submit` endpoint. */
  datatype SubmitBody = SubmitBody(transaction: CapeModelTxn, memos: seq<ReceiverMemo>, signature: int)

  /** What the relayer call gives: a failure to send, or a response with
      an HTTP status and, for an error status, the relayer's error parsed
      from its body. */
  datatype RelayerReply = SendError(msg: string) | Response(status: nat, errorMsg: string)

  /** A status the client's error-body middleware lets through: 2xx. Any
      other status is turned into an error of `send()`, carrying the
      relayer's error from the body. */
  predicate IsSuccessStatus(status: nat) {
    200 <= status < 300
  }

  /** What `submit` did: the bodies it posted to the relayer, the
      transitions it then handed to the mock query service, and its
      result. */
  datatype SubmitOutcome = SubmitOutcome(posted: seq<SubmitBody>, mockSubmitted: seq<CapeTransition>,
                                         result: Result<(), WalletError>)

  /** `submit`: a transaction is posted to the relayer; the call succeeds
      exactly when the relayer answers with a success status, and only then
      is the transaction handed to the mock query service. A failure to send
      and an error status both fail. A wrap is refused and nothing is
      posted. */
  function Submit(txn: CapeTransition, memos: seq<ReceiverMemo>, sig: int, relayer: SubmitBody -> RelayerReply): (r: SubmitOutcome)
    ensures txn.Wrap? ==> r.posted == [] && r.mockSubmitted == [] && r.result.Failure?
    ensures txn.Transaction? ==>
      var reply := relayer(SubmitBody(txn.txn, memos, sig));
      && r.posted == [SubmitBody(txn.txn, memos, sig)]
      && (r.result.Success? <==> reply.Response? && IsSuccessStatus(reply.status))
    ensures r.mockSubmitted == (if r.result.Success? then [txn] else [])
  {
    match txn
    case Transaction(t) =>
      var body := SubmitBody(t, memos, sig);
      (match relayer(body)
       case SendError(msg) => SubmitOutcome([body], [], Failure(Failed("relayer error: " + msg)))
       case Response(status, errorMsg) =>
         if IsSuccessStatus(status) then SubmitOutcome([body], [txn], Success(()))
         else SubmitOutcome([body], [], Failure(Failed("relayer error: " + errorMsg))))
    case Wrap(_, _, _) =>
      SubmitOutcome([], [], Failure(Failed("invalid transaction type: wraps must be submitted using `wrap()`, not `submit()`")))
  }

  /** Against the relayer's `submit` endpoint, `submit` succeeds exactly when
      the relayer built, sent and confirmed the one-transaction block: every
      failure of the relayer reaches the wallet as an error status. */
  lemma SubmitSucceedsIffRelayed(t: CapeModelTxn, memos: seq<ReceiverMemo>, sig: int,
                                 relayer: SubmitBody -> RelayerReply, chain: Relayer.Chain, msg: string)
    requires relayer(SubmitBody(t, memos, sig)) == Response(Relayer.SubmitEndpoint(chain, Success(t)).status, msg)
    ensures Submit(Transaction(t), memos, sig, relayer).result.Success? <==> Relayer.Relay(chain, t).Success?
  {
    var reply := Relayer.SubmitEndpoint(chain, Success(t));
    if reply.body.Failure? {
      assert reply.status == Relayer.Status(reply.body.error);
    }
  }
}
