/** The query service's read endpoints (eqs/src/routes.rs): projections of
    the shared query state, plus the start-up check that the route table of
    the API description defines every endpoint. Route parameters arrive
    already decoded: the route parser of the service is not part of this
    model, so each binding carries the outcome of its accessors. */
module EqsRoutes {
  import opened Wrappers
  import opened Accumulator
  import opened Ledger

  const U64_MODULUS: nat := 0x1_0000_0000_0000_0000

  /** A 64-bit unsigned integer (`u64`, and `usize` on a 64-bit target). */
  type U64 = x: nat | x < U64_MODULUS

  /** A route parameter: what `value.as_u64()` and `value.to::<Nullifier>()`
      give for it, a value or a parameter error. */
  datatype RouteBinding = RouteBinding(asU64: Result<U64, string>, asNullifier: Result<Nullifier, string>)

  type Bindings = map<string, RouteBinding>

  datatype RouteError =
    | ParamError(msg: string)         // a binding's accessor failed
    | MissingBinding(name: string)    // a required binding is absent: indexing the map panics
    | SlicePanic(first: nat, last: nat) // `events[first..last]` with `last < first` panics

  datatype CapState = CapState(ledger: LedgerState, numEvents: nat)

  /** `get_cap_state`: the stored ledger state and the number of events. */
  function GetCapState(qrs: QueryResultState): (r: CapState)
    ensures r.ledger == qrs.ledgerState && r.numEvents == |qrs.events|
  {
    CapState(qrs.ledgerState, |qrs.events|)
  }

  /** `get_all_nullifiers`: the nullifier set as stored. */
  function GetAllNullifiers(qrs: QueryResultState): (r: set<Nullifier>)
    ensures r == qrs.nullifiers
  {
    qrs.nullifiers
  }

  /** `check_nullifier`: whether the `:nullifier` parameter has been spent. */
  function CheckNullifier(bindings: Bindings, qrs: QueryResultState): (r: Result<bool, RouteError>)
    ensures ":nullifier" !in bindings ==> r == Failure(MissingBinding(":nullifier"))
    ensures ":nullifier" in bindings && bindings[":nullifier"].asNullifier.Failure? ==>
            r == Failure(ParamError(bindings[":nullifier"].asNullifier.error))
    ensures r.Success? <==> ":nullifier" in bindings && bindings[":nullifier"].asNullifier.Success?
    ensures r.Success? ==> (r.value <==> bindings[":nullifier"].asNullifier.value in qrs.nullifiers)
  {
    if ":nullifier" !in bindings then Failure(MissingBinding(":nullifier"))
    else
      var nf :- bindings[":nullifier"].asNullifier.MapFailure(e => ParamError(e));
      Success(nf in qrs.nullifiers)
  }

  /** The `:first` parameter, 0 when absent. */
  function FirstParam(bindings: Bindings): (r: Result<U64, RouteError>)
    ensures ":first" !in bindings ==> r == Success(0)
  {
    if ":first" in bindings then bindings[":first"].asU64.MapFailure(e => ParamError(e))
    else Success(0)
  }

  /** `get_events_since` as written: `first + max_count` is a `usize` sum,
      which wraps around in a release build (and panics in a debug build);
      a wrapped end below `first` makes the slice panic. */
  function GetEventsSinceAsWritten(bindings: Bindings, qrs: QueryResultState): Result<seq<LedgerEvent>, RouteError> {
    var first :- FirstParam(bindings);
    var len := |qrs.events|;
    if first >= len then Success([])
    else
      var last :- if ":max_count" in bindings then
                    var maxCount :- bindings[":max_count"].asU64.MapFailure(e => ParamError(e));
                    Success(Min((first + maxCount) % U64_MODULUS, len))
                  else Success(len);
      if last < first then Failure(SlicePanic(first, last))
      else Success(qrs.events[first..last])
  }

  /** `get_events_since` with the end computed without overflow: the events
      from `first` on, at most `max_count` of them when it is given, and
      none when `first` is past the end. */
  function GetEventsSince(bindings: Bindings, qrs: QueryResultState): (r: Result<seq<LedgerEvent>, RouteError>)
    ensures r.Failure? <==>
      || (":first" in bindings && bindings[":first"].asU64.Failure?)
      || (":max_count" in bindings && bindings[":max_count"].asU64.Failure?
          && FirstParam(bindings).Success? && FirstParam(bindings).value < |qrs.events|)
    ensures r.Success? ==>
      var first := FirstParam(bindings).value;
      && (first >= |qrs.events| ==> r.value == [])
      && (first < |qrs.events| ==>
            && |r.value| <= |qrs.events| - first
            && (":max_count" in bindings ==> |r.value| == Min(bindings[":max_count"].asU64.value, |qrs.events| - first))
            && (":max_count" !in bindings ==> |r.value| == |qrs.events| - first)
            && forall i :: 0 <= i < |r.value| ==> r.value[i] == qrs.events[first + i])
  {
    var first :- FirstParam(bindings);
    var len := |qrs.events|;
    if first >= len then Success([])
    else
      var last :- if ":max_count" in bindings then
                    var maxCount :- bindings[":max_count"].asU64.MapFailure(e => ParamError(e));
                    Success(Min(first + maxCount, len))
                  else Success(len);
      Success(qrs.events[first..last])
  }

  function Min(a: nat, b: nat): nat {
    if a <= b then a else b
  }

  /** Whenever the sum does not overflow, the code as written agrees with
      the overflow-free definition. */
  lemma EventsSinceAgreeWithoutOverflow(bindings: Bindings, qrs: QueryResultState)
    requires ":max_count" in bindings && ":first" in bindings
    requires bindings[":first"].asU64.Success? && bindings[":max_count"].asU64.Success?
    requires bindings[":first"].asU64.value + bindings[":max_count"].asU64.value < U64_MODULUS
    ensures GetEventsSinceAsWritten(bindings, qrs) == GetEventsSince(bindings, qrs)
  {
  }

  /** A client asking for everything from event 1 with the largest
      `max_count` makes the handler as written panic, while two events are
      there and the overflow-free definition returns the second one. */
  lemma EventsSinceOverflowPanics(e0: LedgerEvent, e1: LedgerEvent, qrs: QueryResultState)
    requires qrs.events == [e0, e1]
    ensures var b := map[":first" := RouteBinding(Success(1), Failure("not a nullifier")),
                         ":max_count" := RouteBinding(Success(U64_MODULUS - 1), Failure("not a nullifier"))];
      && GetEventsSinceAsWritten(b, qrs) == Failure(SlicePanic(1, 0))
      && GetEventsSince(b, qrs) == Success([e1])
  {
    var b := map[":first" := RouteBinding(Success(1), Failure("not a nullifier")),
                 ":max_count" := RouteBinding(Success(U64_MODULUS - 1), Failure("not a nullifier"))];
    assert (1 + (U64_MODULUS - 1)) % U64_MODULUS == 0;
    assert qrs.events[1..2] == [e1];
  }

  /** `get_transaction`: the entry keyed by `(:block_id, :txn_id)`, if any.
      The block id is read before the transaction id, so a missing or bad
      block id is reported first. */
  function GetTransaction(bindings: Bindings, qrs: QueryResultState): (r: Result<Option<CommittedTransition>, RouteError>)
    ensures r.Success? <==>
      && ":block_id" in bindings && ":txn_id" in bindings
      && bindings[":block_id"].asU64.Success? && bindings[":txn_id"].asU64.Success?
    ensures ":block_id" !in bindings ==> r == Failure(MissingBinding(":block_id"))
    ensures ":block_id" in bindings && bindings[":block_id"].asU64.Failure? ==>
            r == Failure(ParamError(bindings[":block_id"].asU64.error))
    ensures ":block_id" in bindings && bindings[":block_id"].asU64.Success? && ":txn_id" !in bindings ==>
            r == Failure(MissingBinding(":txn_id"))
    ensures ":block_id" in bindings && bindings[":block_id"].asU64.Success? && ":txn_id" in bindings &&
            bindings[":txn_id"].asU64.Failure? ==>
            r == Failure(ParamError(bindings[":txn_id"].asU64.error))
    ensures r.Success? ==>
      var key := (bindings[":block_id"].asU64.value as nat, bindings[":txn_id"].asU64.value as nat);
      && (r.value.Some? <==> key in qrs.transactionById)
      && (r.value.Some? ==> r.value.value == qrs.transactionById[key])
  {
    if ":block_id" !in bindings then Failure(MissingBinding(":block_id"))
    else
      var blockId :- bindings[":block_id"].asU64.MapFailure(e => ParamError(e));
      if ":txn_id" !in bindings then Failure(MissingBinding(":txn_id"))
      else
        var txnId :- bindings[":txn_id"].asU64.MapFailure(e => ParamError(e));
        var key := (blockId as nat, txnId as nat);
        Success(if key in qrs.transactionById then Some(qrs.transactionById[key]) else None)
  }

  /** A well-formed `:nullifier` is checked against exactly the set that
      `get_all_nullifiers` returns. */
  lemma CheckNullifierAgreesWithAllNullifiers(bindings: Bindings, qrs: QueryResultState, nf: Nullifier)
    requires ":nullifier" in bindings && bindings[":nullifier"].asNullifier == Success(nf)
    ensures CheckNullifier(bindings, qrs) == Success(nf in GetAllNullifiers(qrs))
  {
  }

  // ---------------------------------------------------------------------
  // Route table check

  /** The endpoints the service dispatches to, in declaration order. */
  const ApiRouteKeys: seq<string> :=
    ["get_cap_state", "get_all_nullifiers", "check_nullifier", "get_events_since", "get_transaction"]

  /** An entry of the API description: a table (with the keys it defines) or
      some other value. */
  datatype TomlEntry = Table(keys: set<string>) | OtherValue

  type ApiDescription = map<string, TomlEntry>

  /** The `route` table of the description defines `key`. */
  predicate RouteDefined(api: ApiDescription, key: string)
    requires "route" in api
  {
    api["route"].Table? && key in api["route"].keys
  }

  /** `check_api`: true when every endpoint has a route definition; the
      service panics (here: `Failure`) when the description has no `route`
      entry or when any endpoint is missing from it, after having gone through
      all of them. */
  method CheckApi(api: ApiDescription) returns (r: Result<bool, string>)
    ensures r.Success? <==> "route" in api && forall k :: k in ApiRouteKeys ==> RouteDefined(api, k)
    ensures r.Success? ==> r.value
  {
    if "route" !in api {
      return Failure("no route table");
    }
    var missingDefinition := false;
    for i := 0 to |ApiRouteKeys|
      invariant missingDefinition <==> exists j :: 0 <= j < i && !RouteDefined(api, ApiRouteKeys[j])
    {
      if !RouteDefined(api, ApiRouteKeys[i]) {
        missingDefinition := true;
      }
    }
    if missingDefinition {
      return Failure("api description is inconsistent with the route keys");
    }
    return Success(!missingDefinition);
  }
}
