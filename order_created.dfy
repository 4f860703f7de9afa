/**
 * The `/order-created` webhook handler (server/api/webhooks/index.ts:9-122):
 * validate the order id, take one generated hash, store `(order id, hash)`
 * in `order_hashes`, push the same hash into the order's metadata under
 * `order_hash`, classify the reply, and acknowledge.
 *
 * What the handler cannot see from its own code — the value
 * `generateOrderHash` returns, whether the database client could be set up
 * and reached, the app's auth data and the remote platform's reply — is
 * passed in as an `Env`, one per delivery.
 */
module OrderCreated {
  import opened Wrappers
  import opened OrderHashTable

  /** The part of the event payload the handler reads: `payload.order?.id`. */
  datatype Order = Order(id: Option<string>)
  datatype Payload = Payload(order: Option<Order>)

  /** The app's auth data (`token`, `saleorApiUrl`); absent when the webhook wrapper supplies none. */
  datatype AuthData = AuthData(token: string, saleorApiUrl: string)

  /**
   * The parsed JSON reply of the metadata mutation: `errors` is the length of
   * a top-level `errors` array when one is present, `metadataErrors` the
   * length of `data.updateMetadata.errors` when that path is present.
   */
  datatype Reply = Reply(errors: Option<nat>, metadataErrors: Option<nat>)

  /** What the remote call produced: it threw (network, JSON parsing), or it replied. */
  datatype RemoteOutcome = Threw | Replied(reply: Reply)

  /** Everything about one delivery that lies outside the handler's own code. */
  datatype Env = Env(
    orderHash: string,         // the result of `generateOrderHash()`
    storeReachable: bool,      // no database call fails for a reason other than the UNIQUE constraints
    authData: Option<AuthData>,
    remote: RemoteOutcome)

  /** The request `fetch` sends: endpoint, `Authorization` header and the mutation's variables. */
  datatype MetadataRequest = MetadataRequest(
    url: string, authorization: string, id: string, key: string, value: string)

  /** How the reply was classified (which message the handler logs). */
  datatype RemoteResult = RequestFailed | GraphQLErrors | MetadataErrors | MetadataUpdated

  datatype RemoteStep = MissingAuthData | Sent(request: MetadataRequest, result: RemoteResult)

  datatype StoreFailure = StoreUnavailable | InsertRefused(error: InsertError)

  datatype StoreStep = Stored(id: nat) | NotStored(failure: StoreFailure)

  /** Which effects a run had: the hash it drew, the store step and the remote step. */
  datatype Effects = Effects(orderHash: Option<string>, store: Option<StoreStep>, remote: Option<RemoteStep>)

  datatype Response = Response(status: nat, body: string)

  const MetadataKey := "order_hash"
  const NoEffects := Effects(None, None, None)
  const MissingOrderId := Response(400, "Order ID missing")
  const Accepted := Response(200, "Accepted")

  /** `payload.order?.id` when it is truthy: an absent order, an absent id and the empty id all count as missing. */
  function OrderId(p: Payload): (id: Option<string>)
    ensures id.Some? <==> p.order.Some? && p.order.value.id.Some? && p.order.value.id.value != ""
    ensures id.Some? ==> Some(id.value) == p.order.value.id
  {
    match p.order
    case Some(Order(Some(id))) => if id == "" then None else Some(id)
    case _ => None
  }

  /**
   * The three-way classification of the reply. `result.errors` is tested
   * for truthiness, so even an empty top-level `errors` array counts as a
   * GraphQL error; `updateMetadata.errors` counts only when non-empty.
   */
  function Classify(reply: Reply): (r: RemoteResult)
    ensures r != RequestFailed
    ensures r == GraphQLErrors <==> reply.errors.Some?
    ensures r == MetadataErrors <==> reply.errors.None? && reply.metadataErrors.Some? && reply.metadataErrors.value > 0
    ensures r == MetadataUpdated <==> reply.errors.None? && (reply.metadataErrors.None? || reply.metadataErrors == Some(0))
  {
    if reply.errors.Some? then GraphQLErrors
    else if reply.metadataErrors.Some? && reply.metadataErrors.value > 0 then MetadataErrors
    else MetadataUpdated
  }

  /** The metadata mutation for `orderId`, setting `order_hash` to `orderHash`. */
  function Request(auth: AuthData, orderId: string, orderHash: string): (req: MetadataRequest)
    ensures req.url == auth.saleorApiUrl && req.authorization == "Bearer " + auth.token
    ensures req.id == orderId && req.key == "order_hash" && req.value == orderHash
  {
    MetadataRequest(auth.saleorApiUrl, "Bearer " + auth.token, orderId, MetadataKey, orderHash)
  }

  /** Lines 72-119: without auth data the request is never sent; a throw is caught. */
  function UpdateMetadata(auth: Option<AuthData>, orderId: string, orderHash: string, remote: RemoteOutcome): (step: RemoteStep)
    ensures step.Sent? <==> auth.Some?
    ensures step.Sent? ==> step.request == Request(auth.value, orderId, orderHash)
    ensures step.Sent? && remote.Threw? ==> step.result == RequestFailed
    ensures step.Sent? && remote.Replied? ==> step.result == Classify(remote.reply)
  {
    match auth
    case None => MissingAuthData
    case Some(a) =>
      Sent(Request(a, orderId, orderHash), match remote
                                         case Threw => RequestFailed
                                         case Replied(reply) => Classify(reply))
  }

  /** Lines 46-69: ensure the table, then insert; any failure is caught and leaves the table as it was. */
  function StoreHash(t: Table, reachable: bool, orderId: string, orderHash: string): (r: (Table, StoreStep))
    ensures !reachable ==> r == (t, NotStored(StoreUnavailable))
    ensures reachable ==> r.0.created && r.1 != NotStored(StoreUnavailable)
    ensures r.1.Stored? <==> reachable && !HasOrderId(t.rows, orderId) && !HasOrderHash(t.rows, orderHash)
    ensures r.1.Stored? ==> r.0.rows == t.rows + [Row(r.1.id, orderId, orderHash)] && r.1.id == t.lastId + 1 == r.0.lastId
    ensures r.1.NotStored? ==> r.0.rows == t.rows && r.0.lastId == t.lastId
    ensures r.1 == NotStored(InsertRefused(DuplicateOrderId)) <==> reachable && HasOrderId(t.rows, orderId)
    ensures r.1 == NotStored(InsertRefused(DuplicateOrderHash)) <==>
      reachable && !HasOrderId(t.rows, orderId) && HasOrderHash(t.rows, orderHash)
  {
    if !reachable then (t, NotStored(StoreUnavailable))
    else
      var (t', outcome) := Insert(CreateIfNotExists(t), orderId, orderHash);
      assert outcome.Inserted? ==> t'.rows == t.rows + [Row(outcome.id, orderId, orderHash)] by {
        if outcome.Inserted? {
          AcceptedInsertAppends(CreateIfNotExists(t), orderId, orderHash);
        }
      }
      (t', match outcome
           case Inserted(id) => Stored(id)
           case Rejected(e) => NotStored(InsertRefused(e)))
  }

  /** One run of the handler: the new table, the response and the effects. */
  function OrderCreated(t: Table, p: Payload, env: Env): (r: (Table, Response, Effects))
    ensures r.1.status == 400 <==> OrderId(p).None?
    ensures r.1 == (if OrderId(p).None? then MissingOrderId else Accepted)
  {
    match OrderId(p)
    case None => (t, MissingOrderId, NoEffects)
    case Some(orderId) =>
      var (t', store) := StoreHash(t, env.storeReachable, orderId, env.orderHash);
      var remote := UpdateMetadata(env.authData, orderId, env.orderHash, env.remote);
      (t', Accepted, Effects(Some(env.orderHash), Some(store), Some(remote)))
  }

  /** Without an order id the handler answers 400 and does nothing else: no hash, no table change, no remote call. */
  lemma MissingIdDoesNothing(t: Table, p: Payload, env: Env)
    requires OrderId(p).None?
    ensures OrderCreated(t, p, env) == (t, Response(400, "Order ID missing"), Effects(None, None, None))
  {
  }

  /** With an order id the handler draws one hash, attempts the store and the remote step, and answers 200. */
  lemma PresentIdAccepted(t: Table, p: Payload, env: Env)
    requires OrderId(p).Some?
    ensures var (_, response, effects) := OrderCreated(t, p, env);
      && response == Response(200, "Accepted")
      && effects.orderHash == Some(env.orderHash)
      && effects.store.Some? && effects.remote.Some?
  {
  }

  /**
   * The run changes the rows in at most one way. They change only when the
   * store step reports `Stored(id)`: that happens exactly when the store is
   * reachable and neither the order id nor the hash has a row yet, and then
   * exactly one row `(id, order id, hash)` is appended after the earlier
   * ones. An insert is refused only because the order id or the hash already
   * has a row; it then changes no row (the table itself may have just been
   * created).
   */
  lemma TableChange(t: Table, p: Payload, env: Env)
    requires OrderId(p).Some?
    ensures var (t', _, effects) := OrderCreated(t, p, env);
      match effects.store.value
      case Stored(id) =>
        && env.storeReachable
        && !HasOrderId(t.rows, OrderId(p).value) && !HasOrderHash(t.rows, env.orderHash)
        && t.rows + [Row(id, OrderId(p).value, env.orderHash)] == t'.rows
        && t'.created && t'.lastId == id == t.lastId + 1
      case NotStored(StoreUnavailable) => t' == t && !env.storeReachable
      case NotStored(InsertRefused(e)) =>
        && t'.rows == t.rows && t'.lastId == t.lastId && t'.created
        && env.storeReachable && e != NoSuchTable
        && (e == DuplicateOrderId <==> HasOrderId(t.rows, OrderId(p).value))
        && (e == DuplicateOrderHash <==> !HasOrderId(t.rows, OrderId(p).value) && HasOrderHash(t.rows, env.orderHash))
  {
  }

  /**
   * The one generated hash is the value inserted into the table and the
   * value of the metadata update, which targets the payload's order id
   * under `order_hash`; the update is sent exactly when auth data is present.
   */
  lemma OneHashForBoth(t: Table, p: Payload, env: Env)
    requires OrderId(p).Some?
    ensures var (t', _, effects) := OrderCreated(t, p, env);
      && (effects.store.value.Stored? ==> t'.rows[|t'.rows| - 1].orderHash == env.orderHash == effects.orderHash.value)
      && (effects.remote.value.Sent? <==> env.authData.Some?)
      && (effects.remote.value.Sent? ==>
            var req := effects.remote.value.request;
            && req.id == OrderId(p).value
            && req.key == "order_hash"
            && req.value == env.orderHash
            && req.url == env.authData.value.saleorApiUrl
            && req.authorization == "Bearer " + env.authData.value.token)
  {
    TableChange(t, p, env);
  }

  /**
   * The store never blocks or alters the remote step: whatever the table
   * holds and whether the store is reachable, the metadata update and its
   * classification are the same.
   */
  lemma RemoteIndependentOfStore(t1: Table, t2: Table, p: Payload, env: Env, reachable: bool)
    requires OrderId(p).Some?
    ensures OrderCreated(t1, p, env).2.remote == OrderCreated(t2, p, env.(storeReachable := reachable)).2.remote
    ensures OrderCreated(t1, p, env).1 == OrderCreated(t2, p, env.(storeReachable := reachable)).1
  {
  }

  /** `t'` holds every row of `t`, unchanged and in the same places. */
  predicate KeepsRows(t: Table, t': Table) {
    |t.rows| <= |t'.rows| && t'.rows[..|t.rows|] == t.rows
  }

  lemma KeepsRowsTransitive(t0: Table, t1: Table, t2: Table)
    requires KeepsRows(t0, t1) && KeepsRows(t1, t2)
    ensures KeepsRows(t0, t2)
  {
    assert t2.rows[..|t0.rows|] == t2.rows[..|t1.rows|][..|t0.rows|];
  }

  /** One run keeps the table well formed (the UNIQUE constraints in particular) and keeps every earlier row. */
  lemma OrderCreatedWellformed(t: Table, p: Payload, env: Env)
    requires Wellformed(t)
    ensures var t' := OrderCreated(t, p, env).0;
      Wellformed(t') && KeepsRows(t, t')
  {
    if OrderId(p).Some? && env.storeReachable {
      InsertWellformed(CreateIfNotExists(t), OrderId(p).value, env.orderHash);
    }
  }

  /** A sequence of deliveries handled one after another: the final table and every response, in order. */
  function RunAll(t: Table, deliveries: seq<(Payload, Env)>): (r: (Table, seq<Response>))
    requires Wellformed(t)
    ensures Wellformed(r.0)
    ensures |r.1| == |deliveries|
    ensures forall i :: 0 <= i < |deliveries| ==>
      r.1[i] == (if OrderId(deliveries[i].0).None? then MissingOrderId else Accepted)
    ensures KeepsRows(t, r.0)
    decreases |deliveries|
  {
    if deliveries == [] then (t, [])
    else
      var (t1, response, _) := OrderCreated(t, deliveries[0].0, deliveries[0].1);
      OrderCreatedWellformed(t, deliveries[0].0, deliveries[0].1);
      var (t2, responses) := RunAll(t1, deliveries[1..]);
      KeepsRowsTransitive(t, t1, t2);
      (t2, [response] + responses)
  }

  /**
   * Across any sequence of deliveries starting from a fresh database, the
   * table never holds two rows with the same order id or the same hash.
   */
  lemma NeverDuplicates(deliveries: seq<(Payload, Env)>)
    ensures var t := RunAll(Empty, deliveries).0;
      forall i, j :: 0 <= i < j < |t.rows| ==>
        t.rows[i].orderId != t.rows[j].orderId && t.rows[i].orderHash != t.rows[j].orderHash
  {
  }

  /**
   * Redelivery of the same event with a second hash: both deliveries are
   * acknowledged with 200, the second insert is refused as a duplicate order
   * id, and the table keeps only the first mapping — while the second hash is
   * still pushed to the order's metadata, where it names no row when it
   * differs from the first.
   */
  lemma Redelivery(p: Payload, env1: Env, env2: Env)
    requires OrderId(p).Some?
    requires env1.storeReachable && env2.storeReachable
    requires env2.authData.Some?
    ensures var (t1, r1, _) := OrderCreated(Empty, p, env1);
      var (t2, r2, e2) := OrderCreated(t1, p, env2);
      && r1 == r2 == Response(200, "Accepted")
      && t1.rows == [Row(1, OrderId(p).value, env1.orderHash)]
      && t2 == t1
      && e2.store == Some(NotStored(InsertRefused(DuplicateOrderId)))
      && e2.remote.value.Sent? && e2.remote.value.request.value == env2.orderHash
      && (env1.orderHash != env2.orderHash ==> !HasOrderHash(t2.rows, env2.orderHash))
  {
    var o := OrderId(p).value;
    var t1 := OrderCreated(Empty, p, env1).0;
    assert t1.rows[0].orderId == o;
    assert HasOrderId(t1.rows, o);
  }

  /** Lines 9-122 as a sequence of steps against the database connection `db`. */
  method HandleOrderCreated(db: OrderHashesStore, payload: Payload, env: Env) returns (response: Response, effects: Effects)
    requires db.Valid()
    modifies db
    ensures db.Valid()
    ensures (db.Snapshot(), response, effects) == OrderCreated(old(db.Snapshot()), payload, env)
  {
    var id := OrderId(payload);
    if id.None? {
      return MissingOrderId, NoEffects;
    }
    var orderId := id.value;
    var orderHash := env.orderHash;

    var store: StoreStep;
    if !env.storeReachable {
      store := NotStored(StoreUnavailable);
    } else {
      db.EnsureTable();
      var outcome := db.InsertMapping(orderId, orderHash);
      store := match outcome
        case Inserted(rowId) => Stored(rowId)
        case Rejected(e) => NotStored(InsertRefused(e));
    }

    var remote: RemoteStep;
    if env.authData.None? {
      remote := MissingAuthData;
    } else {
      var request := Request(env.authData.value, orderId, orderHash);
      var result := match env.remote
        case Threw => RequestFailed
        case Replied(reply) => Classify(reply);
      remote := Sent(request, result);
    }

    response := Accepted;
    effects := Effects(Some(orderHash), Some(store), Some(remote));
  }
}
