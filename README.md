# Order hash generator — a Dafny model

This project models the two pieces of logic in the Saleor order-hash
generator app:

* **The order-created webhook** (`server/api/webhooks/index.ts`). When
  Saleor reports a new order, the handler checks that the payload carries an
  order id. It takes one hash from `generateOrderHash`. It makes sure the
  `order_hashes` table exists and inserts `(order_id, order_hash)`, where
  both columns are UNIQUE. It then sends a GraphQL `updateMetadata` mutation
  that stores the same hash under the metadata key `order_hash`, and
  classifies the reply. Database and remote failures are caught and logged.
  Once the order id is present the handler always answers `200 Accepted`.
* **Forwarded-protocol selection** in the `/manifest` handler
  (`server/api/index.ts`). The protocol comes from the `x-forwarded-proto`
  header, with `http` as the default. The header is split on `,` and each
  piece has its leading white space trimmed. `https` is chosen if any piece
  is exactly `https`; otherwise the first piece is chosen. The base URL is
  `protocol://host`.

Files:

* `wrappers.dfy`: `Option`, standing for JavaScript's `undefined`/`null`.
* `order_hash_table.dfy` (module `OrderHashTable`): the `order_hashes`
  table. `Table` is the table as a value. `CreateIfNotExists` and `Insert`
  give the meaning of the two SQL statements. `OrderHashesStore` is a class
  holding the same state in fields; its methods `EnsureTable` and
  `InsertMapping` perform the statements and are proved equal to the
  functions.
* `order_created.dfy` (module `OrderCreated`): the handler. `OrderCreated` is
  one run as a function of the table, the payload and an `Env`.
  `HandleOrderCreated` is the handler as a sequence of steps against an
  `OrderHashesStore`, proved equal to that function. `RunAll` handles a
  sequence of deliveries one after another.
* `forwarded_proto.dfy` (module `ForwardedProto`): `trimStart`, `split(",")`,
  `find`, the `||` defaulting and the base-URL template, as functions over
  `string`.

Inputs the handler cannot compute itself are passed in, one `Env` per
delivery:

* the value `generateOrderHash()` returned;
* whether no database call fails for a reason other than the UNIQUE
  constraints (`storeReachable`);
* the app's auth data, if any;
* what the `fetch` + `response.json()` pair produced: it threw, or it
  replied with a top-level `errors` array and/or a
  `data.updateMetadata.errors` array.

The handler's result is its `Response` and an `Effects` record: the hash it
drew, what the store step did, and the request it sent with the
classification of the reply.

Details of the code that the model keeps:

* `!payload.order?.id` is a truthiness test. A missing order, a missing id
  and the empty id are all rejected with `400 "Order ID missing"`.
* `result.errors` is also a truthiness test. An empty top-level `errors`
  array is therefore still classified as a GraphQL error.
  `updateMetadata.errors` counts only when its length is positive.
* The `Authorization` header is `"Bearer " + token`, and the request goes to
  the auth data's `saleorApiUrl`.
* `AUTOINCREMENT` ids are modelled by a counter, the largest id ever handed
  out. The model chooses gap-free ids: a refused INSERT does not advance the
  counter, and an accepted one takes the next id. SQLite promises only ids
  that increase and are never reused (see "Left out").
* The handler draws exactly one hash per run
  (`server/api/webhooks/index.ts:42`). There is no retry loop and no check
  whether the hash already exists before the INSERT.
* The table has four columns: `id`, `order_id`, `order_hash` and
  `created_at` (lines 51-56). There is no platform-endpoint column.
* The modelled files hold no lookup, listing or duplicate-cleanup operation
  on the table.
* `request.headers.get(...) || "http"` falls back for a header that is
  absent and for one that is empty. `find(...) || protocols[0]` falls back
  when no piece is `https`; the first piece may be `""`.
* `trimStart` removes ECMAScript white space and line terminators, and only
  at the start.
* A missing `host` header renders as `null` in the template literal.

## Model

| member | source | states |
|---|---|---|
| OrderHashTable.CreateIfNotExists | server/api/webhooks/index.ts:50-57 | Afterwards the table exists. Its rows and id counter are untouched. On an existing table it changes nothing (idempotent). It keeps the table well formed. |
| OrderHashTable.Insert | server/api/webhooks/index.ts:52-54 | Succeeds iff the table exists and neither the order id nor the hash is already present. Fails with `DuplicateOrderId` iff the order id is present, and with `DuplicateOrderHash` iff only the hash is (the order when both collide is a modelling choice, see "Left out"). A refused insert leaves the table unchanged. |
| OrderHashTable.AcceptedInsertAppends | server/api/webhooks/index.ts:60-63 | An accepted insert appends exactly one row `(lastId+1, order id, hash)` after the unchanged existing rows. Afterwards the order id and the hash are both found. |
| OrderHashTable.InsertWellformed | server/api/webhooks/index.ts:52-54 | Insert preserves both UNIQUE constraints and the increasing AUTOINCREMENT ids. |
| OrderHashTable.OrderHashesStore.EnsureTable | server/api/webhooks/index.ts:50-57 | Performs CREATE TABLE IF NOT EXISTS on the store's fields, exactly as `CreateIfNotExists`, keeping the store valid. |
| OrderHashTable.OrderHashesStore.InsertMapping | server/api/webhooks/index.ts:60-63 | Performs the INSERT on the store's fields, with the new state and the outcome exactly as `Insert`, keeping the store valid. |
| OrderCreated.OrderId | server/api/webhooks/index.ts:36 | The order id is present iff the payload has an order whose id is present and non-empty; when present it is that id. |
| OrderCreated.Classify | server/api/webhooks/index.ts:110-116 | Exactly one of three results. A present top-level `errors` (even empty) gives a GraphQL error. Otherwise a positive `updateMetadata.errors` length gives a metadata error. Otherwise the update succeeded. |
| OrderCreated.OrderCreated | server/api/webhooks/index.ts:9-122 | The status is 400 iff the order id is missing. The response is `400 "Order ID missing"` then, and `200 "Accepted"` otherwise, whatever the store and the remote call did. |
| OrderCreated.MissingIdDoesNothing | server/api/webhooks/index.ts:35-39 | Without an order id: the table is unchanged, no hash is drawn, there is no store step and no remote step. |
| OrderCreated.PresentIdAccepted | server/api/webhooks/index.ts:41-46 | With an order id: the response is 200. The drawn hash is the generator's value. The store step and the remote step are both attempted. |
| OrderCreated.TableChange | server/api/webhooks/index.ts:46-69 | No row changes unless the store step reports `Stored(id)`. That happens exactly when the store is reachable and neither the order id nor the hash has a row; then exactly one row `(id, order id, hash)` is appended. An unreachable store leaves the table unchanged. An insert is refused only because the order id (or, failing that, the hash) already has a row; it changes no row, though a missing table is still created. |
| OrderCreated.StoreHash | server/api/webhooks/index.ts:46-69 | An unreachable store changes nothing. Otherwise the table exists afterwards. The row is stored iff neither value has a row, and then exactly one row with the next id is appended. Otherwise no row changes, and the reason is a duplicate order id iff the order id has a row, else a duplicate hash. |
| OrderCreated.Request | server/api/webhooks/index.ts:77-104 | The request goes to the auth data's `saleorApiUrl` with the header `Bearer <token>`, and sets key `order_hash` to the hash on the given order id. |
| OrderCreated.UpdateMetadata | server/api/webhooks/index.ts:72-119 | The request is sent iff auth data is present, and it is `Request` for this order id and hash. A throwing call gives `RequestFailed`; a reply is classified by `Classify`. |
| OrderCreated.OneHashForBoth | server/api/webhooks/index.ts:42-103 | The stored row's hash, the drawn hash and the metadata value are the same value. The request is sent iff auth data is present. It targets the payload's order id, key `order_hash`, the auth data's endpoint and a `Bearer` token header. |
| OrderCreated.RemoteIndependentOfStore | server/api/webhooks/index.ts:66-119 | The remote step and the response do not depend on the table or on whether the store was reachable: a store step that throws never blocks the metadata update. |
| OrderCreated.OrderCreatedWellformed | server/api/webhooks/index.ts:53-54 | One run keeps the table well formed (unique order ids, unique hashes, increasing ids) and keeps every earlier row in place. |
| OrderCreated.RunAll | server/api/webhooks/index.ts:9-122 | Over any sequence of deliveries the table stays well formed. Every delivery gets 200 iff its order id is present. The earlier rows are never changed or removed. |
| OrderCreated.NeverDuplicates | server/api/webhooks/index.ts:53-54 | From a fresh database, after any sequence of deliveries, no two rows share an order id or a hash. |
| OrderCreated.Redelivery | server/api/webhooks/index.ts:53-121 | When the same event arrives twice, both deliveries get 200. The second insert is refused as a duplicate order id. Only the first mapping is kept. The second hash is still sent to the metadata. When it differs from the first, the second hash has no row. |
| OrderCreated.HandleOrderCreated | server/api/webhooks/index.ts:9-122 | The step-by-step handler produces exactly `OrderCreated`'s new table, response and effects, and keeps the store valid. |
| ForwardedProto.TrimStart | server/api/index.ts:24 | The result is the input with its whole leading run of white space removed and nothing else. |
| ForwardedProto.Split | server/api/index.ts:23 | There are commas + 1 pieces, so always at least one. No piece contains a comma. Joining the pieces with `,` gives back the input. |
| ForwardedProto.SplitJoin | server/api/index.ts:23 | Splitting the join of comma-free pieces gives those pieces back: `Split` is the inverse of `Join`. |
| ForwardedProto.OrElse | server/api/index.ts:19-26 | JavaScript's or-defaulting on an optional string: a present, non-empty value is the result; an absent or empty value gives the fallback. |
| ForwardedProto.ForwardedProtoValue | server/api/index.ts:19-20 | An absent or empty header gives `http`; otherwise the header's value. |
| ForwardedProto.Protocols | server/api/index.ts:23-25 | One entry per comma-separated piece, in order, each being that piece trimmed at the start. |
| ForwardedProto.Find | server/api/index.ts:26 | Finds a value iff the target occurs in the list, and then the value is the target. |
| ForwardedProto.DefaultProtocol | server/api/index.ts:19-26 | An absent or empty header gives the single piece `http` and the protocol `http`. |
| ForwardedProto.ProtocolPieces | server/api/index.ts:23-25 | The pieces join back to the header value. There are commas + 1 of them. Each protocol is its piece with exactly the leading white space removed. |
| ForwardedProto.Protocol | server/api/index.ts:26 | The protocol is `https` iff some trimmed piece is exactly `https`. Otherwise it is the first piece. |
| ForwardedProto.HostText | server/api/index.ts:28 | An absent host renders as `null` in the template literal; a present one as itself. |
| ForwardedProto.BaseUrlRaw | server/api/index.ts:28 | `baseUrlRaw` is the protocol, then `://`, then the host text, and nothing else. |
| ForwardedProto.ManifestBaseUrl | server/api/index.ts:19-28 | The base URL is `https://host` when some piece is `https`, `http://host` when the header is absent or empty, and otherwise is the first piece, then `://`, then the host. |
| ForwardedProto.ProxyChainPrefersHttps | server/api/index.ts:19-28 | The header `http, https` yields `https://host`. |
| ForwardedProto.TrailingSpaceKept | server/api/index.ts:23-28 | In the header `https ,http` the piece `https ` keeps its trailing space. It is not `https`, so it is chosen as the first piece: the base URL is `https ://host`. |
| ForwardedProto.EmptyFirstPiece | server/api/index.ts:23-28 | The header `,http` yields the empty protocol and the base URL `://host`. |

## Left out

- The libsql client, SQL parsing and the network: the table is an in-memory value and the remote reply is an input.
- `generateOrderHash` and `initTursoClient`: both are imported from `../utils.ts` (lines 3 and 5), which resolves to `server/api/utils.ts`, but that file exports only `unpackHonoRequest`. The hash is therefore an input, and nothing is claimed about its format or entropy. The model assumes `generateOrderHash` returns a value: its call at line 42 is outside both try blocks, so if it threw, the handler would not answer 200.
- OrderHashTable.Insert: the exact ids (an accepted insert gets `lastId + 1`, a refused one leaves the counter alone) are a modelling choice. SQLite's AUTOINCREMENT promises only ids that increase and are never reused, and a failed insert may leave a gap. The handler never reads the id, so it cannot observe the difference. The exact ids in `AcceptedInsertAppends`, `StoreHash`, `TableChange` and `Redelivery` follow from this choice. The id is also unbounded, whereas SQLite fails with SQLITE_FULL once the id reaches 2^63-1.
- OrderHashTable.Insert: when both the order id and the hash collide, the model reports `DuplicateOrderId`. The code only logs the error (line 67), and nothing in it fixes which UNIQUE violation the database names, so this order is a modelling choice that affects only the logged reason.
- A store failure between CREATE TABLE and INSERT: `storeReachable` says the whole database step succeeds or fails as one, so a connection lost after creating the table is not told apart.
- A pre-existing `order_hashes` table is assumed to have the schema of lines 51-56. `Table.created` stands for that table, and `CREATE TABLE IF NOT EXISTS` leaves an existing table with another schema as it is.
- The `created_at` column and its default timestamp.
- Reply shapes other than arrays for `errors` and `updateMetadata.errors`, for example a non-array truthy `errors` value; a `null` JSON body is covered by the `Threw` outcome, since reading a member of it throws.
- The HTTP status of the metadata reply: the code never reads it.
- Console logging and the header dump / JSON echo of the manifest handler; the `Effects` record stands in for what is logged.
- Header-name case-insensitivity and the `forwarded` header: the two header values are inputs.
- JavaScript strings are UTF-16; the model uses Unicode scalar values, which agree on every white-space character `trimStart` removes.
- Hono routing, `Deno.serve`, static files, JSX pages and `getBaseUrl` (which relies on the `URL` library), in `server/main.tsx`.
- The APL selection in `server/saleor-app.ts`, the SDK manifest/register wrappers in `src/api/index.ts`, `unpackHonoRequest` in `server/api/utils.ts`, the React client and the Vite configs.
- The SDK wrapper `orderCreatedWebhook.createHandler(...)(c.req.raw)` (lines 10 and 122), defined in `./order-created.ts`, which is not part of this model: its signature checks and payload parsing are not modelled, and `Payload` and the auth data are whatever it passes to the handler.
- Timeouts and hangs: every awaited call (`turso.execute` at lines 50 and 60, `fetch` at line 77, `response.json()` at line 108) is assumed to settle, because the code bounds none of them; a call that never settles would leave the delivery unanswered.
- Concurrent webhook deliveries: runs are sequential, and uniqueness rests on the table's constraints inside `Insert`.
- A collision-retry loop, duplicate cleanup and token lookups: none of them occurs in the modelled code.
